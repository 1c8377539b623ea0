/**
 * The request helpers of lib/neal.js: apiToRest, mergeObjects and the
 * assembly of the request path in `request`.
 */
module Request {
  import opened Wrappers
  import opened Objects

  predicate IsLower(c: char) {
    'a' <= c <= 'z'
  }

  predicate IsUpper(c: char) {
    'A' <= c <= 'Z'
  }

  function ToLower(c: char): char {
    if IsUpper(c) then (c as int + 32) as char else c
  }

  /** `toLowerCase`, on the ASCII letters. */
  function Lower(s: string): (r: string)
    ensures |r| == |s|
    ensures forall i :: 0 <= i < |s| ==> !IsUpper(r[i])
    ensures forall i :: 0 <= i < |s| && IsUpper(s[i]) ==> r[i] as int == s[i] as int + 32
    ensures forall i :: 0 <= i < |s| && !IsUpper(s[i]) ==> r[i] == s[i]
  {
    if s == [] then [] else Lower(s[..|s| - 1]) + [ToLower(s[|s| - 1])]
  }

  // ---------------------------------------------------------------------
  // str.replace("ID", "Id")

  predicate OccursAt(s: string, pat: string, j: int) {
    0 <= j && j + |pat| <= |s| && s[j..j + |pat|] == pat
  }

  /** The leftmost occurrence of pat at or after from. */
  function FindSub(s: string, pat: string, from: nat): (r: Option<nat>)
    ensures r.Some? ==> from <= r.value && OccursAt(s, pat, r.value)
    ensures r.Some? ==> forall j :: from <= j < r.value ==> !OccursAt(s, pat, j)
    ensures r.None? ==> forall j :: from <= j ==> !OccursAt(s, pat, j)
    decreases |s| - from
  {
    if from + |pat| > |s| then None
    else if OccursAt(s, pat, from) then Some(from)
    else FindSub(s, pat, from + 1)
  }

  /** `s.replace(pat, rep)` with a string pattern: only the leftmost occurrence is replaced. */
  function ReplaceFirst(s: string, pat: string, rep: string): (r: string)
    ensures (forall j :: !OccursAt(s, pat, j)) ==> r == s
    ensures forall j :: OccursAt(s, pat, j) && (forall i :: 0 <= i < j ==> !OccursAt(s, pat, i)) ==>
      r == s[..j] + rep + s[j + |pat|..]
  {
    match FindSub(s, pat, 0)
    case None => s
    case Some(j) => s[..j] + rep + s[j + |pat|..]
  }

  // ---------------------------------------------------------------------
  // str.replace(/([a-z]+)([A-Z]+)/, "$1-$2")

  /** The end of the greedy `[a-z]+` run that starts at j. */
  function RunEnd(s: string, j: nat): (e: nat)
    requires j <= |s|
    ensures j <= e <= |s|
    ensures forall k :: j <= k < e ==> IsLower(s[k])
    ensures e < |s| ==> !IsLower(s[e])
    decreases |s| - j
  {
    if j < |s| && IsLower(s[j]) then RunEnd(s, j + 1) else j
  }

  /** The pattern matches at j: a lower-case run from j, followed by an upper-case letter (backtracking cannot help, as the run only gets shorter). */
  predicate RegexMatchAt(s: string, j: int) {
    0 <= j < |s| && IsLower(s[j]) && RunEnd(s, j) < |s| && IsUpper(s[RunEnd(s, j)])
  }

  /** The leftmost match at or after from. */
  function FindRegex(s: string, from: nat): (r: Option<nat>)
    ensures r.Some? ==> from <= r.value && RegexMatchAt(s, r.value)
    ensures r.Some? ==> forall j :: from <= j < r.value ==> !RegexMatchAt(s, j)
    ensures r.None? ==> forall j :: from <= j ==> !RegexMatchAt(s, j)
    decreases |s| - from
  {
    if from >= |s| then None
    else if RegexMatchAt(s, from) then Some(from)
    else FindRegex(s, from + 1)
  }

  /** The leftmost match `$1$2` becomes `$1-$2`: one hyphen after the lower-case run. */
  function HyphenateFirst(s: string): string {
    match FindRegex(s, 0)
    case None => s
    case Some(j) => var e := RunEnd(s, j); s[..e] + "-" + s[e..]
  }

  /** A lower-case letter directly followed by an upper-case one, at p - 1 and p. */
  predicate BoundaryAt(s: string, p: int) {
    0 < p < |s| && IsLower(s[p - 1]) && IsUpper(s[p])
  }

  /** A lower-case stretch from j up to p, ended by a letter that is not lower-case, is one run. */
  lemma {:induction false} RunEndAt(s: string, j: nat, p: nat)
    requires j <= p < |s| && !IsLower(s[p])
    requires forall k :: j <= k < p ==> IsLower(s[k])
    ensures RunEnd(s, j) == p
    decreases p - j
  {
    if j < p {
      RunEndAt(s, j + 1, p);
    }
  }

  /** Without a lower-to-upper boundary the regular expression does not match. */
  lemma NoBoundaryUnchanged(s: string)
    requires forall p :: !BoundaryAt(s, p)
    ensures HyphenateFirst(s) == s
  {
    match FindRegex(s, 0)
    case None =>
    case Some(j) =>
      assert BoundaryAt(s, RunEnd(s, j));
  }

  /** The regular expression inserts its hyphen at the first lower-to-upper boundary. */
  lemma HyphenAtFirstBoundary(s: string, p: nat)
    requires BoundaryAt(s, p)
    requires forall q :: 0 <= q < p ==> !BoundaryAt(s, q)
    ensures HyphenateFirst(s) == s[..p] + "-" + s[p..]
  {
    RunEndAt(s, p - 1, p);
    assert RegexMatchAt(s, p - 1);
    var j := FindRegex(s, 0).value;
    var e := RunEnd(s, j);
    assert BoundaryAt(s, e);
  }

  /** apiToRest: `ID` to `Id` once, one hyphen at the first word break, then lower case. */
  function ApiToRest(s: string): string {
    Lower(HyphenateFirst(ReplaceFirst(s, "ID", "Id")))
  }

  /** The result is lower case and at most one character longer than the name. */
  lemma ApiToRestShape(s: string)
    ensures var r := ApiToRest(s);
      (forall i :: 0 <= i < |r| ==> !IsUpper(r[i])) && (|r| == |s| || |r| == |s| + 1)
  {
    var t := ReplaceFirst(s, "ID", "Id");
    match FindSub(s, "ID", 0)
    case None =>
    case Some(j) => assert |t| == |s|;
  }

  /** A name without the letter I is left alone by the `ID` replacement. */
  lemma NoIdUnchanged(s: string)
    requires 'I' !in s
    ensures ReplaceFirst(s, "ID", "Id") == s
  {
    forall j | 0 <= j && j + 2 <= |s|
      ensures !OccursAt(s, "ID", j)
    {
      assert s[j] in s;
      assert s[j..j + 2][0] == s[j];
    }
    assert FindSub(s, "ID", 0).None?;
  }

  /** Two words whose only lower-to-upper boundary is where they meet are hyphenated there. */
  lemma HyphenTwoWords(x: string, y: string)
    requires |x| >= 1 && |y| >= 1 && IsLower(x[|x| - 1]) && IsUpper(y[0])
    requires forall q :: 0 <= q < |x| ==> !BoundaryAt(x, q)
    ensures HyphenateFirst(x + y) == x + "-" + y
  {
    var s := x + y;
    assert BoundaryAt(s, |x|);
    forall q | 0 <= q < |x|
      ensures !BoundaryAt(s, q)
    {
      assert !BoundaryAt(x, q);
      if q > 0 {
        assert s[q - 1] == x[q - 1] && s[q] == x[q];
      }
    }
    HyphenAtFirstBoundary(s, |x|);
    assert s[..|x|] == x && s[|x|..] == y;
  }

  lemma ServerStatusHyphen()
    ensures HyphenateFirst("ServerStatus") == "Server-Status"
  {
    assert HyphenateFirst("Server" + "Status") == "Server" + "-" + "Status" by {
      assert forall q :: 0 <= q < 6 ==> !BoundaryAt("Server", q);
      HyphenTwoWords("Server", "Status");
    }
    assert "Server" + "Status" == "ServerStatus";
    assert "Server" + "-" + "Status" == "Server-Status";
  }

  /** Lower case leaves the hyphen and the lower-case letters alone. */
  lemma LowerServerStatus()
    ensures Lower("Server-Status") == "server-status"
  {
    var t := "Server-Status";
    var r := Lower(t);
    forall i | 0 <= i < 13
      ensures r[i] == "server-status"[i]
    {
      if i != 0 && i != 7 {
        assert !IsUpper(t[i]);
      }
    }
  }

  lemma ApiToRestServerStatus()
    ensures ApiToRest("ServerStatus") == "server-status"
  {
    NoIdUnchanged("ServerStatus");
    ServerStatusHyphen();
    LowerServerStatus();
    calc {
      ApiToRest("ServerStatus");
      Lower(HyphenateFirst(ReplaceFirst("ServerStatus", "ID", "Id")));
      Lower(HyphenateFirst("ServerStatus"));
      Lower("Server-Status");
    }
  }

  lemma CharacterIdReplace()
    ensures ReplaceFirst("characterID", "ID", "Id") == "characterId"
  {
    var s := "characterID";
    assert OccursAt(s, "ID", 9);
    forall i | 0 <= i < 9
      ensures !OccursAt(s, "ID", i)
    {
      assert s[..9] == "character";
      assert s[i] == s[..9][i];
      assert s[i..i + 2][0] == s[i];
    }
  }

  lemma CharacterIdHyphen()
    ensures HyphenateFirst("characterId") == "character-Id"
  {
    assert HyphenateFirst("character" + "Id") == "character" + "-" + "Id" by {
      assert forall q :: 0 <= q < 9 ==> !BoundaryAt("character", q);
      HyphenTwoWords("character", "Id");
    }
    assert "character" + "Id" == "characterId";
    assert "character" + "-" + "Id" == "character-Id";
  }

  lemma LowerCharacterId()
    ensures Lower("character-Id") == "character-id"
  {
    var t := "character-Id";
    var r := Lower(t);
    forall i | 0 <= i < 12
      ensures r[i] == "character-id"[i]
    {
      if i != 10 {
        assert !IsUpper(t[i]);
      }
    }
  }

  /** A trailing `ID` is one word: characterID becomes character-id. */
  lemma ApiToRestCharacterId()
    ensures ApiToRest("characterID") == "character-id"
  {
    CharacterIdReplace();
    CharacterIdHyphen();
    LowerCharacterId();
    calc {
      ApiToRest("characterID");
      Lower(HyphenateFirst(ReplaceFirst("characterID", "ID", "Id")));
      Lower(HyphenateFirst("characterId"));
      Lower("character-Id");
    }
  }

  // ---------------------------------------------------------------------
  // mergeObjects

  /** The properties of obj1 after every property of obj2 has been assigned to it, in for-in order. */
  function Merged(ps: Props, other: Props): Props {
    if other == [] then ps
    else Put(Merged(ps, other[..|other| - 1]), other[|other| - 1].0, other[|other| - 1].1)
  }

  /** After the merge every key of obj2 reads as in obj2, and every other key as before. */
  lemma {:induction false} LookupMerged(ps: Props, other: Props, k: string)
    ensures Lookup(Merged(ps, other), k) == if Lookup(other, k).Some? then Lookup(other, k) else Lookup(ps, k)
  {
    if other != [] {
      var init := other[..|other| - 1];
      LookupMerged(ps, init, k);
      LookupPut(Merged(ps, init), other[|other| - 1].0, other[|other| - 1].1, k);
    }
  }

  /** obj1's properties keep their order; new keys of obj2 follow them. */
  lemma {:induction false} KeysMerged(ps: Props, other: Props)
    ensures Keys(ps) <= Keys(Merged(ps, other))
    ensures forall k :: k in Keys(Merged(ps, other)) <==> k in Keys(ps) || k in Keys(other)
    ensures DistinctKeys(ps) ==> DistinctKeys(Merged(ps, other))
  {
    if other != [] {
      var init := other[..|other| - 1];
      KeysMerged(ps, init);
      KeysPut(Merged(ps, init), other[|other| - 1].0, other[|other| - 1].1);
      if DistinctKeys(ps) {
        PutKeepsDistinct(Merged(ps, init), other[|other| - 1].0, other[|other| - 1].1);
      }
    }
  }

  /** Defaults accumulate: a key set by an earlier merge survives a later merge that does not mention it. */
  lemma MergesAccumulate(defaults: Props, first: Props, second: Props, k: string)
    requires Lookup(first, k).Some? && Lookup(second, k).None?
    ensures Lookup(Merged(Merged(defaults, first), second), k) == Lookup(first, k)
  {
    LookupMerged(Merged(defaults, first), second, k);
    LookupMerged(defaults, first, k);
  }

  /** A parameter object; `config.params` is one that every merging request updates in place. */
  class Params {
    var props: Props

    constructor (props: Props)
      ensures this.props == props
    {
      this.props := props;
    }

    /** mergeObjects(this, other): returns this very object. */
    method Merge(other: Props) returns (r: Params)
      modifies this
      ensures r == this
      ensures props == Merged(old(props), other)
    {
      var k := 0;
      while k < |other|
        invariant 0 <= k <= |other|
        invariant props == Merged(old(props), other[..k])
      {
        assert other[..k + 1][..k] == other[..k];
        props := Put(props, other[k].0, other[k].1);
        k := k + 1;
      }
      assert other[..k] == other;
      r := this;
    }
  }

  // ---------------------------------------------------------------------
  // The request path

  /** `'/' + apiToRest(e) + '/' + params[e]` for each parameter, in for-in order. */
  function Segments(params: Props): string {
    if params == [] then ""
    else var (e, v) := params[|params| - 1];
      Segments(params[..|params| - 1]) + "/" + ApiToRest(e) + "/" + v
  }

  /** The path for a REST-style proxy. */
  function RestPath(params: Props, scope: string, resource: string): string {
    Segments(params) + "/" + scope + "/" + ApiToRest(resource) + ".json"
  }

  /** The path for the API itself; the query is what querystring.stringify made of the parameters. */
  function XmlPath(scope: string, resource: string, query: string): string {
    "/" + scope + "/" + resource + ".xml.aspx" + (if query != "" then "?" + query else "")
  }

  /** The url built by `request`; `stringify` stands for querystring.stringify. */
  method RequestPath(restApi: bool, scope: string, resource: string, params: Props,
                     stringify: Props -> string) returns (url: string)
    ensures url == if restApi then RestPath(params, scope, resource) else XmlPath(scope, resource, stringify(params))
  {
    if !restApi {
      url := "/" + scope + "/" + resource + ".xml.aspx";
      var paramStr := stringify(params);
      if paramStr != "" {
        url := url + "?" + paramStr;
      }
    } else {
      url := "";
      var k := 0;
      while k < |params|
        invariant 0 <= k <= |params|
        invariant url == Segments(params[..k])
      {
        assert params[..k + 1][..k] == params[..k];
        url := url + "/" + ApiToRest(params[k].0) + "/" + params[k].1;
        k := k + 1;
      }
      assert params[..k] == params;
      url := url + "/" + scope + "/" + ApiToRest(resource) + ".json";
    }
  }
}
