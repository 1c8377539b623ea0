/**
 * The xml2json event handlers (lib/neal.js): a converter that turns parse
 * events into JSON text by appending to one string, `jsonString`, and
 * repairing it on every closing tag with a backward scan. A second
 * variable, `index`, holds the attribute name that marks a tag as a row.
 */
module Transducer {
  import opened Wrappers
  import opened Objects
  import opened Scalars

  /**
   * A parse event as the parser delivers it; attributes come in for-in
   * order. A parser's attribute object never holds a name twice, so only
   * events whose attributes satisfy DistinctKeys stand for real documents;
   * on a repeated name Members would write both pairs while Lookup reads
   * only the last.
   */
  datatype Event = Open(name: string, attrs: Props) | Text(text: string) | Close

  /** The two closure variables of xml2json. */
  datatype State = State(json: string, index: string)

  /** `index = ""`, `jsonString = "{"`. */
  const Start: State := State("{", "")

  /** The document text always begins with the root's opening brace. */
  predicate Rooted(json: string) {
    |json| >= 1 && json[0] == '{'
  }

  /** `node.attributes[k]` is truthy: present and not the empty string. */
  predicate Truthy(attrs: Props, k: string) {
    Lookup(attrs, k).Some? && Lookup(attrs, k).value != ""
  }

  /** `s.split(",")[0]`: the text before the first comma, or all of s. */
  function BeforeComma(s: string): (r: string)
    ensures r <= s && ',' !in r
    ensures |r| < |s| ==> s[|r|] == ','
  {
    if s == [] || s[0] == ',' then [] else [s[0]] + BeforeComma(s[1..])
  }

  /** The row-index attribute after an open tag: a tag with `columns` resets it, otherwise it persists. */
  function NextIndex(index: string, attrs: Props): string {
    if !Truthy(attrs, "columns") then index
    else if Truthy(attrs, "keyField") then Lookup(attrs, "keyField").value
    else BeforeComma(Lookup(attrs, "columns").value)
  }

  /** The key of a container: its `name` attribute when truthy, else the tag name. */
  function TagKey(name: string, attrs: Props): string {
    if Truthy(attrs, "name") then Lookup(attrs, "name").value else name
  }

  /** One attribute of a row, `escapeString(e) + ':' + escapeString(value)`. */
  function Member(a: (string, string)): string {
    EscapeString(a.0, false) + ":" + EscapeString(a.1, false)
  }

  /** The members of a row, one per attribute. */
  function Members(attrs: Props): (ms: seq<string>)
    ensures |ms| == |attrs|
  {
    if attrs == [] then [] else Members(attrs[..|attrs| - 1]) + [Member(attrs[|attrs| - 1])]
  }

  /** The i-th member is written from the i-th attribute: for-in order is kept. */
  lemma {:induction false} MembersAt(attrs: Props, i: nat)
    requires i < |attrs|
    ensures Members(attrs)[i] == Member(attrs[i])
  {
    var init := attrs[..|attrs| - 1];
    if i < |init| {
      MembersAt(init, i);
      assert init[i] == attrs[i];
    }
  }

  /** `Array.prototype.join`. */
  function Join(parts: seq<string>, sep: string): string {
    if |parts| == 0 then ""
    else if |parts| == 1 then parts[0]
    else Join(parts[..|parts| - 1], sep) + sep + parts[|parts| - 1]
  }

  /** The text an open tag appends, given the index already updated by that tag. */
  function OpenText(name: string, attrs: Props, index: string): string {
    if Truthy(attrs, index) then
      EscapeString(Lookup(attrs, index).value, true) + ":{" + Join(Members(attrs), ",")
    else
      EscapeString(TagKey(name, attrs), true) + ":{"
  }

  /** Where `substr` starts reading in a text of length n: a negative start counts from the end and is clamped at 0. */
  function SubstrStart(n: nat, start: int): nat {
    if start >= 0 then start else if n + start >= 0 then n + start else 0
  }

  /** `s.substr(start, 1)`. */
  function Substr1(s: string, start: int): (r: string)
    ensures 0 <= start < |s| ==> r == [s[start]]
    ensures -|s| <= start < 0 ==> r == [s[|s| + start]]
  {
    var b := SubstrStart(|s|, start);
    if b < |s| then s[b..b + 1] else ""
  }

  /** The character `substr(j, 1)` reads is a backslash. */
  predicate BackslashAt(s: string, j: int) {
    SubstrStart(|s|, j) < |s| && s[SubstrStart(|s|, j)] == '\\'
  }

  /** The comparison `substr(j, 1) == "\\"` is a test of one character. */
  lemma BackslashAtSubstr(s: string, j: int)
    ensures BackslashAt(s, j) <==> Substr1(s, j) == "\\"
  {
    var b := SubstrStart(|s|, j);
    if b < |s| {
      assert Substr1(s, j) == [s[b]];
    }
  }

  /** Where the backward scan of a closing tag stops. */
  datatype Stop = Exhausted | Colon | Brace(at: nat)

  /**
   * The scan of onclosetag, from position i down to 1 (position 0 is never
   * examined). A quote toggles the in-string flag unless the character two
   * places before it is a backslash; a colon outside a string stops the
   * scan; a brace stops it whether or not it is inside a string.
   */
  function ScanFrom(s: string, i: nat, inside: bool): (r: Stop)
    requires i < |s|
    ensures r.Brace? ==> 1 <= r.at <= i && s[r.at] == '{'
    decreases i
  {
    if i == 0 then Exhausted
    else
      var c := s[i];
      var inside' := if c == '"' && !BackslashAt(s, i - 2) then !inside else inside;
      if c == ':' && !inside' then Colon
      else if c == '{' then Brace(i)
      else ScanFrom(s, i - 1, inside')
  }

  function DropComma(s: string): string {
    if |s| > 0 && s[|s| - 1] == ',' then s[..|s| - 1] else s
  }

  /** The text after onclosetag: the brace the scan reached is deleted, or the frame is closed with `},`. */
  function CloseText(s: string): string {
    if |s| == 0 then "}," else CloseAt(s, ScanFrom(s, |s| - 1, false))
  }

  /** What onclosetag does once the scan has stopped. */
  function CloseAt(s: string, stop: Stop): string
    requires stop.Brace? ==> stop.at < |s|
  {
    match stop
    case Brace(p) => s[..p] + s[p + 1..]
    case _ => DropComma(s) + "},"
  }

  /** `jsonString.replace(/\,+$/, '')`: every trailing comma removed. */
  function TrimCommas(s: string): (r: string)
    ensures r <= s
    ensures |r| == 0 || r[|r| - 1] != ','
    ensures forall k :: |r| <= k < |s| ==> s[k] == ','
  {
    if |s| > 0 && s[|s| - 1] == ',' then TrimCommas(s[..|s| - 1]) else s
  }

  /** The text onend hands to JSON.parse. */
  function Finish(json: string): string {
    TrimCommas(json) + "}"
  }

  /** One event handler. */
  function Step(st: State, e: Event): State {
    match e
    case Open(name, attrs) =>
      var index := NextIndex(st.index, attrs);
      State(st.json + OpenText(name, attrs, index), index)
    case Text(t) => State(st.json + (EscapeString(t, false) + ","), st.index)
    case Close => State(CloseText(st.json), st.index)
  }

  /** The handlers applied to the events in order. */
  function Run(st: State, events: seq<Event>): State {
    if events == [] then st else Step(Run(st, events[..|events| - 1]), events[|events| - 1])
  }

  // ---------------------------------------------------------------------
  // The closing scan

  /** Characters that are neither quotes nor braces, and colons only inside a string, do not stop the scan. */
  lemma {:induction false} ScanSkips(s: string, lo: nat, hi: nat, inside: bool)
    requires lo <= hi < |s|
    requires forall k :: lo < k <= hi ==> s[k] != '"' && s[k] != '{' && (s[k] == ':' ==> inside)
    ensures ScanFrom(s, hi, inside) == ScanFrom(s, lo, inside)
  {
    if lo < hi {
      ScanSkips(s, lo, hi - 1, inside);
    }
  }

  /**
   * A quoted string from lo to hi with no quote, brace or backslash inside
   * is passed over as one string: scanning from its closing quote arrives at
   * its opening quote inside a string.
   */
  lemma ScanString(s: string, lo: nat, hi: nat)
    requires 1 <= lo < hi < |s| && s[lo] == '"' && s[hi] == '"' && s[lo - 1] != '\\'
    requires forall k :: lo < k < hi ==> s[k] != '"' && s[k] != '{' && s[k] != '\\'
    ensures ScanFrom(s, hi, false) == ScanFrom(s, lo, true)
  {
    ScanSkips(s, lo, hi - 1, true);
  }

  /** A closing tag either deletes one brace at position 1 or later, with no brace after it, or closes the frame. */
  lemma CloseShape(s: string)
    ensures var r := CloseText(s);
      r == DropComma(s) + "},"
      || exists p :: 1 <= p < |s| && s[p] == '{' && (forall k :: p < k < |s| ==> s[k] != '{') && r == s[..p] + s[p + 1..]
  {
    if |s| > 0 {
      match ScanFrom(s, |s| - 1, false)
      case Brace(p) =>
        CloseBraceWitness(s, p);
      case _ =>
        CloseNoBrace(s);
    }
  }

  /** The scan stops at the first brace it meets: none lies between that brace and the start. */
  lemma {:induction false} ScanBraceIsLast(s: string, i: nat, inside: bool)
    requires i < |s|
    ensures ScanFrom(s, i, inside).Brace? ==> forall k :: ScanFrom(s, i, inside).at < k <= i ==> s[k] != '{'
    decreases i
  {
    if i > 0 {
      var inside' := if s[i] == '"' && !BackslashAt(s, i - 2) then !inside else inside;
      ScanBraceIsLast(s, i - 1, inside');
    }
  }

  /** One step of the scan at position i. */
  lemma ScanStep(s: string, i: nat, inside: bool)
    requires 0 < i < |s|
    ensures var inside' := if s[i] == '"' && !BackslashAt(s, i - 2) then !inside else inside;
      ScanFrom(s, i, inside)
        == if s[i] == ':' && !inside' then Colon else if s[i] == '{' then Brace(i) else ScanFrom(s, i - 1, inside')
  {
  }

  lemma CloseAtBrace(s: string, p: nat)
    requires |s| >= 1 && ScanFrom(s, |s| - 1, false) == Brace(p)
    ensures p < |s| && CloseText(s) == s[..p] + s[p + 1..]
  {
    CloseTextScan(s);
    CloseAtSplice(s, p);
  }

  /** A closing tag on a non-empty text acts on where the scan from its last character stops. */
  lemma CloseTextScan(s: string)
    requires |s| >= 1
    ensures CloseText(s) == CloseAt(s, ScanFrom(s, |s| - 1, false))
  {
  }

  /** Stopped at a brace, the close splices that brace out. */
  lemma CloseAtSplice(s: string, p: nat)
    requires p < |s|
    ensures CloseAt(s, Brace(p)) == s[..p] + s[p + 1..]
  {
  }

  lemma CloseBraceWitness(s: string, p: nat)
    requires |s| >= 1 && ScanFrom(s, |s| - 1, false) == Brace(p)
    ensures 1 <= p < |s| && s[p] == '{' && (forall k :: p < k < |s| ==> s[k] != '{')
    ensures CloseText(s) == s[..p] + s[p + 1..]
  {
    assert forall k :: p < k < |s| ==> s[k] != '{' by {
      ScanBraceIsLast(s, |s| - 1, false);
    }
    CloseAtBrace(s, p);
  }

  lemma CloseNoBrace(s: string)
    requires |s| >= 1 && !ScanFrom(s, |s| - 1, false).Brace?
    ensures CloseText(s) == DropComma(s) + "},"
  {
  }

  /** Every handler keeps the root's opening brace at position 0: the scan never examines it. */
  lemma StepKeepsRoot(st: State, e: Event)
    requires Rooted(st.json)
    ensures Rooted(Step(st, e).json)
  {
  }

  /** A plain token: no quote, backslash or brace in it. */
  predicate Plain(t: string) {
    forall k :: 0 <= k < |t| ==> t[k] != '"' && t[k] != '\\' && t[k] != '{'
  }

  /** A bare token holds letters, digits and dots only. */
  lemma BareChars(t: string, k: nat)
    requires IsBare(t) && k < |t|
    ensures t[k] != '"' && t[k] != '{' && t[k] != ':' && t[k] != ',' && t[k] != '\\'
  {
    if !IsNumeric(t) {
      assert t == "true" || t == "false" || t == "null" || t == "undefined";
    }
  }

  /** How a plain token is written: bare, or between quotes with nothing escaped. */
  lemma PlainEscape(t: string, alwaysWrap: bool)
    requires Plain(t)
    ensures (EscapeString(t, alwaysWrap) == t && !alwaysWrap && IsBare(t))
      || EscapeString(t, alwaysWrap) == "\"" + t + "\""
  {
    if alwaysWrap || !IsBare(t) {
      PlainQuoted(t, alwaysWrap);
    }
  }

  /** How a scalar is written into the text: a bare token, or a plain token between quotes. */
  predicate ScalarForm(e: string) {
    IsBare(e) || (|e| >= 2 && e[0] == '"' && e[|e| - 1] == '"' && Plain(e[1..|e| - 1]))
  }

  /** A plain token is written in scalar form, wrapped or not. */
  lemma PlainScalar(t: string, alwaysWrap: bool)
    requires Plain(t)
    ensures ScalarForm(EscapeString(t, alwaysWrap))
  {
    PlainEscape(t, alwaysWrap);
    var e := EscapeString(t, alwaysWrap);
    if e == "\"" + t + "\"" {
      assert e[1..|e| - 1] == t;
    }
  }

  /** A bare token is passed over without effect. */
  lemma SkipBare(s: string, lo: nat, e: string, inside: bool)
    requires lo + |e| < |s| && s[lo + 1..lo + 1 + |e|] == e && IsBare(e)
    ensures ScanFrom(s, lo + |e|, inside) == ScanFrom(s, lo, inside)
  {
    forall k | lo < k <= lo + |e|
      ensures s[k] != '"' && s[k] != '{' && (s[k] == ':' ==> inside)
    {
      assert s[k] == e[k - lo - 1];
      BareChars(e, k - lo - 1);
    }
    ScanSkips(s, lo, lo + |e|, inside);
  }

  /** A quoted plain token starting at lo is passed over as one string. */
  lemma SkipQuoted(s: string, lo: nat, e: string)
    requires 1 <= lo && lo + |e| <= |s| && s[lo - 1] != '\\'
    requires s[lo..lo + |e|] == e && |e| >= 2 && e[0] == '"' && e[|e| - 1] == '"' && Plain(e[1..|e| - 1])
    ensures ScanFrom(s, lo + |e| - 1, false) == ScanFrom(s, lo, true)
  {
    forall k | lo < k < lo + |e| - 1
      ensures s[k] != '"' && s[k] != '{' && s[k] != '\\'
    {
      assert s[k] == e[k - lo] == e[1..|e| - 1][k - lo - 1];
    }
    assert s[lo] == e[0];
    assert s[lo + |e| - 1] == e[|e| - 1];
    ScanString(s, lo, lo + |e| - 1);
  }

  /** A quote right after a brace leads the scan to the brace, inside a string or not. */
  lemma BraceBeforeQuote(s: string, b: nat)
    requires 1 <= b && b + 1 < |s| && s[b] == '{' && s[b + 1] == '"'
    ensures ScanFrom(s, b + 1, true) == Brace(b)
  {
    ScanStep(s, b + 1, true);
    ScanStep(s, b, true);
    ScanStep(s, b, false);
  }

  /** Scanning back over a scalar that follows a frame's brace reaches that brace. */
  lemma ScanLeaf(s: string, b: nat, e: string)
    requires 1 <= b && b + |e| < |s| && s[b] == '{' && s[b + 1..b + 1 + |e|] == e && ScalarForm(e)
    ensures ScanFrom(s, b + |e|, false) == Brace(b)
  {
    if IsBare(e) {
      ScanLeafBare(s, b, e);
    } else {
      ScanLeafQuoted(s, b, e);
    }
  }

  lemma ScanLeafBare(s: string, b: nat, e: string)
    requires 1 <= b && b + |e| < |s| && s[b] == '{' && s[b + 1..b + 1 + |e|] == e && IsBare(e)
    ensures ScanFrom(s, b + |e|, false) == Brace(b)
  {
    SkipBare(s, b, e, false);
    ScanStep(s, b, false);
  }

  lemma ScanLeafQuoted(s: string, b: nat, e: string)
    requires 1 <= b && b + |e| < |s| && s[b] == '{' && s[b + 1..b + 1 + |e|] == e
    requires |e| >= 2 && e[0] == '"' && e[|e| - 1] == '"' && Plain(e[1..|e| - 1])
    ensures ScanFrom(s, b + |e|, false) == Brace(b)
  {
    SkipQuoted(s, b + 1, e);
    assert s[b + 1] == e[0];
    BraceBeforeQuote(s, b);
  }

  /** Scanning back over a scalar that follows a member's colon reaches that colon outside a string. */
  lemma ScanMember(s: string, b: nat, e: string)
    requires 1 <= b && b + |e| < |s| && s[b] == ':' && s[b - 1] != '\\'
    requires s[b + 1..b + 1 + |e|] == e && ScalarForm(e)
    ensures ScanFrom(s, b + |e|, false) == Colon
  {
    if IsBare(e) {
      SkipBare(s, b, e, false);
    } else {
      SkipQuoted(s, b + 1, e);
    }
  }

  /**
   * A frame that holds only a text collapses into a scalar member: closing
   * `pre{E,` gives `preE,`, so `"key":{E,` becomes `"key":E,`.
   */
  lemma LeafCollapses(pre: string, t: string)
    requires |pre| >= 1 && Plain(t)
    ensures var e := EscapeString(t, false);
      CloseText(pre + "{" + e + ",") == pre + e + ","
  {
    var e := EscapeString(t, false);
    PlainScalar(t, false);
    LeafCollapsesForm(pre, e);
  }

  lemma LeafCollapsesForm(pre: string, e: string)
    requires |pre| >= 1 && ScalarForm(e)
    ensures CloseText(pre + "{" + e + ",") == pre + e + ","
  {
    var s := pre + "{" + e + ",";
    var b := |pre|;
    assert ScanFrom(s, |s| - 1, false) == Brace(b) by {
      assert s[b] == '{';
      assert s[b + 1..b + 1 + |e|] == e;
      assert s[|s| - 1] == ',';
      ScanSkips(s, |s| - 2, |s| - 1, false);
      ScanLeaf(s, b, e);
    }
    CloseAtBrace(s, b);
    assert s[..b] + s[b + 1..] == pre + e + "," by {
      assert s[..b] == pre && s[b + 1..] == e + ",";
    }
  }

  /**
   * A frame whose last member is `k:E`, with E a plain scalar, closes with a
   * brace: the scan reaches the member's colon outside a string.
   */
  lemma MemberCloses(x: string, t: string, tail: string)
    requires |x| >= 1 && x[|x| - 1] != '\\' && Plain(t)
    requires tail == "" || tail == ","
    ensures var e := EscapeString(t, false);
      CloseText(x + ":" + e + tail) == x + ":" + e + "},"
  {
    var e := EscapeString(t, false);
    PlainScalar(t, false);
    MemberClosesForm(x, e, tail);
  }

  lemma MemberClosesForm(x: string, e: string, tail: string)
    requires |x| >= 1 && x[|x| - 1] != '\\' && ScalarForm(e)
    requires tail == "" || tail == ","
    ensures CloseText(x + ":" + e + tail) == x + ":" + e + "},"
  {
    MemberScanStops(x, e, tail);
    CloseNoBrace(x + ":" + e + tail);
    MemberDropComma(x, e, tail);
  }

  /** Scanning back from the end of `x:e` or `x:e,` stops at the member's colon. */
  lemma MemberScanStops(x: string, e: string, tail: string)
    requires |x| >= 1 && x[|x| - 1] != '\\' && ScalarForm(e)
    requires tail == "" || tail == ","
    ensures var s := x + ":" + e + tail; ScanFrom(s, |s| - 1, false) == Colon
  {
    var s := x + ":" + e + tail;
    var b := |x|;
    assert s[b] == ':' && s[b - 1] == x[|x| - 1];
    assert s[b + 1..b + 1 + |e|] == e;
    if tail == "," {
      assert s[|s| - 1] == ',';
      ScanSkips(s, |s| - 2, |s| - 1, false);
    }
    ScanMember(s, b, e);
  }

  /** `x:e` ends in the scalar, which never ends in a comma, so only the appended comma is dropped. */
  lemma MemberDropComma(x: string, e: string, tail: string)
    requires ScalarForm(e)
    requires tail == "" || tail == ","
    ensures DropComma(x + ":" + e + tail) == x + ":" + e
  {
    ScalarEnd(e);
    if tail == "" {
      LastOfAppend(x + ":", e);
    } else {
      assert (x + ":" + e + tail)[..|x + ":" + e|] == x + ":" + e;
    }
  }

  /**
   * A frame whose last child is an object already closed, `x:E},` with E a
   * plain scalar, is itself closed with `},`: the scan passes the inner
   * object's brace and comma and stops at its last member's colon.
   */
  lemma NestedCloses(x: string, t: string)
    requires |x| >= 1 && x[|x| - 1] != '\\' && Plain(t)
    ensures var e := EscapeString(t, false);
      CloseText(x + ":" + e + "},") == x + ":" + e + "}},"
  {
    PlainScalar(t, false);
    NestedClosesForm(x, EscapeString(t, false));
  }

  lemma NestedClosesForm(x: string, e: string)
    requires |x| >= 1 && x[|x| - 1] != '\\' && ScalarForm(e)
    ensures CloseText(x + ":" + e + "},") == x + ":" + e + "}},"
  {
    var s := x + ":" + e + "},";
    var b := |x|;
    assert s[b] == ':' && s[b - 1] == x[|x| - 1];
    assert s[b + 1..b + 1 + |e|] == e;
    assert s[|s| - 1] == ',' && s[|s| - 2] == '}';
    ScanSkips(s, |s| - 3, |s| - 1, false);
    ScanMember(s, b, e);
    CloseNoBrace(s);
    assert DropComma(s) == x + ":" + e + "}";
  }

  /** A scalar in scalar form never ends in a backslash. */
  lemma ScalarEnd(e: string)
    requires ScalarForm(e)
    ensures |e| >= 1 && e[|e| - 1] != '\\' && e[|e| - 1] != ','
  {
    if IsBare(e) {
      assert |e| >= 1 by {
        if IsReserved(e) {
          assert e == "true" || e == "false" || e == "null" || e == "undefined";
        }
      }
      BareChars(e, |e| - 1);
    }
  }

  lemma LastOfAppend(a: string, b: string)
    requires |b| >= 1
    ensures (a + b)[|a + b| - 1] == b[|b| - 1]
  {
  }

  lemma JoinLast(ms: seq<string>, sep: string)
    requires |ms| >= 1
    ensures Join(ms, sep) == (if |ms| == 1 then "" else Join(ms[..|ms| - 1], sep) + sep) + ms[|ms| - 1]
  {
  }

  /** Concatenation regrouped to the left. */
  lemma ConcatAssoc5(a: string, b: string, c: string, d: string, e: string)
    ensures a + (b + (c + d + e)) == a + b + c + d + e
  {
  }

  /** Concatenation regrouped to the left, with an empty text at the end. */
  lemma ConcatAssoc5Empty(a: string, b: string, c: string, d: string, e: string)
    ensures a + (b + c + d + e) == a + b + c + d + e + ""
  {
  }

  /** A row's text is a head (its key, `:{` and the earlier members) followed by the last attribute's member. */
  lemma RowLast(name: string, attrs: Props, index: string) returns (head: string)
    requires |attrs| >= 1 && Truthy(attrs, index)
    ensures OpenText(name, attrs, index)
      == head + EscapeString(attrs[|attrs| - 1].0, false) + ":" + EscapeString(attrs[|attrs| - 1].1, false)
  {
    var ms := Members(attrs);
    var key := EscapeString(Lookup(attrs, index).value, true);
    var rest := if |ms| == 1 then "" else Join(ms[..|ms| - 1], ",") + ",";
    var ek := EscapeString(attrs[|attrs| - 1].0, false);
    var ev := EscapeString(attrs[|attrs| - 1].1, false);
    assert Join(ms, ",") == rest + (ek + ":" + ev) by {
      assert ms[|ms| - 1] == ek + ":" + ev;
      JoinLast(ms, ",");
    }
    head := key + ":{" + rest;
    ConcatAssoc5(key + ":{", rest, ek, ":", ev);
  }

  /** A row whose last attribute is plain closes as an object: the scan stops at that attribute's colon. */
  lemma RowCloses(pre: string, name: string, attrs: Props, index: string)
    requires |pre| >= 1 && |attrs| >= 1 && Truthy(attrs, index)
    requires Plain(attrs[|attrs| - 1].0) && Plain(attrs[|attrs| - 1].1)
    ensures var open := OpenText(name, attrs, index);
      CloseText(pre + open) == pre + open + "},"
  {
    var k, v := attrs[|attrs| - 1].0, attrs[|attrs| - 1].1;
    var ek, ev := EscapeString(k, false), EscapeString(v, false);
    var head := RowLast(name, attrs, index);
    var x := pre + head + ek;
    ConcatAssoc5Empty(pre, head, ek, ":", ev);
    assert |x| >= 1 && x[|x| - 1] != '\\' by {
      PlainScalar(k, false);
      ScalarEnd(ek);
      LastOfAppend(pre + head, ek);
    }
    PlainScalar(v, false);
    MemberClosesForm(x, ev, "");
  }

  /** A tag without attributes opens a frame under its own name and keeps the index. */
  lemma OpenWithoutAttributes(st: State, name: string)
    ensures Step(st, Open(name, [])) == State(st.json + (EscapeString(name, true) + ":{"), st.index)
  {
    assert !Truthy([], "columns") && !Truthy([], st.index) && !Truthy([], "name");
  }

  /** The handlers over events followed by one more event: that event's handler after the rest. */
  lemma RunSnoc(st: State, events: seq<Event>, e: Event)
    ensures Run(st, events + [e]) == Step(Run(st, events), e)
  {
    assert (events + [e])[..|events|] == events;
  }

  /** One more event of a list: its handler after those before it. */
  lemma RunPrefix(st: State, events: seq<Event>, i: nat)
    requires i < |events|
    ensures Run(st, events[..i + 1]) == Step(Run(st, events[..i]), events[i])
  {
    assert events[..i + 1][..i] == events[..i];
  }

  /** A tag with nothing in it collapses to its dangling key: closing `pre{` gives `pre`. */
  lemma EmptyTagDangles(pre: string)
    requires |pre| >= 1
    ensures CloseText(pre + "{") == pre
  {
    assert (pre + "{")[..|pre|] == pre;
  }

  /** The brace test is not guarded by the in-string flag: a brace inside a quoted text is deleted instead of the frame's. */
  lemma BraceInTextDeleted()
    ensures CloseText("{\"k\":{\"a{b\",") == "{\"k\":{\"ab\","
  {
    var s := "{\"k\":{\"a{b\",";
    assert s[8] == '{' && s[9] == 'b' && s[10] == '"' && s[11] == ',';
    assert ScanFrom(s, 9, true) == Brace(8);
    assert ScanFrom(s, 10, false) == Brace(8);
    assert ScanFrom(s, 11, false) == Brace(8);
    CloseAtBrace(s, 8);
  }

  /**
   * The quote test looks two characters back instead of one: in
   * `{"k":{"a:\"c",` the escaped quote still toggles the in-string flag,
   * the scan stops at the colon inside the text, and the frame is closed
   * with `},` instead of collapsing to `"k":"a:\"c"`.
   */
  lemma EscapedQuoteToggles()
    ensures CloseText("{\"k\":{\"a:\\\"c\",") == "{\"k\":{\"a:\\\"c\"},"
  {
    var s := "{\"k\":{\"a:\\\"c\",";
    assert s[8] == ':' && s[9] == '\\' && s[10] == '"' && s[11] == 'c' && s[12] == '"' && s[13] == ',';
    assert !BackslashAt(s, 8) && !BackslashAt(s, 10);
    assert ScanFrom(s, 8, false) == Colon;
    assert ScanFrom(s, 10, true) == Colon;
    assert ScanFrom(s, 12, false) == Colon;
    assert ScanFrom(s, 13, false) == Colon;
    CloseNoBrace(s);
    assert DropComma(s) == s[..13];
  }

  // ---------------------------------------------------------------------
  // The row index

  /** A tag without a truthy `columns` attribute never changes the index, so the last such declaration governs the rest of the document. */
  lemma {:induction false} IndexPersists(st: State, events: seq<Event>)
    requires forall i :: 0 <= i < |events| && events[i].Open? ==> !Truthy(events[i].attrs, "columns")
    ensures Run(st, events).index == st.index
  {
    if events != [] {
      IndexPersists(st, events[..|events| - 1]);
    }
  }

  /** A tag with `columns` and no truthy `keyField` takes the text before the first comma of `columns` as the index. */
  lemma ColumnsSetIndex(index: string, attrs: Props)
    requires Truthy(attrs, "columns") && !Truthy(attrs, "keyField")
    ensures var cols := Lookup(attrs, "columns").value;
      var ix := NextIndex(index, attrs);
      ix <= cols && ',' !in ix && (|ix| < |cols| ==> cols[|ix|] == ',')
  {
  }

  /**
   * The for-in loop of a row: every attribute written as a member, and the
   * value of the index attribute kept as the row's key ("" if it has none).
   */
  method CollectMembers(attrs: Props, index: string) returns (key: string, parts: seq<string>)
    ensures parts == Members(attrs)
    ensures Lookup(attrs, index).Some? ==> key == Lookup(attrs, index).value
    ensures Lookup(attrs, index).None? ==> key == ""
  {
    parts := [];
    key := "";
    var k := 0;
    while k < |attrs|
      invariant 0 <= k <= |attrs|
      invariant parts == Members(attrs[..k])
      invariant Lookup(attrs[..k], index).Some? ==> key == Lookup(attrs[..k], index).value
      invariant Lookup(attrs[..k], index).None? ==> key == ""
    {
      RowPrefix(attrs, index, k);
      if attrs[k].0 == index {
        key := attrs[k].1;
      }
      parts := parts + [Member(attrs[k])];
      k := k + 1;
    }
    assert attrs[..k] == attrs;
  }

  /** One more attribute of a row: one more member, and the key read from it if it is the index. */
  lemma RowPrefix(attrs: Props, index: string, k: nat)
    requires k < |attrs|
    ensures Members(attrs[..k + 1]) == Members(attrs[..k]) + [Member(attrs[k])]
    ensures Lookup(attrs[..k + 1], index) == if attrs[k].0 == index then Some(attrs[k].1) else Lookup(attrs[..k], index)
  {
    assert attrs[..k + 1][..k] == attrs[..k];
  }

  /**
   * The loop of onclosetag: from the last character down to position 1,
   * toggling the in-string flag on quotes, stopping at a colon outside a
   * string (the `break`) or at a brace (the splice and `return`).
   */
  method Scan(s: string) returns (stop: Stop)
    requires |s| >= 1
    ensures stop == ScanFrom(s, |s| - 1, false)
  {
    var i := |s| - 1;
    var inside := false;
    while i > 0
      invariant 0 <= i < |s|
      invariant ScanFrom(s, i, inside) == ScanFrom(s, |s| - 1, false)
    {
      ScanStep(s, i, inside);
      BackslashAtSubstr(s, i - 2);
      var chr := s[i];
      i := i - 1;
      if chr == '"' && Substr1(s, i - 1) != "\\" {
        inside := !inside;
      }
      if chr == ':' && !inside {
        return Colon;
      }
      if chr == '{' {
        return Brace(i + 1);
      }
    }
    return Exhausted;
  }

  // ---------------------------------------------------------------------
  // The converter object

  /** The closure of xml2json: its two variables and its four handlers. */
  class Converter {
    var json: string
    var index: string

    ghost predicate Valid()
      reads this
    {
      Rooted(json)
    }

    function Current(): State
      reads this
    {
      State(json, index)
    }

    constructor ()
      ensures Valid() && Current() == Start
    {
      json := "{";
      index := "";
    }

    /** ontext. */
    method Text(t: string)
      requires Valid()
      modifies this
      ensures Valid()
      ensures json == old(json) + (EscapeString(t, false) + ",") && index == old(index)
      ensures Current() == Step(old(Current()), Event.Text(t))
    {
      json := json + (EscapeString(t, false) + ",");
    }

    /** onopentag. */
    method OpenTag(name: string, attrs: Props)
      requires Valid()
      modifies this
      ensures Valid()
      ensures index == NextIndex(old(index), attrs)
      ensures json == old(json) + OpenText(name, attrs, index)
      ensures Current() == Step(old(Current()), Open(name, attrs))
    {
      var key := name;
      if Truthy(attrs, "name") {
        key := Lookup(attrs, "name").value;
      }
      if Truthy(attrs, "columns") {
        if Truthy(attrs, "keyField") {
          index := Lookup(attrs, "keyField").value;
        } else {
          index := BeforeComma(Lookup(attrs, "columns").value);
        }
      }
      if Truthy(attrs, index) {
        var rowKey, parts := CollectMembers(attrs, index);
        var text := EscapeString(rowKey, true) + ":{" + Join(parts, ",");
        assert text == OpenText(name, attrs, index);
        json := json + text;
      } else {
        var text := EscapeString(key, true) + ":{";
        assert text == OpenText(name, attrs, index);
        json := json + text;
      }
    }

    /** onclosetag: the backward scan, then a brace deleted or the frame closed. */
    method CloseTag()
      requires Valid()
      modifies this
      ensures Valid()
      ensures json == CloseText(old(json)) && index == old(index)
      ensures Current() == Step(old(Current()), Close)
    {
      StepKeepsRoot(Current(), Close);
      var stop := Scan(json);
      match stop {
        case Brace(p) =>
          CloseAtBrace(json, p);
          json := json[..p] + json[p + 1..];
        case _ =>
          CloseNoBrace(json);
          if json[|json| - 1..] == "," {
            json := json[..|json| - 1];
          }
          json := json + "},";
      }
    }

    /** onend, up to the text handed to JSON.parse. */
    method End()
      requires Valid()
      modifies this
      ensures Valid()
      ensures json == Finish(old(json)) && index == old(index)
    {
      json := TrimCommas(json) + "}";
    }
  }
}
