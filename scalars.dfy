/**
 * escapeString (lib/neal.js): how the converter writes a token of text,
 * either bare (a reserved word or a run of digits and dots) or as a quoted
 * string in which only the leftmost quote or backslash that follows a
 * character other than a backslash is escaped, that character being
 * dropped; a quote or backslash at the start is never escaped.
 */
module Scalars {
  import opened Wrappers

  /** The four words that pass unquoted; the comparison is exact, so "True" is not one of them. */
  predicate IsReserved(s: string) {
    s == "true" || s == "false" || s == "null" || s == "undefined"
  }

  predicate IsDigitOrDot(c: char) {
    '0' <= c <= '9' || c == '.'
  }

  /** The test `/^[0-9\.]+$/`: one or more characters, each a decimal digit or a dot. */
  predicate IsNumeric(s: string) {
    |s| > 0 && forall i :: 0 <= i < |s| ==> IsDigitOrDot(s[i])
  }

  /** A token written bare when alwaysWrap is off. */
  predicate IsBare(s: string) {
    IsReserved(s) || IsNumeric(s)
  }

  predicate IsQuoteOrBackslash(c: char) {
    c == '"' || c == '\\'
  }

  /** The pattern `([^\\])("|\\)` matches at position j: a character other than a backslash followed by a quote or a backslash. */
  predicate MatchAt(s: string, j: int) {
    0 <= j && j + 1 < |s| && s[j] != '\\' && IsQuoteOrBackslash(s[j + 1])
  }

  /** The leftmost match at or after position from, as a regular-expression search finds it. */
  function FindMatch(s: string, from: nat): (r: Option<nat>)
    ensures r.Some? ==> from <= r.value && MatchAt(s, r.value)
    ensures r.Some? ==> forall j :: from <= j < r.value ==> !MatchAt(s, j)
    ensures r.None? ==> forall j :: from <= j ==> !MatchAt(s, j)
    decreases |s| - from
  {
    if from + 1 >= |s| then None
    else if MatchAt(s, from) then Some(from)
    else FindMatch(s, from + 1)
  }

  /**
   * `s.replace(/([^\\])(\"|\\)/, '\\$2')`: without the g flag only the
   * leftmost match c·q is rewritten, and it becomes a backslash followed by
   * q, so the character c in front of the quote is lost.
   */
  function EscapeFirst(s: string): (r: string)
    ensures |r| == |s|
  {
    match FindMatch(s, 0)
    case None => s
    case Some(j) => s[..j] + ['\\', s[j + 1]] + s[j + 2..]
  }

  /**
   * With no match the token is unchanged; otherwise only the leftmost match
   * is rewritten, its first character replaced by a backslash.
   */
  lemma EscapeFirstLeftmost(s: string)
    ensures (forall j :: !MatchAt(s, j)) ==> EscapeFirst(s) == s
    ensures forall j :: MatchAt(s, j) && (forall i :: 0 <= i < j ==> !MatchAt(s, i)) ==>
      EscapeFirst(s) == s[..j] + ['\\', s[j + 1]] + s[j + 2..]
  {
    match FindMatch(s, 0)
    case None =>
    case Some(j) =>
  }

  /** escapeString(str, alwaysWrap). */
  function EscapeString(s: string, alwaysWrap: bool): string
  {
    if !alwaysWrap && IsReserved(s) then s
    else if !alwaysWrap && IsNumeric(s) then s
    else "\"" + EscapeFirst(s) + "\""
  }

  /** With alwaysWrap off the token comes back unchanged exactly when it is a reserved word or digits and dots. */
  lemma BareIff(s: string)
    ensures EscapeString(s, false) == s <==> IsBare(s)
  {
    if !IsBare(s) {
      assert |EscapeString(s, false)| == |s| + 2;
    }
  }

  /** Every other token, and every token when alwaysWrap is on, is quoted around its escaped form. */
  lemma QuotedForm(s: string, alwaysWrap: bool)
    requires alwaysWrap || !IsBare(s)
    ensures var r := EscapeString(s, alwaysWrap);
      |r| == |s| + 2 && r[0] == '"' && r[|r| - 1] == '"' && r[1..|r| - 1] == EscapeFirst(s)
  {
  }

  /** A token without quotes or backslashes is quoted as it is. */
  lemma PlainQuoted(s: string, alwaysWrap: bool)
    requires alwaysWrap || !IsBare(s)
    requires forall i :: 0 <= i < |s| ==> !IsQuoteOrBackslash(s[i])
    ensures EscapeString(s, alwaysWrap) == "\"" + s + "\""
  {
    EscapeFirstLeftmost(s);
  }

  /** The escaped token holds no character the token did not hold, apart from one added backslash. */
  lemma EscapeAddsOnlyBackslash(s: string, alwaysWrap: bool, c: char)
    requires c != '\\' && c != '"'
    requires c in EscapeString(s, alwaysWrap)
    ensures c in s
  {
    var r := EscapeString(s, alwaysWrap);
    if alwaysWrap || !IsBare(s) {
      var e := EscapeFirst(s);
      assert r == "\"" + e + "\"";
      assert c in e;
      var k :| 0 <= k < |e| && e[k] == c;
      match FindMatch(s, 0)
      case None =>
      case Some(j) =>
        assert e == s[..j] + ['\\', s[j + 1]] + s[j + 2..];
        assert k != j && k != j + 1;
        assert e[k] == s[k];
    }
  }

  /** "True" differs in case from a reserved word and is quoted. */
  lemma ReservedIsCaseSensitive()
    ensures EscapeString("True", false) == "\"True\""
  {
    assert !IsNumeric("True") by {
      assert !IsDigitOrDot("True"[0]);
    }
    assert !IsReserved("True") by {
      assert "True"[0] == 'T';
    }
    PlainQuoted("True", false);
  }

  /** In `a"b` the escape swallows the `a`: the result is `"\"b"`. */
  lemma EscapeDropsPrecedingChar()
    ensures EscapeString("a\"b", true) == "\"\\\"b\""
  {
    assert MatchAt("a\"b", 0);
    EscapeFirstLeftmost("a\"b");
  }

  /** Only the first match is escaped: `x"y"z` becomes `"\"y"z"`, whose second quote is left bare. */
  lemma OnlyFirstMatchEscaped()
    ensures EscapeString("x\"y\"z", true) == "\"\\\"y\"z\""
  {
    assert MatchAt("x\"y\"z", 0);
    EscapeFirstLeftmost("x\"y\"z");
  }

  /**
   * A quote at the start has no character before it, so the pattern skips
   * it: in `"a"b` the second quote is escaped and the `a` dropped, and
   * `"abc` is written with nothing escaped.
   */
  lemma LeadingQuoteNotEscaped()
    ensures EscapeString("\"a\"b", true) == "\"\"\\\"b\""
    ensures EscapeString("\"abc", true) == "\"\"abc\""
  {
    var s, t := "\"a\"b", "\"abc";
    assert !MatchAt(s, 0) && MatchAt(s, 1);
    EscapeFirstLeftmost(s);
    assert forall j :: !MatchAt(t, j) by {
      assert t[1] == 'a' && t[2] == 'b' && t[3] == 'c';
    }
    EscapeFirstLeftmost(t);
  }
}
