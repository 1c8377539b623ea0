/**
 * xml2json (lib/neal.js): serve a fresh cached document, or run the
 * converter over the parse events, parse the text, store the object and
 * stamp it with its expiry time.
 */
module Conversion {
  import opened Wrappers
  import opened Objects
  import opened Scalars
  import opened Transducer
  import opened Cache

  /**
   * What the model needs of `JSON.parse(jsonString).eveapi`: the dates in
   * its `currenttime` and `cacheduntil` fields, as toInt reads them.
   */
  datatype Stamps = Stamps(currentTime: Millis, cachedUntil: Millis)

  /** The text the converter builds from a document's events. */
  function Converted(events: seq<Event>): string {
    Finish(Run(Start, events).json)
  }

  /** `<a>t</a>`, with t a plain text, becomes `{"a":t}`: a tag holding only text collapses to a scalar member. */
  lemma LeafDocument(a: string, t: string)
    requires Plain(t)
    ensures Converted([Open(a, []), Text(t), Close])
      == "{" + EscapeString(a, true) + ":" + EscapeString(t, false) + "}"
  {
    var e := EscapeString(t, false);
    var body := "{" + EscapeString(a, true) + ":" + e;
    LeafRun(a, t);
    assert body[|body| - 1] != ',' by {
      PlainScalar(t, false);
      ScalarEnd(e);
      LastOfAppend("{" + EscapeString(a, true) + ":", e);
    }
    TrimOneComma(body);
  }

  /** `<a>` on a fresh converter: the root brace, the key and the frame's brace. */
  lemma LeafOpened(a: string)
    ensures Run(Start, [Open(a, [])]) == State("{" + EscapeString(a, true) + ":" + "{", "")
  {
    RunSnoc(Start, [], Open(a, []));
    assert [] + [Open(a, [])] == [Open(a, [])];
    OpenWithoutAttributes(Start, a);
    AssocColonBrace("{", EscapeString(a, true));
  }

  /** The text inside `<a>`: written with its comma after the frame's brace. */
  lemma LeafText(a: string, t: string)
    ensures Run(Start, [Open(a, []), Text(t)])
      == State("{" + EscapeString(a, true) + ":" + "{" + EscapeString(t, false) + ",", "")
  {
    RunSnoc(Start, [Open(a, [])], Text(t));
    assert [Open(a, [])] + [Text(t)] == [Open(a, []), Text(t)];
    LeafOpened(a);
    StepTextInFrame("{" + EscapeString(a, true) + ":", t);
  }

  /** `</a>` after a plain text: the frame collapses and the text becomes the key's value. */
  lemma LeafRun(a: string, t: string)
    requires Plain(t)
    ensures Run(Start, [Open(a, []), Text(t), Close])
      == State("{" + EscapeString(a, true) + ":" + EscapeString(t, false) + ",", "")
  {
    var pre := "{" + EscapeString(a, true) + ":";
    RunSnoc(Start, [Open(a, []), Text(t)], Close);
    assert [Open(a, []), Text(t)] + [Close] == [Open(a, []), Text(t), Close];
    LeafText(a, t);
    LeafCollapses(pre, t);
  }

  /** ontext appends the written token and a comma. */
  lemma StepTextInFrame(pre: string, t: string)
    ensures Step(State(pre + "{", ""), Text(t)) == State(pre + "{" + EscapeString(t, false) + ",", "")
  {
  }

  /**
   * `<a><b/></a>` becomes `{"a":{"b":}}`, which JSON.parse rejects: the
   * empty tag removes its own brace and leaves its key without a value.
   */
  lemma EmptyTagDocument(a: string, b: string)
    ensures Converted([Open(a, []), Open(b, []), Close, Close])
      == "{" + EscapeString(a, true) + ":{" + EscapeString(b, true) + ":}}"
  {
    var x := "{" + EscapeString(a, true) + ":{";
    var pre := x + EscapeString(b, true) + ":";
    EmptyTagRun(a, b);
    TrimOneComma(pre + "}");
    AssocColonBraces(x, EscapeString(b, true));
  }

  /** `<a><b>`: two frames opened, one inside the other. */
  lemma EmptyTagOpened(a: string, b: string)
    ensures Run(Start, [Open(a, []), Open(b, [])])
      == State("{" + EscapeString(a, true) + ":{" + EscapeString(b, true) + ":" + "{", "")
  {
    RunSnoc(Start, [], Open(a, []));
    assert [] + [Open(a, [])] == [Open(a, [])];
    RunSnoc(Start, [Open(a, [])], Open(b, []));
    assert [Open(a, [])] + [Open(b, [])] == [Open(a, []), Open(b, [])];
    StepOpenRoot(a);
    StepOpenNested("{" + EscapeString(a, true) + ":{", b);
  }

  /** `</b>` with nothing inside: b's brace is removed and its key dangles. */
  lemma EmptyTagClosed(a: string, b: string)
    ensures Run(Start, [Open(a, []), Open(b, []), Close])
      == State("{" + EscapeString(a, true) + ":{" + EscapeString(b, true) + ":", "")
  {
    var pre := "{" + EscapeString(a, true) + ":{" + EscapeString(b, true) + ":";
    RunSnoc(Start, [Open(a, []), Open(b, [])], Close);
    assert [Open(a, []), Open(b, [])] + [Close] == [Open(a, []), Open(b, []), Close];
    EmptyTagOpened(a, b);
    StepCloseEmpty(pre);
  }

  /** `</a>`: the scan meets the dangling colon and a's frame is closed with `},`. */
  lemma EmptyTagRun(a: string, b: string)
    ensures Run(Start, [Open(a, []), Open(b, []), Close, Close])
      == State("{" + EscapeString(a, true) + ":{" + EscapeString(b, true) + ":" + "}" + ",", "")
  {
    var pre := "{" + EscapeString(a, true) + ":{" + EscapeString(b, true) + ":";
    RunSnoc(Start, [Open(a, []), Open(b, []), Close], Close);
    assert [Open(a, []), Open(b, []), Close] + [Close] == [Open(a, []), Open(b, []), Close, Close];
    EmptyTagClosed(a, b);
    StepCloseDangling(pre);
  }

  /** onopentag on the fresh converter. */
  lemma StepOpenRoot(a: string)
    ensures Step(Start, Open(a, [])) == State("{" + EscapeString(a, true) + ":{", "")
  {
    OpenWithoutAttributes(Start, a);
  }

  /** onopentag inside a frame. */
  lemma StepOpenNested(x: string, b: string)
    ensures Step(State(x, ""), Open(b, [])) == State(x + EscapeString(b, true) + ":" + "{", "")
  {
    OpenWithoutAttributes(State(x, ""), b);
    AssocColonBrace(x, EscapeString(b, true));
  }

  /** Concatenation regrouped: `:{` split into `:` and `{`. */
  lemma AssocColonBrace(x: string, k: string)
    ensures x + (k + ":{") == x + k + ":" + "{"
  {
    assert ":{" == ":" + "{";
  }

  /** onclosetag right after an opening brace. */
  lemma StepCloseEmpty(pre: string)
    requires |pre| >= 1
    ensures Step(State(pre + "{", ""), Close) == State(pre, "")
  {
    EmptyTagDangles(pre);
  }

  /** onclosetag right after a dangling key. */
  lemma StepCloseDangling(pre: string)
    requires |pre| >= 2 && pre[|pre| - 1] == ':'
    ensures Step(State(pre, ""), Close) == State(pre + "}" + ",", "")
  {
    ScanStep(pre, |pre| - 1, false);
    CloseNoBrace(pre);
    assert "}," == "}" + ",";
  }

  /** A text that does not end in a comma loses exactly the one comma appended to it. */
  lemma TrimOneComma(s: string)
    requires |s| >= 1 && s[|s| - 1] != ','
    ensures TrimCommas(s + ",") == s
  {
    assert (s + ",")[..|s|] == s;
  }

  /** Concatenation regrouped: `:}}` split into `:`, `}` and `}`. */
  lemma AssocColonBraces(x: string, k: string)
    ensures x + k + ":" + "}" + "}" == x + k + ":}}"
  {
    assert ":}}" == ":" + "}" + "}";
  }

  /** `<rs name="x" columns="a,b">`: a table named x whose rows are keyed by their `a` attribute. */
  const TableAttrs: Props := [("name", "x"), ("columns", "a,b")]

  /** `<row a="1" b="x"/>`: one row of that table. */
  const RowAttrs: Props := [("a", "1"), ("b", "x")]

  /**
   * `<rs name="x" columns="a,b"><row a="1" b="x"/></rs>` becomes
   * `{"x":{"1":{"a":1,"b":"x"}}}`: the table is keyed by its name, the row
   * by the value of its first column, and the row's attributes become its
   * members.
   */
  lemma RowDocument()
    ensures Converted([Open("rs", TableAttrs), Open("row", RowAttrs), Close, Close])
      == "{\"x\":{\"1\":{\"a\":1,\"b\":\"x\"}}}"
  {
    var body := RowHead + ":" + ValueB + "}}";
    RowRun();
    assert RowHead + ":" + ValueB + "}}," == body + ",";
    assert body[|body| - 1] == '}';
    TrimOneComma(body);
    RowDocumentText();
  }

  /** The pieces of the converted table, written as one text. */
  lemma RowDocumentText()
    ensures RowHead + ":" + ValueB + "}}" + "}" == "{\"x\":{\"1\":{\"a\":1,\"b\":\"x\"}}}"
  {
  }

  /** The written pieces of the table: its key, the row's key, its first member, the second attribute's name and value. */
  const TableFrame := "{\"x\":{"
  const RowKey := "\"1\""
  const MemberA := "\"a\":1"
  const NameB := "\"b\""
  const ValueB := "\"x\""

  /** The document text up to the row's last attribute name. */
  const RowHead := TableFrame + RowKey + ":{" + MemberA + "," + NameB

  /** `<rs name="x" columns="a,b">` on a fresh converter: the index becomes the first column. */
  lemma TableOpened()
    ensures Step(Start, Open("rs", TableAttrs)) == State(TableFrame, "a")
  {
    assert Lookup(TableAttrs, "columns") == Some("a,b");
    assert Lookup(TableAttrs, "keyField") == None;
    assert BeforeComma("a,b") == "a";
    assert Lookup(TableAttrs, "a") == None;
    assert Lookup(TableAttrs, "name") == Some("x");
    PlainQuoted("x", true);
  }

  /** A one-letter token that is not a digit is written quoted. */
  lemma QuotedLetter(c: char)
    requires c != '"' && c != '\\' && !IsDigitOrDot(c)
    ensures EscapeString([c], false) == "\"" + [c] + "\""
  {
    assert [c][0] == c && !IsDigitOrDot([c][0]);
    PlainQuoted([c], false);
  }

  /** The row's attributes written as members. */
  lemma RowMembers()
    ensures Members(RowAttrs) == [MemberA, NameB + ":" + ValueB]
  {
    QuotedLetter('a');
    QuotedLetter('b');
    QuotedLetter('x');
    assert IsNumeric("1");
    BareIff("1");
    assert Member(RowAttrs[0]) == MemberA;
    assert Member(RowAttrs[1]) == NameB + ":" + ValueB;
    assert RowAttrs[..1] == [RowAttrs[0]] && [RowAttrs[0]][..0] == [];
  }

  /** `<row a="1" b="x"/>` inside the table: the row is keyed `"1"` and its attributes become members. */
  lemma RowOpened()
    ensures OpenText("row", RowAttrs, "a") == RowKey + ":{" + MemberA + "," + NameB + ":" + ValueB
  {
    assert Lookup(RowAttrs, "a") == Some("1");
    assert EscapeString("1", true) == RowKey by {
      PlainQuoted("1", true);
    }
    RowJoined();
    RegroupMembers(RowKey, MemberA, NameB, ValueB);
  }

  /** The row's members joined by a comma. */
  lemma RowJoined()
    ensures Join(Members(RowAttrs), ",") == MemberA + "," + (NameB + ":" + ValueB)
  {
    RowMembers();
    JoinLast([MemberA, NameB + ":" + ValueB], ",");
    assert [MemberA, NameB + ":" + ValueB][..1] == [MemberA];
  }

  /** Concatenation regrouped: the joined members written out after the row's key. */
  lemma RegroupMembers(k: string, m: string, n: string, v: string)
    ensures k + ":{" + (m + "," + (n + ":" + v)) == k + ":{" + m + "," + n + ":" + v
  {
  }

  /** onopentag for the row: the index is kept and the row's text appended. */
  lemma StepOpenRow(pre: string)
    ensures Step(State(pre, "a"), Open("row", RowAttrs)) == State(pre + OpenText("row", RowAttrs, "a"), "a")
  {
    assert Lookup(RowAttrs, "columns") == None;
  }

  /** onclosetag for the row, whose last attribute is plain. */
  lemma StepCloseRow(pre: string)
    requires |pre| >= 1
    ensures Step(State(pre + OpenText("row", RowAttrs, "a"), "a"), Close)
      == State(pre + OpenText("row", RowAttrs, "a") + "},", "a")
  {
    assert Lookup(RowAttrs, "a") == Some("1");
    assert Plain("b") && Plain("x");
    RowCloses(pre, "row", RowAttrs, "a");
  }

  /** onclosetag for a frame whose last child is a closed object. */
  lemma StepCloseNested(x: string, t: string, index: string)
    requires |x| >= 1 && x[|x| - 1] != '\\' && Plain(t)
    ensures var e := EscapeString(t, false);
      Step(State(x + ":" + e + "},", index), Close) == State(x + ":" + e + "}},", index)
  {
    NestedCloses(x, t);
  }

  /** Both tags opened: the table's frame and the row's text. */
  lemma RowEventsOpened()
    ensures Run(Start, [Open("rs", TableAttrs), Open("row", RowAttrs)])
      == State(TableFrame + OpenText("row", RowAttrs, "a"), "a")
  {
    RunSnoc(Start, [], Open("rs", TableAttrs));
    assert [] + [Open("rs", TableAttrs)] == [Open("rs", TableAttrs)];
    RunSnoc(Start, [Open("rs", TableAttrs)], Open("row", RowAttrs));
    assert [Open("rs", TableAttrs)] + [Open("row", RowAttrs)] == [Open("rs", TableAttrs), Open("row", RowAttrs)];
    TableOpened();
    StepOpenRow(TableFrame);
  }

  /** `</row>`: the row is closed as an object. */
  lemma RowEventsRowClosed()
    ensures Run(Start, [Open("rs", TableAttrs), Open("row", RowAttrs), Close])
      == State(TableFrame + OpenText("row", RowAttrs, "a") + "},", "a")
  {
    var events := [Open("rs", TableAttrs), Open("row", RowAttrs)];
    RunSnoc(Start, events, Close);
    assert events + [Close] == [Open("rs", TableAttrs), Open("row", RowAttrs), Close];
    RowEventsOpened();
    StepCloseRow(TableFrame);
  }

  /** `</rs>`: the table's frame is closed around the closed row. */
  lemma RowRun()
    ensures Run(Start, [Open("rs", TableAttrs), Open("row", RowAttrs), Close, Close])
      == State(RowHead + ":" + ValueB + "}},", "a")
  {
    var events := [Open("rs", TableAttrs), Open("row", RowAttrs), Close];
    RunSnoc(Start, events, Close);
    assert events + [Close] == [Open("rs", TableAttrs), Open("row", RowAttrs), Close, Close];
    RowEventsRowClosed();
    RowClosedText();
    TableClosed();
  }

  /** The text after `</row>`, split at the row's last colon. */
  lemma RowClosedText()
    ensures TableFrame + OpenText("row", RowAttrs, "a") + "}," == RowHead + ":" + ValueB + "},"
  {
    RowOpened();
    RegroupRow(TableFrame, RowKey, MemberA, NameB, ValueB);
  }

  /** Concatenation regrouped: the row's text split before its last colon. */
  lemma RegroupRow(f: string, k: string, m: string, n: string, v: string)
    ensures f + (k + ":{" + m + "," + n + ":" + v) + "}," == f + k + ":{" + m + "," + n + ":" + v + "},"
  {
  }

  /** onclosetag for the table: its last child is the closed row. */
  lemma TableClosed()
    ensures Step(State(RowHead + ":" + ValueB + "},", "a"), Close) == State(RowHead + ":" + ValueB + "}},", "a")
  {
    var e := EscapeString("x", false);
    assert e == ValueB by {
      QuotedLetter('x');
    }
    assert |RowHead| >= 1 && RowHead[|RowHead| - 1] != '\\' by {
      LastOfAppend(TableFrame + RowKey + ":{" + MemberA + ",", NameB);
    }
    assert Plain("x");
    StepCloseNested(RowHead, "x", "a");
  }

  /**
   * A fresh converter (`index = ""`, `jsonString = "{"`) fed the events in
   * order, as `parser.write` and `parser.close` deliver them, then onend's
   * text.
   */
  method Convert(events: seq<Event>) returns (document: string)
    ensures document == Converted(events)
  {
    var conv := new Converter();
    var i := 0;
    while i < |events|
      invariant 0 <= i <= |events|
      invariant fresh(conv) && conv.Valid()
      invariant conv.Current() == Run(Start, events[..i])
    {
      RunPrefix(Start, events, i);
      match events[i] {
        case Open(name, attrs) => conv.OpenTag(name, attrs);
        case Text(t) => conv.Text(t);
        case Close => conv.CloseTag();
      }
      i := i + 1;
    }
    assert events[..i] == events;
    conv.End();
    document := conv.json;
  }

  /**
   * One call of xml2json. `memory` is `config.cache == "memory"`; `now` and
   * `clock` are the two readings of the clock (the freshness test and
   * calculateExpireTime); `parse` stands for JSON.parse and the `.eveapi`
   * field, returning None where JSON.parse throws. The entry is stored
   * whatever the document says: an API error document is cached too.
   */
  method Xml2Json(cache: MemoryCache, memory: bool, key: string, events: seq<Event>,
                  now: int, clock: int, parse: string -> Option<Stamps>)
    returns (result: Option<Data>)
    modifies cache, cache.At(key)
    ensures var hit := memory && old(key in cache.entries && Fresh(cache.entries[key].expires, now));
      hit ==> result == Some(old(cache.entries[key])) && result.value.fromCache && cache.entries == old(cache.entries)
    ensures var hit := memory && old(key in cache.entries && Fresh(cache.entries[key].expires, now));
      hit ==> result.value.expires == old(result.value.expires)
    ensures var hit := memory && old(key in cache.entries && Fresh(cache.entries[key].expires, now));
      !hit ==> forall d :: d in old(cache.At(key)) ==> unchanged(d)
    ensures var hit := memory && old(key in cache.entries && Fresh(cache.entries[key].expires, now));
      !hit && parse(Converted(events)).None? ==>
        result.None? && cache.entries == if memory then old(cache.entries) - {key} else old(cache.entries)
    ensures var hit := memory && old(key in cache.entries && Fresh(cache.entries[key].expires, now));
      !hit && parse(Converted(events)).Some? ==>
        var stamps := parse(Converted(events)).value;
        && result.Some? && fresh(result.value)
        && result.value.document == Converted(events)
        && result.value.expires == ExpireTime(clock, stamps.currentTime, stamps.cachedUntil)
        && !result.value.fromCache
        && cache.entries == old(cache.entries)[key := result.value]
  {
    if memory {
      var hit := cache.Lookup(key, now);
      if hit.Some? {
        return hit;
      }
    }
    var document := Convert(events);
    match parse(document)
    case None =>
      result := None;
    case Some(stamps) =>
      var data := new Data(document);
      cache.Save(key, data);
      data.expires := ExpireTime(clock, stamps.currentTime, stamps.cachedUntil);
      data.fromCache := false;
      result := Some(data);
  }
}
