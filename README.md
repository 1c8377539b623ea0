# neal: EVE Online API client, modelled in Dafny

neal (lib/neal.js) fetches documents from the EVE Online API and
converts the XML it receives into JSON. It does this without building a
tree. As sax events arrive, its handlers append text to one string,
`jsonString`. On every closing tag a backward scan repairs that string.
The parsed result is then kept in an in-process cache, stamped with an
expiry time computed from two dates inside the document.

The model covers:

- **Scalars**: `escapeString`, the way a token is written: bare for the
  four reserved words and for digit-and-dot strings, otherwise quoted,
  with the regular-expression escape as written.
- **Transducer**: the four xml2json handlers, `ontext`, `onopentag`,
  `onclosetag` and `onend`, as the class `Converter`. Its fields are
  `json` (`jsonString`) and `index`, the attribute that marks a row.
  Each method is proved against `Step`/`Finish`, the functions that
  specify one handler. Lemmas describe what the closing scan does: a
  text-only tag collapses into a scalar member, a row closes as an
  object, an empty tag dangles, and a brace inside quoted text is
  deleted.
- **Cache**:
  - `memoryCache` as the class `MemoryCache`, holding references to
    the stored objects (class `Data`, with the `expires` and
    `fromCache` fields the code writes on them);
  - the lazy expiry test;
  - `calculateExpireTime`, with dates as `Option<int>` milliseconds
    where None stands for NaN.
- **Conversion**: one call of `xml2json`, composing the above:
  1. serve a fresh cached object;
  2. otherwise run a fresh converter over the events;
  3. parse the text and store the object;
  4. stamp it with its expiry time.
- **Request**:
  - `apiToRest` (a string `replace`, the first regular-expression
    match, lower case);
  - `mergeObjects`, as the method `Params.Merge`, which updates its
    receiver in place;
  - the path assembly in `request`, for both the XML API and a REST
    proxy.
- **Objects**: a JavaScript object as a sequence of (key, value) pairs
  in for-in order, where assigning a new key appends it.

In these places the model keeps the code's surprising behaviour:

- Only the leftmost quote or backslash that follows a character other
  than a backslash is escaped, and that character is dropped. A quote
  or backslash at the start of the token is never escaped.
- The reserved words are matched case-sensitively.
- A document is stored in the cache before anything checks it for an
  API `error` field.
- The closing scan's quirks are kept.

## Model

| member | source | states |
|---|---|---|
| Objects.LookupFound | lib/neal.js:179 | reading `obj[k]` finds a value exactly when k is one of the object's keys, and the value found is one stored under k |
| Objects.Lookup | lib/neal.js:168-186 | `obj[k]`: the value stored under the name k, or None where JavaScript gives `undefined` |
| Objects.Put | lib/neal.js:270 | `obj[k] = v`: an existing property keeps its place and takes v; a new one goes last |
| Objects.LookupPut | lib/neal.js:270 | after `obj1[e] = v`, e reads v and every other key reads as before |
| Objects.KeysPut | lib/neal.js:270 | assigning to an existing key keeps the key order; a new key is added at the end |
| Objects.PutKeepsDistinct | lib/neal.js:270 | assignment never creates a second copy of a key |
| Scalars.EscapeString | lib/neal.js:249-258 | escapeString: a reserved word or a digit-and-dot string passes bare unless alwaysWrap is set; anything else is quoted around EscapeFirst's rewrite |
| Scalars.FindMatch | lib/neal.js:257 | returns the leftmost position at or after `from` where `([^\\])(\"\|\\)` matches, or none when it matches nowhere there |
| Scalars.EscapeFirst | lib/neal.js:257 | `replace(/([^\\])(\"\|\\)/, '\\$2')` without the g flag: the two characters of the leftmost match become a backslash and the quote or backslash, so the length is kept; no match leaves the text as it is |
| Scalars.EscapeFirstLeftmost | lib/neal.js:257 | with no match the text is unchanged; otherwise, at the leftmost match only, the character before the quote or backslash is replaced by a backslash |
| Scalars.BareIff | lib/neal.js:249-256 | without alwaysWrap, a token is written unchanged exactly when it is a reserved word or a non-empty string of digits and dots |
| Scalars.QuotedForm | lib/neal.js:257 | any other token is written as two quotes around the escaped text |
| Scalars.PlainQuoted | lib/neal.js:257 | a token with no quote or backslash is written verbatim between quotes |
| Scalars.EscapeAddsOnlyBackslash | lib/neal.js:249-258 | apart from quotes and backslashes, the written token contains no character the token did not contain |
| Scalars.ReservedIsCaseSensitive | lib/neal.js:251 | `True` is not a reserved word: it is written quoted |
| Scalars.EscapeDropsPrecedingChar | lib/neal.js:257 | `a"b` is written `"\"b"`: the `a` is lost |
| Scalars.OnlyFirstMatchEscaped | lib/neal.js:257 | in `x"y"z` only the first quote is escaped |
| Scalars.LeadingQuoteNotEscaped | lib/neal.js:257 | a quote at the start has no character before it and is never escaped: `"a"b` is written `""\"b"` with the `a` lost, and `"abc` is written `""abc"` |
| Transducer.NextIndex | lib/neal.js:171-178 | the row index after an open tag: keyField when columns and keyField are truthy, the first column name when only columns is, otherwise unchanged |
| Transducer.Truthy | lib/neal.js:168-179 | the tests `node.attributes.name`, `.columns`, `.keyField` and `node.attributes[index]`: the attribute is present and is not the empty string |
| Transducer.TagKey | lib/neal.js:167-170 | a tag's key is its truthy `name` attribute, otherwise the tag name |
| Transducer.OpenText | lib/neal.js:179-195 | a tag whose index attribute is truthy opens as a row, its index value as key and every attribute as a member; any other tag opens as `key:{` |
| Transducer.Step | lib/neal.js:163-218 | one handler: ontext appends the token and a comma, onopentag updates the index and appends OpenText, onclosetag gives CloseText |
| Transducer.Run | lib/neal.js:231-232 | the handlers applied to a document's events in order |
| Transducer.BeforeComma | lib/neal.js:176 | `split(",")[0]` is the longest prefix of `columns` without a comma, and it ends at the first comma |
| Transducer.Member | lib/neal.js:188 | one attribute written as `escapeString(e) + ':' + escapeString(value)` |
| Transducer.Members | lib/neal.js:183-190 | the array `attrs` after the loop: one member per attribute, as many members as attributes |
| Transducer.Join | lib/neal.js:191 | `attrs.join(",")`: the members in order with a comma between each two, and the empty text for no members |
| Transducer.MembersAt | lib/neal.js:183-190 | the i-th member is the i-th attribute written as `key:value`, so for-in order is kept |
| Transducer.Substr1 | lib/neal.js:203 | `substr(start, 1)` reads the character at start, or counts from the end when start is negative |
| Transducer.BackslashAtSubstr | lib/neal.js:203 | the `substr(i-1, 1) != "\\"` test is a one-character test, with a negative start counting from the end |
| Transducer.ScanFrom | lib/neal.js:198-213 | when the backward scan stops at a brace, the brace is at position 1 or later and at or before the start |
| Transducer.ScanBraceIsLast | lib/neal.js:198-213 | the scan stops at the first brace it meets: no brace lies after it up to the start |
| Transducer.CloseText | lib/neal.js:197-218 | onclosetag: splice out the brace the scan reached, or drop one trailing comma and append `},` |
| Transducer.CloseAt | lib/neal.js:209-217 | once the scan has stopped: at a brace, that brace is spliced out; otherwise one trailing comma is dropped and `},` appended |
| Transducer.TrimCommas | lib/neal.js:220 | `replace(/\,+$/, '')` leaves a prefix that does not end in a comma, and removes only commas |
| Transducer.Finish | lib/neal.js:220 | onend's text: trailing commas removed, `}` appended |
| Transducer.ScanSkips | lib/neal.js:200-213 | characters that are not quotes or braces, and colons inside a string, pass the scan without effect |
| Transducer.ScanString | lib/neal.js:203-205 | a quoted string with no quote, brace or backslash inside is passed over as one string |
| Transducer.CloseShape | lib/neal.js:197-218 | a closing tag deletes the last brace at position 1 or later, or drops one trailing comma and appends `},` |
| Transducer.StepKeepsRoot | lib/neal.js:157-218 | every handler keeps the root brace at position 0, which the scan never examines |
| Transducer.LeafCollapses | lib/neal.js:197-213 | a tag that holds only a plain text collapses to a scalar member: `"key":{E,` becomes `"key":E,` |
| Transducer.MemberCloses | lib/neal.js:206-217 | a frame whose last member has a plain scalar value is closed with `},` after its trailing comma is dropped |
| Transducer.NestedCloses | lib/neal.js:198-217 | a frame whose last child is an object already closed, `x:E},`, is closed to `x:E}},`: the scan passes the inner brace and stops at the inner member's colon |
| Transducer.RowCloses | lib/neal.js:179-217 | a row whose last attribute is plain closes as an object: the row's text followed by `},` |
| Transducer.EmptyTagDangles | lib/neal.js:209-211 | a tag with no content removes its own brace and leaves `"name":` without a value |
| Transducer.BraceInTextDeleted | lib/neal.js:209-211 | the brace test ignores the in-string flag: in `{"k":{"a{b",` the text's brace is deleted, not the frame's |
| Transducer.EscapedQuoteToggles | lib/neal.js:203-207 | the quote test looks two characters back: in `{"k":{"a:\"c",` the escaped quote toggles the flag, the scan stops at the colon inside the text, and the frame closes with `},` instead of collapsing |
| Transducer.IndexPersists | lib/neal.js:171-179 | tags without a truthy `columns` never change the row index |
| Transducer.ColumnsSetIndex | lib/neal.js:171-177 | a `columns` tag without a truthy `keyField` takes the first column name as the row index |
| Transducer.Scan | lib/neal.js:198-213 | the while loop stops where the scan function says: at an unquoted colon, at a brace, or at position 0 |
| Transducer.CollectMembers | lib/neal.js:180-190 | the attribute loop produces every member in for-in order, and its key is the value of the index attribute |
| Transducer.Converter.constructor | lib/neal.js:157-158 | the converter starts as `{` with an empty index |
| Transducer.Converter.Text | lib/neal.js:163-165 | ontext appends the written text and a comma |
| Transducer.Converter.OpenTag | lib/neal.js:166-196 | onopentag updates the index and appends a row's key and members, or the tag's key and `{` |
| Transducer.Converter.CloseTag | lib/neal.js:197-218 | the scan loop leaves the text the closing-scan function specifies |
| Transducer.Converter.End | lib/neal.js:219-220 | onend removes trailing commas and closes the root |
| Cache.ExpireTime | lib/neal.js:240-247 | the expiry is defined exactly when both dates are valid, and lies as far after the local clock as cacheduntil lies after currenttime |
| Cache.Fresh | lib/neal.js:143 | the freshness test `expires > now`, false for NaN |
| Cache.OnlyDeltaMatters | lib/neal.js:241 | only the reported lifetime matters, not the server's clock |
| Cache.ServedWhileBeforeExpiry | lib/neal.js:143 | a stored entry is served exactly while the clock is before the stored time plus its lifetime |
| Cache.ZeroLifetimeNeverServed | lib/neal.js:143 | the freshness test is strict, so a zero lifetime is never served |
| Cache.InvalidDateNeverServed | lib/neal.js:240-247 | an invalid date gives NaN, and an entry stamped NaN is never served |
| Cache.Data.constructor | lib/neal.js:221 | a parsed document carries no expiry and no cache flag yet |
| Cache.MemoryCache.constructor | lib/neal.js:39 | the cache starts empty |
| Cache.MemoryCache.Lookup | lib/neal.js:142-149 | a hit exactly when the entry exists and is fresh; a hit returns the stored object itself, marked fromCache; otherwise any entry for the key is deleted and nothing else changes |
| Cache.MemoryCache.Save | lib/neal.js:235-237 | the object itself is stored under the key, replacing any previous entry |
| Conversion.Converted | lib/neal.js:157-220 | the text onend hands to JSON.parse: the handlers run from `{` with an empty index, then Finish |
| Conversion.LeafDocument | lib/neal.js:163-220 | for any tag name and any plain text t, `<a>t</a>` converts to `{"a":t}`, with t written bare or quoted |
| Conversion.EmptyTagDocument | lib/neal.js:194-220 | for any tag names, `<a><b/></a>` converts to `{"a":{"b":}}`, which is not JSON |
| Conversion.RowDocument | lib/neal.js:166-220 | `<rs name="x" columns="a,b"><row a="1" b="x"/></rs>` converts to `{"x":{"1":{"a":1,"b":"x"}}}`: the table is keyed by its name, the row by its first column's value, and the row's attributes become its members |
| Conversion.Convert | lib/neal.js:157-232 | a fresh converter fed the events in order yields the text the handler functions specify |
| Conversion.Xml2Json | lib/neal.js:140-233 | with the memory cache on, a fresh cached object is itself returned, marked fromCache, with its expiry untouched, and the cache is unchanged; otherwise a stale entry is dropped, and when the text parses its object is stored, stamped with the computed expiry and fromCache false; when it does not parse nothing is stored; on a miss the stale object is left untouched |
| Request.Lower | lib/neal.js:264 | `toLowerCase` leaves no upper-case letter, shifts each upper-case letter to its lower case and keeps every other character |
| Request.FindSub | lib/neal.js:262 | the leftmost occurrence of the pattern at or after `from`, or none |
| Request.ReplaceFirst | lib/neal.js:262 | `replace` with a string pattern changes only the leftmost occurrence, and nothing when there is none |
| Request.HyphenateFirst | lib/neal.js:263 | `replace(/([a-z]+)([A-Z]+)/, "$1-$2")`: one hyphen after the lower-case run of the leftmost match, nothing when there is none |
| Request.RunEnd | lib/neal.js:263 | the greedy `[a-z]+` run ends at the first character that is not a lower-case letter |
| Request.FindRegex | lib/neal.js:263 | the leftmost position where `([a-z]+)([A-Z]+)` matches, or none |
| Request.NoBoundaryUnchanged | lib/neal.js:263 | with no lower-case letter followed by an upper-case one, the name is unchanged |
| Request.HyphenAtFirstBoundary | lib/neal.js:263 | the hyphen goes exactly at the first place where a lower-case letter is followed by an upper-case one |
| Request.HyphenTwoWords | lib/neal.js:263 | two words that meet at their only lower-to-upper boundary are joined by one hyphen |
| Request.ApiToRest | lib/neal.js:260-265 | apiToRest: the first `ID` becomes `Id`, then the hyphen, then lower case |
| Request.ApiToRestShape | lib/neal.js:260-265 | the result is in lower case and at most one character longer than the name |
| Request.ApiToRestServerStatus | lib/neal.js:260-265 | `ServerStatus` becomes `server-status` |
| Request.ApiToRestCharacterId | lib/neal.js:260-265 | `characterID` becomes `character-id` |
| Request.Merged | lib/neal.js:267-274 | mergeObjects as a value: obj2's properties assigned onto obj1 in for-in order |
| Request.LookupMerged | lib/neal.js:267-274 | after the merge every key of obj2 reads as in obj2, and every other key reads as in obj1 |
| Request.KeysMerged | lib/neal.js:267-274 | obj1's keys keep their order, the merged keys are those of obj1 and obj2 together, and no key is duplicated |
| Request.MergesAccumulate | lib/neal.js:81-82 | merged parameters accumulate in `config.params`: a key set by one request survives a later request that does not mention it |
| Request.Params.Merge | lib/neal.js:267-274 | mergeObjects returns its first argument, updated in place with the merge |
| Request.XmlPath | lib/neal.js:90-94 | `/scope/resource.xml.aspx`, followed by `?` and the query when the query is not empty |
| Request.Segments | lib/neal.js:98-102 | one `/` + apiToRest(name) + `/` + value segment per parameter, in for-in order |
| Request.RestPath | lib/neal.js:97-103 | one `/name/value` segment per parameter, then `/scope/resource.json`, with the names and the resource passed through apiToRest |
| Request.RequestPath | lib/neal.js:89-104 | the path is `/scope/resource.xml.aspx` plus any query, or one `/name/value` segment per parameter followed by `/scope/resource.json` |

## Left out

- The HTTP request, its callbacks, the `response` and `error` events, and the `error`/`result` dispatch at lines 106-135 are I/O and not modelled. The events of a document are the input of `Conversion.Xml2Json`.
- The sax parser is not part of this model. Its tokenising, trimming, whitespace normalisation and tag-name lower-casing are assumed to have happened already. This includes any lower-casing of attribute names such as `keyField`.
- `JSON.parse` and the `.eveapi` field are a parameter of `Conversion.Xml2Json`. It returns None where parsing throws. The parsed object is kept only as its source text and the two dates.
- Conversion.Xml2Json: when the text parses but has no `eveapi` field, the source stores `undefined` and then throws. The model treats that like a parse failure and stores nothing.
- `new Date(...)` parsing and `getTime` are left out. Dates arrive already as milliseconds, or None for NaN. The two clock readings are parameters.
- `querystring.stringify` is a parameter of `Request.RequestPath`.
- The scope and resource validation, the callback checks and the parameter selection at lines 53-87 are left out, apart from `mergeObjects` itself.
- `parser.onerror` only logs, so it is left out.
- Objects.Lookup: inherited prototype properties are not modelled. A key such as `constructor` therefore reads as absent, where JavaScript would find a function.
- Objects.Keys: JavaScript puts integer-like keys first in for-in order. The model keeps insertion order throughout.
- Request.ApiToRest: only ASCII letters are lower-cased, unlike JavaScript's full Unicode `toLowerCase`.
- Sharing the cache between concurrent requests is not modelled.
- Strings are sequences of Unicode characters, while JavaScript's `substr` and the regular expressions at lines 257 and 263 work on UTF-16 code units. Text outside the Basic Multilingual Plane therefore differs: JavaScript's escape at line 257 can split a surrogate pair where the model drops the whole character, and the two-before test at line 203 counts code units.
