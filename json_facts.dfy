/** Properties of the JSON reader in MiniJson: how the first character picks
    the kind of value, what ParseString returns, how objects and arrays
    accumulate, the error and divergence cases, and how far the reader
    inverts the executor's and snapshot's string escaping. */
module JsonFacts {
  import opened Text
  import opened MiniJson

  // ---------------------------------------------------------------------
  // Escape as a per-character substitution

  /** What Escape does to one character. */
  function Token(c: char): string {
    if c == '\\' then "\\\\" else if c == '"' then "\\\"" else [c]
  }

  /** Escape, character by character. */
  function Tokens(s: string): string
    decreases |s|
  {
    if s == [] then [] else Token(s[0]) + Tokens(s[1..])
  }

  lemma {:induction false} EscapeIsTokens(s: string)
    ensures Escape(s) == Tokens(s)
  {
    ReplaceOneChar(s, '\\', "\\\\");
    ReplaceOneChar(Subst(s, '\\', "\\\\"), '"', "\\\"");
    SubstThenSubst(s);
  }

  lemma {:induction false} SubstThenSubst(s: string)
    ensures Subst(Subst(s, '\\', "\\\\"), '"', "\\\"") == Tokens(s)
    decreases |s|
  {
    if s != [] {
      var head := if s[0] == '\\' then "\\\\" else [s[0]];
      assert Subst(s, '\\', "\\\\") == head + Subst(s[1..], '\\', "\\\\");
      SubstAppend(head, Subst(s[1..], '\\', "\\\\"), '"', "\\\"");
      SubstThenSubst(s[1..]);
      if s[0] == '\\' {
        assert Subst(head, '"', "\\\"") == "\\\\" by {
          assert head[1..][1..] == [];
        }
      } else {
        assert head[1..] == [];
      }
    }
  }

  lemma {:induction false} TokensAppend(x: string, y: string)
    ensures Tokens(x + y) == Tokens(x) + Tokens(y)
    decreases |x|
  {
    if x != [] {
      assert (x + y)[1..] == x[1..] + y;
      TokensAppend(x[1..], y);
    } else {
      assert x + y == y;
    }
  }

  /** The escaped text never starts with a double quote. */
  lemma TokensHead(s: string)
    requires Tokens(s) != []
    ensures Tokens(s)[0] != '"'
  {
    assert s != [];
    assert Tokens(s) == Token(s[0]) + Tokens(s[1..]);
  }

  /** Every double quote of the escaped text comes right after a backslash. */
  lemma {:induction false} TokensQuotesEscaped(s: string, m: nat)
    requires m < |Tokens(s)| && Tokens(s)[m] == '"'
    ensures m > 0 && Tokens(s)[m - 1] == '\\'
    decreases |s|
  {
    assert s != [];
    var t := Token(s[0]);
    assert Tokens(s) == t + Tokens(s[1..]);
    if m >= |t| {
      if m == |t| {
        TokensHead(s[1..]);
        assert false;
      }
      TokensQuotesEscaped(s[1..], m - |t|);
    }
  }

  /** The escaped text ends with a backslash exactly when the text does. */
  lemma TokensLast(s: string)
    requires s != []
    ensures Tokens(s) != [] && (Tokens(s)[|Tokens(s)| - 1] == '\\' <==> s[|s| - 1] == '\\')
  {
    var n := |s|;
    var c := s[n - 1];
    assert s == s[..n - 1] + [c];
    TokensAppend(s[..n - 1], [c]);
    var t := Token(c);
    assert Tokens([c]) == t by {
      assert [c][1..] == [];
    }
    var all := Tokens(s);
    assert all == Tokens(s[..n - 1]) + t;
    assert all[|all| - 1] == t[|t| - 1];
  }

  // ---------------------------------------------------------------------
  // Unescape undoes Escape

  /** The text after the first Replace of Unescape: escaped quotes restored. */
  function HalfTokens(s: string): string
    decreases |s|
  {
    if s == [] then [] else (if s[0] == '\\' then "\\\\" else [s[0]]) + HalfTokens(s[1..])
  }

  /** A character that does not open an escaped quote is copied. */
  lemma QuoteStepKeep(c: char, rest: string)
    requires c != '\\' || rest == [] || rest[0] != '"'
    ensures Replace([c] + rest, "\\\"", "\"") == [c] + Replace(rest, "\\\"", "\"")
  {
    var x := [c] + rest;
    if |x| >= 2 {
      assert x[..2][0] == c && x[..2][1] == rest[0];
    }
    assert x[1..] == rest;
  }

  /** An escaped quote becomes a quote. */
  lemma QuoteStepDrop(rest: string)
    ensures Replace("\\\"" + rest, "\\\"", "\"") == "\"" + Replace(rest, "\\\"", "\"")
  {
    var x := "\\\"" + rest;
    assert x[..2] == "\\\"";
    assert x[2..] == rest;
  }

  /** One token of the escaped text through the first Replace of Unescape. */
  lemma QuoteStep(c: char, rest: string, half: string)
    requires c == '\\' ==> rest == [] || rest[0] != '"'
    requires Replace(rest, "\\\"", "\"") == half
    ensures Replace(Token(c) + rest, "\\\"", "\"") == (if c == '\\' then "\\\\" else [c]) + half
  {
    if c == '\\' {
      QuoteStepKeep('\\', rest);
      QuoteStepKeep('\\', "\\" + rest);
      assert "\\\\" + rest == "\\" + ("\\" + rest);
    } else if c == '"' {
      QuoteStepDrop(rest);
    } else {
      QuoteStepKeep(c, rest);
    }
  }

  lemma {:induction false} UnescapeQuotes(s: string)
    ensures Replace(Tokens(s), "\\\"", "\"") == HalfTokens(s)
    decreases |s|
  {
    if s != [] {
      UnescapeQuotes(s[1..]);
      if s[0] == '\\' && Tokens(s[1..]) != [] {
        TokensHead(s[1..]);
      }
      QuoteStep(s[0], Tokens(s[1..]), HalfTokens(s[1..]));
    }
  }

  lemma {:induction false} UnescapeBackslashes(s: string)
    ensures Replace(HalfTokens(s), "\\\\", "\\") == s
    decreases |s|
  {
    if s != [] {
      var rest := HalfTokens(s[1..]);
      UnescapeBackslashes(s[1..]);
      if s[0] == '\\' {
        var x := "\\\\" + rest;
        assert x[..2] == "\\\\";
        assert x[2..] == rest;
        assert s == [s[0]] + s[1..];
      } else {
        var x := [s[0]] + rest;
        assert HalfTokens(s) == x;
        if |x| >= 2 {
          assert x[0] == s[0] && x[..2][0] == x[0];
          assert x[..2] != "\\\\";
        }
        assert x[1..] == rest;
        assert s == [s[0]] + s[1..];
      }
    }
  }

  /** Unescape is a left inverse of Escape. */
  lemma UnescapeEscape(s: string)
    ensures Unescape(Escape(s)) == s
  {
    EscapeIsTokens(s);
    UnescapeQuotes(s);
    UnescapeBackslashes(s);
  }

  // ---------------------------------------------------------------------
  // ParseString on an escaped literal

  lemma {:induction false} StringEndSkips(json: string, i: nat, e: nat)
    requires 1 <= i <= e <= |json|
    requires forall m :: i <= m < e ==> !ClosesString(json, m)
    ensures StringEnd(json, i) == StringEnd(json, e)
    decreases e - i
  {
    if i < e {
      StringEndSkips(json, i + 1, e);
    }
  }

  /** Inside a quoted escaped literal no quote ends the string early. */
  lemma NoEarlyClose(s: string)
    ensures StringEnd(Quoted(s), 1) == StringEnd(Quoted(s), |Escape(s)| + 1)
  {
    var e := Escape(s);
    var json := Quoted(s);
    EscapeIsTokens(s);
    forall m | 1 <= m < |e| + 1
      ensures !ClosesString(json, m)
    {
      assert json[m] == e[m - 1];
      if e[m - 1] == '"' {
        TokensQuotesEscaped(s, m - 1);
        assert json[m - 1] == e[m - 2];
      }
    }
    StringEndSkips(json, 1, |e| + 1);
  }

  /** ParseString recognises the closing quote of a written literal exactly
      when the text does not end with a backslash: an escaped trailing
      backslash `\\` makes the final `"` look escaped. */
  lemma ClosingQuoteFound(s: string)
    ensures StringEnd(Quoted(s), 1) == |Escape(s)| + 1
            <==> (s == [] || s[|s| - 1] != '\\')
  {
    var e := Escape(s);
    var json := Quoted(s);
    NoEarlyClose(s);
    EscapeIsTokens(s);
    assert json[|e| + 1] == '"';
    assert json[|e|] == if e == [] then '"' else e[|e| - 1];
    if s != [] {
      TokensLast(s);
    } else {
      assert e == [];
    }
  }

  /** The round trip through ParseString, where it holds. */
  lemma QuotedRoundTrip(s: string)
    requires s == [] || s[|s| - 1] != '\\'
    ensures StringAt(Quoted(s), 0) == Scanned(s, |Quoted(s)|)
  {
    var e := Escape(s);
    ClosingQuoteFound(s);
    assert Quoted(s)[1..|e| + 1] == e;
    UnescapeEscape(s);
  }

  /** The closing-quote search only looks ahead: text after the quote it
      finds does not move it. */
  lemma {:induction false} StringEndPrefix(a: string, b: string, i: nat)
    requires 1 <= i <= |a| && StringEnd(a, i) < |a|
    ensures StringEnd(a + b, i) == StringEnd(a, i)
    decreases |a| - i
  {
    assert (a + b)[i] == a[i] && (a + b)[i - 1] == a[i - 1];
    if !ClosesString(a, i) {
      StringEndPrefix(a, b, i + 1);
    }
  }

  /** Text before the opening quote shifts the closing quote by its length. */
  lemma {:induction false} StringEndShift(pre: string, x: string, i: nat)
    requires 1 <= i <= |x|
    ensures StringEnd(pre + x, |pre| + i) == |pre| + StringEnd(x, i)
    decreases |x| - i
  {
    if i < |x| {
      assert (pre + x)[|pre| + i] == x[i] && (pre + x)[|pre| + i - 1] == x[i - 1];
      if !ClosesString(x, i) {
        StringEndShift(pre, x, i + 1);
      }
    }
  }

  /** The round trip of a written literal inside a larger document: read at
      its opening quote, whatever surrounds it. */
  lemma QuotedInContext(pre: string, s: string, post: string)
    requires s == [] || s[|s| - 1] != '\\'
    ensures var json := pre + Quoted(s) + post;
            |pre| < |json| && StringAt(json, |pre|) == Scanned(s, |pre| + |Quoted(s)|)
  {
    var e := Escape(s);
    var q := Quoted(s);
    var json := pre + q + post;
    ClosingQuoteFound(s);
    StringEndShift(pre, q, 1);
    StringEndPrefix(pre + q, post, |pre| + 1);
    assert json[|pre| + 1..|pre| + |e| + 1] == e;
    UnescapeEscape(s);
  }

  /** Where it fails: the one-character text `\` is written as `"\\"` and
      read back as the two characters `\"`. */
  lemma TrailingBackslashBreaksRoundTrip()
    ensures Quoted("\\") == "\"\\\\\""
    ensures StringAt(Quoted("\\"), 0) == Scanned("\\\"", 4)
  {
    var json := Quoted("\\");
    EscapeIsTokens("\\");
    assert Tokens("\\") == "\\\\";
    assert json == ['"', '\\', '\\', '"'];
    assert !ClosesString(json, 3);
    assert StringEnd(json, 1) == 4;
    var raw := json[1..4];
    assert raw == ['\\', '\\', '"'];
    assert Replace(raw, "\\\"", "\"") == ['\\', '"'] by {
      assert raw[..2] != "\\\"";
      assert raw[1..][..2] == "\\\"";
      assert raw[1..][2..] == [];
    }
    assert Replace(['\\', '"'], "\\\\", "\\") == ['\\', '"'] by {
      assert ['\\', '"'][..2] != "\\\\";
      assert ['\\', '"'][1..] == ['"'];
    }
  }

  // ---------------------------------------------------------------------
  // ParseString

  lemma {:induction false} StringEndIsFirst(json: string, i: nat, m: nat)
    requires 1 <= i <= m && i <= |json| && m < StringEnd(json, i)
    ensures !ClosesString(json, m)
    decreases m - i
  {
    if i < m {
      StringEndIsFirst(json, i + 1, m);
    }
  }

  /** ParseString at `p` stops at the first `"` after `p` whose previous
      character is not a backslash, and steps over it; without one it runs
      to the end of the input. */
  lemma StringStopsAtFirstClose(json: string, p: nat)
    requires p < |json|
    ensures var k := StringEnd(json, p + 1);
            && (forall m :: p < m < k ==> !ClosesString(json, m))
            && (k < |json| ==> ClosesString(json, k) && StringAt(json, p).next == k + 1)
            && (k == |json| ==> StringAt(json, p).next == |json|)
  {
    var k := StringEnd(json, p + 1);
    forall m | p < m < k
      ensures !ClosesString(json, m)
    {
      StringEndIsFirst(json, p + 1, m);
    }
  }

  /** Text without a backslash is returned verbatim: both Replace calls
      at the end of ParseString find nothing. */
  lemma VerbatimString(json: string, p: nat)
    requires p < |json|
    requires forall m :: p < m < StringEnd(json, p + 1) ==> json[m] != '\\'
    ensures StringAt(json, p).text == json[p + 1..StringEnd(json, p + 1)]
  {
    var raw := json[p + 1..StringEnd(json, p + 1)];
    AbsentChar(raw, "\\\"");
    ReplaceAbsent(raw, "\\\"", "\"");
    AbsentChar(raw, "\\\\");
    ReplaceAbsent(raw, "\\\\", "\\");
  }

  /** A quoted literal without backslashes or quotes: its contents, and the
      index just past the closing quote. */
  lemma PlainStringLiteral(json: string, p: nat, t: string)
    requires p + |t| + 1 < |json|
    requires json[p] == '"' && json[p + 1..p + 1 + |t|] == t && json[p + 1 + |t|] == '"'
    requires forall m :: 0 <= m < |t| ==> t[m] != '\\' && t[m] != '"'
    ensures StringAt(json, p) == Scanned(t, p + |t| + 2)
  {
    var e := p + 1 + |t|;
    forall m | p + 1 <= m < e
      ensures !ClosesString(json, m)
    {
      assert json[m] == t[m - p - 1];
    }
    StringEndSkips(json, p + 1, e);
    assert json[e - 1] != '\\' by {
      if |t| > 0 {
        assert json[e - 1] == t[|t| - 1];
      }
    }
    assert ClosesString(json, e);
    VerbatimString(json, p);
  }

  // ---------------------------------------------------------------------
  // ParseValue

  /** The first character after the white space decides the kind of value:
      `{` an object, `[` an array, `"` a string, a digit, `-` or `.` a
      number; `true`, `false` and `null` are stepped over by exactly 4, 5
      and 4 characters; anything else is null without moving at all. */
  lemma KindFromFirstChar(json: string, i: nat)
    requires i <= |json|
    requires SkipWs(json, i) < |json|
    requires ValueAt(json, i).Ok?
    ensures var j := SkipWs(json, i);
            var c := json[j];
            var r := ValueAt(json, i);
            && (r.value.Obj? <==> c == '{')
            && (r.value.Arr? <==> c == '[')
            && (r.value.Str? <==> c == '"')
            && (r.value.Number? <==> IsDigit(c) || c == '-' || c == '.')
            && (r.value.Number? ==> r.next > j && r.value.token == json[j..r.next])
            && (r.value == Bool(true) <==> StartsWith(json[j..], "true"))
            && (r.value == Bool(true) ==> r.next == j + 4)
            && (r.value == Bool(false) ==> r.next == j + 5)
            && (r.value.Null? && r.next > j ==> StartsWith(json[j..], "null") && r.next == j + 4)
            && (r.value.Null? && r.next == j ==> !StartsWith(json[j..], "true") && !StartsWith(json[j..], "false") && !StartsWith(json[j..], "null"))
            && (r.value == Bool(false) <==> StartsWith(json[j..], "false"))
            && (r.value.Null? && r.next == j + 4 <==> StartsWith(json[j..], "null"))
            && (r.value.Null? && r.next == j <==>
                  c != '{' && c != '[' && c != '"' && !(IsDigit(c) || c == '-' || c == '.')
                  && !StartsWith(json[j..], "true") && !StartsWith(json[j..], "false") && !StartsWith(json[j..], "null"))
  {
  }

  /** ParseNumber takes the maximal run of `[0-9.eE-]` (no `+`): every
      character of a number token is one of those, and the character after
      it is not. */
  lemma {:induction false} NumberTokenIsMaximalRun(json: string, i: nat)
    requires i <= |json|
    ensures forall k :: i <= k < NumberEnd(json, i) ==> IsNumberChar(json[k])
    decreases |json| - i
  {
    if i < |json| && IsNumberChar(json[i]) {
      NumberTokenIsMaximalRun(json, i + 1);
    }
  }

  /** char.IsDigit admits every Unicode decimal digit: `[٣]` (an
      Arabic-Indic three) is an array holding the number token "٣" (which
      float.TryParse would then reject, giving 0; that conversion is
      outside the value tree). */
  lemma NonAsciiDigitIsNumber()
    ensures Document("[\U{0663}]") == Ok(Arr([Number("\U{0663}")]), 3)
  {
    var json := "[\U{0663}]";
    DigitClass(json[1]);
    assert IsDigit(json[1]) && !IsNumberChar(json[2]);
    assert NumberEnd(json, 1) == 2;
    assert ValueAt(json, 1) == Ok(Number(json[1..2]), 2);
    assert json[1..2] == "\U{0663}";
    assert ArrayLoop(json, 2, [Number("\U{0663}")]) == Ok(Arr([Number("\U{0663}")]), 3);
  }

  /** Input that is empty or all white space parses to null. */
  lemma BlankInputIsNull(json: string)
    requires forall k :: 0 <= k < |json| ==> IsWhiteSpace(json[k])
    ensures Document(json) == Ok(Null, |json|)
  {
  }

  // ---------------------------------------------------------------------
  // Objects and arrays

  /** Array elements are only ever appended: the elements read so far stay,
      in order, at the front of the result. */
  lemma {:induction false} ArrayKeepsOrder(json: string, i: nat, acc: seq<Value>)
    requires i <= |json|
    ensures var r := ArrayLoop(json, i, acc);
            r.Ok? ==> |acc| <= |r.value.items| && r.value.items[..|acc|] == acc
    decreases |json| - i, 1
  {
    if i < |json| {
      ElementKeepsOrder(json, i, SkipWs(json, i), acc);
    }
  }

  /** The same for one iteration of the array loop. */
  lemma {:induction false} ElementKeepsOrder(json: string, i: nat, j: nat, acc: seq<Value>)
    requires i <= j <= |json|
    ensures var r := ArrayElement(json, i, j, acc);
            r.Ok? ==> |acc| <= |r.value.items| && r.value.items[..|acc|] == acc
    decreases |json| - i, 0
  {
    if j < |json| && json[j] != ']' && ValueAt(json, j).Ok? {
      var m' := SkipWs(json, ValueAt(json, j).next);
      if m' < |json| {
        var n := if json[m'] == ',' then m' + 1 else m';
        if n != i {
          var v := ValueAt(json, j).value;
          ElementStep(json, i, j, acc);
          ArrayKeepsOrder(json, n, acc + [v]);
          if ArrayLoop(json, n, acc + [v]).Ok? {
            var items := ArrayLoop(json, n, acc + [v]).value.items;
            assert items[..|acc|] == items[..|acc| + 1][..|acc|];
          }
        }
      }
    }
  }

  /** An element read, a comma stepped over, and the loop goes round again. */
  lemma ElementStep(json: string, i: nat, j: nat, acc: seq<Value>)
    requires i <= j < |json| && json[j] != ']' && ValueAt(json, j).Ok?
    requires SkipWs(json, ValueAt(json, j).next) < |json|
    requires var m' := SkipWs(json, ValueAt(json, j).next);
             (if json[m'] == ',' then m' + 1 else m') != i
    ensures var m' := SkipWs(json, ValueAt(json, j).next);
            ArrayElement(json, i, j, acc) ==
              ArrayLoop(json, if json[m'] == ',' then m' + 1 else m', acc + [ValueAt(json, j).value])
  {
  }

  /** Object entries are never lost: every key read so far is still a key of
      the result (a repeated key is overwritten, not dropped). */
  lemma {:induction false} ObjectKeepsKeys(json: string, i: nat, acc: map<string, Value>)
    requires i <= |json|
    ensures var r := ObjectLoop(json, i, acc);
            r.Ok? ==> acc.Keys <= r.value.fields.Keys
    decreases |json| - i
  {
    if i < |json| {
      var j := SkipWs(json, i);
      if j < |json| && json[j] != '}' {
        match EntryAt(json, j, acc)
        case Fail(_) =>
        case Ok(d, m) =>
          var m' := SkipWs(json, m);
          assert acc.Keys <= d.fields.Keys;
          assert ObjectLoop(json, i, acc) == ObjectNext(json, m', d.fields);
          if m' < |json| {
            ObjectNextStep(json, m', d.fields);
            ObjectKeepsKeys(json, if json[m'] == ',' then m' + 1 else m', d.fields);
          }
      }
    }
  }

  /** One key and value read by ParseObject. */
  datatype Entry = Entry(key: string, value: Value)

  /** The outcome of reading an object's entries: the entries in the order
      they occur and the index after the object, or the error. */
  datatype Listed = Listed(entries: seq<Entry>, next: nat) | ListFail(error: Error)

  /** A reference reading of ParseObject's loop from index `i` that lists
      the entries it meets instead of storing them. */
  function EntriesFrom(json: string, i: nat): (r: Listed)
    requires i <= |json|
    decreases |json| - i, 1
  {
    if i >= |json| then Listed([], i) else EntriesAt(json, SkipWs(json, i))
  }

  /** One entry at `j` (after white space), then the rest. */
  function EntriesAt(json: string, j: nat): (r: Listed)
    requires j <= |json|
    decreases |json| - j, 0
  {
    if j >= |json| then ListFail(IndexOutOfRange(j))
    else if json[j] == '}' then Listed([], j + 1)
    else
      match EntryRead(json, j)
      case ReadFail(e) => ListFail(e)
      case Read(entry, m) =>
        var m' := SkipWs(json, m);
        if m' >= |json| then ListFail(IndexOutOfRange(m'))
        else
          match EntriesFrom(json, if json[m'] == ',' then m' + 1 else m')
          case ListFail(e) => ListFail(e)
          case Listed(es, n) => Listed([entry] + es, n)
  }

  /** The outcome of reading one entry: the entry and the index after its value. */
  datatype Read = Read(entry: Entry, next: nat) | ReadFail(error: Error)

  /** A key, an optional colon and a value, read from `j`. */
  function EntryRead(json: string, j: nat): (r: Read)
    requires j < |json|
    ensures r.Read? ==> j < r.next <= |json|
  {
    var key := StringAt(json, j);
    var k := SkipWs(json, key.next);
    if k >= |json| then ReadFail(IndexOutOfRange(k))
    else
      match ValueAt(json, if json[k] == ':' then k + 1 else k)
      case Fail(e) => ReadFail(e)
      case Ok(v, m) => Read(Entry(key.text, v), m)
  }

  /** Reading one entry into `acc` stores the entry read. */
  lemma EntryAtStores(json: string, j: nat, acc: map<string, Value>)
    requires j < |json|
    ensures EntryAt(json, j, acc) ==
            match EntryRead(json, j)
            case Read(e, m) => Ok(Obj(acc[e.key := e.value]), m)
            case ReadFail(e) => Fail(e)
  {
  }

  /** The dictionary after storing the entries, in order, into `acc`. */
  function Stored(acc: map<string, Value>, es: seq<Entry>): map<string, Value>
    decreases |es|
  {
    if es == [] then acc else Stored(acc[es[0].key := es[0].value], es[1..])
  }

  /** The parse outcome of storing the listed entries into `acc`. */
  function StoreAll(acc: map<string, Value>, r: Listed): Parsed {
    match r
    case Listed(es, n) => Ok(Obj(Stored(acc, es)), n)
    case ListFail(e) => Fail(e)
  }

  /** Storing one more entry in front. */
  lemma StoreAllCons(acc: map<string, Value>, entry: Entry, r: Listed)
    ensures StoreAll(acc, match r case Listed(es, n) => Listed([entry] + es, n) case ListFail(e) => ListFail(e))
            == StoreAll(acc[entry.key := entry.value], r)
  {
    if r.Listed? {
      assert ([entry] + r.entries)[1..] == r.entries;
    }
  }

  /** ParseObject's loop is the fold of indexer stores over the entries it
      reads: the same entries, the same end index and the same errors
      whatever was stored before. */
  lemma {:induction false} ObjectLoopStores(json: string, i: nat, acc: map<string, Value>)
    requires i <= |json|
    ensures ObjectLoop(json, i, acc) == StoreAll(acc, EntriesFrom(json, i))
    decreases |json| - i, 1
  {
    if i < |json| {
      ObjectMemberStores(json, SkipWs(json, i), acc);
    }
  }

  /** The same for one iteration, once the white space before `j` is skipped. */
  lemma {:induction false} ObjectMemberStores(json: string, j: nat, acc: map<string, Value>)
    requires j <= |json|
    ensures ObjectMember(json, j, acc) == StoreAll(acc, EntriesAt(json, j))
    decreases |json| - j, 0
  {
    if j < |json| && json[j] != '}' {
      EntryAtStores(json, j, acc);
      var r := EntryRead(json, j);
      if r.Read? {
        var m' := SkipWs(json, r.next);
        var acc' := acc[r.entry.key := r.entry.value];
        MemberStep(json, j, acc);
        if m' < |json| {
          var n := if json[m'] == ',' then m' + 1 else m';
          EntriesStep(json, j);
          ObjectNextStep(json, m', acc');
          ObjectLoopStores(json, n, acc');
          StoreAllCons(acc, r.entry, EntriesFrom(json, n));
        }
      }
    }
  }

  /** One entry read by ParseObject's loop, then the comma step. */
  lemma MemberStep(json: string, j: nat, acc: map<string, Value>)
    requires j < |json| && json[j] != '}' && EntryRead(json, j).Read?
    ensures var r := EntryRead(json, j);
            ObjectMember(json, j, acc) == ObjectNext(json, SkipWs(json, r.next), acc[r.entry.key := r.entry.value])
  {
    EntryAtStores(json, j, acc);
  }

  /** One entry listed by the reference reading, then the rest. */
  lemma EntriesStep(json: string, j: nat)
    requires j < |json| && json[j] != '}' && EntryRead(json, j).Read?
    requires SkipWs(json, EntryRead(json, j).next) < |json|
    ensures var r := EntryRead(json, j);
            var m' := SkipWs(json, r.next);
            EntriesAt(json, j) ==
              match EntriesFrom(json, if json[m'] == ',' then m' + 1 else m')
              case Listed(es, n) => Listed([r.entry] + es, n)
              case ListFail(e) => ListFail(e)
  {
  }

  /** Storing entries none of which has key `k` leaves `k` as it was. */
  lemma {:induction false} StoredUntouched(acc: map<string, Value>, es: seq<Entry>, k: string)
    requires forall n :: 0 <= n < |es| ==> es[n].key != k
    ensures k in Stored(acc, es) <==> k in acc
    ensures k in acc ==> Stored(acc, es)[k] == acc[k]
    decreases |es|
  {
    if es != [] {
      StoredUntouched(acc[es[0].key := es[0].value], es[1..], k);
    }
  }

  /** The value stored for `k` is that of the last entry with key `k`. */
  lemma {:induction false} StoredLastWins(acc: map<string, Value>, es: seq<Entry>, k: string, n: nat)
    requires n < |es| && es[n].key == k
    requires forall n' :: n < n' < |es| ==> es[n'].key != k
    ensures k in Stored(acc, es) && Stored(acc, es)[k] == es[n].value
    decreases |es|
  {
    if n == 0 {
      StoredUntouched(acc[k := es[0].value], es[1..], k);
    } else {
      StoredLastWins(acc[es[0].key := es[0].value], es[1..], k, n - 1);
    }
  }

  /** A parsed object holds exactly the keys of the entries read; each maps
      to the value of the last entry with that key. */
  lemma LastEntryWins(json: string, p: nat, k: string)
    requires p < |json| && ObjectAt(json, p).Ok?
    ensures EntriesFrom(json, p + 1).Listed?
    ensures var es := EntriesFrom(json, p + 1).entries;
            var fields := ObjectAt(json, p).value.fields;
            && (k in fields <==> exists n :: 0 <= n < |es| && es[n].key == k)
            && forall n :: 0 <= n < |es| && es[n].key == k && (forall n' :: n < n' < |es| ==> es[n'].key != k) ==>
                 fields[k] == es[n].value
  {
    ObjectLoopStores(json, p + 1, map[]);
    var es := EntriesFrom(json, p + 1).entries;
    if forall n :: 0 <= n < |es| ==> es[n].key != k {
      StoredUntouched(map[], es, k);
    } else {
      var n :| 0 <= n < |es| && es[n].key == k;
      var last := LastWith(es, k, n);
      StoredLastWins(map[], es, k, last);
    }
    forall n | 0 <= n < |es| && es[n].key == k && (forall n' :: n < n' < |es| ==> es[n'].key != k)
      ensures ObjectAt(json, p).value.fields[k] == es[n].value
    {
      StoredLastWins(map[], es, k, n);
    }
  }

  /** The last index at or after `n` whose entry has key `k`. */
  function LastWith(es: seq<Entry>, k: string, n: nat): (last: nat)
    requires n < |es| && es[n].key == k
    ensures n <= last < |es| && es[last].key == k
    ensures forall n' :: last < n' < |es| ==> es[n'].key != k
    decreases |es| - n
  {
    if exists n' :: n < n' < |es| && es[n'].key == k then
      var n' :| n < n' < |es| && es[n'].key == k;
      LastWith(es, k, n')
    else n
  }

  const duplicateKeys := "{\"a\":1,\"a\":2}"

  /** A lone ASCII digit followed by a non-number character is a
      one-character number token. */
  lemma OneDigitNumber(json: string, j: nat)
    requires j + 1 < |json| && IsAsciiDigit(json[j]) && !IsNumberChar(json[j + 1])
    ensures ValueAt(json, j) == Ok(Number([json[j]]), j + 1)
  {
    DigitClass(json[j]);
    assert SkipWs(json, j) == j;
    assert NumberEnd(json, j + 1) == j + 1;
    assert json[j..j + 1] == [json[j]];
  }

  lemma DuplicateKeysFirstEntry()
    ensures EntryAt(duplicateKeys, 1, map[]) == Ok(Obj(map["a" := Number("1")]), 6)
  {
    var json := duplicateKeys;
    PlainStringLiteral(json, 1, "a");
    OneDigitNumber(json, 5);
  }

  lemma DuplicateKeysSecondValue()
    ensures EntryAt(duplicateKeys, 7, map["a" := Number("1")]) == Ok(Obj(map["a" := Number("2")]), 12)
  {
    var json := duplicateKeys;
    PlainStringLiteral(json, 7, "a");
    OneDigitNumber(json, 11);
    assert map["a" := Number("1")]["a" := Number("2")] == map["a" := Number("2")];
  }

  lemma DuplicateKeysSecondEntry()
    ensures ObjectNext(duplicateKeys, 6, map["a" := Number("1")]) == Ok(Obj(map["a" := Number("2")]), 13)
  {
    var json := duplicateKeys;
    var m1 := map["a" := Number("1")];
    var m2 := map["a" := Number("2")];
    assert ObjectLoop(json, 12, m2) == Ok(Obj(m2), 13);
    assert ObjectNext(json, 12, m2) == Ok(Obj(m2), 13);
    DuplicateKeysSecondValue();
    assert SkipWs(json, 7) == 7;
    assert ObjectMember(json, 7, m1) == ObjectNext(json, 12, m2);
    assert ObjectLoop(json, 7, m1) == Ok(Obj(m2), 13);
  }

  /** A document that opens with `{` is read by the object loop from index 1. */
  lemma DocumentOpensObject(json: string)
    requires |json| > 0 && json[0] == '{'
    ensures Document(json) == ObjectLoop(json, 1, map[])
  {
    assert SkipWs(json, 0) == 0;
    assert ValueAt(json, 0) == ObjectAt(json, 0);
  }

  /** A repeated key keeps the value written last. */
  lemma LastDuplicateKeyWins()
    ensures Document(duplicateKeys) == Ok(Obj(map["a" := Number("2")]), 13)
  {
    var json := duplicateKeys;
    var m1 := map["a" := Number("1")];
    DuplicateKeysFirstEntry();
    DocumentOpensObject(json);
    assert SkipWs(json, 1) == 1 && SkipWs(json, 6) == 6;
    assert ObjectMember(json, 1, map[]) == ObjectNext(json, 6, m1);
    DuplicateKeysSecondEntry();
  }

  const threeElements := "[1,\"b\",true]"

  lemma ThreeElementsTail()
    ensures ArrayLoop(threeElements, 3, [Number("1")]) == Ok(Arr([Number("1"), Str("b"), Bool(true)]), 12)
  {
    var json := threeElements;
    PlainStringLiteral(json, 3, "b");
    assert SkipWs(json, 3) == 3 && SkipWs(json, 6) == 6;
    assert ValueAt(json, 3) == Ok(Str("b"), 6);
    ElementStep(json, 3, 3, [Number("1")]);
    assert [Number("1")] + [Str("b")] == [Number("1"), Str("b")];
    ThreeElementsLast();
  }

  lemma ThreeElementsLast()
    ensures ArrayLoop(threeElements, 7, [Number("1"), Str("b")]) == Ok(Arr([Number("1"), Str("b"), Bool(true)]), 12)
  {
    var json := threeElements;
    var all := [Number("1"), Str("b"), Bool(true)];
    assert json[7..] == "true]";
    assert SkipWs(json, 7) == 7 && SkipWs(json, 11) == 11;
    assert ValueAt(json, 7) == Ok(Bool(true), 11);
    ElementStep(json, 7, 7, [Number("1"), Str("b")]);
    assert [Number("1"), Str("b")] + [Bool(true)] == all;
    assert ArrayLoop(json, 11, all) == Ok(Arr(all), 12);
  }

  /** Elements come out in the order they are written. */
  lemma ArrayInSourceOrder()
    ensures Document(threeElements) == Ok(Arr([Number("1"), Str("b"), Bool(true)]), 12)
  {
    var json := threeElements;
    assert json[1..2] == "1";
    assert ValueAt(json, 1) == Ok(Number("1"), 2);
    assert SkipWs(json, 1) == 1 && SkipWs(json, 2) == 2;
    assert ArrayElement(json, 1, 1, []) == ArrayLoop(json, 3, [] + [Number("1")]);
    assert [] + [Number("1")] == [Number("1")];
    ThreeElementsTail();
  }

  /** `[x]`: the unsupported `x` is never consumed, so the array loop stops moving. */
  lemma UnsupportedTokenInArrayDiverges()
    ensures Document("[x]") == Fail(Diverges(1))
  {
    var json := "[x]";
    assert !StartsWith(json[1..], "true") && !StartsWith(json[1..], "false") && !StartsWith(json[1..], "null");
  }

  /** An opening bracket or brace alone ends the loop at once and gives an
      empty container; once anything follows it, running off the end reads
      `json[json.Length]`. */
  lemma UnterminatedContainers()
    ensures Document("[") == Ok(Arr([]), 1)
    ensures Document("{") == Ok(Obj(map[]), 1)
    ensures Document("[1") == Fail(IndexOutOfRange(2))
    ensures Document("[ ") == Fail(IndexOutOfRange(2))
    ensures Document("{\"a\":1") == Fail(IndexOutOfRange(6))
  {
    assert "[1"[1..2] == "1";
    UnterminatedObject();
  }

  lemma UnterminatedObject()
    ensures Document("{\"a\":1") == Fail(IndexOutOfRange(6))
  {
    var obj := "{\"a\":1";
    PlainStringLiteral(obj, 1, "a");
    assert obj[5..6] == "1" && NumberEnd(obj, 5) == 6;
    assert ValueAt(obj, 5) == Ok(Number("1"), 6);
    assert EntryAt(obj, 1, map[]) == Ok(Obj(map["a" := Number("1")]), 6);
    assert ObjectMember(obj, 1, map[]) == Fail(IndexOutOfRange(6));
  }
}
