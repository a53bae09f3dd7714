/** The kernel's hand-written JSON reader (UnityMCPCommandParser.MiniParse and
    its helpers in UnityMCPCommandModels.cs) and the quote/backslash escaper
    used by the command executor and the snapshot writer.

    Every parse routine of the source threads a `ref int index` through
    `while` loops; here each is a method that takes the index and returns the
    new one, proved equal to a recursive specification function on the same
    input (`SkipWs`, `StringAt`, `NumberEnd`, `ValueAt`, `ObjectLoop`,
    `ArrayLoop`). The lemmas at the end are stated about those functions.

    Two behaviours of the source become explicit results:
    - reading `json[index]` at `index == json.Length` (after the whitespace
      skips of ParseObject's and ParseArray's loops, before the `}`, `:`,
      `,` and `]` tests) throws IndexOutOfRangeException:
      `Fail(IndexOutOfRange(at))`;
    - an iteration of the array loop that does not move the index (an
      unsupported token such as `x` in `[x]`, for which ParseValue returns
      null without moving) is repeated, each
      time adding a null to the list, until memory runs out:
      `Fail(Diverges(at))` stands for that exhaustion. */
module MiniJson {
  import opened Text

  /** The parser's value tree: `null`, a boxed bool, a number (kept as its
      token, since float conversion is not modelled), a string, a
      List<object> or a Dictionary<string, object>. */
  datatype Value =
    | Null
    | Bool(b: bool)
    | Number(token: string)
    | Str(s: string)
    | Arr(items: seq<Value>)
    | Obj(fields: map<string, Value>)

  datatype Error =
    | IndexOutOfRange(at: nat)  // json[at] read with at == json.Length
    | Diverges(at: nat)         // the array loop stops moving at index `at`

  /** The outcome of a parse routine: the value and the index after it. */
  datatype Parsed = Ok(value: Value, next: nat) | Fail(error: Error)

  /** The outcome of ParseString, which never fails. */
  datatype Scanned = Scanned(text: string, next: nat)

  // ---------------------------------------------------------------------
  // Specification functions

  /** SkipWhitespace: the first index at or after `i` that is not white space. */
  function SkipWs(json: string, i: nat): (j: nat)
    requires i <= |json|
    ensures i <= j <= |json|
    ensures j == |json| || !IsWhiteSpace(json[j])
    decreases |json| - i
  {
    if i < |json| && IsWhiteSpace(json[i]) then SkipWs(json, i + 1) else i
  }

  /** The closing quote ParseString looks for: a `"` whose previous character is not `\`. */
  predicate ClosesString(json: string, k: nat)
    requires 1 <= k < |json|
  {
    json[k] == '"' && json[k - 1] != '\\'
  }

  /** The index of the first closing quote at or after `i`, or json.Length. */
  function StringEnd(json: string, i: nat): (k: nat)
    requires 1 <= i <= |json|
    ensures i <= k <= |json|
    ensures k < |json| ==> ClosesString(json, k)
    decreases |json| - i
  {
    if i == |json| || ClosesString(json, i) then i else StringEnd(json, i + 1)
  }

  /** What ParseString does to the characters between the quotes: every
      backslash-quote pair becomes a quote, then every backslash pair a
      single backslash. */
  function Unescape(raw: string): string {
    Replace(Replace(raw, "\\\"", "\""), "\\\\", "\\")
  }

  /** ParseString called at `p`: skip the character at `p`, take everything up
      to the closing quote, step over that quote if there is one. */
  function StringAt(json: string, p: nat): (r: Scanned)
    requires p < |json|
    ensures p < r.next <= |json|
  {
    var k := StringEnd(json, p + 1);
    Scanned(Unescape(json[p + 1..k]), if k < |json| then k + 1 else k)
  }

  /** The characters ParseNumber accepts. */
  predicate IsNumberChar(c: char) {
    IsDigit(c) || c == '.' || c == '-' || c == 'e' || c == 'E'
  }

  /** The end of the maximal run of number characters starting at `i`. */
  function NumberEnd(json: string, i: nat): (k: nat)
    requires i <= |json|
    ensures i <= k <= |json|
    ensures k == |json| || !IsNumberChar(json[k])
    decreases |json| - i
  {
    if i < |json| && IsNumberChar(json[i]) then NumberEnd(json, i + 1) else i
  }

  /** ParseValue at index `i`. */
  function ValueAt(json: string, i: nat): (r: Parsed)
    requires i <= |json|
    ensures r.Ok? ==> i <= r.next <= |json|
    decreases |json| - i, 1
  {
    var j := SkipWs(json, i);
    if j >= |json| then Ok(Null, j)
    else
      var c := json[j];
      if c == '{' then ObjectAt(json, j)
      else if c == '[' then ArrayAt(json, j)
      else if c == '"' then
        var s := StringAt(json, j);
        Ok(Str(s.text), s.next)
      else if IsDigit(c) || c == '-' || c == '.' then
        var e := NumberEnd(json, j);
        Ok(Number(json[j..e]), e)
      else if StartsWith(json[j..], "true") then Ok(Bool(true), j + 4)
      else if StartsWith(json[j..], "false") then Ok(Bool(false), j + 5)
      else if StartsWith(json[j..], "null") then Ok(Null, j + 4)
      else Ok(Null, j)
  }

  /** ParseObject at `p` (the `{` itself is skipped without being looked at). */
  function ObjectAt(json: string, p: nat): (r: Parsed)
    requires p < |json|
    ensures r.Ok? ==> p < r.next <= |json| && r.value.Obj?
    decreases |json| - p, 0
  {
    ObjectLoop(json, p + 1, map[])
  }

  /** The main loop of ParseObject from index `i`
      with the entries `acc` read so far. */
  function ObjectLoop(json: string, i: nat, acc: map<string, Value>): (r: Parsed)
    requires i <= |json|
    ensures r.Ok? ==> i <= r.next <= |json| && r.value.Obj?
    decreases |json| - i, 3
  {
    if i >= |json| then Ok(Obj(acc), i) else ObjectMember(json, SkipWs(json, i), acc)
  }

  /** One iteration of that loop once the white space before index `j` is
      skipped: the closing brace, or an entry and a comma. */
  function ObjectMember(json: string, j: nat, acc: map<string, Value>): (r: Parsed)
    requires j <= |json|
    ensures r.Ok? ==> j <= r.next <= |json| && r.value.Obj?
    decreases |json| - j, 2
  {
    if j >= |json| then Fail(IndexOutOfRange(j))
    else if json[j] == '}' then Ok(Obj(acc), j + 1)
    else
      match EntryAt(json, j, acc)
      case Fail(e) => Fail(e)
      case Ok(d, m) => ObjectNext(json, SkipWs(json, m), d.fields)
  }

  /** One turn of ParseObject's loop: a key, an optional colon and a value read from `j`,
      stored into `acc` (an indexer store, so a later key overwrites). */
  function EntryAt(json: string, j: nat, acc: map<string, Value>): (r: Parsed)
    requires j < |json|
    ensures r.Ok? ==> j < r.next <= |json| && r.value.Obj?
    decreases |json| - j, 0
  {
    var key := StringAt(json, j);
    var k := SkipWs(json, key.next);
    if k >= |json| then Fail(IndexOutOfRange(k))
    else
      match ValueAt(json, if json[k] == ':' then k + 1 else k)
      case Fail(e) => Fail(e)
      case Ok(v, m) => Ok(Obj(acc[key.text := v]), m)
  }

  /** The end of an iteration: step over a comma at `m` and go round again. */
  function ObjectNext(json: string, m: nat, acc: map<string, Value>): (r: Parsed)
    requires m <= |json|
    ensures r.Ok? ==> m <= r.next <= |json| && r.value.Obj?
    decreases |json| - m, 4
  {
    if m >= |json| then Fail(IndexOutOfRange(m))
    else ObjectLoop(json, if json[m] == ',' then m + 1 else m, acc)
  }

  /** ParseArray at `p` (the `[` itself is skipped without being looked at). */
  function ArrayAt(json: string, p: nat): (r: Parsed)
    requires p < |json|
    ensures r.Ok? ==> p < r.next <= |json| && r.value.Arr?
    decreases |json| - p, 0
  {
    ArrayLoop(json, p + 1, [])
  }

  /** The main loop of ParseArray from index `i`
      with the elements `acc` read so far. */
  function ArrayLoop(json: string, i: nat, acc: seq<Value>): (r: Parsed)
    requires i <= |json|
    ensures r.Ok? ==> i <= r.next <= |json| && r.value.Arr?
    decreases |json| - i, 3
  {
    if i >= |json| then Ok(Arr(acc), i) else ArrayElement(json, i, SkipWs(json, i), acc)
  }

  /** One iteration of that loop, begun at `i`, once the white space before
      index `j` is skipped: the closing bracket, or a value and a comma. An
      iteration that ends where it began would be repeated by the source,
      growing the list until memory runs out. */
  function ArrayElement(json: string, i: nat, j: nat, acc: seq<Value>): (r: Parsed)
    requires i <= j <= |json|
    ensures r.Ok? ==> j <= r.next <= |json| && r.value.Arr?
    decreases |json| - i, 2
  {
    if j >= |json| then Fail(IndexOutOfRange(j))
    else if json[j] == ']' then Ok(Arr(acc), j + 1)
    else
      match ValueAt(json, j)
      case Fail(e) => Fail(e)
      case Ok(v, m) =>
        var m' := SkipWs(json, m);
        if m' >= |json| then Fail(IndexOutOfRange(m'))
        else
          var n := if json[m'] == ',' then m' + 1 else m';
          if n == i then Fail(Diverges(i)) else ArrayLoop(json, n, acc + [v])
  }

  /** MiniParse: one value from the start; whatever follows it is ignored. */
  function Document(json: string): Parsed {
    ValueAt(json, 0)
  }

  // ---------------------------------------------------------------------
  // The encoder used by the executor (Escape) and the snapshot (JsonStr)

  /** Every backslash doubled, then every quote preceded by a backslash. */
  function Escape(s: string): string {
    Replace(Replace(s, "\\", "\\\\"), "\"", "\\\"")
  }

  /** A string literal as the executor and the snapshot write it: the escaped
      text between double quotes. */
  function Quoted(s: string): string {
    "\"" + Escape(s) + "\""
  }

  // ---------------------------------------------------------------------
  // The parser as the source writes it

  method SkipWhitespace(json: string, i: nat) returns (index: nat)
    requires i <= |json|
    ensures index == SkipWs(json, i)
  {
    index := i;
    while index < |json| && IsWhiteSpace(json[index])
      invariant i <= index <= |json|
      invariant SkipWs(json, index) == SkipWs(json, i)
      decreases |json| - index
    {
      index := index + 1;
    }
  }

  method ParseString(json: string, p: nat) returns (r: Scanned)
    requires p < |json|
    ensures r == StringAt(json, p)
  {
    var sb := "";
    var index := p + 1;
    while index < |json|
      invariant p + 1 <= index <= |json|
      invariant StringEnd(json, index) == StringEnd(json, p + 1)
      invariant sb == json[p + 1..index]
      decreases |json| - index
    {
      if json[index] == '"' && json[index - 1] != '\\' {
        index := index + 1;
        return Scanned(Unescape(sb), index);
      }
      sb := sb + [json[index]];
      index := index + 1;
    }
    r := Scanned(Unescape(sb), index);
  }

  method ParseNumber(json: string, start: nat) returns (token: string, index: nat)
    requires start <= |json|
    ensures index == NumberEnd(json, start) && token == json[start..index]
  {
    index := start;
    while index < |json| && IsNumberChar(json[index])
      invariant start <= index <= |json|
      invariant NumberEnd(json, index) == NumberEnd(json, start)
      decreases |json| - index
    {
      index := index + 1;
    }
    token := json[start..index];
  }

  method ParseValue(json: string, i: nat) returns (r: Parsed)
    requires i <= |json|
    ensures r == ValueAt(json, i)
    decreases |json| - i, 1
  {
    var index := SkipWhitespace(json, i);
    if index >= |json| {
      return Ok(Null, index);
    }
    var c := json[index];
    if c == '{' {
      r := ParseObject(json, index);
    } else if c == '[' {
      r := ParseArray(json, index);
    } else if c == '"' {
      var s := ParseString(json, index);
      r := Ok(Str(s.text), s.next);
    } else if IsDigit(c) || c == '-' || c == '.' {
      var token, e := ParseNumber(json, index);
      r := Ok(Number(token), e);
    } else if StartsWith(json[index..], "true") {
      r := Ok(Bool(true), index + 4);
    } else if StartsWith(json[index..], "false") {
      r := Ok(Bool(false), index + 5);
    } else if StartsWith(json[index..], "null") {
      r := Ok(Null, index + 4);
    } else {
      r := Ok(Null, index);
    }
  }

  method ParseObject(json: string, p: nat) returns (r: Parsed)
    requires p < |json|
    ensures r == ObjectAt(json, p)
    decreases |json| - p, 0
  {
    var dict: map<string, Value> := map[];
    var index := p + 1;
    while index < |json|
      invariant p + 1 <= index <= |json|
      invariant ObjectLoop(json, index, dict) == ObjectAt(json, p)
      decreases |json| - index
    {
      index := SkipWhitespace(json, index);
      if index >= |json| {
        return Fail(IndexOutOfRange(index));
      }
      if json[index] == '}' {
        return Ok(Obj(dict), index + 1);
      }
      ghost var j, dict0 := index, dict;
      var entry := ParseEntry(json, index, dict);
      if entry.Fail? {
        return entry;
      }
      dict := entry.value.fields;
      index := SkipWhitespace(json, entry.next);
      assert ObjectMember(json, j, dict0) == ObjectNext(json, index, dict);
      if index >= |json| {
        return Fail(IndexOutOfRange(index));
      }
      ghost var m := index;
      if json[index] == ',' {
        index := index + 1;
      }
      ObjectNextStep(json, m, dict);
    }
    r := Ok(Obj(dict), index);
  }

  /** The body of ParseObject's loop after the `}` test: key, colon, value, store. */
  method ParseEntry(json: string, j: nat, dict: map<string, Value>) returns (r: Parsed)
    requires j < |json|
    ensures r == EntryAt(json, j, dict)
    decreases |json| - j, 0
  {
    var key := ParseString(json, j);
    var index := SkipWhitespace(json, key.next);
    if index >= |json| {
      return Fail(IndexOutOfRange(index));
    }
    if json[index] == ':' {
      index := index + 1;
    }
    var v := ParseValue(json, index);
    if v.Fail? {
      return v;
    }
    r := Ok(Obj(dict[key.text := v.value]), v.next);
  }

  lemma ObjectNextStep(json: string, m: nat, acc: map<string, Value>)
    requires m < |json|
    ensures ObjectNext(json, m, acc) == ObjectLoop(json, if json[m] == ',' then m + 1 else m, acc)
  {
  }

  method ParseArray(json: string, p: nat) returns (r: Parsed)
    requires p < |json|
    ensures r == ArrayAt(json, p)
    decreases |json| - p, 0
  {
    var list: seq<Value> := [];
    var index := p + 1;
    while index < |json|
      invariant p + 1 <= index <= |json|
      invariant ArrayLoop(json, index, list) == ArrayAt(json, p)
      decreases |json| - index
    {
      var head := index;
      index := SkipWhitespace(json, index);
      assert ArrayElement(json, head, index, list) == ArrayAt(json, p);
      if index >= |json| {
        return Fail(IndexOutOfRange(index));
      }
      if json[index] == ']' {
        return Ok(Arr(list), index + 1);
      }
      var v := ParseValue(json, index);
      if v.Fail? {
        return v;
      }
      list := list + [v.value];
      index := SkipWhitespace(json, v.next);
      if index >= |json| {
        return Fail(IndexOutOfRange(index));
      }
      if json[index] == ',' {
        index := index + 1;
      }
      if index == head {
        return Fail(Diverges(head));
      }
    }
    r := Ok(Arr(list), index);
  }

  method MiniParse(json: string) returns (r: Parsed)
    ensures r == Document(json)
  {
    r := ParseValue(json, 0);
  }
}
