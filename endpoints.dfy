/** UnityMCPEndpoints: the HTTP front of the kernel. A request's method and
    path select one of eight routes; each route reads the log buffer, runs a
    command batch, takes a snapshot of the scene or validates a script path,
    and answers with the `{"ok":…,"data":…,"errors":[…]}` envelope of
    CreateResponse. The listener, the streams, the main-thread dispatcher
    and the play-mode background task are outside the model; the .NET
    services the handlers call (DateTime.TryParse, Convert.ToSingle,
    JsonUtility, exception messages) are parameters of the server. */
module Endpoints {
  import opened Wrappers
  import opened Text
  import MiniJson
  import JsonFacts
  import Commands
  import Hierarchy
  import Executor
  import Logs
  import Snapshot
  import ScriptWriter

  // ---------------------------------------------------------------------
  // Method and path

  /** ToUpperInvariant, on the ASCII letters. */
  function UpperAscii(s: string): (r: string)
    ensures |r| == |s|
    ensures forall k :: 0 <= k < |r| ==> !('a' <= r[k] <= 'z')
  {
    seq(|s|, k requires 0 <= k < |s| => if 'a' <= s[k] <= 'z' then (s[k] as int - 32) as char else s[k])
  }

  /** Each lowercase ASCII letter becomes the letter at the same place of
      the uppercase alphabet, and every other character is kept. */
  lemma UpperAsciiLetters(s: string)
    ensures forall k :: 0 <= k < |s| && 'a' <= s[k] <= 'z' ==>
              UpperAscii(s)[k] == "ABCDEFGHIJKLMNOPQRSTUVWXYZ"[s[k] as int - 'a' as int]
    ensures forall k :: 0 <= k < |s| && !('a' <= s[k] <= 'z') ==> UpperAscii(s)[k] == s[k]
  {
    forall k | 0 <= k < |s| && 'a' <= s[k] <= 'z'
      ensures UpperAscii(s)[k] == "ABCDEFGHIJKLMNOPQRSTUVWXYZ"[s[k] as int - 'a' as int]
    {
      var d := s[k] as int - 'a' as int;
      assert 0 <= d < 26;
    }
  }

  /** The request verb in upper case; a request without one counts as GET. */
  function MethodOf(httpMethod: Option<string>): string {
    if httpMethod.None? then "GET" else UpperAscii(httpMethod.value)
  }

  /** A verb sent in lower case is routed as its upper-case form. */
  lemma LowerCaseVerbRoutes()
    ensures MethodOf(Some("post")) == "POST"
    ensures MethodOf(None) == "GET"
    ensures RouteOf(MethodOf(Some("post")), "/command/apply") == CommandApply
    ensures RouteOf(MethodOf(Some("Get")), NormalizePath(Some("/logs/recent/"))) == LogsRecent
  {
    assert UpperAscii("post") == "POST";
    assert UpperAscii("Get") == "GET";
    assert TrimEnd("/logs/recent/", '/') == "/logs/recent" by {
      assert "/logs/recent/"[..|"/logs/recent/"| - 1] == "/logs/recent";
    }
  }

  /** The absolute path of the URL ("/" without one), with every trailing
      `/` trimmed and an empty result turned back into "/". */
  function NormalizePath(path: Option<string>): (r: string)
    ensures r != ""
    ensures r == "/" || r[|r| - 1] != '/'
    ensures path.Some? && r != "/" ==>
              (StartsWith(path.value, r) && forall k :: |r| <= k < |path.value| ==> path.value[k] == '/')
  {
    var p := TrimEnd(if path.Some? then path.value else "/", '/');
    if p == "" then "/" else p
  }

  /** Normalising a normalised path changes nothing, so "/logs/recent" and
      "/logs/recent///" reach the same handler. */
  lemma NormalizeIdempotent(path: Option<string>)
    ensures NormalizePath(Some(NormalizePath(path))) == NormalizePath(path)
  {
    var r := NormalizePath(path);
    if r == "/" {
      assert TrimEnd(r, '/') == TrimEnd(r[..0], '/');
    }
  }

  /** The handlers of ProcessRequest, in the order its if-chain tries them. */
  datatype Route =
    | LogsRecent | LogsCompiler | StateSnapshot | CommandApply
    | PlayRun | PlayLast | ScriptsWrite | CompilerErrors | NotFound

  /** The (method, path) pair a handler answers. */
  function RouteKey(route: Route): (r: (string, string))
    requires route != NotFound
  {
    match route
    case LogsRecent => ("GET", "/logs/recent")
    case LogsCompiler => ("GET", "/logs/compiler")
    case StateSnapshot => ("GET", "/state/snapshot")
    case CommandApply => ("POST", "/command/apply")
    case PlayRun => ("POST", "/play/run")
    case PlayLast => ("GET", "/play/last")
    case ScriptsWrite => ("POST", "/scripts/write")
    case CompilerErrors => ("GET", "/compiler/errors")
  }

  /** The if-chain of ProcessRequest: the first handler whose method and
      path both match, or NotFound. */
  function RouteOf(verb: string, path: string): (r: Route)
    ensures r != NotFound ==> RouteKey(r) == (verb, path)
  {
    if verb == "GET" && path == "/logs/recent" then LogsRecent
    else if verb == "GET" && path == "/logs/compiler" then LogsCompiler
    else if verb == "GET" && path == "/state/snapshot" then StateSnapshot
    else if verb == "POST" && path == "/command/apply" then CommandApply
    else if verb == "POST" && path == "/play/run" then PlayRun
    else if verb == "GET" && path == "/play/last" then PlayLast
    else if verb == "POST" && path == "/scripts/write" then ScriptsWrite
    else if verb == "GET" && path == "/compiler/errors" then CompilerErrors
    else NotFound
  }

  /** Every handler is reached by its own key. */
  lemma RouteKeyRoutes(route: Route)
    requires route != NotFound
    ensures RouteOf(RouteKey(route).0, RouteKey(route).1) == route
  {
  }

  /** A pair is routed nowhere exactly when it is the key of no handler. */
  lemma NotFoundIffNoKey(verb: string, path: string)
    ensures RouteOf(verb, path) == NotFound
            <==> forall route: Route :: route != NotFound ==> RouteKey(route) != (verb, path)
  {
    if RouteOf(verb, path) == NotFound {
      forall route: Route | route != NotFound
        ensures RouteKey(route) != (verb, path)
      {
        RouteKeyRoutes(route);
      }
    } else {
      assert RouteKey(RouteOf(verb, path)) == (verb, path);
    }
  }

  // ---------------------------------------------------------------------
  // The count parameter

  const Int32Min: int := -0x8000_0000
  const Int32Max: int := 0x7FFF_FFFF

  /** The white space NumberStyles.Integer allows around a number. */
  predicate IsNumberWhite(c: char) {
    c == ' ' || ('\t' <= c <= '\r')
  }

  function DropLeadingWhite(s: string): (r: string)
    ensures |r| <= |s| && r == s[|s| - |r|..]
    ensures r == [] || !IsNumberWhite(r[0])
    decreases |s|
  {
    if |s| > 0 && IsNumberWhite(s[0]) then DropLeadingWhite(s[1..]) else s
  }

  function DropTrailingWhite(s: string): (r: string)
    ensures |r| <= |s| && r == s[..|r|]
    ensures r == [] || !IsNumberWhite(r[|r| - 1])
    decreases |s|
  {
    if |s| > 0 && IsNumberWhite(s[|s| - 1]) then DropTrailingWhite(s[..|s| - 1]) else s
  }

  predicate AllDigits(s: string) {
    forall k :: 0 <= k < |s| ==> IsAsciiDigit(s[k])
  }

  /** The value of a run of decimal digits. */
  function DigitsValue(d: string): nat
    requires AllDigits(d)
    decreases |d|
  {
    if |d| == 0 then 0 else DigitsValue(d[..|d| - 1]) * 10 + (d[|d| - 1] as int - '0' as int)
  }

  /** int.TryParse(s, out c) with the invariant culture's signs: white space,
      an optional `+` or `-`, at least one digit, white space, and a value
      that fits an Int32. */
  function ParseInt32(s: string): (r: Option<int>)
    ensures r.Some? ==> Int32Min <= r.value <= Int32Max
  {
    var t := DropTrailingWhite(DropLeadingWhite(s));
    var negative := |t| > 0 && t[0] == '-';
    var d := if |t| > 0 && (t[0] == '-' || t[0] == '+') then t[1..] else t;
    if |d| == 0 || !AllDigits(d) then None
    else
      var n: int := DigitsValue(d);
      var v := if negative then -n else n;
      if Int32Min <= v <= Int32Max then Some(v) else None
  }

  lemma {:induction false} DigitsOfNat(n: nat)
    ensures AllDigits(NatToString(n)) && DigitsValue(NatToString(n)) == n
    decreases n
  {
    var s := NatToString(n);
    if n >= 10 {
      DigitsOfNat(n / 10);
      assert s[..|s| - 1] == NatToString(n / 10);
    }
  }

  /** int.TryParse reads back every Int32 as Int32.ToString writes it. */
  lemma ParseInt32RoundTrip(n: int)
    requires Int32Min <= n <= Int32Max
    ensures ParseInt32(IntToString(n)) == Some(n)
  {
    var s := IntToString(n);
    var m: nat := if n < 0 then -n else n;
    DigitsOfNat(m);
    var d := NatToString(m);
    assert s == (if n < 0 then "-" + d else d);
    assert s != [] && !IsNumberWhite(s[0]);
    assert DropLeadingWhite(s) == s;
    assert !IsNumberWhite(s[|s| - 1]) by {
      assert s[|s| - 1] == d[|d| - 1];
    }
    assert DropTrailingWhite(s) == s;
    if n < 0 {
      assert s[1..] == d;
    } else {
      assert s[0] != '-' && s[0] != '+' by {
        assert s[0] == d[0];
      }
    }
  }

  /** Mathf.Clamp(value, min, max) on integers. */
  function Clamp(value: int, min: int, max: int): int {
    if value < min then min else if value > max then max else value
  }

  /** The `count` query parameter of /logs/recent and /logs/compiler: 200
      unless a non-empty value parses, then that value clamped to
      [1, 2000]. */
  function CountParam(countStr: Option<string>): (r: int)
    ensures 1 <= r <= 2000
    ensures (countStr.None? || countStr.value == "" || ParseInt32(countStr.value).None?) ==> r == 200
  {
    if countStr.None? || countStr.value == "" then 200
    else
      match ParseInt32(countStr.value)
      case None => 200
      case Some(c) => Clamp(c, 1, 2000)
  }

  /** A count written as an Int32 is clamped to [1, 2000], and one already
      in range is used as it is. */
  lemma CountParamNumber(n: int)
    requires Int32Min <= n <= Int32Max
    ensures CountParam(Some(IntToString(n))) == Clamp(n, 1, 2000)
    ensures 1 <= n <= 2000 ==> CountParam(Some(IntToString(n))) == n
  {
    ParseInt32RoundTrip(n);
    var s := IntToString(n);
    assert s != "" by {
      assert |NatToString(if n < 0 then -n else n)| > 0;
    }
  }

  /** The name/value pairs of the URL's query string, in the order they
      are written. */
  type QueryString = seq<(string, string)>

  /** Two parameter names the query collection treats as one: equal up to
      the case of ASCII letters. */
  predicate SameName(a: string, b: string) {
    LowerAscii(a) == LowerAscii(b)
  }

  /** The values of the pairs named `key`, in order. */
  function QueryValues(query: QueryString, key: string): (r: seq<string>)
    ensures |r| <= |query|
    ensures forall v :: v in r <==> exists i :: 0 <= i < |query| && SameName(query[i].0, key) && query[i].1 == v
  {
    if |query| == 0 then []
    else
      var rest := QueryValues(query[1..], key);
      assert forall i :: 1 <= i < |query| ==> query[i] == query[1..][i - 1];
      if SameName(query[0].0, key) then [query[0].1] + rest else rest
  }

  /** request.QueryString[key]: null when no pair has that name up to
      case, otherwise the values of all such pairs joined with commas. */
  function Query(query: QueryString, key: string): Option<string> {
    var values := QueryValues(query, key);
    if values == [] then None else Some(Join(",", values))
  }

  /** A lookup finds a value exactly when some pair has the name up to
      case; a name written in other cases finds the same value; and a name
      written once finds its own value. */
  lemma QueryIgnoresCase(query: QueryString, key: string, other: string)
    ensures Query(query, key).Some? <==> exists i :: 0 <= i < |query| && SameName(query[i].0, key)
    ensures SameName(key, other) ==> Query(query, key) == Query(query, other)
    ensures forall i :: 0 <= i < |query| && SameName(query[i].0, key) ==>
              ((forall j :: 0 <= j < |query| && j != i ==> !SameName(query[j].0, key)) ==>
                 Query(query, key) == Some(query[i].1))
  {
    if exists i :: 0 <= i < |query| && SameName(query[i].0, key) {
      var i :| 0 <= i < |query| && SameName(query[i].0, key);
      assert query[i].1 in QueryValues(query, key);
    } else {
      ValuesNone(query, key);
    }
    if SameName(key, other) {
      ValuesSameName(query, key, other);
    }
    forall i | 0 <= i < |query| && SameName(query[i].0, key) &&
               (forall j :: 0 <= j < |query| && j != i ==> !SameName(query[j].0, key))
      ensures Query(query, key) == Some(query[i].1)
    {
      ValuesSingle(query, key, i);
    }
  }

  lemma {:induction false} ValuesSameName(query: QueryString, key: string, other: string)
    requires SameName(key, other)
    ensures QueryValues(query, key) == QueryValues(query, other)
    decreases |query|
  {
    if |query| > 0 {
      ValuesSameName(query[1..], key, other);
    }
  }

  lemma {:induction false} ValuesSingle(query: QueryString, key: string, i: int)
    requires 0 <= i < |query| && SameName(query[i].0, key)
    requires forall j :: 0 <= j < |query| && j != i ==> !SameName(query[j].0, key)
    ensures QueryValues(query, key) == [query[i].1]
    decreases |query|
  {
    if i == 0 {
      ValuesNone(query[1..], key);
    } else {
      assert !SameName(query[0].0, key);
      assert forall j :: 0 <= j < |query[1..]| && j != i - 1 ==> query[1..][j] == query[j + 1];
      ValuesSingle(query[1..], key, i - 1);
    }
  }

  lemma ValuesNone(query: QueryString, key: string)
    requires forall j :: 0 <= j < |query| ==> !SameName(query[j].0, key)
    ensures QueryValues(query, key) == []
  {
    if QueryValues(query, key) != [] {
      assert QueryValues(query, key)[0] in QueryValues(query, key);
    }
  }

  /** `?COUNT=5` and `?Clear=true` are read as the count and clear
      parameters, and a repeated parameter reads as its values joined. */
  lemma QueryExamples()
    ensures Query([("COUNT", "5")], "count") == Some("5")
    ensures Query([("Clear", "true")], "clear") == Some("true")
    ensures Query([("count", "5"), ("Count", "7")], "count") == Some("5,7")
    ensures Query([("since", "x")], "count") == None
  {
    assert LowerAscii("COUNT") == "count";
    assert LowerAscii("Clear") == "clear";
    assert LowerAscii("Count") == "count";
    assert LowerAscii("since") == "since";
    assert LowerAscii("count") == "count";
    assert LowerAscii("clear") == "clear";
    assert QueryValues([("count", "5"), ("Count", "7")], "count") == ["5", "7"] by {
      assert [("count", "5"), ("Count", "7")][1..] == [("Count", "7")];
      assert QueryValues([("Count", "7")], "count") == ["7"];
    }
    assert Join(",", ["5", "7"]) == "5,7" by {
      assert ["5", "7"][1..] == ["7"];
    }
  }

  // ---------------------------------------------------------------------
  // EscapeJsonString

  /** EscapeJsonString: null becomes the empty text; otherwise backslash,
      double quote, line feed, carriage return and tab are escaped, the
      backslash first. */
  function EscapeJsonString(s: Option<string>): (r: string)
    ensures s.None? ==> r == ""
  {
    if s.None? then ""
    else Replace(Replace(Replace(Replace(Replace(s.value, "\\", "\\\\"), "\"", "\\\""), "\n", "\\n"), "\r", "\\r"), "\t", "\\t")
  }

  /** What EscapeJsonString does to one character. */
  function EscapeChar(c: char): string {
    if c == '\\' then "\\\\"
    else if c == '"' then "\\\""
    else if c == '\n' then "\\n"
    else if c == '\r' then "\\r"
    else if c == '\t' then "\\t"
    else [c]
  }

  /** EscapeJsonString, character by character. */
  function Escaped(s: string): string
    decreases |s|
  {
    if s == [] then [] else EscapeChar(s[0]) + Escaped(s[1..])
  }

  /** The five Replace calls as substitutions. */
  function Stages(s: string): string {
    Subst(Subst(Subst(Subst(Subst(s, '\\', "\\\\"), '"', "\\\""), '\n', "\\n"), '\r', "\\r"), '\t', "\\t")
  }

  lemma StagesAppend(x: string, y: string)
    ensures Stages(x + y) == Stages(x) + Stages(y)
  {
    var a1 := Subst(x, '\\', "\\\\");
    var b1 := Subst(y, '\\', "\\\\");
    SubstAppend(x, y, '\\', "\\\\");
    var a2 := Subst(a1, '"', "\\\"");
    var b2 := Subst(b1, '"', "\\\"");
    SubstAppend(a1, b1, '"', "\\\"");
    var a3 := Subst(a2, '\n', "\\n");
    var b3 := Subst(b2, '\n', "\\n");
    SubstAppend(a2, b2, '\n', "\\n");
    var a4 := Subst(a3, '\r', "\\r");
    var b4 := Subst(b3, '\r', "\\r");
    SubstAppend(a3, b3, '\r', "\\r");
    SubstAppend(a4, b4, '\t', "\\t");
  }

  /** One character through the five substitutions: a two-character escape
      contains none of the later patterns. */
  lemma StagesOne(c: char)
    ensures Stages([c]) == EscapeChar(c)
  {
    SubstOne(c, '\\', "\\\\");
    if c == '\\' || c == '"' || c == '\n' || c == '\r' || c == '\t' {
      var e := EscapeChar(c);
      assert |e| == 2 && e[0] == '\\' && e[1] in "\\\"nrt";
      if c == '\\' {
        SubstAbsent(e, '"', "\\\"");
        SubstAbsent(e, '\n', "\\n");
        SubstAbsent(e, '\r', "\\r");
        SubstAbsent(e, '\t', "\\t");
      } else if c == '"' {
        SubstOne(c, '"', "\\\"");
        SubstAbsent(e, '\n', "\\n");
        SubstAbsent(e, '\r', "\\r");
        SubstAbsent(e, '\t', "\\t");
      } else if c == '\n' {
        SubstAbsent([c], '"', "\\\"");
        SubstOne(c, '\n', "\\n");
        SubstAbsent(e, '\r', "\\r");
        SubstAbsent(e, '\t', "\\t");
      } else if c == '\r' {
        SubstAbsent([c], '"', "\\\"");
        SubstAbsent([c], '\n', "\\n");
        SubstOne(c, '\r', "\\r");
        SubstAbsent(e, '\t', "\\t");
      } else {
        SubstAbsent([c], '"', "\\\"");
        SubstAbsent([c], '\n', "\\n");
        SubstAbsent([c], '\r', "\\r");
        SubstOne(c, '\t', "\\t");
      }
    } else {
      SubstAbsent([c], '"', "\\\"");
      SubstAbsent([c], '\n', "\\n");
      SubstAbsent([c], '\r', "\\r");
      SubstAbsent([c], '\t', "\\t");
    }
  }

  lemma {:induction false} StagesAreEscaped(s: string)
    ensures Stages(s) == Escaped(s)
    decreases |s|
  {
    if s != [] {
      assert s == [s[0]] + s[1..];
      StagesAppend([s[0]], s[1..]);
      StagesOne(s[0]);
      StagesAreEscaped(s[1..]);
    }
  }

  /** The chained ordinal Replace calls escape each character on its own:
      the backslash is doubled before any escape adds one. */
  lemma EscapeJsonStringPerChar(s: string)
    ensures EscapeJsonString(Some(s)) == Escaped(s)
  {
    var r1 := Replace(s, "\\", "\\\\");
    ReplaceOneChar(s, '\\', "\\\\");
    var r2 := Replace(r1, "\"", "\\\"");
    ReplaceOneChar(r1, '"', "\\\"");
    var r3 := Replace(r2, "\n", "\\n");
    ReplaceOneChar(r2, '\n', "\\n");
    var r4 := Replace(r3, "\r", "\\r");
    ReplaceOneChar(r3, '\r', "\\r");
    ReplaceOneChar(r4, '\t', "\\t");
    StagesAreEscaped(s);
  }

  lemma {:induction false} EscapedHasNoControl(s: string)
    ensures '\n' !in Escaped(s) && '\r' !in Escaped(s) && '\t' !in Escaped(s)
    decreases |s|
  {
    if s != [] {
      EscapedHasNoControl(s[1..]);
      assert Escaped(s) == EscapeChar(s[0]) + Escaped(s[1..]);
    }
  }

  /** The escaped text holds no raw line feed, carriage return or tab. */
  lemma EscapeJsonStringHasNoControl(s: Option<string>)
    ensures var r := EscapeJsonString(s);
            '\n' !in r && '\r' !in r && '\t' !in r
  {
    if s.Some? {
      EscapeJsonStringPerChar(s.value);
      EscapedHasNoControl(s.value);
    }
  }

  /** The decoding a JSON reader applies to the characters of a string
      literal, for the five escapes EscapeJsonString writes. */
  function JsonUnescape(t: string): string
    decreases |t|
  {
    if t == [] then []
    else if t[0] == '\\' && |t| >= 2 then
      [if t[1] == 'n' then '\n' else if t[1] == 'r' then '\r' else if t[1] == 't' then '\t' else t[1]]
      + JsonUnescape(t[2..])
    else [t[0]] + JsonUnescape(t[1..])
  }

  lemma {:induction false} UnescapeEscaped(s: string)
    ensures JsonUnescape(Escaped(s)) == s
    decreases |s|
  {
    if s != [] {
      var e := EscapeChar(s[0]);
      var t := Escaped(s);
      assert t == e + Escaped(s[1..]);
      UnescapeEscaped(s[1..]);
      if |e| == 2 {
        assert t[2..] == Escaped(s[1..]);
      } else {
        assert t[1..] == Escaped(s[1..]);
      }
      assert [s[0]] + s[1..] == s;
    }
  }

  /** A JSON reader gets every string back from EscapeJsonString. */
  lemma EscapeJsonStringRoundTrip(s: string)
    ensures JsonUnescape(EscapeJsonString(Some(s))) == s
  {
    EscapeJsonStringPerChar(s);
    UnescapeEscaped(s);
  }

  /** Without line feeds, carriage returns and tabs, EscapeJsonString
      writes what the executor's and the snapshot's Escape write. */
  lemma EscapeJsonStringAgreesWithEscape(s: string)
    requires '\n' !in s && '\r' !in s && '\t' !in s
    ensures EscapeJsonString(Some(s)) == MiniJson.Escape(s)
  {
    var e := MiniJson.Escape(s);
    var s1 := Replace(s, "\\", "\\\\");
    ReplaceOneChar(s, '\\', "\\\\");
    ReplaceOneChar(s1, '"', "\\\"");
    forall x | x in e
      ensures x != '\n' && x != '\r' && x != '\t'
    {
      SubstMembers(Subst(s, '\\', "\\\\"), '"', "\\\"", x);
      if x in Subst(s, '\\', "\\\\") {
        SubstMembers(s, '\\', "\\\\", x);
      }
    }
    ReplaceOneChar(e, '\n', "\\n");
    SubstAbsent(e, '\n', "\\n");
    ReplaceOneChar(e, '\r', "\\r");
    SubstAbsent(e, '\r', "\\r");
    ReplaceOneChar(e, '\t', "\\t");
    SubstAbsent(e, '\t', "\\t");
  }

  /** The literal EscapeJsonString writes, as MiniJson reads it anywhere in
      a response: a text with no line feed, carriage return or tab, and no
      trailing backslash, comes back unchanged. */
  lemma EscapedLiteralReadsBack(pre: string, s: string, post: string)
    requires '\n' !in s && '\r' !in s && '\t' !in s
    requires s == [] || s[|s| - 1] != '\\'
    ensures var json := pre + "\"" + EscapeJsonString(Some(s)) + "\"" + post;
            |pre| < |json| && MiniJson.StringAt(json, |pre|) == MiniJson.Scanned(s, |pre| + |EscapeJsonString(Some(s))| + 2)
  {
    EscapeJsonStringAgreesWithEscape(s);
    JsonFacts.QuotedInContext(pre, s, post);
    assert pre + "\"" + EscapeJsonString(Some(s)) + "\"" + post == pre + MiniJson.Quoted(s) + post;
  }

  // ---------------------------------------------------------------------
  // CreateResponse

  /** One element of the errors array. */
  function ErrorLiteral(e: string): string {
    "\"" + EscapeJsonString(Some(e)) + "\""
  }

  function ErrorLiterals(errors: seq<string>): (r: seq<string>)
    ensures |r| == |errors|
    decreases |errors|
  {
    if errors == [] then [] else ErrorLiterals(errors[..|errors| - 1]) + [ErrorLiteral(errors[|errors| - 1])]
  }

  lemma ErrorLiteralsSnoc(errors: seq<string>, i: nat)
    requires i < |errors|
    ensures ErrorLiterals(errors[..i + 1]) == ErrorLiterals(errors[..i]) + [ErrorLiteral(errors[i])]
  {
    assert errors[..i + 1][..i] == errors[..i];
  }

  /** The errors array: `[]` for null and for no errors. */
  function ErrorsArray(errors: Option<seq<string>>): string {
    if errors.None? || errors.value == [] then "[]" else "[" + Join(",", ErrorLiterals(errors.value)) + "]"
  }

  /** The envelope up to the errors array. */
  function EnvelopeHead(ok: bool, data: string): string {
    "{\"ok\":" + (if ok then "true" else "false")
      + ",\"data\":" + (if data == "" then "{}" else data)
      + ",\"errors\":"
  }

  /** What CreateResponse(ok, validJsonData, errors) returns. */
  function Envelope(ok: bool, data: string, errors: Option<seq<string>>): string {
    EnvelopeHead(ok, data) + ErrorsArray(errors) + "}"
  }

  lemma SingleErrorShape(head: string, quote: string, e: string)
    ensures head + ("[" + (quote + e + quote) + "]") + "}" == (head + "[") + quote + e + quote + ("]" + "}")
  {
  }

  /** The envelope of a reply with one error: the message is the first
      element of the errors array, and MiniJson reads it back at the
      quote that opens it. */
  lemma SingleErrorReadsBack(ok: bool, data: string, message: string)
    requires '\n' !in message && '\r' !in message && '\t' !in message
    requires message == [] || message[|message| - 1] != '\\'
    ensures var head := EnvelopeHead(ok, data) + "[";
            var json := Envelope(ok, data, Some([message]));
            |head| < |json| && json[..|head|] == head
            && MiniJson.StringAt(json, |head|) == MiniJson.Scanned(message, |json| - 2)
  {
    var head := EnvelopeHead(ok, data);
    var e := EscapeJsonString(Some(message));
    var literal := ErrorLiteral(message);
    assert ErrorLiterals([message]) == [literal];
    assert ErrorsArray(Some([message])) == "[" + literal + "]";
    SingleErrorShape(head, "\"", e);
    EscapedLiteralReadsBack(head + "[", message, "]" + "}");
  }

  /** CreateResponse: the errors are written in order, comma-separated,
      each escaped and quoted. */
  method CreateResponse(ok: bool, validJsonData: string, errors: Option<seq<string>>) returns (r: string)
    ensures r == Envelope(ok, validJsonData, errors)
  {
    var data := validJsonData;
    if data == "" {
      data := "{}";
    }
    var errorsJson := "[]";
    if errors.Some? && |errors.value| > 0 {
      errorsJson := ErrorsJson(errors.value);
    }
    r := "{\"ok\":" + (if ok then "true" else "false") + ",\"data\":" + data + ",\"errors\":" + errorsJson + "}";
  }

  /** The StringBuilder loop of CreateResponse: a comma after every error
      but the last. */
  method ErrorsJson(es: seq<string>) returns (json: string)
    requires |es| > 0
    ensures json == ErrorsArray(Some(es))
  {
    var sb := "[";
    var i := 0;
    while i < |es|
      invariant 0 <= i <= |es|
      invariant sb == "[" + Join(",", ErrorLiterals(es[..i])) + (if 0 < i < |es| then "," else "")
    {
      var literal := "\"" + EscapeJsonString(Some(es[i])) + "\"";
      CommaStep("[", ErrorLiterals(es[..i]), literal, |es|, sb);
      ErrorLiteralsSnoc(es, i);
      sb := sb + literal;
      if i < |es| - 1 {
        sb := sb + ",";
      }
      i := i + 1;
    }
    assert es[..|es|] == es;
    json := sb + "]";
  }

  // ---------------------------------------------------------------------
  // Log listings

  /** The compiler-error test of /logs/compiler and /compiler/errors. */
  predicate IsCompilerError(e: Logs.LogEntry) {
    e.kind == "Error"
    && (Contains(e.message, "error CS") || Contains(e.message, "Compilation failed")
        || (Contains(e.message, "Assets/") && Contains(e.message, ".cs(")))
  }

  /** The timestamp alone does not decide: a script error with its file and
      line is reported, the same text logged as a warning is not. */
  lemma CompilerErrorByLocation(ts: string, path: string, rest: string, trace: string)
    ensures IsCompilerError(Logs.LogEntry(ts, "Error", "Assets/" + path + ".cs(" + rest, trace))
    ensures !IsCompilerError(Logs.LogEntry(ts, "Warning", "Assets/" + path + ".cs(" + rest, trace))
  {
    var m := "Assets/" + path + ".cs(" + rest;
    assert OccursAt(m, "Assets/", 0);
    assert OccursAt(m, ".cs(", 7 + |path|) by {
      assert m[7 + |path|..7 + |path| + 4] == ".cs(";
    }
  }

  /** The entry filter of both compiler-error listings, in log order. */
  function CompilerErrorsOf(entries: seq<Logs.LogEntry>): seq<Logs.LogEntry>
    decreases |entries|
  {
    if entries == [] then []
    else
      var last := entries[|entries| - 1];
      CompilerErrorsOf(entries[..|entries| - 1]) + (if IsCompilerError(last) then [last] else [])
  }

  lemma {:induction false} CompilerErrorsMembers(entries: seq<Logs.LogEntry>, e: Logs.LogEntry)
    ensures e in CompilerErrorsOf(entries) <==> e in entries && IsCompilerError(e)
    decreases |entries|
  {
    if entries != [] {
      var init := entries[..|entries| - 1];
      CompilerErrorsMembers(init, e);
      assert entries == init + [entries[|entries| - 1]];
    }
  }

  /** Filtering a concatenation filters each part: the listing keeps the
      order of the log. */
  lemma {:induction false} CompilerErrorsAppend(a: seq<Logs.LogEntry>, b: seq<Logs.LogEntry>)
    ensures CompilerErrorsOf(a + b) == CompilerErrorsOf(a) + CompilerErrorsOf(b)
    decreases |b|
  {
    if b == [] {
      assert a + b == a;
    } else {
      var init := b[..|b| - 1];
      assert (a + b)[..|a + b| - 1] == a + init;
      CompilerErrorsAppend(a, init);
    }
  }

  lemma CompilerErrorsPrefix(entries: seq<Logs.LogEntry>, i: nat)
    requires i < |entries|
    ensures CompilerErrorsOf(entries[..i + 1])
            == CompilerErrorsOf(entries[..i]) + (if IsCompilerError(entries[i]) then [entries[i]] else [])
  {
    assert entries[..i + 1][..i] == entries[..i];
  }

  /** One entry of /logs/recent. The timestamp and the type are written as
      they are. */
  function LogText(e: Logs.LogEntry): string {
    "{" + "\"timestamp\":\"" + e.timestamp + "\","
      + "\"type\":\"" + e.kind + "\","
      + "\"message\":\"" + EscapeJsonString(Some(e.message)) + "\","
      + "\"stackTrace\":\"" + EscapeJsonString(Some(e.stackTrace)) + "\""
      + "}"
  }

  /** One entry of /logs/compiler and /compiler/errors: no type. */
  function ErrorText(e: Logs.LogEntry): string {
    "{" + "\"timestamp\":\"" + e.timestamp + "\","
      + "\"message\":\"" + EscapeJsonString(Some(e.message)) + "\","
      + "\"stackTrace\":\"" + EscapeJsonString(Some(e.stackTrace)) + "\""
      + "}"
  }

  function LogTexts(entries: seq<Logs.LogEntry>): (r: seq<string>)
    ensures |r| == |entries|
    decreases |entries|
  {
    if entries == [] then [] else LogTexts(entries[..|entries| - 1]) + [LogText(entries[|entries| - 1])]
  }

  function ErrorTexts(entries: seq<Logs.LogEntry>): (r: seq<string>)
    ensures |r| == |entries|
    decreases |entries|
  {
    if entries == [] then [] else ErrorTexts(entries[..|entries| - 1]) + [ErrorText(entries[|entries| - 1])]
  }

  lemma LogTextsSnoc(entries: seq<Logs.LogEntry>, i: nat)
    requires i < |entries|
    ensures LogTexts(entries[..i + 1]) == LogTexts(entries[..i]) + [LogText(entries[i])]
  {
    assert entries[..i + 1][..i] == entries[..i];
  }

  lemma ErrorTextsSnoc(entries: seq<Logs.LogEntry>, e: Logs.LogEntry)
    ensures ErrorTexts(entries + [e]) == ErrorTexts(entries) + [ErrorText(e)]
  {
    assert (entries + [e])[..|entries|] == entries;
  }

  /** One turn of a listing loop with a `first` flag. */
  lemma ListingStep(head: string, listed: seq<Logs.LogEntry>, entry: Logs.LogEntry, first: bool, sb: string)
    requires first <==> listed == []
    requires sb == head + Join(",", ErrorTexts(listed))
    ensures (if !first then sb + "," else sb) + ErrorText(entry) == head + Join(",", ErrorTexts(listed + [entry]))
  {
    ErrorTextsSnoc(listed, entry);
    JoinStep(head, ErrorTexts(listed), ErrorTexts(listed + [entry]), ErrorText(entry), |listed|, sb);
  }

  function RecentLogsText(logs: seq<Logs.LogEntry>): string {
    "{\"logs\":[" + Join(",", LogTexts(logs)) + "]}"
  }

  function CompilerLogsText(logs: seq<Logs.LogEntry>): string {
    "{\"compilerErrors\":[" + Join(",", ErrorTexts(CompilerErrorsOf(logs))) + "]}"
  }

  /** The listing of /logs/recent: a comma after every entry but the last. */
  method RecentLogsJson(logs: seq<Logs.LogEntry>) returns (json: string)
    ensures json == RecentLogsText(logs)
  {
    var head := "{\"logs\":[";
    var sb := head;
    var i := 0;
    while i < |logs|
      invariant 0 <= i <= |logs|
      invariant sb == head + Join(",", LogTexts(logs[..i])) + (if 0 < i < |logs| then "," else "")
    {
      var entry := logs[i];
      var item := "{";
      item := item + "\"timestamp\":\"" + entry.timestamp + "\",";
      item := item + "\"type\":\"" + entry.kind + "\",";
      item := item + "\"message\":\"" + EscapeJsonString(Some(entry.message)) + "\",";
      item := item + "\"stackTrace\":\"" + EscapeJsonString(Some(entry.stackTrace)) + "\"";
      item := item + "}";
      CommaStep(head, LogTexts(logs[..i]), item, |logs|, sb);
      LogTextsSnoc(logs, i);
      sb := sb + item;
      if i < |logs| - 1 {
        sb := sb + ",";
      }
      i := i + 1;
    }
    assert logs[..|logs|] == logs;
    json := sb + "]}";
  }

  /** A listing of compiler errors with the `first` flag. */
  method CompilerLogsJson(logs: seq<Logs.LogEntry>) returns (json: string)
    ensures json == CompilerLogsText(logs)
  {
    var head := "{\"compilerErrors\":[";
    var sb := head;
    var first := true;
    for i := 0 to |logs|
      invariant first <==> CompilerErrorsOf(logs[..i]) == []
      invariant sb == head + Join(",", ErrorTexts(CompilerErrorsOf(logs[..i])))
    {
      CompilerErrorsPrefix(logs, i);
      var entry := logs[i];
      if IsCompilerError(entry) {
        var listed := CompilerErrorsOf(logs[..i]);
        ListingStep(head, listed, entry, first, sb);
        if !first {
          sb := sb + ",";
        }
        first := false;
        var item := "{";
        item := item + "\"timestamp\":\"" + entry.timestamp + "\",";
        item := item + "\"message\":\"" + EscapeJsonString(Some(entry.message)) + "\",";
        item := item + "\"stackTrace\":\"" + EscapeJsonString(Some(entry.stackTrace)) + "\"";
        item := item + "}";
        assert item == ErrorText(entry);
        sb := sb + item;
        assert CompilerErrorsOf(logs[..i + 1]) == listed + [entry];
      } else {
        assert CompilerErrorsOf(logs[..i + 1]) == CompilerErrorsOf(logs[..i]);
      }
    }
    assert logs[..|logs|] == logs;
    json := sb + "]}";
  }

  // ---------------------------------------------------------------------
  // The since filter of /compiler/errors

  /** `since`: DateTime.MinValue unless the parameter is non-empty and
      parses; a failed TryParse also leaves MinValue behind. Times are
      ticks, with MinValue as 0. */
  function SinceOf(sinceStr: Option<string>, parseTime: string -> Option<nat>): nat {
    if sinceStr.None? || sinceStr.value == "" then 0
    else match parseTime(sinceStr.value)
      case Some(t) => t
      case None => 0
  }

  /** The `continue` of the loop: an entry whose timestamp parses to a time
      at or before `since` is skipped; one whose timestamp does not parse
      is kept. */
  predicate IsSkipped(e: Logs.LogEntry, since: nat, parseTime: string -> Option<nat>) {
    parseTime(e.timestamp).Some? && parseTime(e.timestamp).value <= since
  }

  /** The compiler errors logged after `since`, in log order. */
  function ErrorsSince(entries: seq<Logs.LogEntry>, since: nat, parseTime: string -> Option<nat>): seq<Logs.LogEntry>
    decreases |entries|
  {
    if entries == [] then []
    else
      var last := entries[|entries| - 1];
      ErrorsSince(entries[..|entries| - 1], since, parseTime)
        + (if !IsSkipped(last, since, parseTime) && IsCompilerError(last) then [last] else [])
  }

  /** An entry is reported exactly when it is a compiler error that is not
      skipped; in particular one with an unparseable timestamp is reported
      whatever `since` is. */
  lemma {:induction false} ErrorsSinceMembers(entries: seq<Logs.LogEntry>, since: nat, parseTime: string -> Option<nat>, e: Logs.LogEntry)
    ensures e in ErrorsSince(entries, since, parseTime)
            <==> e in CompilerErrorsOf(entries) && !IsSkipped(e, since, parseTime)
    ensures parseTime(e.timestamp).None? ==>
            (e in ErrorsSince(entries, since, parseTime) <==> e in CompilerErrorsOf(entries))
    decreases |entries|
  {
    if entries != [] {
      ErrorsSinceMembers(entries[..|entries| - 1], since, parseTime, e);
    }
  }

  lemma ErrorsSincePrefix(entries: seq<Logs.LogEntry>, i: nat, since: nat, parseTime: string -> Option<nat>)
    requires i < |entries|
    ensures ErrorsSince(entries[..i + 1], since, parseTime)
            == ErrorsSince(entries[..i], since, parseTime)
               + (if !IsSkipped(entries[i], since, parseTime) && IsCompilerError(entries[i]) then [entries[i]] else [])
  {
    assert entries[..i + 1][..i] == entries[..i];
  }

  function ErrorsSinceText(logs: seq<Logs.LogEntry>, since: nat, parseTime: string -> Option<nat>): string {
    "{\"errors\":[" + Join(",", ErrorTexts(ErrorsSince(logs, since, parseTime))) + "]}"
  }

  /** The foreach loop of /compiler/errors with its `continue`. */
  method ErrorsSinceJson(logs: seq<Logs.LogEntry>, since: nat, parseTime: string -> Option<nat>) returns (json: string)
    ensures json == ErrorsSinceText(logs, since, parseTime)
  {
    var head := "{\"errors\":[";
    var sb := head;
    var first := true;
    for i := 0 to |logs|
      invariant first <==> ErrorsSince(logs[..i], since, parseTime) == []
      invariant sb == head + Join(",", ErrorTexts(ErrorsSince(logs[..i], since, parseTime)))
    {
      ErrorsSincePrefix(logs, i, since, parseTime);
      var entry := logs[i];
      var entryTime := parseTime(entry.timestamp);
      if entryTime.Some? && entryTime.value <= since {
        assert IsSkipped(entry, since, parseTime);
        assert ErrorsSince(logs[..i + 1], since, parseTime) == ErrorsSince(logs[..i], since, parseTime);
        continue;
      }
      var listed := ErrorsSince(logs[..i], since, parseTime);
      if IsCompilerError(entry) {
        ListingStep(head, listed, entry, first, sb);
        if !first {
          sb := sb + ",";
        }
        first := false;
        var item := "{";
        item := item + "\"timestamp\":\"" + entry.timestamp + "\",";
        item := item + "\"message\":\"" + EscapeJsonString(Some(entry.message)) + "\",";
        item := item + "\"stackTrace\":\"" + EscapeJsonString(Some(entry.stackTrace)) + "\"";
        item := item + "}";
        assert item == ErrorText(entry);
        sb := sb + item;
        assert ErrorsSince(logs[..i + 1], since, parseTime) == listed + [entry];
      } else {
        assert ErrorsSince(logs[..i + 1], since, parseTime) == listed;
      }
    }
    assert logs[..|logs|] == logs;
    json := sb + "]}";
  }

  // ---------------------------------------------------------------------
  // /command/apply, /play/run, /scripts/write

  /** The data of a successful /command/apply: the request id comes first,
      and only when it is not null or empty. */
  function ApplyData(requestId: Option<string>, created: string): string {
    (if Executor.IsNullOrEmpty(requestId) then "{" else "{" + "\"requestId\":" + "\"" + EscapeJsonString(requestId) + "\"" + ",")
      + "\"created\":" + created + "}"
  }

  /** Without a request id the data holds only the created map; with one,
      the id is echoed first and MiniJson reads it back unchanged (for an
      id with no control character and no trailing backslash). */
  lemma RequestIdEcho(requestId: Option<string>, created: string)
    ensures Executor.IsNullOrEmpty(requestId) ==> ApplyData(requestId, created) == "{\"created\":" + created + "}"
    ensures !Executor.IsNullOrEmpty(requestId) && '\n' !in requestId.value && '\r' !in requestId.value
            && '\t' !in requestId.value && requestId.value[|requestId.value| - 1] != '\\' ==>
            var d := ApplyData(requestId, created);
            StartsWith(d, "{\"requestId\":") && 13 < |d|
            && MiniJson.StringAt(d, 13) == MiniJson.Scanned(requestId.value, 15 + |EscapeJsonString(requestId)|)
  {
    if !Executor.IsNullOrEmpty(requestId) && '\n' !in requestId.value && '\r' !in requestId.value
       && '\t' !in requestId.value && requestId.value[|requestId.value| - 1] != '\\' {
      var id := requestId.value;
      var e := EscapeJsonString(requestId);
      var pre := "{" + "\"requestId\":";
      assert pre == "{\"requestId\":";
      var d := ApplyData(requestId, created);
      assert d == pre + "\"" + e + "\"" + "," + "\"created\":" + created + "}";
      Regroup(pre + "\"" + e + "\"", ",", "\"created\":", created, "}");
      Regroup(pre, "\"", e, "\"", "," + "\"created\":" + created + "}");
      EscapedLiteralReadsBack(pre, id, "," + "\"created\":" + created + "}");
    }
  }

  /** What Convert.ToSingle followed by the (int) cast makes of the
      `seconds` value: a whole number of seconds, or the exception's message. */
  datatype Converted = Seconds(n: int) | Throws(message: string)

  /** The play time of /play/run: 2 unless the body is an object with a
      `seconds` field, and never less than 1. */
  function PlaySeconds(doc: MiniJson.Value, toSeconds: MiniJson.Value -> Converted): (r: Converted)
    ensures r.Seconds? ==> r.n >= 1
    ensures !(doc.Obj? && "seconds" in doc.fields) ==> r == Seconds(2)
    ensures doc.Obj? && "seconds" in doc.fields && toSeconds(doc.fields["seconds"]).Seconds? ==>
            r == Seconds(if toSeconds(doc.fields["seconds"]).n < 1 then 1 else toSeconds(doc.fields["seconds"]).n)
  {
    if doc.Obj? && "seconds" in doc.fields then
      match toSeconds(doc.fields["seconds"])
      case Throws(m) => Throws(m)
      case Seconds(n) => Seconds(if n < 1 then 1 else n)
    else Seconds(2)
  }

  /** What JsonUtility.FromJson<ScriptWriteRequest> makes of the body: the
      two fields, a null object, or an exception's message. */
  datatype ScriptRead = ScriptFields(path: Option<string>, content: Option<string>) | NullRequest | Unreadable(message: string)

  const RequiredMessage: string := "Invalid request: path and content are required."

  // ---------------------------------------------------------------------
  // The server

  datatype Reply = Reply(status: int, body: string)

  /** The host services a handler calls that the model does not reproduce. */
  datatype Environment = Environment(
    platform: ScriptWriter.Platform,
    transforms: Hierarchy.Handle -> Snapshot.TransformText,
    parseTime: string -> Option<nat>,
    exceptionMessage: Commands.DecodeError -> string,
    toSeconds: MiniJson.Value -> Converted,
    readScript: string -> ScriptRead)

  /** What the handlers read and change: the log buffer's entries, the
      executor's state and the "UnityMCP_PlayResult" session value. */
  datatype World = World(entries: seq<Logs.LogEntry>, engine: Executor.State, playResult: string)

  /** An HTTP request reduced to what ProcessRequest reads. */
  datatype Request = Request(httpMethod: Option<string>, path: Option<string>, query: QueryString, body: string)

  function Failure(status: int, message: string): Reply {
    Reply(status, Envelope(false, "{}", Some([message])))
  }

  function Success(data: string): Reply {
    Reply(200, Envelope(true, data, None))
  }

  function RecentLogsReply(entries: seq<Logs.LogEntry>, query: QueryString): Reply {
    Success(RecentLogsText(Logs.Recent(entries, CountParam(Query(query, "count")))))
  }

  function CompilerLogsReply(entries: seq<Logs.LogEntry>, query: QueryString): Reply {
    Success(CompilerLogsText(Logs.Recent(entries, CountParam(Query(query, "count")))))
  }

  /** /compiler/errors: the reply, and the entries left in the buffer. */
  function CompilerErrorsReply(env: Environment, entries: seq<Logs.LogEntry>, query: QueryString): (Reply, seq<Logs.LogEntry>) {
    var since := SinceOf(Query(query, "since"), env.parseTime);
    var text := ErrorsSinceText(Logs.Recent(entries, Logs.MaxLogs), since, env.parseTime);
    (Success(text), if Query(query, "clear") == Some("true") then [] else entries)
  }

  /** `?COUNT=5` lists five entries, and `?Clear=true` empties the
      buffer: the parameter names are matched without regard to case. */
  lemma ParameterNamesIgnoreCase(env: Environment, entries: seq<Logs.LogEntry>)
    ensures RecentLogsReply(entries, [("COUNT", "5")]) == Success(RecentLogsText(Logs.Recent(entries, 5)))
    ensures CompilerErrorsReply(env, entries, [("Clear", "true")]).1 == []
  {
    QueryExamples();
    CountParamNumber(5);
    assert IntToString(5) == "5";
  }

  function SnapshotReply(env: Environment, scene: Hierarchy.Scene): Reply
    requires Hierarchy.Valid(scene)
  {
    Success("{\"snapshot\":" + Snapshot.SnapshotText(scene.name, Snapshot.Collected(scene, env.transforms)) + "}")
  }

  /** /command/apply: a body Parse rejects is a 400 and runs nothing (a
      `Diverges` parse stands for the OutOfMemoryException the runaway
      array ends in, caught like any other); otherwise the batch runs and
      its outcome is a 200 or a 500. */
  function ApplyReply(env: Environment, host: Executor.Host, st: Executor.State, body: string): (r: (Reply, Executor.State))
    requires Hierarchy.Valid(st.scene)
  {
    match Commands.Decode(body)
    case Rejected(e) => (Failure(400, "Invalid JSON: " + env.exceptionMessage(e)), st)
    case Decoded(request) =>
      var outcome := Executor.Batch(host, st.scene, request.commands);
      match outcome.0
      case Done(created) => (Success(ApplyData(request.requestId, created)), outcome.1)
      case Failed(m) => (Failure(500, m), outcome.1)
  }

  /** A runaway array body is answered as the exception it ends in: a 400
      on /command/apply that runs nothing, a 500 on /play/run that keeps
      the play result. */
  lemma RunawayArrayAnswered(env: Environment, host: Executor.Host, st: Executor.State, playResult: string)
    requires Hierarchy.Valid(st.scene)
    ensures var e := Commands.Malformed(MiniJson.Diverges(1));
            && ApplyReply(env, host, st, "[x]") == (Failure(400, "Invalid JSON: " + env.exceptionMessage(e)), st)
            && PlayRunReply(env, playResult, "[x]") == (Failure(500, env.exceptionMessage(e)), playResult)
  {
    JsonFacts.UnsupportedTokenInArrayDiverges();
  }

  /** /play/run: the reply, and the session value left behind (cleared
      whenever the play run starts). */
  function PlayRunReply(env: Environment, playResult: string, body: string): (Reply, string) {
    match MiniJson.Document(body)
    case Fail(e) => (Failure(500, env.exceptionMessage(Commands.Malformed(e))), playResult)
    case Ok(doc, _) =>
      match PlaySeconds(doc, env.toSeconds)
      case Throws(m) => (Failure(500, m), playResult)
      case Seconds(_) => (Success("{\"started\":true}"), "")
  }

  function PlayLastReply(playResult: string): Reply {
    Success("{\"exceptions\":" + (if playResult == "" then "[]" else playResult) + "}")
  }

  /** /scripts/write, up to the file and asset work. */
  function ScriptsWriteReply(env: Environment, body: string): Reply {
    match env.readScript(body)
    case Unreadable(m) => Failure(500, m)
    case NullRequest => Failure(500, RequiredMessage)
    case ScriptFields(path, content) =>
      if Executor.IsNullOrEmpty(path) || Executor.IsNullOrEmpty(content) then Failure(500, RequiredMessage)
      else
        match ScriptWriter.AssetPath(env.platform, path)
        case Refused(m) => Failure(500, m)
        case Accepted(assetPath) => Success("{\"assetPath\":\"" + EscapeJsonString(Some(assetPath)) + "\"}")
  }

  function RouteOfRequest(req: Request): Route {
    RouteOf(MethodOf(req.httpMethod), NormalizePath(req.path))
  }

  /** ProcessRequest: the reply to one request and the world after it. */
  function Serve(env: Environment, host: Executor.Host, w: World, req: Request): (r: (Reply, World))
    requires Hierarchy.Valid(w.engine.scene)
  {
    match RouteOfRequest(req)
    case LogsRecent => (RecentLogsReply(w.entries, req.query), w)
    case LogsCompiler => (CompilerLogsReply(w.entries, req.query), w)
    case StateSnapshot => (SnapshotReply(env, w.engine.scene), w)
    case CommandApply =>
      var (reply, st) := ApplyReply(env, host, w.engine, req.body);
      (reply, w.(engine := st))
    case PlayRun =>
      var (reply, played) := PlayRunReply(env, w.playResult, req.body);
      (reply, w.(playResult := played))
    case PlayLast => (PlayLastReply(w.playResult), w)
    case ScriptsWrite => (ScriptsWriteReply(env, req.body), w)
    case CompilerErrors =>
      var (reply, left) := CompilerErrorsReply(env, w.entries, req.query);
      (reply, w.(entries := left))
    case NotFound => (Failure(404, "Endpoint not found"), w)
  }

  /** Which requests change what: only /compiler/errors with `clear=true`
      empties the log buffer, only /command/apply changes the executor's
      state, only /play/run touches the session value. */
  lemma ServeChangesOnlyItsOwnPart(env: Environment, host: Executor.Host, w: World, req: Request)
    requires Hierarchy.Valid(w.engine.scene)
    ensures var after := Serve(env, host, w, req).1;
            var route := RouteOfRequest(req);
            && (after.entries == if route == CompilerErrors && Query(req.query, "clear") == Some("true") then [] else w.entries)
            && (route != CommandApply ==> after.engine == w.engine)
            && (route != PlayRun ==> after.playResult == w.playResult)
  {
    match RouteOfRequest(req)
    case CommandApply =>
      var (reply, st) := ApplyReply(env, host, w.engine, req.body);
      assert Serve(env, host, w, req).1 == w.(engine := st);
    case PlayRun =>
      var (reply, played) := PlayRunReply(env, w.playResult, req.body);
      assert Serve(env, host, w, req).1 == w.(playResult := played);
    case CompilerErrors =>
      var (reply, left) := CompilerErrorsReply(env, w.entries, req.query);
      assert Serve(env, host, w, req).1 == w.(entries := left);
    case _ =>
  }

  /** A request no handler answers is a 404 "Endpoint not found" that
      changes nothing. */
  lemma UnknownEndpoint(env: Environment, host: Executor.Host, w: World, req: Request)
    requires Hierarchy.Valid(w.engine.scene)
    requires RouteOfRequest(req) == NotFound
    ensures Serve(env, host, w, req) == (Failure(404, "Endpoint not found"), w)
  {
  }

  /** The one error a client reads from that 404 is "Endpoint not found". */
  lemma NotFoundReadsBack()
    ensures var reply := Failure(404, "Endpoint not found");
            && reply.status == 404
            && var at := |EnvelopeHead(false, "{}")| + 1;
               at < |reply.body| && MiniJson.StringAt(reply.body, at).text == "Endpoint not found"
  {
    var m := "Endpoint not found";
    assert '\n' !in m && '\r' !in m && '\t' !in m && m[|m| - 1] != '\\';
    FailureReadsBack(404, m);
  }

  /** The one error of a failure reply reads back as its message. */
  lemma FailureReadsBack(status: int, m: string)
    requires '\n' !in m && '\r' !in m && '\t' !in m && (m == [] || m[|m| - 1] != '\\')
    ensures var reply := Failure(status, m);
            && reply.status == status
            && var at := |EnvelopeHead(false, "{}")| + 1;
               at < |reply.body| && MiniJson.StringAt(reply.body, at).text == m
  {
    SingleErrorReadsBack(false, "{}", m);
  }

  /** The kernel's server: the log buffer, the command executor and the
      editor session value the play endpoints share. */
  class Server {
    const env: Environment
    const logs: Logs.LogBuffer
    const engine: Executor.Engine
    var playResult: string

    ghost predicate Valid()
      reads this, logs, engine
    {
      logs.Valid() && engine.Valid()
    }

    function State(): World
      reads this, logs, engine
    {
      World(logs.entries, engine.Current(), playResult)
    }

    constructor (env: Environment, logs: Logs.LogBuffer, engine: Executor.Engine)
      requires logs.Valid() && engine.Valid()
      ensures Valid()
      ensures this.env == env && this.logs == logs && this.engine == engine && playResult == ""
    {
      this.env := env;
      this.logs := logs;
      this.engine := engine;
      playResult := "";
    }

    method LogsRecentHandler(query: QueryString) returns (reply: Reply)
      ensures reply == RecentLogsReply(logs.entries, query)
    {
      var count := CountParam(Query(query, "count"));
      var window := logs.GetRecent(count);
      var data := RecentLogsJson(window);
      var body := CreateResponse(true, data, None);
      reply := Reply(200, body);
    }

    method LogsCompilerHandler(query: QueryString) returns (reply: Reply)
      ensures reply == CompilerLogsReply(logs.entries, query)
    {
      var count := CountParam(Query(query, "count"));
      var window := logs.GetRecent(count);
      var data := CompilerLogsJson(window);
      var body := CreateResponse(true, data, None);
      reply := Reply(200, body);
    }

    /** The buffer is cleared after the listing is built. */
    method CompilerErrorsHandler(query: QueryString) returns (reply: Reply)
      requires Valid()
      modifies logs
      ensures Valid()
      ensures (reply, logs.entries) == CompilerErrorsReply(env, old(logs.entries), query)
    {
      var since := SinceOf(Query(query, "since"), env.parseTime);
      var window := logs.GetRecent(Logs.MaxLogs);
      var data := ErrorsSinceJson(window, since, env.parseTime);
      if Query(query, "clear") == Some("true") {
        logs.Clear();
      }
      var body := CreateResponse(true, data, None);
      reply := Reply(200, body);
    }

    method SnapshotHandler() returns (reply: Reply)
      requires Valid()
      ensures reply == SnapshotReply(env, engine.scene)
    {
      var json := Snapshot.BuildSnapshotJson(engine.scene, env.transforms);
      Snapshot.NotBlank(json);
      if IsBlank(json) {
        json := "{}";
      }
      var body := CreateResponse(true, "{\"snapshot\":" + json + "}", None);
      reply := Reply(200, body);
    }

    method CommandApplyHandler(body: string) returns (reply: Reply)
      requires Valid()
      modifies engine
      ensures Valid()
      ensures (reply, engine.Current()) == ApplyReply(env, engine.host, old(engine.Current()), body)
    {
      var parsed := Commands.Parse(body);
      match parsed
      case Rejected(e) =>
        var text := CreateResponse(false, "{}", Some(["Invalid JSON: " + env.exceptionMessage(e)]));
        reply := Reply(400, text);
      case Decoded(request) =>
        var outcome := engine.Execute(request);
        match outcome
        case Done(created) =>
          var sb := "{";
          if !Executor.IsNullOrEmpty(request.requestId) {
            sb := sb + "\"requestId\":" + "\"" + EscapeJsonString(request.requestId) + "\"" + ",";
          }
          sb := sb + "\"created\":" + created;
          sb := sb + "}";
          var text := CreateResponse(true, sb, None);
          reply := Reply(200, text);
        case Failed(m) =>
          var text := CreateResponse(false, "{}", Some([m]));
          reply := Reply(500, text);
    }

    method PlayRunHandler(body: string) returns (reply: Reply)
      modifies this
      ensures (reply, playResult) == PlayRunReply(env, old(playResult), body)
    {
      var parsed := MiniJson.MiniParse(body);
      if parsed.Fail? {
        var text := CreateResponse(false, "{}", Some([env.exceptionMessage(Commands.Malformed(parsed.error))]));
        reply := Reply(500, text);
        return;
      }
      var seconds := PlaySeconds(parsed.value, env.toSeconds);
      if seconds.Throws? {
        var text := CreateResponse(false, "{}", Some([seconds.message]));
        reply := Reply(500, text);
        return;
      }
      playResult := "";
      var text := CreateResponse(true, "{\"started\":true}", None);
      reply := Reply(200, text);
    }

    method PlayLastHandler() returns (reply: Reply)
      ensures reply == PlayLastReply(playResult)
    {
      var resultJson := playResult;
      if resultJson == "" {
        resultJson := "[]";
      }
      var text := CreateResponse(true, "{\"exceptions\":" + resultJson + "}", None);
      reply := Reply(200, text);
    }

    method ScriptsWriteHandler(body: string) returns (reply: Reply)
      ensures reply == ScriptsWriteReply(env, body)
    {
      var read := env.readScript(body);
      var text;
      if read.Unreadable? {
        text := CreateResponse(false, "{}", Some([read.message]));
        reply := Reply(500, text);
      } else if read.NullRequest? || Executor.IsNullOrEmpty(read.path) || Executor.IsNullOrEmpty(read.content) {
        text := CreateResponse(false, "{}", Some([RequiredMessage]));
        reply := Reply(500, text);
      } else {
        match ScriptWriter.AssetPath(env.platform, read.path)
        case Refused(m) =>
          text := CreateResponse(false, "{}", Some([m]));
          reply := Reply(500, text);
        case Accepted(createdPath) =>
          text := CreateResponse(true, "{\"assetPath\":\"" + EscapeJsonString(Some(createdPath)) + "\"}", None);
          reply := Reply(200, text);
      }
    }

    /** ProcessRequest: route the request, run its handler, and leave the
        world as Serve describes. */
    method ProcessRequest(req: Request) returns (reply: Reply)
      requires Valid()
      modifies this, logs, engine
      ensures Valid()
      ensures (reply, State()) == Serve(env, engine.host, old(State()), req)
    {
      var verb := MethodOf(req.httpMethod);
      var path := NormalizePath(req.path);
      var route := RouteOf(verb, path);
      match route
      case LogsRecent => reply := LogsRecentHandler(req.query);
      case LogsCompiler => reply := LogsCompilerHandler(req.query);
      case StateSnapshot => reply := SnapshotHandler();
      case CommandApply => reply := CommandApplyHandler(req.body);
      case PlayRun => reply := PlayRunHandler(req.body);
      case PlayLast => reply := PlayLastHandler();
      case ScriptsWrite => reply := ScriptsWriteHandler(req.body);
      case CompilerErrors => reply := CompilerErrorsHandler(req.query);
      case NotFound =>
        var text := CreateResponse(false, "{}", Some(["Endpoint not found"]));
        reply := Reply(404, text);
    }
  }
}
