/** What the snapshot promises: at most 3000 nodes, each subtree listed
    node first and then exactly its descendants, every scene object listed
    exactly once when nothing is cut off, the `truncated` flag, the
    component list, and string literals that read back. */
module SnapshotFacts {
  import opened Wrappers
  import opened Hierarchy
  import opened Snapshot
  import Text
  import MiniJson
  import JsonFacts

  /** No handle listed twice. */
  predicate Distinct(s: seq<Handle>) {
    forall i, j :: 0 <= i < j < |s| ==> s[i] != s[j]
  }

  // ---------------------------------------------------------------------
  // Which objects a subtree lists

  /** The child of `h` on the way down to its descendant `x`. */
  lemma {:induction false} ChildOnTheWay(scene: Scene, h: Handle, x: Handle) returns (c: Handle)
    requires Valid(scene) && x in scene.objects && IsAncestorOrSelf(scene, h, x) && x != h
    ensures c in scene.objects && scene.objects[c].parent == Some(h) && IsAncestorOrSelf(scene, c, x)
    decreases x
  {
    var p := scene.objects[x].parent.value;
    if p == h {
      c := x;
    } else {
      c := ChildOnTheWay(scene, h, p);
    }
  }

  /** A forest lists exactly the objects of its trees. */
  lemma {:induction false} ForestMembers(scene: Scene, hs: seq<Handle>, lo: int, x: Handle)
    requires Valid(scene) && lo >= -1
    requires forall k :: 0 <= k < |hs| ==> hs[k] in scene.objects && lo < hs[k]
    ensures x in Forest(scene, hs, lo) <==> exists k :: 0 <= k < |hs| && x in PreOrder(scene, hs[k])
    decreases |hs|
  {
    if |hs| > 0 {
      var init := hs[..|hs| - 1];
      ForestMembers(scene, init, lo, x);
      if x in Forest(scene, init, lo) {
        var k :| 0 <= k < |init| && x in PreOrder(scene, init[k]);
        assert hs[k] == init[k];
      }
      if exists k :: 0 <= k < |hs| && x in PreOrder(scene, hs[k]) {
        var k :| 0 <= k < |hs| && x in PreOrder(scene, hs[k]);
        if k < |init| {
          assert init[k] == hs[k];
        }
      }
    }
  }

  /** What a pre-order listing of `h` holds is `h` or below it. */
  lemma {:induction false} ListedIsBelow(scene: Scene, h: Handle, x: Handle)
    requires Valid(scene) && h in scene.objects && x in PreOrder(scene, h)
    ensures x in scene.objects && IsAncestorOrSelf(scene, h, x)
    decreases scene.next - h
  {
    if x != h {
      var children := Children(scene, h);
      assert PreOrder(scene, h) == [h] + Forest(scene, children, h);
      ForestMembers(scene, children, h, x);
      var k :| 0 <= k < |children| && x in PreOrder(scene, children[k]);
      ListedIsBelow(scene, children[k], x);
      AncestorTransitive(scene, h, children[k], x);
    }
  }

  /** Everything at or below `h` is in its pre-order listing. */
  lemma {:induction false} BelowIsListed(scene: Scene, h: Handle, x: Handle)
    requires Valid(scene) && h in scene.objects && x in scene.objects && IsAncestorOrSelf(scene, h, x)
    ensures x in PreOrder(scene, h)
    decreases scene.next - h
  {
    if x != h {
      var children := Children(scene, h);
      var c := ChildOnTheWay(scene, h, x);
      assert InLevel(scene, Some(h), c);
      var k :| 0 <= k < |children| && children[k] == c;
      BelowIsListed(scene, c, x);
      ForestMembers(scene, children, h, x);
      assert PreOrder(scene, h) == [h] + Forest(scene, children, h);
    }
  }

  /** The pre-order listing of `h` holds exactly `h` and its descendants. */
  lemma PreOrderMembers(scene: Scene, h: Handle)
    requires Valid(scene) && h in scene.objects
    ensures forall x :: x in PreOrder(scene, h) <==> x in scene.objects && IsAncestorOrSelf(scene, h, x)
  {
    forall x
      ensures x in PreOrder(scene, h) <==> x in scene.objects && IsAncestorOrSelf(scene, h, x)
    {
      if x in PreOrder(scene, h) {
        ListedIsBelow(scene, h, x);
      }
      if x in scene.objects && IsAncestorOrSelf(scene, h, x) {
        BelowIsListed(scene, h, x);
      }
    }
  }

  /** Each subtree is listed node first, then only proper descendants. */
  lemma NodeBeforeDescendants(scene: Scene, h: Handle)
    requires Valid(scene) && h in scene.objects
    ensures PreOrder(scene, h)[0] == h
    ensures forall k :: 0 < k < |PreOrder(scene, h)| ==>
              PreOrder(scene, h)[k] != h && IsAncestorOrSelf(scene, h, PreOrder(scene, h)[k])
  {
    PreOrderDistinct(scene, h);
    PreOrderMembers(scene, h);
  }

  // ---------------------------------------------------------------------
  // Nothing is listed twice

  /** Two objects with the same parent (or two roots) that share a
      descendant are the same object. */
  lemma OneAncestorPerLevel(scene: Scene, p: Option<Handle>, a: Handle, b: Handle, x: Handle)
    requires Valid(scene) && x in scene.objects
    requires a in scene.objects && b in scene.objects
    requires scene.objects[a].parent == p && scene.objects[b].parent == p
    ensures IsAncestorOrSelf(scene, a, x) && IsAncestorOrSelf(scene, b, x) ==> a == b
  {
    if IsAncestorOrSelf(scene, a, x) && IsAncestorOrSelf(scene, b, x) {
      AncestorsOnOneChain(scene, a, b, x);
      if a != b {
        if IsAncestorOrSelf(scene, a, b) {
          AncestorIsOlder(scene, a, p.value);
        } else {
          AncestorIsOlder(scene, b, p.value);
        }
      }
    }
  }

  lemma {:induction false} ForestDistinct(scene: Scene, p: Option<Handle>, hs: seq<Handle>, lo: int)
    requires Valid(scene) && lo >= -1
    requires forall k :: 0 <= k < |hs| ==> hs[k] in scene.objects && InLevel(scene, p, hs[k]) && lo < hs[k]
    requires Distinct(hs)
    ensures Distinct(Forest(scene, hs, lo))
    decreases scene.next - lo, 0, |hs|
  {
    if |hs| > 0 {
      var init := hs[..|hs| - 1];
      var last := hs[|hs| - 1];
      ForestDistinct(scene, p, init, lo);
      PreOrderDistinct(scene, last);
      var a := Forest(scene, init, lo);
      var b := PreOrder(scene, last);
      PreOrderMembers(scene, last);
      forall i, j | 0 <= i < |a| && 0 <= j < |b|
        ensures a[i] != b[j]
      {
        ForestMembers(scene, init, lo, a[i]);
        var k :| 0 <= k < |init| && a[i] in PreOrder(scene, init[k]);
        PreOrderMembers(scene, init[k]);
        assert hs[k] != last;
        OneAncestorPerLevel(scene, p, init[k], last, b[j]);
        assert !IsAncestorOrSelf(scene, init[k], b[j]);
      }
      assert Forest(scene, hs, lo) == a + b;
    }
  }

  lemma {:induction false} PreOrderDistinct(scene: Scene, h: Handle)
    requires Valid(scene) && h in scene.objects
    ensures Distinct(PreOrder(scene, h))
    decreases scene.next - h, 1, 0
  {
    var children := Children(scene, h);
    ForestDistinct(scene, Some(h), children, h);
    var rest := Forest(scene, children, h);
    forall k | 0 <= k < |rest|
      ensures rest[k] != h
    {
      ForestMembers(scene, children, h, rest[k]);
      var c :| 0 <= c < |children| && rest[k] in PreOrder(scene, children[c]);
      PreOrderMembers(scene, children[c]);
      AncestorIsOlder(scene, children[c], rest[k]);
    }
    assert PreOrder(scene, h) == [h] + rest;
  }

  // ---------------------------------------------------------------------
  // The whole scene

  /** The root above an object. */
  function RootOf(scene: Scene, x: Handle): (r: Handle)
    requires Valid(scene) && x in scene.objects
    ensures r in scene.objects && scene.objects[r].parent.None? && IsAncestorOrSelf(scene, r, x)
    decreases x
  {
    if scene.objects[x].parent.None? then x else RootOf(scene, scene.objects[x].parent.value)
  }

  /** A listed object hangs below a scene root. */
  lemma ListedHasSceneRoot(scene: Scene, x: Handle)
    requires Valid(scene) && x in AllNodes(scene)
    ensures x in scene.objects && !scene.objects[RootOf(scene, x)].persistent
  {
    var roots := Roots(scene);
    ForestMembers(scene, roots, -1, x);
    var k :| 0 <= k < |roots| && x in PreOrder(scene, roots[k]);
    ListedIsBelow(scene, roots[k], x);
    OneAncestorPerLevel(scene, None, roots[k], RootOf(scene, x), x);
  }

  /** An object below a scene root is listed. */
  lemma SceneRootedIsListed(scene: Scene, x: Handle)
    requires Valid(scene) && x in scene.objects && !scene.objects[RootOf(scene, x)].persistent
    ensures x in AllNodes(scene)
  {
    var roots := Roots(scene);
    var r := RootOf(scene, x);
    assert InLevel(scene, None, r);
    var k :| 0 <= k < |roots| && roots[k] == r;
    BelowIsListed(scene, r, x);
    ForestMembers(scene, roots, -1, x);
  }

  /** Without a cut, every object whose root is in the scene (not an asset)
      is listed, and none twice. */
  lemma EveryObjectExactlyOnce(scene: Scene)
    requires Valid(scene)
    ensures Distinct(AllNodes(scene))
    ensures forall x :: x in AllNodes(scene) <==> x in scene.objects && !scene.objects[RootOf(scene, x)].persistent
  {
    ForestDistinct(scene, None, Roots(scene), -1);
    forall x
      ensures x in AllNodes(scene) <==> x in scene.objects && !scene.objects[RootOf(scene, x)].persistent
    {
      if x in AllNodes(scene) {
        ListedHasSceneRoot(scene, x);
      }
      if x in scene.objects && !scene.objects[RootOf(scene, x)].persistent {
        SceneRootedIsListed(scene, x);
      }
    }
  }

  /** The snapshot holds at most 3000 nodes, and they are the first nodes of
      the full listing. */
  lemma SnapshotIsCappedPrefix(scene: Scene, transforms: Handle -> TransformText)
    requires Valid(scene)
    ensures var all := NodesOf(scene, transforms, AllNodes(scene));
            var c := Collected(scene, transforms);
            |c| <= MaxObjects && c == all[..|c|]
            && (|all| <= MaxObjects ==> c == all)
  {
  }

  /** `truncated` is true exactly when 3000 or more nodes exist, so also when
      there are exactly 3000 and none was dropped. */
  lemma TruncatedFlag(scene: Scene, transforms: Handle -> TransformText)
    requires Valid(scene)
    ensures |Collected(scene, transforms)| >= MaxObjects <==> |AllNodes(scene)| >= MaxObjects
    ensures |AllNodes(scene)| == MaxObjects ==>
              Collected(scene, transforms) == NodesOf(scene, transforms, AllNodes(scene))
  {
    var all := NodesOf(scene, transforms, AllNodes(scene));
    assert |all| == |AllNodes(scene)|;
  }

  // ---------------------------------------------------------------------
  // Components and strings

  /** Skipping nulls distributes over concatenation: the kept names keep
      their order. */
  lemma {:induction false} PresentAppend(a: seq<Component>, b: seq<Component>)
    ensures Present(a + b) == Present(a) + Present(b)
    decreases |b|
  {
    if |b| > 0 {
      var init := b[..|b| - 1];
      assert (a + b)[..|a + b| - 1] == a + init;
      PresentAppend(a, init);
    } else {
      assert a + b == a;
    }
  }

  /** A null component contributes nothing and a present one its name. */
  lemma PresentOne(c: Component)
    ensures Present([c]) == if c.Some? then [c.value] else []
  {
    assert [c][..0] == [];
  }

  /** With no null components every name is listed, position for position. */
  lemma {:induction false} PresentAllNames(comps: seq<Component>)
    requires forall k :: 0 <= k < |comps| ==> comps[k].Some?
    ensures |Present(comps)| == |comps|
    ensures forall k :: 0 <= k < |comps| ==> Present(comps)[k] == comps[k].value
    decreases |comps|
  {
    if |comps| > 0 {
      PresentAllNames(comps[..|comps| - 1]);
    }
  }

  /** A string literal of the snapshot reads back through ParseString unless
      the text ends with a backslash. */
  lemma JsonStrReadsBack(s: string)
    requires s == [] || s[|s| - 1] != '\\'
    ensures MiniJson.StringAt(JsonStr(Some(s)), 0) == MiniJson.Scanned(s, |JsonStr(Some(s))|)
  {
    JsonFacts.QuotedRoundTrip(s);
  }

  // ---------------------------------------------------------------------
  // What Node.ToJson reads back as

  /** A string whose literal reads back: it does not end with a backslash. */
  predicate ReadsBack(s: string) {
    s == [] || s[|s| - 1] != '\\'
  }

  /** The values MiniJson gives for a list of string literals. */
  function Strings(names: seq<string>): (r: seq<MiniJson.Value>)
    ensures |r| == |names| && forall k :: 0 <= k < |names| ==> r[k] == MiniJson.Str(names[k])
  {
    seq(|names|, k requires 0 <= k < |names| => MiniJson.Str(names[k]))
  }

  /** A string literal read as an array element at `i`, followed by `,`
      or `]`. */
  lemma LiteralElement(json: string, i: nat, x: string)
    requires ReadsBack(x) && i + |MiniJson.Quoted(x)| < |json|
    requires json[i..i + |MiniJson.Quoted(x)|] == MiniJson.Quoted(x)
    requires json[i + |MiniJson.Quoted(x)|] == ',' || json[i + |MiniJson.Quoted(x)|] == ']'
    ensures var m := i + |MiniJson.Quoted(x)|;
            && MiniJson.SkipWs(json, i) == i && json[i] != ']'
            && MiniJson.ValueAt(json, i) == MiniJson.Ok(MiniJson.Str(x), m)
            && MiniJson.SkipWs(json, m) == m
  {
    var q := MiniJson.Quoted(x);
    assert json == json[..i] + q + json[i + |q|..];
    JsonFacts.QuotedInContext(json[..i], x, json[i + |q|..]);
    assert json[i] == q[0] == '"';
  }

  /** The last literal of an array: read, then the closing bracket. */
  lemma LastLiteral(json: string, i: nat, x: string, acc: seq<MiniJson.Value>)
    requires ReadsBack(x) && i + |MiniJson.Quoted(x)| < |json|
    requires json[i..i + |MiniJson.Quoted(x)|] == MiniJson.Quoted(x)
    requires json[i + |MiniJson.Quoted(x)|] == ']'
    ensures MiniJson.ArrayLoop(json, i, acc)
              == MiniJson.Ok(MiniJson.Arr(acc + [MiniJson.Str(x)]), i + |MiniJson.Quoted(x)| + 1)
  {
    var m := i + |MiniJson.Quoted(x)|;
    LiteralElement(json, i, x);
    JsonFacts.ElementStep(json, i, i, acc);
    assert MiniJson.ArrayLoop(json, m, acc + [MiniJson.Str(x)])
        == MiniJson.ArrayElement(json, m, m, acc + [MiniJson.Str(x)]);
  }

  /** A literal followed by a comma: read, and the loop goes round again
      after the comma. */
  lemma NextLiteral(json: string, i: nat, x: string, acc: seq<MiniJson.Value>)
    requires ReadsBack(x) && i + |MiniJson.Quoted(x)| < |json|
    requires json[i..i + |MiniJson.Quoted(x)|] == MiniJson.Quoted(x)
    requires json[i + |MiniJson.Quoted(x)|] == ','
    ensures MiniJson.ArrayLoop(json, i, acc)
              == MiniJson.ArrayLoop(json, i + |MiniJson.Quoted(x)| + 1, acc + [MiniJson.Str(x)])
  {
    LiteralElement(json, i, x);
    JsonFacts.ElementStep(json, i, i, acc);
  }

  /** Where `body`, written at `i`, is a literal, a comma and `more`: the
      literal, the comma and `more` sit at their offsets. */
  lemma CommaWindow(json: string, i: nat, body: string, q: string, more: string)
    requires i + |body| <= |json| && json[i..i + |body|] == body && body == q + "," + more
    ensures i + |q| < |json| && json[i..i + |q|] == q && json[i + |q|] == ','
    ensures json[i + |q| + 1..i + |q| + 1 + |more|] == more
  {
    assert forall k :: 0 <= k < |body| ==> json[i + k] == body[k];
    assert forall k :: 0 <= k < |q| ==> json[i + k] == q[k] by {
      forall k | 0 <= k < |q| ensures json[i + k] == q[k] {
        assert body[k] == q[k];
      }
    }
    assert body[|q|] == ',';
    forall k | 0 <= k < |more| ensures json[i + |q| + 1 + k] == more[k] {
      assert body[|q| + 1 + k] == more[k];
    }
  }

  /** The literals of `rest`, separated by commas. */
  function Literals(rest: seq<string>): string
    requires rest != []
    decreases |rest|
  {
    if |rest| == 1 then MiniJson.Quoted(rest[0])
    else MiniJson.Quoted(rest[0]) + "," + Literals(rest[1..])
  }

  /** StrArray joins exactly those literals. */
  lemma {:induction false} JoinIsLiterals(rest: seq<string>)
    requires rest != []
    ensures Text.Join(",", Quoteds(rest)) == Literals(rest)
    decreases |rest|
  {
    assert Quoteds(rest)[0] == MiniJson.Quoted(rest[0]);
    if |rest| > 1 {
      assert Quoteds(rest)[1..] == Quoteds(rest[1..]);
      JoinIsLiterals(rest[1..]);
    }
  }

  /** The array loop reads the comma-separated literals of `rest`, written
      at `i`, and stops after the closing bracket. */
  lemma {:induction false} StringElementsLoop(json: string, i: nat, rest: seq<string>, acc: seq<MiniJson.Value>)
    requires rest != [] && forall k :: 0 <= k < |rest| ==> ReadsBack(rest[k])
    requires i + |Literals(rest)| < |json|
    requires json[i..i + |Literals(rest)|] == Literals(rest) && json[i + |Literals(rest)|] == ']'
    ensures MiniJson.ArrayLoop(json, i, acc)
              == MiniJson.Ok(MiniJson.Arr(acc + Strings(rest)), i + |Literals(rest)| + 1)
    decreases |rest|
  {
    if |rest| == 1 {
      LastLiteral(json, i, rest[0], acc);
      assert acc + [MiniJson.Str(rest[0])] == acc + Strings(rest);
    } else {
      TailWindow(json, i, rest);
      StringElementsLoop(json, i + |MiniJson.Quoted(rest[0])| + 1, rest[1..], acc + [MiniJson.Str(rest[0])]);
      LiteralsStep(json, i, rest, acc);
    }
  }

  /** The literals after the first comma, where the loop goes round again. */
  lemma TailWindow(json: string, i: nat, rest: seq<string>)
    requires |rest| > 1 && forall k :: 0 <= k < |rest| ==> ReadsBack(rest[k])
    requires i + |Literals(rest)| < |json|
    requires json[i..i + |Literals(rest)|] == Literals(rest) && json[i + |Literals(rest)|] == ']'
    ensures var i' := i + |MiniJson.Quoted(rest[0])| + 1;
            var more := Literals(rest[1..]);
            && (forall k :: 0 <= k < |rest[1..]| ==> ReadsBack(rest[1..][k]))
            && i' + |more| < |json| && json[i'..i' + |more|] == more && json[i' + |more|] == ']'
  {
    CommaWindow(json, i, Literals(rest), MiniJson.Quoted(rest[0]), Literals(rest[1..]));
    ReadsBackTail(rest);
  }

  /** The first of several literals read, the rest by the loop. */
  lemma LiteralsStep(json: string, i: nat, rest: seq<string>, acc: seq<MiniJson.Value>)
    requires |rest| > 1 && ReadsBack(rest[0])
    requires i + |Literals(rest)| < |json| && json[i..i + |Literals(rest)|] == Literals(rest)
    requires var i' := i + |MiniJson.Quoted(rest[0])| + 1;
             MiniJson.ArrayLoop(json, i', acc + [MiniJson.Str(rest[0])])
               == MiniJson.Ok(MiniJson.Arr(acc + [MiniJson.Str(rest[0])] + Strings(rest[1..])),
                              i' + |Literals(rest[1..])| + 1)
    ensures MiniJson.ArrayLoop(json, i, acc)
              == MiniJson.Ok(MiniJson.Arr(acc + Strings(rest)), i + |Literals(rest)| + 1)
  {
    var q := MiniJson.Quoted(rest[0]);
    CommaWindow(json, i, Literals(rest), q, Literals(rest[1..]));
    NextLiteral(json, i, rest[0], acc);
    StringsCons(acc, rest);
  }

  lemma ReadsBackTail(rest: seq<string>)
    requires rest != [] && forall k :: 0 <= k < |rest| ==> ReadsBack(rest[k])
    ensures forall k :: 0 <= k < |rest[1..]| ==> ReadsBack(rest[1..][k])
  {
    forall k | 0 <= k < |rest[1..]| ensures ReadsBack(rest[1..][k]) {
      assert rest[1..][k] == rest[k + 1];
    }
  }

  lemma StringsCons(acc: seq<MiniJson.Value>, rest: seq<string>)
    requires rest != []
    ensures acc + [MiniJson.Str(rest[0])] + Strings(rest[1..]) == acc + Strings(rest)
  {
    assert Strings(rest) == [MiniJson.Str(rest[0])] + Strings(rest[1..]);
  }

  /** Where `[`, `body` and `]` are written at `p`: each at its offset. */
  lemma BracketWindow(json: string, p: nat, body: string)
    requires p + |body| + 2 <= |json| && json[p..p + |body| + 2] == "[" + body + "]"
    ensures json[p] == '[' && json[p + 1 + |body|] == ']'
    ensures json[p + 1..p + 1 + |body|] == body
  {
    var w := "[" + body + "]";
    assert forall k :: 0 <= k < |w| ==> json[p + k] == w[k];
    assert w[0] == '[' && w[1 + |body|] == ']';
    forall k | 0 <= k < |body| ensures json[p + 1 + k] == body[k] {
      assert w[1 + k] == body[k];
    }
  }

  /** StrArray's text at `p` reads back as the array of its names. */
  lemma StrArrayReadsBack(json: string, p: nat, names: seq<string>)
    requires forall k :: 0 <= k < |names| ==> ReadsBack(names[k])
    requires p + |StrArrayText(names)| <= |json|
    requires json[p..p + |StrArrayText(names)|] == StrArrayText(names)
    ensures p < |json|
    ensures MiniJson.ArrayAt(json, p) == MiniJson.Ok(MiniJson.Arr(Strings(names)), p + |StrArrayText(names)|)
  {
    if names == [] {
      EmptyStrArrayReadsBack(json, p, names);
    } else {
      JoinIsLiterals(names);
      StrArrayElementsReadBack(json, p, names, Literals(names));
    }
  }

  lemma EmptyStrArrayReadsBack(json: string, p: nat, names: seq<string>)
    requires names == []
    requires p + |StrArrayText(names)| <= |json|
    requires json[p..p + |StrArrayText(names)|] == StrArrayText(names)
    ensures p < |json|
    ensures MiniJson.ArrayAt(json, p) == MiniJson.Ok(MiniJson.Arr(Strings(names)), p + |StrArrayText(names)|)
  {
    assert Quoteds(names) == [];
    assert StrArrayText(names) == "[]";
    assert json[p + 1] == json[p..p + 2][1] == ']';
    assert MiniJson.SkipWs(json, p + 1) == p + 1;
    assert MiniJson.ArrayElement(json, p + 1, p + 1, []) == MiniJson.Ok(MiniJson.Arr([]), p + 2);
    assert Strings(names) == [];
  }

  lemma StrArrayElementsReadBack(json: string, p: nat, names: seq<string>, lits: string)
    requires names != [] && forall k :: 0 <= k < |names| ==> ReadsBack(names[k])
    requires lits == Literals(names)
    requires p + |lits| + 2 <= |json| && json[p..p + |lits| + 2] == "[" + lits + "]"
    ensures p < |json|
    ensures MiniJson.ArrayAt(json, p) == MiniJson.Ok(MiniJson.Arr(Strings(names)), p + |lits| + 2)
  {
    BracketWindow(json, p, lits);
    StringElementsLoop(json, p + 1, names, []);
    assert [] + Strings(names) == Strings(names);
  }

  /** BoolText at `i` reads back as its boolean. */
  lemma BoolReadsBack(json: string, i: nat, b: bool)
    requires i + |BoolText(b)| <= |json| && json[i..i + |BoolText(b)|] == BoolText(b)
    ensures i < |json|
    ensures MiniJson.ValueAt(json, i) == MiniJson.Ok(MiniJson.Bool(b), i + |BoolText(b)|)
  {
    var w := BoolText(b);
    assert json[i] == w[0];
    assert MiniJson.SkipWs(json, i) == i;
    assert json[i..][..|w|] == w;
    if !b {
      assert json[i..][..4] != "true" by {
        assert json[i..][0] == 'f';
      }
    }
  }

  /** A string literal written at `i` reads back. */
  lemma LiteralAt(json: string, i: nat, x: string)
    requires ReadsBack(x) && i + |MiniJson.Quoted(x)| <= |json|
    requires json[i..i + |MiniJson.Quoted(x)|] == MiniJson.Quoted(x)
    ensures i < |json| && MiniJson.StringAt(json, i) == MiniJson.Scanned(x, i + |MiniJson.Quoted(x)|)
  {
    var q := MiniJson.Quoted(x);
    assert json == json[..i] + q + json[i + |q|..];
    JsonFacts.QuotedInContext(json[..i], x, json[i + |q|..]);
  }

  /** The key, the value and the comma of a Field written at `i`. */
  lemma FieldWindow(t: string, i: nat, key: string, value: string)
    requires i + |Field(key, value)| <= |t| && t[i..i + |Field(key, value)|] == Field(key, value)
    ensures t[i..i + |key|] == key && t[i + |key|..i + |key| + |value|] == value
    ensures t[i + |key| + |value|] == ','
  {
    var f := Field(key, value);
    var w := t[i..i + |f|];
    assert f[..|key|] == key && f[|key|..|key| + |value|] == value && f[|key| + |value|] == ',';
    assert t[i..i + |key|] == w[..|key|];
    assert t[i + |key|..i + |key| + |value|] == w[|key|..|key| + |value|];
    assert t[i + |key| + |value|] == w[|key| + |value|];
  }

  /** A Field that is piece `k` of `parts`, inside their concatenation. */
  lemma FieldAt(t: string, parts: seq<string>, k: nat, key: string, value: string)
    requires t == Text.Concat(parts) && k < |parts| && parts[k] == Field(key, value)
    ensures var o := |Text.Concat(parts[..k])|;
            && o + |key| + |value| < |t|
            && t[o..o + |key|] == key && t[o + |key|..o + |key| + |value|] == value
            && t[o + |key| + |value|] == ','
  {
    Text.ConcatAt(parts, k);
    FieldWindow(t, |Text.Concat(parts[..k])|, key, value);
  }

  /** The first three Fields of a node's text, whatever its keys and
      values; `a`, `b` and `g` are where the second comma, the third
      comma and the third value fall. */
  lemma NodeHead(t: string, parts: seq<string>, k1: string, v1: string, k2: string, v2: string,
                 k3: string, v3: string, a: nat, b: nat, g: nat)
    requires t == Text.Concat(parts) && 4 <= |parts|
    requires parts[0] == "{" && parts[1] == Field(k1, v1) && parts[2] == Field(k2, v2)
    requires parts[3] == Field(k3, v3)
    requires a == 1 + |k1| + |v1| && b == a + 1 + |k2| + |v2| && g == b + 1 + |k3|
    ensures g + |v3| < |t| && |Text.Concat(parts[..4])| == g + |v3| + 1
    ensures t[0] == '{' && t[1..1 + |k1|] == k1 && t[1 + |k1|..a] == v1
    ensures t[a] == ',' && t[a + 1..a + 1 + |k2|] == k2 && t[a + 1 + |k2|..b] == v2
    ensures t[b] == ',' && t[b + 1..g] == k3 && t[g..g + |v3|] == v3
  {
    assert parts[..0] == [];
    Text.ConcatPrefix(parts, 0);
    Text.ConcatPrefix(parts, 1);
    Text.ConcatPrefix(parts, 2);
    Text.ConcatPrefix(parts, 3);
    Text.ConcatAt(parts, 0);
    assert t[0..1] == "{";
    FieldAt(t, parts, 1, k1, v1);
    FieldAt(t, parts, 2, k2, v2);
    FieldAt(t, parts, 3, k3, v3);
  }

  /** The last Field, the last key, its value and the closing brace;
      `c` is where the value starts. */
  lemma NodeTail(t: string, parts: seq<string>, k7: string, v7: string, k8: string, v8: string,
                 c: int)
    requires t == Text.Concat(parts) && |parts| == 11
    requires parts[7] == Field(k7, v7) && parts[8] == k8 && parts[9] == v8 && parts[10] == "}"
    requires c == |t| - 1 - |v8|
    ensures 0 <= |Text.Concat(parts[..7])| < c - |k8|
    ensures t[c - |k8| - 1] == ',' && t[c - |k8|..c] == k8 && t[c..c + |v8|] == v8
    ensures t[|t| - 1] == '}'
  {
    assert parts[..11] == parts;
    Text.ConcatPrefix(parts, 7);
    Text.ConcatPrefix(parts, 8);
    Text.ConcatPrefix(parts, 9);
    Text.ConcatPrefix(parts, 10);
    FieldAt(t, parts, 7, k7, v7);
    Text.ConcatAt(parts, 8);
    Text.ConcatAt(parts, 9);
    Text.ConcatAt(parts, 10);
    assert t[|t| - 1..|t|] == "}";
  }

  /** A longer prefix of the pieces has at least as long a text. */
  lemma ConcatGrows(parts: seq<string>, i: nat, j: nat)
    requires i <= j <= |parts|
    ensures |Text.Concat(parts[..i])| <= |Text.Concat(parts[..j])|
  {
    Text.ConcatSplit(parts[..j], i);
    assert parts[..j][..i] == parts[..i];
  }

  /** Where each value sits in the text `t` Node.ToJson writes, whatever
      the values' texts; `a`, `b`, `g` and `c` are where the second comma,
      the third comma, the tag's text and the components' text fall. */
  lemma NodeLayout(t: string, path: string, active: string, tag: string, layer: string,
                   position: string, rotation: string, scale: string, comps: string,
                   a: nat, b: nat, g: nat, c: int)
    requires t == Text.Concat(NodeParts(path, active, tag, layer, position, rotation, scale, comps))
    requires a == 8 + |path| && b == a + 10 + |active| && g == b + 7 && c == |t| - 1 - |comps|
    ensures g + |tag| < c - 14
    ensures t[0] == '{' && t[1..8] == "\"path\":" && t[8..a] == path
    ensures t[a] == ',' && t[a + 1..a + 10] == "\"active\":" && t[a + 10..b] == active
    ensures t[b] == ',' && t[b + 1..g] == "\"tag\":" && t[g..g + |tag|] == tag
    ensures t[c - 14] == ',' && t[c - 13..c] == "\"components\":" && t[c..c + |comps|] == comps
    ensures t[|t| - 1] == '}'
  {
    var parts := NodeParts(path, active, tag, layer, position, rotation, scale, comps);
    var pathKey, activeKey, tagKey, compsKey := "\"path\":", "\"active\":", "\"tag\":", "\"components\":";
    assert |pathKey| == 7 && |activeKey| == 9 && |tagKey| == 6 && |compsKey| == 13;
    NodeHead(t, parts, pathKey, path, activeKey, active, tagKey, tag, a, b, g);
    NodeTail(t, parts, "\"scale\":", scale, compsKey, comps, c);
    ConcatGrows(parts, 4, 7);
    assert 1 + |pathKey| == 8 && a + 1 + |activeKey| == a + 10;
    assert c - |compsKey| - 1 == c - 14 && c - |compsKey| == c - 13;
  }

  /** The text `t` of a node with these fields reads back field by field;
      `a`, `b`, `g` and `c` are where the second comma, the third comma,
      the tag literal and the components array fall. */
  lemma FieldsReadBack(t: string, path: string, active: bool, tag: string, layer: string,
                       position: string, rotation: string, scale: string, components: seq<string>,
                       a: nat, b: nat, g: nat, c: int)
    requires ReadsBack(path) && ReadsBack(tag)
    requires forall k :: 0 <= k < |components| ==> ReadsBack(components[k])
    requires t == Text.Concat(NodeParts(MiniJson.Quoted(path), BoolText(active), MiniJson.Quoted(tag),
                                        layer, position, rotation, scale, StrArrayText(components)))
    requires a == 8 + |MiniJson.Quoted(path)| && b == a + 10 + |BoolText(active)| && g == b + 7
    requires c == |t| - 1 - |StrArrayText(components)|
    ensures g + |MiniJson.Quoted(tag)| < c - 14
    ensures t[0] == '{' && t[1..8] == "\"path\":"
    ensures MiniJson.StringAt(t, 8) == MiniJson.Scanned(path, a)
    ensures t[a] == ',' && t[a + 1..a + 10] == "\"active\":"
    ensures MiniJson.ValueAt(t, a + 10) == MiniJson.Ok(MiniJson.Bool(active), b)
    ensures t[b] == ',' && t[b + 1..g] == "\"tag\":"
    ensures MiniJson.StringAt(t, g) == MiniJson.Scanned(tag, g + |MiniJson.Quoted(tag)|)
    ensures t[c - 14] == ',' && t[c - 13..c] == "\"components\":"
    ensures MiniJson.ArrayAt(t, c) == MiniJson.Ok(MiniJson.Arr(Strings(components)), |t| - 1)
    ensures t[|t| - 1] == '}'
  {
    var qp, flag, qt, comps := MiniJson.Quoted(path), BoolText(active), MiniJson.Quoted(tag), StrArrayText(components);
    NodeLayout(t, qp, flag, qt, layer, position, rotation, scale, comps, a, b, g, c);
    LiteralAt(t, 8, path);
    BoolReadsBack(t, a + 10, active);
    LiteralAt(t, g, tag);
    assert c + |comps| == |t| - 1;
    StrArrayReadsBack(t, c, components);
  }

  /** Node.ToJson's text, from the literal of each of its strings. */
  lemma NodeTextParts(n: Node)
    ensures NodeText(n) == Text.Concat(NodeParts(MiniJson.Quoted(n.path), BoolText(n.active),
                                                 MiniJson.Quoted(n.tag), Text.IntToString(n.layer),
                                                 n.position, n.rotation, n.scale, StrArrayText(n.components)))
  {
  }

  /** Where the comma after the path literal of Node.ToJson falls. */
  function ActiveComma(n: Node): nat {
    8 + |MiniJson.Quoted(n.path)|
  }

  /** Where the comma after the active flag falls. */
  function TagComma(n: Node): nat {
    ActiveComma(n) + 10 + |BoolText(n.active)|
  }

  /** Where the tag literal starts. */
  function TagStart(n: Node): nat {
    TagComma(n) + 7
  }

  /** Where the array of component names starts. */
  function ComponentsStart(n: Node): int {
    |NodeText(n)| - 1 - |StrArrayText(n.components)|
  }

  /** Node.ToJson: after `{"path":` the path literal, after `,"active":`
      the flag, after `,"tag":` the tag literal, and after
      `,"components":` the array of component names, with the closing
      brace right after it; each reads back through MiniJson. */
  lemma NodeTextReadsBack(n: Node)
    requires ReadsBack(n.path) && ReadsBack(n.tag)
    requires forall k :: 0 <= k < |n.components| ==> ReadsBack(n.components[k])
    ensures TagStart(n) + |MiniJson.Quoted(n.tag)| < ComponentsStart(n) - 14
    ensures NodeText(n)[0] == '{' && NodeText(n)[1..8] == "\"path\":"
    ensures MiniJson.StringAt(NodeText(n), 8) == MiniJson.Scanned(n.path, ActiveComma(n))
    ensures NodeText(n)[ActiveComma(n)] == ','
    ensures NodeText(n)[ActiveComma(n) + 1..ActiveComma(n) + 10] == "\"active\":"
    ensures MiniJson.ValueAt(NodeText(n), ActiveComma(n) + 10) == MiniJson.Ok(MiniJson.Bool(n.active), TagComma(n))
    ensures NodeText(n)[TagComma(n)] == ',' && NodeText(n)[TagComma(n) + 1..TagStart(n)] == "\"tag\":"
    ensures MiniJson.StringAt(NodeText(n), TagStart(n))
            == MiniJson.Scanned(n.tag, TagStart(n) + |MiniJson.Quoted(n.tag)|)
    ensures NodeText(n)[ComponentsStart(n) - 14] == ','
    ensures NodeText(n)[ComponentsStart(n) - 13..ComponentsStart(n)] == "\"components\":"
    ensures MiniJson.ArrayAt(NodeText(n), ComponentsStart(n))
            == MiniJson.Ok(MiniJson.Arr(Strings(n.components)), |NodeText(n)| - 1)
    ensures NodeText(n)[|NodeText(n)| - 1] == '}'
  {
    NodeTextParts(n);
    FieldsReadBack(NodeText(n), n.path, n.active, n.tag, Text.IntToString(n.layer), n.position, n.rotation,
                   n.scale, n.components, ActiveComma(n), TagComma(n), TagStart(n), ComponentsStart(n));
  }
}
