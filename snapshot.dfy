/** UnityMCPSnapshotBuilder: a JSON picture of the active scene. The roots
    are walked in order and each subtree pre-order, node before children,
    children in order, until 3000 nodes have been collected; every node
    carries its path, flags, transform and the names of its non-null
    components. Children and roots are taken in handle order, which stands
    for the sibling order of the scene. The transform values are floats and
    are rendered by a function the model takes as given. */
module Snapshot {
  import opened Wrappers
  import opened Text
  import opened Hierarchy
  import MiniJson

  /** The `maxObjects` of BuildSnapshotJson. */
  const MaxObjects: nat := 3000

  // ---------------------------------------------------------------------
  // The forest

  /** The objects under `parent` (the scene roots when it is None) among the
      handles below `n`, in handle order. An asset is never a scene root. */
  function LevelBelow(scene: Scene, parent: Option<Handle>, n: nat): (r: seq<Handle>)
    ensures forall k :: 0 <= k < |r| ==> r[k] < n && InLevel(scene, parent, r[k])
    ensures forall k, l :: 0 <= k < l < |r| ==> r[k] < r[l]
    ensures forall h: Handle :: h < n && InLevel(scene, parent, h) ==> h in r
    decreases n
  {
    if n == 0 then []
    else LevelBelow(scene, parent, n - 1) + (if InLevel(scene, parent, n - 1) then [n - 1] else [])
  }

  predicate InLevel(scene: Scene, parent: Option<Handle>, h: Handle) {
    h in scene.objects && scene.objects[h].parent == parent && (parent.None? ==> !scene.objects[h].persistent)
  }

  /** Transform.GetChild(0 .. childCount - 1). */
  function Children(scene: Scene, h: Handle): seq<Handle> {
    LevelBelow(scene, Some(h), scene.next)
  }

  /** Scene.GetRootGameObjects(). */
  function Roots(scene: Scene): seq<Handle> {
    LevelBelow(scene, None, scene.next)
  }

  /** The subtree of `h` in pre-order. */
  function PreOrder(scene: Scene, h: Handle): (r: seq<Handle>)
    requires Valid(scene) && h in scene.objects
    ensures |r| > 0 && r[0] == h
    ensures forall k :: 0 <= k < |r| ==> r[k] in scene.objects
    decreases scene.next - h, 1, 0
  {
    [h] + Forest(scene, Children(scene, h), h)
  }

  /** The subtrees of `hs`, one after another; every handle of `hs` is above
      `lo`, which is all `lo` is for. */
  function Forest(scene: Scene, hs: seq<Handle>, lo: int): (r: seq<Handle>)
    requires Valid(scene) && lo >= -1
    requires forall k :: 0 <= k < |hs| ==> hs[k] in scene.objects && lo < hs[k]
    ensures forall k :: 0 <= k < |r| ==> r[k] in scene.objects
    decreases scene.next - lo, 0, |hs|
  {
    if |hs| == 0 then []
    else Forest(scene, hs[..|hs| - 1], lo) + PreOrder(scene, hs[|hs| - 1])
  }

  /** Every node of the scene in the order the traversal meets them. */
  function AllNodes(scene: Scene): seq<Handle>
    requires Valid(scene)
  {
    Forest(scene, Roots(scene), -1)
  }

  /** The first `n` elements, or all of them. */
  function Take<T>(s: seq<T>, n: nat): (r: seq<T>)
    ensures |r| == (if |s| <= n then |s| else n) && r == s[..|r|]
  {
    if |s| <= n then s else s[..n]
  }

  /** What a capped traversal adds to `acc`: nothing once `acc` is full, else
      elements of `xs` in order until the list holds `max`. */
  function Capped<T>(acc: seq<T>, xs: seq<T>, max: nat): (r: seq<T>)
    ensures |acc| >= max ==> r == acc
    ensures |acc| < max ==> |r| <= max
    ensures |r| >= |acc| && r[..|acc|] == acc
  {
    if |acc| >= max then acc else Take(acc + xs, max)
  }

  /** Capping in two steps is capping once. */
  lemma CappedTwice<T>(acc: seq<T>, xs: seq<T>, ys: seq<T>, max: nat)
    ensures Capped(Capped(acc, xs, max), ys, max) == Capped(acc, xs + ys, max)
  {
    if |acc| < max {
      var once := Take(acc + xs, max);
      if |acc + xs| <= max {
        assert once + ys == acc + (xs + ys);
      } else {
        assert Take(acc + (xs + ys), max) == once;
      }
    }
  }

  /** Adding one element before capping the rest. */
  lemma CappedCons<T>(acc: seq<T>, x: T, xs: seq<T>, max: nat)
    requires |acc| < max
    ensures Capped(acc + [x], xs, max) == Capped(acc, [x] + xs, max)
  {
    assert acc + [x] + xs == acc + ([x] + xs);
  }

  // ---------------------------------------------------------------------
  // Nodes

  /** The float fields of a node, already formatted. */
  datatype TransformText = TransformText(position: string, rotation: string, scale: string)

  datatype Node = Node(path: string, active: bool, tag: string, layer: int,
                       position: string, rotation: string, scale: string, components: seq<string>)

  /** The names of the non-null components, in order. */
  function Present(comps: seq<Component>): (r: seq<string>)
    ensures |r| <= |comps|
    decreases |comps|
  {
    if |comps| == 0 then []
    else
      var c := comps[|comps| - 1];
      Present(comps[..|comps| - 1]) + (if c.Some? then [c.value] else [])
  }

  /** The Node that Traverse records for `h`. */
  function NodeOf(scene: Scene, transforms: Handle -> TransformText, h: Handle): Node
    requires Valid(scene) && h in scene.objects
  {
    var go := scene.objects[h];
    var t := transforms(h);
    Node(Path(scene, h), go.activeSelf, go.tag, go.layer, t.position, t.rotation, t.scale, Present(go.components))
  }

  function NodesOf(scene: Scene, transforms: Handle -> TransformText, hs: seq<Handle>): (r: seq<Node>)
    requires Valid(scene) && forall k :: 0 <= k < |hs| ==> hs[k] in scene.objects
    ensures |r| == |hs| && forall k :: 0 <= k < |hs| ==> r[k] == NodeOf(scene, transforms, hs[k])
  {
    seq(|hs|, k requires 0 <= k < |hs| && hs[k] in scene.objects => NodeOf(scene, transforms, hs[k]))
  }

  lemma NodesOfAppend(scene: Scene, transforms: Handle -> TransformText, xs: seq<Handle>, ys: seq<Handle>)
    requires Valid(scene)
    requires forall k :: 0 <= k < |xs| ==> xs[k] in scene.objects
    requires forall k :: 0 <= k < |ys| ==> ys[k] in scene.objects
    ensures NodesOf(scene, transforms, xs + ys) == NodesOf(scene, transforms, xs) + NodesOf(scene, transforms, ys)
  {
    var zs := xs + ys;
    assert forall k :: 0 <= k < |zs| ==> zs[k] in scene.objects;
  }

  /** The objects BuildSnapshotJson collects. */
  function Collected(scene: Scene, transforms: Handle -> TransformText): (r: seq<Node>)
    requires Valid(scene)
    ensures |r| <= MaxObjects
  {
    Take(NodesOf(scene, transforms, AllNodes(scene)), MaxObjects)
  }

  // ---------------------------------------------------------------------
  // JSON text

  /** JsonStr: null as an empty literal, anything else escaped and quoted. */
  function JsonStr(s: Option<string>): (r: string)
    ensures s.None? ==> r == "\"\""
    ensures s.Some? ==> r == MiniJson.Quoted(s.value)
  {
    if s.None? then "\"\"" else "\"" + MiniJson.Escape(s.value) + "\""
  }

  function BoolText(b: bool): string {
    if b then "true" else "false"
  }

  function Quoteds(names: seq<string>): (r: seq<string>)
    ensures |r| == |names| && forall k :: 0 <= k < |names| ==> r[k] == JsonStr(Some(names[k]))
  {
    seq(|names|, k requires 0 <= k < |names| => JsonStr(Some(names[k])))
  }

  /** StrArray: the names as a JSON array of strings. */
  function StrArrayText(names: seq<string>): string {
    "[" + Join(",", Quoteds(names)) + "]"
  }

  /** One line of Node.ToJson: the key, the value, then a comma. */
  function Field(key: string, value: string): string {
    key + value + ","
  }

  /** What Node.ToJson appends, in order, given the text of each value. */
  function NodeParts(path: string, active: string, tag: string, layer: string,
                     position: string, rotation: string, scale: string, components: string): seq<string> {
    [ "{",
      Field("\"path\":", path),
      Field("\"active\":", active),
      Field("\"tag\":", tag),
      Field("\"layer\":", layer),
      Field("\"position\":", position),
      Field("\"rotation\":", rotation),
      Field("\"scale\":", scale),
      "\"components\":", components,
      "}" ]
  }

  /** Node.ToJson. */
  function NodeText(n: Node): string {
    Concat(NodeParts(JsonStr(Some(n.path)), BoolText(n.active), JsonStr(Some(n.tag)),
                     IntToString(n.layer), n.position, n.rotation, n.scale,
                     StrArrayText(n.components)))
  }

  function NodeTexts(nodes: seq<Node>): (r: seq<string>)
    ensures |r| == |nodes|
    decreases |nodes|
  {
    if |nodes| == 0 then [] else NodeTexts(nodes[..|nodes| - 1]) + [NodeText(nodes[|nodes| - 1])]
  }

  lemma NodeTextsSnoc(nodes: seq<Node>, i: nat)
    requires i < |nodes|
    ensures NodeTexts(nodes[..i + 1]) == NodeTexts(nodes[..i]) + [NodeText(nodes[i])]
  {
    assert nodes[..i + 1][..i] == nodes[..i];
  }

  /** The head of the snapshot object, up to the opening of `objects`. */
  function SnapshotHead(sceneName: string, count: nat): string {
    "{" + "\"scene\":" + JsonStr(Some(sceneName)) + ","
      + "\"truncated\":" + BoolText(count >= MaxObjects) + ","
      + "\"objects\":["
  }

  function SnapshotText(sceneName: string, nodes: seq<Node>): string {
    SnapshotHead(sceneName, |nodes|) + Join(",", NodeTexts(nodes)) + "]}"
  }

  // ---------------------------------------------------------------------
  // The builder as the source writes it

  /** GetPath: push the names up to the root on a stack and join them in
      pop order. */
  method StackPath(scene: Scene, h: Handle) returns (path: string)
    requires Valid(scene) && h in scene.objects
    ensures path == Path(scene, h)
  {
    var stack: seq<string> := [];
    var cur: Option<Handle> := Some(h);
    while cur.Some?
      invariant cur.Some? ==> cur.value in scene.objects && stack + Ancestry(scene, cur.value) == Ancestry(scene, h)
      invariant cur.None? ==> stack == Ancestry(scene, h)
      decreases if cur.Some? then cur.value + 1 else 0
    {
      var go := scene.objects[cur.value];
      stack := stack + [go.name];
      cur := go.parent;
    }
    path := Join("/", Reverse(stack));
    JoinedAncestryIsPath(scene, h);
  }

  /** The stack walk and the executor's recursive GetPath agree. */
  lemma {:induction false} JoinedAncestryIsPath(scene: Scene, h: Handle)
    requires Valid(scene) && h in scene.objects
    ensures Join("/", Reverse(Ancestry(scene, h))) == Path(scene, h)
    decreases h
  {
    var go := scene.objects[h];
    if go.parent.Some? {
      var up := Ancestry(scene, go.parent.value);
      JoinedAncestryIsPath(scene, go.parent.value);
      assert Ancestry(scene, h) == [go.name] + up;
      assert Reverse([go.name] + up) == Reverse(up) + [go.name];
      JoinSnoc("/", Reverse(up), go.name);
    } else {
      assert Reverse([go.name]) == [go.name];
    }
  }

  /** The component loop of Traverse: null components are skipped. */
  method ComponentNames(comps: seq<Component>) returns (names: seq<string>)
    ensures names == Present(comps)
  {
    names := [];
    for i := 0 to |comps|
      invariant names == Present(comps[..i])
    {
      assert comps[..i + 1][..i] == comps[..i];
      if comps[i].None? {
        continue;
      }
      names := names + [comps[i].value];
    }
    assert comps[..|comps|] == comps;
  }

  /** A forest's prefix grows by one subtree at a time. */
  lemma ForestPrefix(scene: Scene, hs: seq<Handle>, lo: int, i: nat)
    requires Valid(scene) && lo >= -1 && i < |hs|
    requires forall k :: 0 <= k < |hs| ==> hs[k] in scene.objects && lo < hs[k]
    ensures Forest(scene, hs[..i + 1], lo) == Forest(scene, hs[..i], lo) + PreOrder(scene, hs[i])
  {
    assert hs[..i + 1][..i] == hs[..i];
  }

  /** A forest is the forest of a prefix followed by the forest of the rest. */
  lemma {:induction false} ForestSplit(scene: Scene, hs: seq<Handle>, lo: int, j: nat)
    requires Valid(scene) && lo >= -1 && j <= |hs|
    requires forall k :: 0 <= k < |hs| ==> hs[k] in scene.objects && lo < hs[k]
    ensures Forest(scene, hs, lo) == Forest(scene, hs[..j], lo) + Forest(scene, hs[j..], lo)
    decreases |hs|
  {
    if j == |hs| {
      assert hs[..j] == hs;
    } else {
      var init := hs[..|hs| - 1];
      ForestSplit(scene, init, lo, j);
      assert init[..j] == hs[..j];
      assert init[j..] == hs[j..][..|hs[j..]| - 1];
      assert hs[j..][|hs[j..]| - 1] == hs[|hs| - 1];
    }
  }

  /** One more subtree traversed: the list is the capped listing of one more tree. */
  lemma ForestStep(scene: Scene, transforms: Handle -> TransformText, hs: seq<Handle>, lo: int, i: nat,
                   base: seq<Node>, out: seq<Node>, next: seq<Node>, max: nat)
    requires Valid(scene) && lo >= -1 && i < |hs|
    requires forall k :: 0 <= k < |hs| ==> hs[k] in scene.objects && lo < hs[k]
    requires out == Capped(base, NodesOf(scene, transforms, Forest(scene, hs[..i], lo)), max)
    requires next == Capped(out, NodesOf(scene, transforms, PreOrder(scene, hs[i])), max)
    ensures next == Capped(base, NodesOf(scene, transforms, Forest(scene, hs[..i + 1], lo)), max)
  {
    ForestPrefix(scene, hs, lo, i);
    NodesOfAppend(scene, transforms, Forest(scene, hs[..i], lo), PreOrder(scene, hs[i]));
    CappedTwice(base, NodesOf(scene, transforms, Forest(scene, hs[..i], lo)),
                NodesOf(scene, transforms, PreOrder(scene, hs[i])), max);
  }

  /** Once the list is full the remaining trees change nothing. */
  lemma FullStaysFull(scene: Scene, transforms: Handle -> TransformText, hs: seq<Handle>, lo: int, j: nat,
                      base: seq<Node>, out: seq<Node>, max: nat)
    requires Valid(scene) && lo >= -1 && j <= |hs|
    requires forall k :: 0 <= k < |hs| ==> hs[k] in scene.objects && lo < hs[k]
    requires out == Capped(base, NodesOf(scene, transforms, Forest(scene, hs[..j], lo)), max) && |out| >= max
    ensures out == Capped(base, NodesOf(scene, transforms, Forest(scene, hs, lo)), max)
  {
    ForestSplit(scene, hs, lo, j);
    NodesOfAppend(scene, transforms, Forest(scene, hs[..j], lo), Forest(scene, hs[j..], lo));
    CappedTwice(base, NodesOf(scene, transforms, Forest(scene, hs[..j], lo)),
                NodesOf(scene, transforms, Forest(scene, hs[j..], lo)), max);
  }

  /** The node and then its children's subtrees make its pre-order listing. */
  lemma SubtreeDone(scene: Scene, transforms: Handle -> TransformText, h: Handle,
                    outList: seq<Node>, base: seq<Node>, out: seq<Node>, max: nat)
    requires Valid(scene) && h in scene.objects && |outList| < max
    requires base == outList + [NodeOf(scene, transforms, h)]
    requires out == Capped(base, NodesOf(scene, transforms, Forest(scene, Children(scene, h), h)), max)
    ensures out == Capped(outList, NodesOf(scene, transforms, PreOrder(scene, h)), max)
  {
    var rest := Forest(scene, Children(scene, h), h);
    NodesOfAppend(scene, transforms, [h], rest);
    assert NodesOf(scene, transforms, [h]) == [NodeOf(scene, transforms, h)];
    CappedCons(outList, NodeOf(scene, transforms, h), NodesOf(scene, transforms, rest), max);
  }

  /** Traverse(t, outList, maxObjects): append the subtree of `h` in
      pre-order, stopping once the list holds `maxObjects`. */
  method Traverse(scene: Scene, transforms: Handle -> TransformText, h: Handle, outList: seq<Node>, maxObjects: nat)
    returns (out: seq<Node>)
    requires Valid(scene) && h in scene.objects
    ensures out == Capped(outList, NodesOf(scene, transforms, PreOrder(scene, h)), maxObjects)
    decreases scene.next - h, 1
  {
    if |outList| >= maxObjects {
      return outList;
    }
    var go := scene.objects[h];
    var path := StackPath(scene, h);
    var names := ComponentNames(go.components);
    var t := transforms(h);
    var node := Node(path, go.activeSelf, go.tag, go.layer, t.position, t.rotation, t.scale, names);
    var base := outList + [node];
    out := TraverseChildren(scene, transforms, h, base, maxObjects);
    SubtreeDone(scene, transforms, h, outList, base, out, maxObjects);
  }

  /** The foreach of Traverse over the children of `h`, each traversed in
      turn, leaving the loop once the list is full. */
  method TraverseChildren(scene: Scene, transforms: Handle -> TransformText, h: Handle, base: seq<Node>, maxObjects: nat)
    returns (out: seq<Node>)
    requires Valid(scene) && h in scene.objects
    ensures out == Capped(base, NodesOf(scene, transforms, Forest(scene, Children(scene, h), h)), maxObjects)
    decreases scene.next - h, 0
  {
    out := base;
    var children := Children(scene, h);
    var i := 0;
    while i < |children|
      invariant 0 <= i <= |children|
      invariant out == Capped(base, NodesOf(scene, transforms, Forest(scene, children[..i], h)), maxObjects)
    {
      var next := Traverse(scene, transforms, children[i], out, maxObjects);
      ForestStep(scene, transforms, children, h, i, base, out, next, maxObjects);
      out := next;
      if |out| >= maxObjects {
        FullStaysFull(scene, transforms, children, h, i + 1, base, out, maxObjects);
        return;
      }
      i := i + 1;
    }
    assert children[..|children|] == children;
  }

  /** The root loop of BuildSnapshotJson: traverse each root, and stop once
      MaxObjects nodes are held. */
  method CollectObjects(scene: Scene, transforms: Handle -> TransformText) returns (objects: seq<Node>)
    requires Valid(scene)
    ensures objects == Collected(scene, transforms)
  {
    var roots := Roots(scene);
    objects := [];
    var i := 0;
    while i < |roots|
      invariant 0 <= i <= |roots|
      invariant objects == Capped([], NodesOf(scene, transforms, Forest(scene, roots[..i], -1)), MaxObjects)
    {
      var next := Traverse(scene, transforms, roots[i], objects, MaxObjects);
      ForestStep(scene, transforms, roots, -1, i, [], objects, next, MaxObjects);
      objects := next;
      if |objects| >= MaxObjects {
        FullStaysFull(scene, transforms, roots, -1, i + 1, [], objects, MaxObjects);
        assert [] + NodesOf(scene, transforms, AllNodes(scene)) == NodesOf(scene, transforms, AllNodes(scene));
        return;
      }
      i := i + 1;
    }
    assert roots[..|roots|] == roots;
    assert [] + NodesOf(scene, transforms, AllNodes(scene)) == NodesOf(scene, transforms, AllNodes(scene));
  }

  /** StrArray. */
  method StrArray(arr: seq<string>) returns (r: string)
    ensures r == StrArrayText(arr)
  {
    ghost var quoted := Quoteds(arr);
    var sb := "[";
    for i := 0 to |arr|
      invariant sb == "[" + Join(",", quoted[..i])
    {
      assert quoted[..i + 1] == quoted[..i] + [JsonStr(Some(arr[i]))];
      JoinStep("[", quoted[..i], quoted[..i + 1], JsonStr(Some(arr[i])), i, sb);
      if i > 0 {
        sb := sb + ",";
      }
      sb := sb + JsonStr(Some(arr[i]));
    }
    assert quoted[..|arr|] == quoted;
    r := sb + "]";
  }

  /** Node.ToJson. */
  method ToJson(n: Node) returns (r: string)
    ensures r == NodeText(n)
  {
    var components := StrArray(n.components);
    ghost var parts := NodeParts(JsonStr(Some(n.path)), BoolText(n.active), JsonStr(Some(n.tag)),
                                 IntToString(n.layer), n.position, n.rotation, n.scale, components);
    assert |parts| == 11 && parts[..0] == [];
    r := "{";
    ConcatPrefix(parts, 0);
    assert r == Concat(parts[..1]);
    r := r + Field("\"path\":", JsonStr(Some(n.path)));
    ConcatPrefix(parts, 1);
    assert r == Concat(parts[..2]);
    r := r + Field("\"active\":", BoolText(n.active));
    ConcatPrefix(parts, 2);
    assert r == Concat(parts[..3]);
    r := r + Field("\"tag\":", JsonStr(Some(n.tag)));
    ConcatPrefix(parts, 3);
    assert r == Concat(parts[..4]);
    r := r + Field("\"layer\":", IntToString(n.layer));
    ConcatPrefix(parts, 4);
    assert r == Concat(parts[..5]);
    r := r + Field("\"position\":", n.position);
    ConcatPrefix(parts, 5);
    assert r == Concat(parts[..6]);
    r := r + Field("\"rotation\":", n.rotation);
    ConcatPrefix(parts, 6);
    assert r == Concat(parts[..7]);
    r := r + Field("\"scale\":", n.scale);
    ConcatPrefix(parts, 7);
    assert r == Concat(parts[..8]);
    r := r + "\"components\":";
    ConcatPrefix(parts, 8);
    assert r == Concat(parts[..9]);
    r := r + components;
    ConcatPrefix(parts, 9);
    assert r == Concat(parts[..10]);
    r := r + "}";
    ConcatPrefix(parts, 10);
    assert r == Concat(parts[..11]);
    assert parts[..|parts|] == parts;
  }

  /** BuildSnapshotJson. */
  method BuildSnapshotJson(scene: Scene, transforms: Handle -> TransformText) returns (json: string)
    requires Valid(scene)
    ensures json == SnapshotText(scene.name, Collected(scene, transforms))
  {
    var objects := CollectObjects(scene, transforms);
    var sb := SnapshotHead(scene.name, |objects|);
    var head := sb;
    for i := 0 to |objects|
      invariant sb == head + Join(",", NodeTexts(objects[..i]))
    {
      var text := ToJson(objects[i]);
      NodeTextsSnoc(objects, i);
      JoinStep(head, NodeTexts(objects[..i]), NodeTexts(objects[..i + 1]), text, i, sb);
      if i > 0 {
        sb := sb + ",";
      }
      sb := sb + text;
    }
    assert objects[..|objects|] == objects;
    json := sb + "]}";
    NotBlank(json);
    if IsBlank(json) {
      json := "{}";
    }
  }

  /** Text that opens with a brace is not blank, so the `{}` fallback of
      BuildSnapshotJson never applies. */
  lemma NotBlank(s: string)
    requires |s| > 0 && s[0] == '{'
    ensures !IsBlank(s)
  {
  }
}
