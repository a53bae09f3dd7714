/** The part of a Unity scene the kernel touches, abstracted: GameObjects are
    handles into a map, each with a name, an optional parent, its own active
    flag, the flags that mark assets and internal editor objects, the
    transform fields the commands set, and its components. A destroyed
    object is a handle no longer in the map, which is what Unity's
    overloaded `== null` reports for it. Handles are handed out in increasing
    order and a parent is always older than its child, which is what makes
    every walk up the parent chain finite. */
module Hierarchy {
  import opened Wrappers
  import opened Text
  import Commands

  type Handle = nat

  /** One component: the short Name of its type, or None where the component
      is null (a script whose class is missing). */
  type Component = Option<string>

  datatype GameObject = GameObject(
    name: string,
    parent: Option<Handle>,
    activeSelf: bool,
    persistent: bool,
    notEditable: bool,
    tag: string,
    layer: int,
    position: Option<Commands.Vec3>,
    rotation: Option<Commands.Quat>,
    scale: Option<Commands.Vec3>,
    components: seq<Component>)

  datatype Scene = Scene(name: string, objects: map<Handle, GameObject>, next: Handle)

  /** Every parent is alive and older than its child; every handle is below `next`. */
  ghost predicate Valid(scene: Scene) {
    forall h :: h in scene.objects ==>
      h < scene.next
      && (scene.objects[h].parent.Some? ==>
            scene.objects[h].parent.value in scene.objects && scene.objects[h].parent.value < h)
  }

  /** GetPath of the C# executor: a root's name, or the parent's path, a `/`
      and the name. */
  function Path(scene: Scene, h: Handle): string
    requires Valid(scene) && h in scene.objects
    decreases h
  {
    var go := scene.objects[h];
    if go.parent.None? then go.name else Path(scene, go.parent.value) + "/" + go.name
  }

  /** The names from `h` up to its root, `h`'s own first. */
  function Ancestry(scene: Scene, h: Handle): (r: seq<string>)
    requires Valid(scene) && h in scene.objects
    ensures |r| > 0 && r[0] == scene.objects[h].name
    decreases h
  {
    var go := scene.objects[h];
    [go.name] + (if go.parent.None? then [] else Ancestry(scene, go.parent.value))
  }

  /** activeInHierarchy: the object and all of its ancestors are active. */
  predicate ActiveInHierarchy(scene: Scene, h: Handle)
    requires Valid(scene) && h in scene.objects
    decreases h
  {
    var go := scene.objects[h];
    go.activeSelf && (go.parent.None? || ActiveInHierarchy(scene, go.parent.value))
  }

  /** `a` is `d` or one of its ancestors. */
  predicate IsAncestorOrSelf(scene: Scene, a: Handle, d: Handle)
    requires Valid(scene) && d in scene.objects
    decreases d
  {
    d == a || (scene.objects[d].parent.Some? && IsAncestorOrSelf(scene, a, scene.objects[d].parent.value))
  }

  /** An ancestor of an ancestor is an ancestor. */
  lemma {:induction false} AncestorTransitive(s: Scene, a: Handle, b: Handle, h: Handle)
    requires Valid(s) && b in s.objects && h in s.objects
    requires IsAncestorOrSelf(s, a, b) && IsAncestorOrSelf(s, b, h)
    ensures IsAncestorOrSelf(s, a, h)
    decreases h
  {
    if h != b {
      AncestorTransitive(s, a, b, s.objects[h].parent.value);
    }
  }

  /** An ancestor is never younger than its descendant. */
  lemma {:induction false} AncestorIsOlder(scene: Scene, a: Handle, d: Handle)
    requires Valid(scene) && d in scene.objects && IsAncestorOrSelf(scene, a, d)
    ensures a <= d && a in scene.objects
    decreases d
  {
    if d != a {
      AncestorIsOlder(scene, a, scene.objects[d].parent.value);
    }
  }

  /** Two ancestors of one object lie on one chain: one is an ancestor of the other. */
  lemma {:induction false} AncestorsOnOneChain(scene: Scene, a: Handle, b: Handle, d: Handle)
    requires Valid(scene) && d in scene.objects
    requires IsAncestorOrSelf(scene, a, d) && IsAncestorOrSelf(scene, b, d)
    ensures a in scene.objects && b in scene.objects
    ensures IsAncestorOrSelf(scene, a, b) || IsAncestorOrSelf(scene, b, a)
    decreases d
  {
    AncestorIsOlder(scene, a, d);
    AncestorIsOlder(scene, b, d);
    if d != a && d != b {
      AncestorsOnOneChain(scene, a, b, scene.objects[d].parent.value);
    }
  }

  /** What `IsSceneObject` in DestroyByName accepts, for an object that is alive:
      not an asset (EditorUtility.IsPersistent) and not HideFlags.NotEditable. */
  predicate IsSceneObject(go: GameObject) {
    !go.persistent && !go.notEditable
  }

  /** What GameObject.Find(target) compares: the path when the target
      contains a `/`, the name otherwise. */
  predicate Matches(scene: Scene, h: Handle, target: string)
    requires Valid(scene) && h in scene.objects
  {
    if '/' in target then Path(scene, h) == target else scene.objects[h].name == target
  }

  /** An object GameObject.Find can return: alive, in the scene (not an
      asset), active in the hierarchy and matching the target. */
  predicate Findable(scene: Scene, h: Handle, target: string)
    requires Valid(scene)
  {
    h in scene.objects && !scene.objects[h].persistent && ActiveInHierarchy(scene, h) && Matches(scene, h, target)
  }

  /** GameObject.Find(target), searching handles from `from` upwards: the
      oldest findable object, or null when there is none. */
  function FindFrom(scene: Scene, target: string, from: Handle): (r: Option<Handle>)
    requires Valid(scene)
    ensures r.Some? ==> from <= r.value && Findable(scene, r.value, target)
                        && forall h :: from <= h < r.value ==> !Findable(scene, h, target)
    ensures r.None? ==> forall h :: from <= h ==> !Findable(scene, h, target)
    decreases scene.next - from
  {
    if from >= scene.next then None
    else if Findable(scene, from, target) then Some(from)
    else FindFrom(scene, target, from + 1)
  }

  function Find(scene: Scene, target: string): Option<Handle>
    requires Valid(scene)
  {
    FindFrom(scene, target, 0)
  }

  /** A new root object under the next handle. */
  function Create(scene: Scene, go: GameObject): (r: Scene)
    requires Valid(scene) && go.parent.None?
    ensures Valid(r)
    ensures r.objects == scene.objects[scene.next := go] && r.next == scene.next + 1
  {
    Scene(scene.name, scene.objects[scene.next := go], scene.next + 1)
  }

  /** GameObject.DestroyImmediate(h): the object and everything below it go. */
  function Destroy(scene: Scene, root: Handle): (r: Scene)
    requires Valid(scene)
    ensures Valid(r)
    ensures forall h :: h in r.objects <==> h in scene.objects && !IsAncestorOrSelf(scene, root, h)
    ensures forall h :: h in r.objects ==> r.objects[h] == scene.objects[h]
    ensures r.name == scene.name && r.next == scene.next
  {
    var r := Scene(scene.name, map h | h in scene.objects && !IsAncestorOrSelf(scene, root, h) :: scene.objects[h], scene.next);
    assert Valid(r) by {
      forall h | h in r.objects && r.objects[h].parent.Some?
        ensures r.objects[h].parent.value in r.objects
      {
        assert !IsAncestorOrSelf(scene, root, scene.objects[h].parent.value);
      }
    }
    r
  }

  /** Replaces the record of a live object without touching its parent. */
  function Update(scene: Scene, h: Handle, go: GameObject): (r: Scene)
    requires Valid(scene) && h in scene.objects && go.parent == scene.objects[h].parent
    ensures Valid(r)
  {
    Scene(scene.name, scene.objects[h := go], scene.next)
  }
}
