/** UnityMCPCommandExecutor: a batch of commands run one after the other
    against the scene. Aliases name the objects the batch creates; the alias
    map starts empty for every batch; the first command that throws aborts
    the batch and leaves the effects of the earlier commands in place; the
    response lists the created objects with the paths they have once the
    whole batch has run. The specification functions come first, then the
    class whose methods carry out the same steps on its fields. */
module Executor {
  import opened Wrappers
  import opened Text
  import opened Commands
  import opened Hierarchy
  import MiniJson

  // ---------------------------------------------------------------------
  // The host: primitive kinds, type lookup, library messages

  /** UnityEngine.PrimitiveType. */
  datatype PrimitiveType = Sphere | Capsule | Cylinder | Cube | Plane | Quad

  /** pType.ToString(). */
  function PrimitiveName(p: PrimitiveType): string {
    match p
    case Sphere => "Sphere"
    case Capsule => "Capsule"
    case Cylinder => "Cylinder"
    case Cube => "Cube"
    case Plane => "Plane"
    case Quad => "Quad"
  }

  /** Enum.Parse(typeof(PrimitiveType), s, true) on a name that is not
      blank: the names compared without regard to ASCII case. */
  function ParsePrimitive(s: string): Option<PrimitiveType> {
    var l := LowerAscii(s);
    if l == "sphere" then Some(Sphere)
    else if l == "capsule" then Some(Capsule)
    else if l == "cylinder" then Some(Cylinder)
    else if l == "cube" then Some(Cube)
    else if l == "plane" then Some(Plane)
    else if l == "quad" then Some(Quad)
    else None
  }

  /** The texts of the exceptions the runtime itself throws, worded as the
      host's runtime words them: `argumentNull` is the
      ArgumentNullException for a parameter name; `enumBlank` and
      `enumNotFound` are the ArgumentExceptions of Enum.Parse for a blank
      value and for an unknown name; `destroyed` is Unity's
      MissingReferenceException for a GameObject used after it was
      destroyed. */
  datatype Messages = Messages(
    argumentNull: string -> string,
    enumBlank: string,
    enumNotFound: string -> string,
    destroyed: string)

  /** What reflection answers: `getType` is Type.GetType(name), `assemblies`
      is AppDomain.GetAssemblies() in order with each assembly's GetType(name);
      a hit is the short Name of the type found. `primitiveComponents` is
      what GameObject.CreatePrimitive puts on a new object of each kind,
      and `messages` the runtime's exception texts. */
  datatype Host = Host(
    getType: map<string, string>,
    assemblies: seq<map<string, string>>,
    primitiveComponents: PrimitiveType -> seq<Component>,
    messages: Messages)

  /** The first assembly that defines `name`. */
  function FirstAssembly(assemblies: seq<map<string, string>>, name: string): (r: Option<string>)
    ensures r.None? <==> forall k :: 0 <= k < |assemblies| ==> name !in assemblies[k]
    ensures r.Some? ==> exists k :: 0 <= k < |assemblies| && name in assemblies[k] && r.value == assemblies[k][name]
                                    && forall j :: 0 <= j < k ==> name !in assemblies[j]
    decreases |assemblies|
  {
    if |assemblies| == 0 then None
    else if name in assemblies[0] then Some(assemblies[0][name])
    else
      var r := FirstAssembly(assemblies[1..], name);
      if r.Some? then
        ghost var k :| 0 <= k < |assemblies[1..]| && name in assemblies[1..][k] && r.value == assemblies[1..][k][name]
                       && forall j :: 0 <= j < k ==> name !in assemblies[1..][j];
        assert forall j :: 0 <= j < k + 1 ==> name !in assemblies[j] by {
          forall j | 0 <= j < k + 1 ensures name !in assemblies[j] {
            if j > 0 { assert assemblies[j] == assemblies[1..][j - 1]; }
          }
        }
        r
      else r
  }

  datatype Lookup = Found(typeName: string) | Missing | Throws(message: string)

  /** The type lookup of AddComponent, in its three tiers: the UnityEngine
      assembly-qualified name, Type.GetType(name), then the assemblies. */
  function ComponentLookup(host: Host, componentType: Option<string>): Lookup {
    var qualified := "UnityEngine." + OrEmpty(componentType) + ", UnityEngine";
    if qualified in host.getType then Found(host.getType[qualified])
    else if componentType.None? then Throws(host.messages.argumentNull("typeName"))
    else if componentType.value in host.getType then Found(host.getType[componentType.value])
    else
      match FirstAssembly(host.assemblies, componentType.value)
      case Some(t) => Found(t)
      case None => Missing
  }

  /** The type lookup of AttachScript: nothing for an empty class name,
      otherwise Type.GetType(name), the UnityMCP.Generated namespace, then
      the assemblies. */
  function ScriptLookup(host: Host, scriptClass: Option<string>): Option<string> {
    if IsNullOrEmpty(scriptClass) then None
    else if scriptClass.value in host.getType then Some(host.getType[scriptClass.value])
    else if "UnityMCP.Generated." + scriptClass.value in host.getType then Some(host.getType["UnityMCP.Generated." + scriptClass.value])
    else FirstAssembly(host.assemblies, scriptClass.value)
  }

  /** string.IsNullOrEmpty. */
  predicate IsNullOrEmpty(s: Option<string>) {
    s.None? || s.value == ""
  }

  /** A string interpolated into a message: null renders as nothing. */
  function OrEmpty(s: Option<string>): string {
    if s.Some? then s.value else ""
  }

  // ---------------------------------------------------------------------
  // One command

  /** What survives from one command to the next: the scene, `_aliasMap` and
      `createdIds`. */
  datatype State = State(scene: Scene, aliases: map<string, Handle>, created: seq<string>)

  ghost predicate ValidState(st: State) {
    Valid(st.scene)
  }

  /** The outcome of one command: it ran; it threw before changing
      anything; or it threw part-way, after changing the state. */
  datatype Step = Stepped(state: State) | Threw(message: string) | ThrewAfter(state: State, message: string)

  /** RegisterAlias(id, go): only a non-empty id is recorded; a second
      registration of the same id overwrites the map entry and adds the id
      to `createdIds` again. */
  function Register(st: State, id: Option<string>, h: Handle): (r: State)
    ensures r.scene == st.scene
    ensures IsNullOrEmpty(id) ==> r == st
    ensures !IsNullOrEmpty(id) ==> r.aliases == st.aliases[id.value := h] && r.created == st.created + [id.value]
  {
    if IsNullOrEmpty(id) then st else State(st.scene, st.aliases[id.value := h], st.created + [id.value])
  }

  datatype Target = Resolved(handle: Handle) | Unresolved(message: string)

  /** ResolveTarget: an empty target throws; an alias is tried before the
      scene; a target found in neither throws. An alias may name an object
      that has since been destroyed. */
  function Resolve(st: State, target: Option<string>): (r: Target)
    requires ValidState(st)
    ensures IsNullOrEmpty(target) <==> r == Unresolved("Target cannot be empty")
    ensures !IsNullOrEmpty(target) && target.value in st.aliases ==> r == Resolved(st.aliases[target.value])
    ensures !IsNullOrEmpty(target) && target.value !in st.aliases ==>
              match Find(st.scene, target.value)
              case Some(h) => r == Resolved(h) && h in st.scene.objects
              case None => r == Unresolved("Target not found: " + target.value)
  {
    if IsNullOrEmpty(target) then Unresolved("Target cannot be empty")
    else if target.value in st.aliases then Resolved(st.aliases[target.value])
    else
      match Find(st.scene, target.value)
      case Some(h) => Resolved(h)
      case None =>
        assert ("Target not found: " + target.value)[7] != "Target cannot be empty"[7];
        Unresolved("Target not found: " + target.value)
  }

  /** The transform assignments guarded by `!= null`: only the fields the
      command carries are written. */
  function ApplyTransform(go: GameObject, position: Option<Vec3>, rotation: Option<Quat>, scale: Option<Vec3>): (r: GameObject)
    ensures r.position == (if position.Some? then position else go.position)
    ensures r.rotation == (if rotation.Some? then rotation else go.rotation)
    ensures r.scale == (if scale.Some? then scale else go.scale)
    ensures r.(position := go.position, rotation := go.rotation, scale := go.scale) == go
  {
    go.(position := if position.Some? then position else go.position,
        rotation := if rotation.Some? then rotation else go.rotation,
        scale := if scale.Some? then scale else go.scale)
  }

  /** A GameObject as `new GameObject(name)` or CreatePrimitive makes it: an
      active root with the default tag and layer. */
  function NewObject(name: string, components: seq<Component>): GameObject {
    GameObject(name, None, true, false, false, "Untagged", 0, None, None, None, components)
  }

  /** The changes a command makes to an existing object. */
  datatype Edit = SetName(name: string) | SetFields(position: Option<Vec3>, rotation: Option<Quat>, scale: Option<Vec3>) | Attach(typeName: string)

  function Apply(edit: Edit, go: GameObject): (r: GameObject)
    ensures r.parent == go.parent
  {
    match edit
    case SetName(n) => go.(name := n)
    case SetFields(p, q, s) => ApplyTransform(go, p, q, s)
    case Attach(t) => go.(components := go.components + [Some(t)])
  }

  /** What `targetGO.name = …`, `targetGO.transform…` and
      `targetGO.AddComponent(…)` do to a live object, and what they throw on
      a destroyed one. */
  function Touch(host: Host, st: State, h: Handle, edit: Edit): (r: Step)
    requires ValidState(st)
    ensures r.Stepped? ==> ValidState(r.state)
  {
    if h !in st.scene.objects then Threw(host.messages.destroyed)
    else Stepped(st.(scene := Update(st.scene, h, Apply(edit, st.scene.objects[h]))))
  }

  /** An object DestroyByName(all) destroys when it reaches it. */
  predicate Hit(scene: Scene, h: Handle, name: string) {
    h in scene.objects && scene.objects[h].name == name && IsSceneObject(scene.objects[h])
  }

  /** Where the DestroyByName(all) loop stands: the scene so far, and the
      handle whose `go.name` threw, if one did. */
  datatype Sweeping = Sweeping(scene: Scene, threwAt: Option<Handle>)

  /** The DestroyByName(all) loop after its first `n` turns. It walks the
      objects Resources.FindObjectsOfTypeAll returned before the loop began
      (the objects of `scene`, in handle order). Reading `go.name` on one
      that an earlier turn destroyed together with its parent throws, and
      the loop stops there with the destructions done so far in place. */
  function SweepUpTo(scene: Scene, name: string, n: nat): (r: Sweeping)
    requires Valid(scene)
    ensures Valid(r.scene) && r.scene.next == scene.next
    ensures r.threwAt.Some? ==> r.threwAt.value < n
    decreases n
  {
    if n == 0 then Sweeping(scene, None)
    else
      var prev := SweepUpTo(scene, name, n - 1);
      var h := n - 1;
      if prev.threwAt.Some? || h !in scene.objects then prev
      else if h !in prev.scene.objects then Sweeping(prev.scene, Some(h))
      else if Hit(prev.scene, h, name) then Sweeping(Destroy(prev.scene, h), None)
      else prev
  }

  function Sweep(scene: Scene, name: string): (r: Sweeping)
    requires Valid(scene)
    ensures Valid(r.scene)
  {
    SweepUpTo(scene, name, scene.next)
  }

  /** One more turn of the DestroyByName(all) loop, and the whole sweep
      once that turn has thrown. */
  lemma SweepTurn(scene: Scene, name: string, h: nat, current: Scene)
    requires Valid(scene) && h < scene.next
    requires SweepUpTo(scene, name, h) == Sweeping(current, None)
    ensures Valid(current)
    ensures SweepUpTo(scene, name, h + 1) ==
              if h !in scene.objects then Sweeping(current, None)
              else if h !in current.objects then Sweeping(current, Some(h))
              else if Hit(current, h, name) then Sweeping(Destroy(current, h), None)
              else Sweeping(current, None)
    ensures SweepUpTo(scene, name, h + 1).threwAt.Some? ==>
              Sweep(scene, name) == SweepUpTo(scene, name, h + 1)
  {
    if SweepUpTo(scene, name, h + 1).threwAt.Some? {
      SweepStops(scene, name, h + 1, scene.next);
    }
  }

  /** Once a turn of the loop has thrown, later turns change nothing. */
  lemma {:induction false} SweepStops(scene: Scene, name: string, k: nat, n: nat)
    requires Valid(scene) && k <= n
    requires SweepUpTo(scene, name, k).threwAt.Some?
    ensures SweepUpTo(scene, name, n) == SweepUpTo(scene, name, k)
    decreases n - k
  {
    if k < n {
      SweepStops(scene, name, k, n - 1);
    }
  }

  /** One pass of the DestroyByName(all) loop body, at handle `h` of the
      objects found at the start: a handle that was not found is skipped,
      reading the name of one already destroyed throws, and a scene object
      with the name is destroyed. */
  method SweepStep(start: Scene, name: string, h: nat, current: Scene) returns (turn: Sweeping)
    requires Valid(start) && h < start.next
    requires SweepUpTo(start, name, h) == Sweeping(current, None)
    ensures turn == SweepUpTo(start, name, h + 1)
    ensures turn.threwAt.Some? ==> turn == Sweep(start, name)
  {
    SweepTurn(start, name, h, current);
    if h !in start.objects {
      return Sweeping(current, None);
    }
    if h !in current.objects {
      return Sweeping(current, Some(h));
    }
    if Hit(current, h, name) {
      return Sweeping(Destroy(current, h), None);
    }
    return Sweeping(current, None);
  }

  /** The DestroyByName(all) loop: every handle found at the start, in
      order, until one of them throws. */
  method SweepObjects(start: Scene, name: string) returns (r: Sweeping)
    requires Valid(start)
    ensures r == Sweep(start, name)
  {
    var current := start;
    var h := 0;
    while h < start.next
      invariant h <= start.next
      invariant SweepUpTo(start, name, h) == Sweeping(current, None)
    {
      var turn := SweepStep(start, name, h, current);
      if turn.threwAt.Some? {
        return turn;
      }
      current := turn.scene;
      h := h + 1;
    }
    return Sweeping(current, None);
  }


  /** ProcessCommand: the seven command types; anything else throws. */
  function Exec(host: Host, st: State, cmd: CommandData): (r: Step)
    requires ValidState(st)
    ensures r.Stepped? ==> ValidState(r.state)
    ensures r.ThrewAfter? ==> ValidState(r.state) && cmd.kind == Some("DestroyByName") && r.message == host.messages.destroyed
  {
    var kind := OrEmpty(cmd.kind);
    if cmd.kind == Some("CreatePrimitive") then
      if cmd.primitive.None? then Threw(host.messages.argumentNull("value"))
      else if IsBlank(cmd.primitive.value) then Threw(host.messages.enumBlank)
      else
        match ParsePrimitive(cmd.primitive.value)
        case None => Threw(host.messages.enumNotFound(cmd.primitive.value))
        case Some(p) =>
          var name := if IsNullOrEmpty(cmd.name) then PrimitiveName(p) else cmd.name.value;
          var go := NewObject(name, host.primitiveComponents(p)).(position := cmd.position, rotation := cmd.rotation, scale := cmd.scale);
          Stepped(Register(st.(scene := Create(st.scene, go)), cmd.id, st.scene.next))
    else if cmd.kind == Some("CreateEmpty") then
      var name := if IsNullOrEmpty(cmd.name) then "Empty" else cmd.name.value;
      var go := NewObject(name, [Some("Transform")]).(position := cmd.position);
      Stepped(Register(st.(scene := Create(st.scene, go)), cmd.id, st.scene.next))
    else if cmd.kind == Some("Rename") then
      match Resolve(st, cmd.target)
      case Unresolved(m) => Threw(m)
      case Resolved(h) => Touch(host, st, h, SetName(OrEmpty(cmd.name)))
    else if cmd.kind == Some("SetTransform") then
      match Resolve(st, cmd.target)
      case Unresolved(m) => Threw(m)
      case Resolved(h) =>
        if cmd.position.None? && cmd.rotation.None? && cmd.scale.None? then Stepped(st)
        else Touch(host, st, h, SetFields(cmd.position, cmd.rotation, cmd.scale))
    else if cmd.kind == Some("AddComponent") then
      match Resolve(st, cmd.target)
      case Unresolved(m) => Threw(m)
      case Resolved(h) =>
        match ComponentLookup(host, cmd.componentType)
        case Throws(m) => Threw(m)
        case Missing => Threw("Unknown component: " + OrEmpty(cmd.componentType))
        case Found(t) => Touch(host, st, h, Attach(t))
    else if cmd.kind == Some("AttachScript") then
      match Resolve(st, cmd.target)
      case Unresolved(m) => Threw(m)
      case Resolved(h) =>
        match ScriptLookup(host, cmd.scriptClass)
        case None => Threw("Script class not found: " + OrEmpty(cmd.scriptClass))
        case Some(t) => Touch(host, st, h, Attach(t))
    else if cmd.kind == Some("DestroyByName") then
      if IsNullOrEmpty(cmd.name) then Threw("DestroyByName requires 'name'")
      else if cmd.all then
        var r := Sweep(st.scene, cmd.name.value);
        if r.threwAt.None? then Stepped(st.(scene := r.scene))
        else ThrewAfter(st.(scene := r.scene), host.messages.destroyed)
      else
        match Find(st.scene, cmd.name.value)
        case Some(h) => Stepped(st.(scene := Destroy(st.scene, h)))
        case None => Stepped(st)
    else Threw("Unknown command type: " + kind)
  }

  // ---------------------------------------------------------------------
  // The batch

  /** The foreach loop of Execute after some commands: still running, or
      aborted by the command at index `at`, with the state as that command
      left it (untouched, unless it threw part-way). */
  datatype Run = Running(state: State) | Aborted(state: State, at: nat, message: string)

  /** The message Execute throws for a failing command. */
  function FailureMessage(cmd: CommandData, message: string): string {
    "Command '" + OrEmpty(cmd.kind) + "' failed: " + message
  }

  function RunFrom(host: Host, st: State, cmds: seq<CommandData>): (r: Run)
    requires ValidState(st)
    ensures ValidState(r.state)
    ensures r.Aborted? ==> r.at < |cmds|
    decreases |cmds|
  {
    if |cmds| == 0 then Running(st)
    else
      match RunFrom(host, st, cmds[..|cmds| - 1])
      case Aborted(s, at, m) => Aborted(s, at, m)
      case Running(s) =>
        match Exec(host, s, cmds[|cmds| - 1])
        case Stepped(s') => Running(s')
        case Threw(m) => Aborted(s, |cmds| - 1, FailureMessage(cmds[|cmds| - 1], m))
        case ThrewAfter(s', m) => Aborted(s', |cmds| - 1, FailureMessage(cmds[|cmds| - 1], m))
  }

  /** A batch starts from the scene with no aliases and no created ids. */
  function Fresh(scene: Scene): State {
    State(scene, map[], [])
  }

  /** The alive objects the batch registered, in `createdIds` order, with
      the object each id names at the end. */
  function Live(st: State, ids: seq<string>): (r: seq<(string, Handle)>)
    ensures |r| <= |ids|
    ensures forall e :: e in r ==> e.0 in ids && e.0 in st.aliases && st.aliases[e.0] == e.1 && e.1 in st.scene.objects
    decreases |ids|
  {
    if |ids| == 0 then []
    else
      var id := ids[|ids| - 1];
      Live(st, ids[..|ids| - 1])
        + (if id in st.aliases && st.aliases[id] in st.scene.objects then [(id, st.aliases[id])] else [])
  }

  /** One entry of the response object. */
  function EntryText(st: State, id: string, h: Handle): string
    requires ValidState(st) && h in st.scene.objects
  {
    "\"" + MiniJson.Escape(id) + "\":{" + "\"instanceId\":" + IntToString(h) + ","
      + "\"path\":\"" + MiniJson.Escape(Path(st.scene, h)) + "\"" + "}"
  }

  function EntryTexts(st: State, entries: seq<(string, Handle)>): (r: seq<string>)
    requires ValidState(st)
    requires forall e :: e in entries ==> e.1 in st.scene.objects
    ensures |r| == |entries|
    decreases |entries|
  {
    if |entries| == 0 then []
    else
      var e := entries[|entries| - 1];
      EntryTexts(st, entries[..|entries| - 1]) + [EntryText(st, e.0, e.1)]
  }

  /** The `created` object of the response, built from the final state. */
  function CreatedText(st: State): string
    requires ValidState(st)
  {
    "{" + Join(",", EntryTexts(st, Live(st, st.created))) + "}"
  }

  datatype Outcome = Done(created: string) | Failed(message: string)

  /** Execute(request): the outcome, and the state the engine is left in. */
  function Batch(host: Host, scene: Scene, cmds: seq<CommandData>): (r: (Outcome, State))
    requires Valid(scene)
    ensures ValidState(r.1)
  {
    match RunFrom(host, Fresh(scene), cmds)
    case Running(st) => (Done(CreatedText(st)), st)
    case Aborted(st, _, m) => (Failed(m), st)
  }

  /** The loop of the response writer over a snapshot of the engine state:
    one entry per registered id whose object is still alive, comma-separated. */
  method WriteCreated(st: State) returns (json: string)
    requires ValidState(st)
    ensures json == CreatedText(st)
  {
    var ids := st.created;
    var sb := "{";
    var first := true;
    var i := 0;
    while i < |ids|
      invariant 0 <= i <= |ids|
      invariant sb == "{" + Join(",", EntryTexts(st, Live(st, ids[..i])))
      invariant first <==> |Live(st, ids[..i])| == 0
    {
      var id := ids[i];
      ResponseStep(st, ids, i, sb, first);
      if id in st.aliases && st.aliases[id] in st.scene.objects {
        var entry := EntryText(st, id, st.aliases[id]);
        if !first {
          sb := sb + ",";
        }
        first := false;
        sb := sb + entry;
      }
      i := i + 1;
    }
    assert ids[..i] == ids;
    json := sb + "}";
  }


  // ---------------------------------------------------------------------
  // The engine

  /** The static state of UnityMCPCommandExecutor together with the scene
      it works on: `_aliasMap`, the `createdIds` list of the running batch,
      and the host it asks for types. */
  class Engine {
    const host: Host
    var scene: Scene
    var aliases: map<string, Handle>
    var createdIds: seq<string>

    ghost predicate Valid()
      reads this
    {
      Hierarchy.Valid(scene)
    }

    function Current(): State
      reads this
    {
      State(scene, aliases, createdIds)
    }

    constructor (host: Host, scene: Scene)
      requires Hierarchy.Valid(scene)
      ensures Valid()
      ensures this.host == host && this.scene == scene && aliases == map[] && createdIds == []
    {
      this.host := host;
      this.scene := scene;
      aliases := map[];
      createdIds := [];
    }

    method RegisterAlias(id: Option<string>, go: Handle)
      modifies this
      ensures Current() == Register(old(Current()), id, go)
    {
      if !IsNullOrEmpty(id) {
        aliases := aliases[id.value := go];
        createdIds := createdIds + [id.value];
      }
    }

    method ResolveTarget(target: Option<string>) returns (r: Target)
      requires Valid()
      ensures r == Resolve(Current(), target)
    {
      if IsNullOrEmpty(target) {
        return Unresolved("Target cannot be empty");
      }
      if target.value in aliases {
        return Resolved(aliases[target.value]);
      }
      var go := Find(scene, target.value);
      if go.Some? {
        return Resolved(go.value);
      }
      return Unresolved("Target not found: " + target.value);
    }

    /** The DestroyByName(all) loop over the objects found before it
      began; None when it ran to the end, the exception message when it
      stopped on a destroyed object. */
    method DestroyAll(name: string) returns (failure: Option<string>)
      requires Valid()
      modifies this
      ensures Valid()
      ensures var r := Sweep(old(scene), name);
              && scene == r.scene && (failure.None? <==> r.threwAt.None?)
              && (failure.Some? ==> failure.value == host.messages.destroyed)
      ensures aliases == old(aliases) && createdIds == old(createdIds)
    {
      var r := SweepObjects(scene, name);
      scene := r.scene;
      failure := if r.threwAt.None? then None else Some(host.messages.destroyed);
    }

    /** A change to a live object; a destroyed one throws. */
    method TouchObject(go: Handle, edit: Edit) returns (failure: Option<string>)
      requires Valid()
      modifies this
      ensures Valid()
      ensures match Touch(host, old(Current()), go, edit)
              case Stepped(st) => failure.None? && Current() == st
              case Threw(m) => failure == Some(m) && Current() == old(Current())
              case ThrewAfter(st, m) => failure == Some(m) && Current() == st
    {
      if go !in scene.objects {
        return Some(host.messages.destroyed);
      }
      scene := Update(scene, go, Apply(edit, scene.objects[go]));
      return None;
    }

    /** ProcessCommand: None when the command ran, the exception message when
      it threw; only DestroyByName(all) can throw after changing the scene. */
    method ProcessCommand(cmd: CommandData) returns (failure: Option<string>)
      requires Valid()
      modifies this
      ensures Valid()
      ensures match Exec(host, old(Current()), cmd)
              case Stepped(st) => failure.None? && Current() == st
              case Threw(m) => failure == Some(m) && Current() == old(Current())
              case ThrewAfter(st, m) => failure == Some(m) && Current() == st
    {
      match cmd.kind {
        case Some("CreatePrimitive") =>
          if cmd.primitive.None? {
            return Some(host.messages.argumentNull("value"));
          }
          if IsBlank(cmd.primitive.value) {
            return Some(host.messages.enumBlank);
          }
          var kind := ParsePrimitive(cmd.primitive.value);
          if kind.None? {
            return Some(host.messages.enumNotFound(cmd.primitive.value));
          }
          var name := if IsNullOrEmpty(cmd.name) then PrimitiveName(kind.value) else cmd.name.value;
          var go := NewObject(name, host.primitiveComponents(kind.value));
          go := go.(position := cmd.position, rotation := cmd.rotation, scale := cmd.scale);
          var handle := scene.next;
          scene := Create(scene, go);
          RegisterAlias(cmd.id, handle);
          return None;
        case Some("CreateEmpty") =>
          var go := NewObject(if IsNullOrEmpty(cmd.name) then "Empty" else cmd.name.value, [Some("Transform")]);
          go := go.(position := cmd.position);
          var handle := scene.next;
          scene := Create(scene, go);
          RegisterAlias(cmd.id, handle);
          return None;
        case Some("Rename") =>
          var target := ResolveTarget(cmd.target);
          if target.Unresolved? {
            return Some(target.message);
          }
          failure := TouchObject(target.handle, SetName(OrEmpty(cmd.name)));
        case Some("SetTransform") =>
          var target := ResolveTarget(cmd.target);
          if target.Unresolved? {
            return Some(target.message);
          }
          if cmd.position.None? && cmd.rotation.None? && cmd.scale.None? {
            return None;
          }
          failure := TouchObject(target.handle, SetFields(cmd.position, cmd.rotation, cmd.scale));
        case Some("AddComponent") =>
          var target := ResolveTarget(cmd.target);
          if target.Unresolved? {
            return Some(target.message);
          }
          var found := ComponentLookup(host, cmd.componentType);
          if found.Throws? {
            return Some(found.message);
          }
          if found.Missing? {
            return Some("Unknown component: " + OrEmpty(cmd.componentType));
          }
          failure := TouchObject(target.handle, Attach(found.typeName));
        case Some("AttachScript") =>
          var target := ResolveTarget(cmd.target);
          if target.Unresolved? {
            return Some(target.message);
          }
          var found := ScriptLookup(host, cmd.scriptClass);
          if found.None? {
            return Some("Script class not found: " + OrEmpty(cmd.scriptClass));
          }
          failure := TouchObject(target.handle, Attach(found.value));
        case Some("DestroyByName") =>
          if IsNullOrEmpty(cmd.name) {
            return Some("DestroyByName requires 'name'");
          }
          if cmd.all {
            failure := DestroyAll(cmd.name.value);
            return;
          } else {
            var go := Find(scene, cmd.name.value);
            if go.Some? {
              scene := Destroy(scene, go.value);
            }
          }
          return None;
        case _ =>
          return Some("Unknown command type: " + OrEmpty(cmd.kind));
      }
    }

    /** The `created` object: one entry per registered id whose object is
      still alive, comma-separated. */
    method CreatedJson() returns (json: string)
      requires Valid()
      ensures json == CreatedText(Current())
    {
      json := WriteCreated(Current());
    }

    /** Execute(request): reset the aliases, run the commands in order until
      one throws, then describe what was created. */
    method Execute(request: CommandRequest) returns (r: Outcome)
      requires Valid()
      modifies this
      ensures Valid()
      ensures (r, Current()) == Batch(host, old(scene), request.commands)
    {
      aliases := map[];
      createdIds := [];
      ghost var start := Current();
      var cmds := request.commands;
      var i := 0;
      while i < |cmds|
        invariant 0 <= i <= |cmds|
        invariant Valid() && start == Fresh(old(scene))
        invariant RunFrom(host, start, cmds[..i]) == Running(Current())
      {
        ghost var before := Current();
        RunStep(host, start, cmds, i, before);
        var failure := ProcessCommand(cmds[i]);
        if failure.Some? {
          AbortIsFinal(host, start, cmds, i + 1);
          assert cmds[..|cmds|] == cmds;
          return Failed(FailureMessage(cmds[i], failure.value));
        }
        i := i + 1;
      }
      assert cmds[..i] == cmds;
      var created := CreatedJson();
      r := Done(created);
    }
  }

  /** Once a command has thrown, no later command runs. */
  lemma {:induction false} AbortIsFinal(host: Host, st: State, cmds: seq<CommandData>, i: nat)
    requires ValidState(st) && i <= |cmds|
    requires RunFrom(host, st, cmds[..i]).Aborted?
    ensures RunFrom(host, st, cmds) == RunFrom(host, st, cmds[..i])
    decreases |cmds| - i
  {
    if i < |cmds| {
      assert cmds[..i + 1][..i] == cmds[..i];
      AbortIsFinal(host, st, cmds, i + 1);
    } else {
      assert cmds[..i] == cmds;
    }
  }

  /** One more turn of the foreach loop of Execute. */
  lemma RunStep(host: Host, st: State, cmds: seq<CommandData>, i: nat, s: State)
    requires ValidState(st) && i < |cmds|
    requires RunFrom(host, st, cmds[..i]) == Running(s)
    ensures ValidState(s)
    ensures RunFrom(host, st, cmds[..i + 1]) ==
              match Exec(host, s, cmds[i])
              case Stepped(s') => Running(s')
              case Threw(m) => Aborted(s, i, FailureMessage(cmds[i], m))
              case ThrewAfter(s', m) => Aborted(s', i, FailureMessage(cmds[i], m))
  {
    assert cmds[..i + 1][..i] == cmds[..i];
  }

  /** One more id of the response loop. */
  lemma LiveStep(st: State, ids: seq<string>, i: nat)
    requires i < |ids|
    ensures Live(st, ids[..i + 1]) ==
              Live(st, ids[..i]) + (if ids[i] in st.aliases && st.aliases[ids[i]] in st.scene.objects then [(ids[i], st.aliases[ids[i]])] else [])
  {
    assert ids[..i + 1][..i] == ids[..i];
  }

  lemma EntryTextsStep(st: State, entries: seq<(string, Handle)>, e: (string, Handle))
    requires ValidState(st)
    requires forall x :: x in entries ==> x.1 in st.scene.objects
    requires e.1 in st.scene.objects
    ensures EntryTexts(st, entries + [e]) == EntryTexts(st, entries) + [EntryText(st, e.0, e.1)]
  {
    assert (entries + [e])[..|entries|] == entries;
  }

  /** Appending one more part to a separated list: the first part goes in
      alone, every later one after a separator. */
  lemma AppendPart(prefix: string, sep: string, parts: seq<string>, last: string)
    ensures |parts| == 0 ==> prefix + Join(sep, parts + [last]) == prefix + Join(sep, parts) + last
    ensures |parts| > 0 ==> prefix + Join(sep, parts + [last]) == prefix + Join(sep, parts) + sep + last
  {
    if |parts| == 0 {
      assert parts + [last] == [last];
    } else {
      JoinSnoc(sep, parts, last);
    }
  }

  /** One turn of the response loop: a live id adds its entry, after a comma
      unless it is the first; any other id adds nothing. */
  lemma ResponseStep(st: State, ids: seq<string>, i: nat, sb: string, first: bool)
    requires ValidState(st) && i < |ids|
    requires sb == "{" + Join(",", EntryTexts(st, Live(st, ids[..i])))
    requires first <==> |Live(st, ids[..i])| == 0
    ensures var id := ids[i];
            if id in st.aliases && st.aliases[id] in st.scene.objects then
              var entry := EntryText(st, id, st.aliases[id]);
              && (if first then sb else sb + ",") + entry == "{" + Join(",", EntryTexts(st, Live(st, ids[..i + 1])))
              && |Live(st, ids[..i + 1])| > 0
            else
              && sb == "{" + Join(",", EntryTexts(st, Live(st, ids[..i + 1])))
              && (first <==> |Live(st, ids[..i + 1])| == 0)
  {
    var id := ids[i];
    var before := Live(st, ids[..i]);
    LiveStep(st, ids, i);
    if id in st.aliases && st.aliases[id] in st.scene.objects {
      var go := st.aliases[id];
      EntryTextsStep(st, before, (id, go));
      AppendPart("{", ",", EntryTexts(st, before), EntryText(st, id, go));
    } else {
      assert before + [] == before;
    }
  }
}
