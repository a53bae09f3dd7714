/** Properties of the command batch: what a failing command does to the
    batch, the default names, which transform fields SetTransform writes,
    exactly which objects DestroyByName removes, and that the response is
    computed from the scene as the whole batch left it. */
module ExecutorFacts {
  import opened Wrappers
  import opened Text
  import opened Commands
  import opened Hierarchy
  import opened Executor
  import MiniJson

  /** A command of the given type with every other field absent. */
  function Blank(kind: string): CommandData {
    CommandData(Some(kind), None, None, None, None, None, None, None, None, None, false)
  }

  // ---------------------------------------------------------------------
  // The batch

  /** When command `i` throws, the batch fails with "Command '<type>'
      failed: <message>", the commands after it never run, and the state is
      the one the commands before it produced. */
  lemma FailingCommandAbortsBatch(host: Host, scene: Scene, cmds: seq<CommandData>, i: nat, s: State, m: string)
    requires Valid(scene) && i < |cmds|
    requires RunFrom(host, Fresh(scene), cmds[..i]) == Running(s)
    requires Exec(host, s, cmds[i]) == Threw(m)
    ensures RunFrom(host, Fresh(scene), cmds) == Aborted(s, i, FailureMessage(cmds[i], m))
    ensures Batch(host, scene, cmds) == (Failed("Command '" + OrEmpty(cmds[i].kind) + "' failed: " + m), s)
  {
    RunStep(host, Fresh(scene), cmds, i, s);
    AbortIsFinal(host, Fresh(scene), cmds, i + 1);
  }

  /** A batch whose commands all run ends with the state of the last one. */
  lemma CompletedBatchReportsFinalState(host: Host, scene: Scene, cmds: seq<CommandData>, s: State)
    requires Valid(scene)
    requires RunFrom(host, Fresh(scene), cmds) == Running(s)
    ensures Batch(host, scene, cmds) == (Done(CreatedText(s)), s)
  {
  }

  /** The first command of a batch sees no alias, whatever the previous
      batch registered: a target is looked up in the scene only. */
  lemma FirstCommandSeesNoAlias(scene: Scene, target: string)
    requires Valid(scene) && target != ""
    ensures Resolve(Fresh(scene), Some(target)) ==
              match Find(scene, target)
              case Some(h) => Resolved(h)
              case None => Unresolved("Target not found: " + target)
  {
  }

  /** A type other than the seven throws "Unknown command type: <type>"
      (a missing type prints as nothing). */
  lemma UnknownCommandType(host: Host, st: State, cmd: CommandData)
    requires ValidState(st)
    requires cmd.kind !in {Some("CreatePrimitive"), Some("CreateEmpty"), Some("Rename"), Some("SetTransform"),
                           Some("AddComponent"), Some("AttachScript"), Some("DestroyByName")}
    ensures Exec(host, st, cmd) == Threw("Unknown command type: " + OrEmpty(cmd.kind))
  {
  }

  // ---------------------------------------------------------------------
  // Creation

  /** CreatePrimitive makes a new root object at the next handle, named by
      the command or else by the primitive kind, with the transform fields
      the command carries; the alias is registered iff the id is non-empty. */
  lemma CreatePrimitiveResult(host: Host, st: State, cmd: CommandData, p: PrimitiveType)
    requires ValidState(st)
    requires cmd.kind == Some("CreatePrimitive") && cmd.primitive.Some? && ParsePrimitive(cmd.primitive.value) == Some(p)
    ensures Exec(host, st, cmd).Stepped?
    ensures var s := Exec(host, st, cmd).state;
            var h := st.scene.next;
            && h !in st.scene.objects
            && s.scene.objects == st.scene.objects[h := s.scene.objects[h]]
            && s.scene.objects[h].name == (if IsNullOrEmpty(cmd.name) then PrimitiveName(p) else cmd.name.value)
            && s.scene.objects[h].parent.None?
            && s.scene.objects[h].position == cmd.position && s.scene.objects[h].rotation == cmd.rotation
            && s.scene.objects[h].scale == cmd.scale
            && (IsNullOrEmpty(cmd.id) ==> s.aliases == st.aliases && s.created == st.created)
            && (!IsNullOrEmpty(cmd.id) ==> s.aliases == st.aliases[cmd.id.value := h] && s.created == st.created + [cmd.id.value])
  {
    NameNotBlank(cmd.primitive.value);
  }

  /** CreateEmpty names the new object "Empty" unless the command names it. */
  lemma CreateEmptyResult(host: Host, st: State, cmd: CommandData)
    requires ValidState(st) && cmd.kind == Some("CreateEmpty")
    ensures Exec(host, st, cmd).Stepped?
    ensures var s := Exec(host, st, cmd).state;
            var h := st.scene.next;
            && h !in st.scene.objects
            && s.scene.objects == st.scene.objects[h := s.scene.objects[h]]
            && s.scene.objects[h].name == (if IsNullOrEmpty(cmd.name) then "Empty" else cmd.name.value)
            && s.scene.objects[h].position == cmd.position
            && s.scene.objects[h].rotation.None? && s.scene.objects[h].scale.None?
  {
  }

  /** Every primitive kind parses from its own name, in any ASCII case the
      names are written here in. */
  lemma PrimitiveNamesParse(p: PrimitiveType)
    ensures ParsePrimitive(PrimitiveName(p)) == Some(p)
    ensures ParsePrimitive(LowerAscii(PrimitiveName(p))) == Some(p)
  {
    match p
    case Sphere => assert LowerAscii("Sphere") == "sphere";
    case Capsule => assert LowerAscii("Capsule") == "capsule";
    case Cylinder => assert LowerAscii("Cylinder") == "cylinder";
    case Cube => assert LowerAscii("Cube") == "cube";
    case Plane => assert LowerAscii("Plane") == "plane";
    case Quad => assert LowerAscii("Quad") == "quad";
  }

  // ---------------------------------------------------------------------
  // Changes to existing objects

  /** SetTransform on a live target writes exactly the fields the command
      carries; every other field of the target, every other object, the
      aliases and the created ids stay as they were. */
  lemma SetTransformWritesPresentFields(host: Host, st: State, cmd: CommandData, h: Handle)
    requires ValidState(st) && cmd.kind == Some("SetTransform")
    requires Resolve(st, cmd.target) == Resolved(h) && h in st.scene.objects
    ensures Exec(host, st, cmd).Stepped?
    ensures var s := Exec(host, st, cmd).state;
            var before := st.scene.objects[h];
            && s.aliases == st.aliases && s.created == st.created
            && s.scene.objects.Keys == st.scene.objects.Keys
            && (forall g :: g in st.scene.objects && g != h ==> s.scene.objects[g] == st.scene.objects[g])
            && s.scene.objects[h].position == (if cmd.position.Some? then cmd.position else before.position)
            && s.scene.objects[h].rotation == (if cmd.rotation.Some? then cmd.rotation else before.rotation)
            && s.scene.objects[h].scale == (if cmd.scale.Some? then cmd.scale else before.scale)
            && s.scene.objects[h].(position := before.position, rotation := before.rotation, scale := before.scale) == before
  {
  }

  /** A command that uses an alias of an object destroyed earlier in the
      batch throws the destroyed-object exception: Rename, SetTransform
      with a field, and AddComponent and AttachScript once their type is
      found. SetTransform with no fields touches nothing and goes on. */
  lemma DestroyedAliasThrows(host: Host, st: State, cmd: CommandData, h: Handle)
    requires ValidState(st)
    requires cmd.target.Some? && cmd.target.value != "" && cmd.target.value in st.aliases
    requires st.aliases[cmd.target.value] == h && h !in st.scene.objects
    ensures cmd.kind == Some("Rename") ==> Exec(host, st, cmd) == Threw(host.messages.destroyed)
    ensures cmd.kind == Some("SetTransform") && (cmd.position.Some? || cmd.rotation.Some? || cmd.scale.Some?) ==>
              Exec(host, st, cmd) == Threw(host.messages.destroyed)
    ensures cmd.kind == Some("SetTransform") && cmd.position.None? && cmd.rotation.None? && cmd.scale.None? ==>
              Exec(host, st, cmd) == Stepped(st)
    ensures cmd.kind == Some("AddComponent") && ComponentLookup(host, cmd.componentType).Found? ==>
              Exec(host, st, cmd) == Threw(host.messages.destroyed)
    ensures cmd.kind == Some("AttachScript") && ScriptLookup(host, cmd.scriptClass).Some? ==>
              Exec(host, st, cmd) == Threw(host.messages.destroyed)
  {
  }

  /** CreatePrimitive throws, changing nothing, when the primitive is
      missing (Enum.Parse's ArgumentNullException for `value`), blank, or
      not one of the six names; in that order. */
  lemma CreatePrimitiveFailures(host: Host, st: State, cmd: CommandData)
    requires ValidState(st) && cmd.kind == Some("CreatePrimitive")
    ensures cmd.primitive.None? ==> Exec(host, st, cmd) == Threw(host.messages.argumentNull("value"))
    ensures cmd.primitive.Some? && IsBlank(cmd.primitive.value) ==> Exec(host, st, cmd) == Threw(host.messages.enumBlank)
    ensures cmd.primitive.Some? && !IsBlank(cmd.primitive.value) && ParsePrimitive(cmd.primitive.value).None? ==>
              Exec(host, st, cmd) == Threw(host.messages.enumNotFound(cmd.primitive.value))
    ensures Exec(host, st, cmd).Stepped? <==> cmd.primitive.Some? && ParsePrimitive(cmd.primitive.value).Some?
  {
    if cmd.primitive.Some? && ParsePrimitive(cmd.primitive.value).Some? {
      NameNotBlank(cmd.primitive.value);
    }
  }

  /** The `"primitive": ""` and the white-space-only values are blank, and
      so take Enum.Parse's blank-value path, not the unknown-name one. */
  lemma BlankPrimitiveThrows(host: Host, st: State)
    requires ValidState(st)
    ensures Exec(host, st, Blank("CreatePrimitive").(primitive := Some(""))) == Threw(host.messages.enumBlank)
    ensures Exec(host, st, Blank("CreatePrimitive").(primitive := Some(" \t"))) == Threw(host.messages.enumBlank)
  {
    assert IsBlank(" \t") by {
      assert IsWhiteSpace(" \t"[0]) && IsWhiteSpace(" \t"[1]);
    }
  }

  /** A name Enum.Parse accepts is not blank. */
  lemma NameNotBlank(s: string)
    requires ParsePrimitive(s).Some?
    ensures !IsBlank(s)
  {
    assert |LowerAscii(s)| > 0;
    assert |s| > 0 && !IsWhiteSpace(s[0]) by {
      LowerAsciiLetters(s);
    }
  }

  /** AddComponent asks for the UnityEngine type first, then the bare name,
      then the assemblies in order. */
  lemma ComponentLookupOrder(host: Host, name: string)
    ensures "UnityEngine." + name + ", UnityEngine" in host.getType ==>
              ComponentLookup(host, Some(name)) == Found(host.getType["UnityEngine." + name + ", UnityEngine"])
    ensures "UnityEngine." + name + ", UnityEngine" !in host.getType && name in host.getType ==>
              ComponentLookup(host, Some(name)) == Found(host.getType[name])
    ensures ComponentLookup(host, Some(name)) == Missing <==>
              "UnityEngine." + name + ", UnityEngine" !in host.getType && name !in host.getType
              && forall k :: 0 <= k < |host.assemblies| ==> name !in host.assemblies[k]
  {
  }

  /** AddComponent on a live target, with a type the lookup finds, appends
      that type to the target's components; every other field of the
      target, every other object, the aliases and the created ids stay. */
  lemma AddComponentAppends(host: Host, st: State, cmd: CommandData, h: Handle, t: string)
    requires ValidState(st) && cmd.kind == Some("AddComponent")
    requires Resolve(st, cmd.target) == Resolved(h) && h in st.scene.objects
    requires ComponentLookup(host, cmd.componentType) == Found(t)
    ensures Exec(host, st, cmd).Stepped?
    ensures var s := Exec(host, st, cmd).state;
            var before := st.scene.objects[h];
            && s.aliases == st.aliases && s.created == st.created
            && s.scene.name == st.scene.name && s.scene.next == st.scene.next
            && s.scene.objects.Keys == st.scene.objects.Keys
            && (forall g :: g in st.scene.objects && g != h ==> s.scene.objects[g] == st.scene.objects[g])
            && s.scene.objects[h] == before.(components := before.components + [Some(t)])
  {
  }

  /** AddComponent throws, changing nothing, when the target does not
      resolve, when the lookup fails, or when the target was destroyed;
      in that order. */
  lemma AddComponentFailures(host: Host, st: State, cmd: CommandData)
    requires ValidState(st) && cmd.kind == Some("AddComponent")
    ensures Resolve(st, cmd.target).Unresolved? ==> Exec(host, st, cmd) == Threw(Resolve(st, cmd.target).message)
    ensures Resolve(st, cmd.target).Resolved? && ComponentLookup(host, cmd.componentType) == Missing ==>
              Exec(host, st, cmd) == Threw("Unknown component: " + OrEmpty(cmd.componentType))
    ensures Resolve(st, cmd.target).Resolved? && ComponentLookup(host, cmd.componentType).Throws? ==>
              Exec(host, st, cmd) == Threw(ComponentLookup(host, cmd.componentType).message)
    ensures Resolve(st, cmd.target).Resolved? && ComponentLookup(host, cmd.componentType).Found?
            && Resolve(st, cmd.target).handle !in st.scene.objects ==>
              Exec(host, st, cmd) == Threw(host.messages.destroyed)
  {
  }

  /** AttachScript asks Type.GetType for the name, then for it in the
      UnityMCP.Generated namespace, then the assemblies in order; an empty
      or missing class name finds nothing. */
  lemma ScriptLookupOrder(host: Host, name: string)
    requires name != ""
    ensures ScriptLookup(host, None) == None && ScriptLookup(host, Some("")) == None
    ensures name in host.getType ==> ScriptLookup(host, Some(name)) == Some(host.getType[name])
    ensures name !in host.getType && "UnityMCP.Generated." + name in host.getType ==>
              ScriptLookup(host, Some(name)) == Some(host.getType["UnityMCP.Generated." + name])
    ensures ScriptLookup(host, Some(name)).None? <==>
              name !in host.getType && "UnityMCP.Generated." + name !in host.getType
              && forall k :: 0 <= k < |host.assemblies| ==> name !in host.assemblies[k]
  {
  }

  /** AttachScript on a live target, with a class the lookup finds, appends
      that type to the target's components and changes nothing else; a
      class it does not find throws "Script class not found". */
  lemma AttachScriptAppends(host: Host, st: State, cmd: CommandData, h: Handle)
    requires ValidState(st) && cmd.kind == Some("AttachScript")
    requires Resolve(st, cmd.target) == Resolved(h) && h in st.scene.objects
    ensures ScriptLookup(host, cmd.scriptClass).None? ==>
              Exec(host, st, cmd) == Threw("Script class not found: " + OrEmpty(cmd.scriptClass))
    ensures ScriptLookup(host, cmd.scriptClass).Some? ==>
              && Exec(host, st, cmd).Stepped?
              && var s := Exec(host, st, cmd).state;
                 var before := st.scene.objects[h];
                 && s.aliases == st.aliases && s.created == st.created
                 && s.scene.name == st.scene.name && s.scene.next == st.scene.next
                 && s.scene.objects.Keys == st.scene.objects.Keys
                 && (forall g :: g in st.scene.objects && g != h ==> s.scene.objects[g] == st.scene.objects[g])
                 && s.scene.objects[h] == before.(components := before.components + [ScriptLookup(host, cmd.scriptClass)])
  {
  }

  // ---------------------------------------------------------------------
  // DestroyByName

  lemma DestroyByNameNeedsName(host: Host, st: State, cmd: CommandData)
    requires ValidState(st) && cmd.kind == Some("DestroyByName") && IsNullOrEmpty(cmd.name)
    ensures Exec(host, st, cmd) == Threw("DestroyByName requires 'name'")
  {
  }

  /** The ancestors of an object that survives in a sub-scene with the same
      records are the same as in the full scene. */
  lemma {:induction false} AncestryAgrees(s: Scene, t: Scene, a: Handle, h: Handle)
    requires Valid(s) && Valid(t) && h in t.objects
    requires forall x :: x in t.objects ==> x in s.objects && t.objects[x] == s.objects[x]
    ensures IsAncestorOrSelf(t, a, h) == IsAncestorOrSelf(s, a, h)
    decreases h
  {
    if h != a && t.objects[h].parent.Some? {
      AncestryAgrees(s, t, a, t.objects[h].parent.value);
    }
  }

  /** Some object visited among the first `k` was destroyed by the sweep and
      is `h` or an ancestor of `h`. */
  ghost predicate HitAbove(s: Scene, name: string, k: nat, h: Handle)
    requires Valid(s) && h in s.objects
  {
    exists a: Handle :: a < k && Hit(s, a, name) && IsAncestorOrSelf(s, a, h)
  }

  /** Whatever the loop has done after `k` turns, the objects left keep
      their records. */
  lemma {:induction false} SweepKeepsRecords(s: Scene, name: string, k: nat)
    requires Valid(s)
    ensures var t := SweepUpTo(s, name, k).scene;
            forall h :: h in t.objects ==> h in s.objects && t.objects[h] == s.objects[h]
    decreases k
  {
    if k > 0 {
      SweepKeepsRecords(s, name, k - 1);
    }
  }

  /** The objects gone when the named scene objects among the first `j`
      handles have taken down what is below them. */
  ghost predicate GoneExactly(s: Scene, t: Scene, name: string, j: nat)
    requires Valid(s)
  {
    forall h :: h in s.objects ==> (h in t.objects <==> !HitAbove(s, name, j, h))
  }

  /** A turn whose object is no named scene object adds nothing to the
      objects to be gone. */
  lemma MissTurn(s: Scene, name: string, j: nat, t: Scene)
    requires Valid(s) && !Hit(s, j, name) && GoneExactly(s, t, name, j)
    ensures GoneExactly(s, t, name, j + 1)
  {
    forall h | h in s.objects
      ensures h in t.objects <==> !HitAbove(s, name, j + 1, h)
    {
      assert h in t.objects <==> !HitAbove(s, name, j, h);
      if HitAbove(s, name, j + 1, h) {
        var a: Handle :| a < j + 1 && Hit(s, a, name) && IsAncestorOrSelf(s, a, h);
        assert a < j;
        assert HitAbove(s, name, j, h);
      }
    }
  }

  /** A turn that destroys a live named scene object takes exactly its
      subtree. */
  lemma HitTurn(s: Scene, name: string, j: nat, t: Scene)
    requires Valid(s) && Valid(t) && j in t.objects && Hit(t, j, name)
    requires forall h :: h in t.objects ==> h in s.objects && t.objects[h] == s.objects[h]
    requires GoneExactly(s, t, name, j)
    ensures GoneExactly(s, Destroy(t, j), name, j + 1)
  {
    assert Hit(s, j, name);
    forall h | h in s.objects
      ensures h in Destroy(t, j).objects <==> !HitAbove(s, name, j + 1, h)
    {
      if h in t.objects {
        AncestryAgrees(s, t, j, h);
        if IsAncestorOrSelf(s, j, h) {
          assert HitAbove(s, name, j + 1, h);
        } else {
          forall a: Handle | a < j + 1 && Hit(s, a, name)
            ensures !IsAncestorOrSelf(s, a, h)
          {
            if a < j {
              assert !(a < j && Hit(s, a, name) && IsAncestorOrSelf(s, a, h));
            }
          }
        }
      } else {
        var a: Handle :| a < j && Hit(s, a, name) && IsAncestorOrSelf(s, a, h);
        assert a < j + 1;
      }
    }
  }

  /** After `k` turns that did not throw, exactly the objects with a named
      scene object among the first `k` handles at or above them are gone. */
  lemma {:induction false} SweepRemovesExactly(s: Scene, name: string, k: nat)
    requires Valid(s)
    ensures SweepUpTo(s, name, k).threwAt.None? ==> GoneExactly(s, SweepUpTo(s, name, k).scene, name, k)
    decreases k
  {
    if k > 0 {
      var j := k - 1;
      var prev := SweepUpTo(s, name, j);
      if prev.threwAt.None? && (j !in s.objects || j in prev.scene.objects) {
        SweepRemovesExactly(s, name, j);
        SweepKeepsRecords(s, name, j);
        if j in s.objects && Hit(prev.scene, j, name) {
          HitTurn(s, name, j, prev.scene);
        } else {
          assert j in s.objects ==> prev.scene.objects[j] == s.objects[j];
          MissTurn(s, name, j, prev.scene);
        }
      }
    }
  }

  /** A named scene object among the first `k` handles has an object below
      it, which the loop reaches after destroying it. */
  ghost predicate Nested(s: Scene, name: string, k: nat)
    requires Valid(s)
  {
    exists a: Handle, d: Handle :: a < d < k && d in s.objects && Hit(s, a, name) && IsAncestorOrSelf(s, a, d)
  }

  /** The loop throws within its first `k` turns iff a named scene object
      among them has an object below it. */
  lemma {:induction false} SweepThrowsIffNested(s: Scene, name: string, k: nat)
    requires Valid(s)
    ensures SweepUpTo(s, name, k).threwAt.Some? <==> Nested(s, name, k)
    decreases k
  {
    if k > 0 {
      var j := k - 1;
      SweepThrowsIffNested(s, name, j);
      SweepRemovesExactly(s, name, j);
      var prev := SweepUpTo(s, name, j);
      if prev.threwAt.Some? {
        var a: Handle, d: Handle :| a < d < j && d in s.objects && Hit(s, a, name) && IsAncestorOrSelf(s, a, d);
        assert a < d < k;
      } else if j !in s.objects || j in prev.scene.objects {
        forall a: Handle, d: Handle | a < d < k && d in s.objects && Hit(s, a, name)
          ensures !IsAncestorOrSelf(s, a, d)
        {
          if d < j {
            assert !(a < d < j && d in s.objects && Hit(s, a, name) && IsAncestorOrSelf(s, a, d));
          } else {
            assert !(a < j && Hit(s, a, name) && IsAncestorOrSelf(s, a, j));
          }
        }
      } else {
        assert HitAbove(s, name, j, j);
        var a: Handle :| a < j && Hit(s, a, name) && IsAncestorOrSelf(s, a, j);
        assert a < j < k;
      }
    }
  }

  /** Where the loop throws: at an object listed at the start that a named
      scene object above it took down earlier; the scene is the one the
      turns before it left, which did not throw. */
  lemma {:induction false} SweepThrowsAt(s: Scene, name: string, k: nat)
    requires Valid(s) && SweepUpTo(s, name, k).threwAt.Some?
    ensures var d := SweepUpTo(s, name, k).threwAt.value;
            && d < k && d in s.objects && d !in SweepUpTo(s, name, k).scene.objects
            && HitAbove(s, name, d, d)
            && SweepUpTo(s, name, d) == Sweeping(SweepUpTo(s, name, k).scene, None)
    decreases k
  {
    var j := k - 1;
    var prev := SweepUpTo(s, name, j);
    if prev.threwAt.Some? {
      SweepThrowsAt(s, name, j);
    } else {
      SweepRemovesExactly(s, name, j);
    }
  }

  /** Without nesting, an object has a named scene object at or above it
      iff it is one itself. */
  lemma NoNestingHitAbove(s: Scene, name: string)
    requires Valid(s) && !Nested(s, name, s.next)
    ensures forall h :: h in s.objects ==> (HitAbove(s, name, s.next, h) <==> Hit(s, h, name))
  {
    forall a: Handle, h: Handle | h in s.objects && a < s.next && Hit(s, a, name) && IsAncestorOrSelf(s, a, h)
      ensures a == h
    {
      AncestorIsOlder(s, a, h);
      assert !(h in s.objects && IsAncestorOrSelf(s, a, h) && Hit(s, a, name) && a < h < s.next);
    }
    forall h | h in s.objects && Hit(s, h, name)
      ensures HitAbove(s, name, s.next, h)
    {
      assert h < s.next && IsAncestorOrSelf(s, h, h);
    }
  }

  /** A loop that runs to the end destroys exactly the named scene objects. */
  lemma SweepCompletes(s: Scene, name: string)
    requires Valid(s) && Sweep(s, name).threwAt.None?
    ensures !Nested(s, name, s.next)
    ensures forall h :: h in s.objects ==> (h in Sweep(s, name).scene.objects <==> !Hit(s, h, name))
  {
    SweepThrowsIffNested(s, name, s.next);
    SweepRemovesExactly(s, name, s.next);
    NoNestingHitAbove(s, name);
  }

  /** A loop that throws stops at an object a named scene object above it
      took down, with no nesting before it; exactly the objects below the
      named scene objects before it are gone. */
  lemma SweepStopsPartway(s: Scene, name: string)
    requires Valid(s) && Sweep(s, name).threwAt.Some?
    ensures Nested(s, name, s.next)
    ensures var t := Sweep(s, name);
            var d := t.threwAt.value;
            && d in s.objects && d !in t.scene.objects && HitAbove(s, name, d, d)
            && !Nested(s, name, d) && GoneExactly(s, t.scene, name, d)
  {
    SweepThrowsIffNested(s, name, s.next);
    SweepThrowsAt(s, name, s.next);
    var d := Sweep(s, name).threwAt.value;
    SweepThrowsIffNested(s, name, d);
    SweepRemovesExactly(s, name, d);
  }

  /** The whole loop: it runs to the end iff no named scene object has an
      object below it, and then exactly the named scene objects are gone.
      Otherwise it stops at the first object whose named ancestor it
      destroyed, with the destructions before that in place. */
  lemma SweepOutcome(s: Scene, name: string)
    requires Valid(s)
    ensures var t := Sweep(s, name);
            && (t.threwAt.None? <==> !Nested(s, name, s.next))
            && (forall h :: h in t.scene.objects ==> h in s.objects && t.scene.objects[h] == s.objects[h])
            && (t.threwAt.None? ==> forall h :: h in s.objects ==> (h in t.scene.objects <==> !Hit(s, h, name)))
            && (t.threwAt.Some? ==>
                  var d := t.threwAt.value;
                  && d in s.objects && d !in t.scene.objects && HitAbove(s, name, d, d)
                  && !Nested(s, name, d) && GoneExactly(s, t.scene, name, d))
  {
    SweepKeepsRecords(s, name, s.next);
    if Sweep(s, name).threwAt.None? {
      SweepCompletes(s, name);
    } else {
      SweepStopsPartway(s, name);
    }
  }

  /** DestroyByName with `all` runs to the end iff no named scene object has
      an object below it. Then exactly the named scene objects, inactive
      ones included, are destroyed, while assets and not-editable objects
      of that name stay. Otherwise it throws the destroyed-object exception
      part-way, and the destructions before the throw stay. */
  lemma DestroyAllRemovesEverySceneObjectNamed(host: Host, st: State, cmd: CommandData)
    requires ValidState(st) && cmd.kind == Some("DestroyByName") && !IsNullOrEmpty(cmd.name) && cmd.all
    ensures var t := Sweep(st.scene, cmd.name.value);
            Exec(host, st, cmd) ==
              if t.threwAt.None? then Stepped(st.(scene := t.scene))
              else ThrewAfter(st.(scene := t.scene), host.messages.destroyed)
    ensures Exec(host, st, cmd).Stepped? <==> !Nested(st.scene, cmd.name.value, st.scene.next)
    ensures Exec(host, st, cmd).Stepped? ==>
              forall h :: h in st.scene.objects ==>
                (h in Exec(host, st, cmd).state.scene.objects <==> !Hit(st.scene, h, cmd.name.value))
  {
    DestroyAllStep(host, st, cmd);
    SweepOutcome(st.scene, cmd.name.value);
  }

  /** DestroyByName with `all` is the loop over the objects found at the start. */
  lemma DestroyAllStep(host: Host, st: State, cmd: CommandData)
    requires ValidState(st) && cmd.kind == Some("DestroyByName") && !IsNullOrEmpty(cmd.name) && cmd.all
    ensures var t := Sweep(st.scene, cmd.name.value);
            Exec(host, st, cmd) ==
              if t.threwAt.None? then Stepped(st.(scene := t.scene))
              else ThrewAfter(st.(scene := t.scene), host.messages.destroyed)
  {
  }

  /** A root "X" with a child "c": DestroyByName("X", all) destroys the root
      and its child, then throws when it reaches the child. */
  lemma NestedMatchThrows(host: Host)
    ensures var scene := Scene("s", map[0 := NewObject("X", []), 1 := NewObject("c", []).(parent := Some(0))], 2);
            var cmd := Blank("DestroyByName").(name := Some("X"), all := true);
            && Valid(scene)
            && Exec(host, Fresh(scene), cmd) == ThrewAfter(Fresh(Scene("s", map[], 2)), host.messages.destroyed)
  {
    var scene := Scene("s", map[0 := NewObject("X", []), 1 := NewObject("c", []).(parent := Some(0))], 2);
    assert Valid(scene);
    var gone := Destroy(scene, 0);
    assert IsAncestorOrSelf(scene, 0, 1);
    assert gone.objects == map[];
    assert SweepUpTo(scene, "X", 1) == Sweeping(Scene("s", map[], 2), None);
    assert SweepUpTo(scene, "X", 2) == Sweeping(Scene("s", map[], 2), Some(1));
  }

  /** DestroyByName without `all` destroys the object GameObject.Find returns
      (active objects only) and what is below it; with no match it does
      nothing. */
  lemma DestroyOneRemovesFirstActiveMatch(host: Host, st: State, cmd: CommandData)
    requires ValidState(st) && cmd.kind == Some("DestroyByName") && !IsNullOrEmpty(cmd.name) && !cmd.all
    ensures Exec(host, st, cmd) ==
              match Find(st.scene, cmd.name.value)
              case None => Stepped(st)
              case Some(h) => Stepped(st.(scene := Destroy(st.scene, h)))
    ensures Find(st.scene, cmd.name.value).None? ==> Exec(host, st, cmd) == Stepped(st)
  {
  }

  // ---------------------------------------------------------------------
  // The response

  /** The state after CreateEmpty under alias "a" and then Rename through that alias. */
  lemma {:induction false} CreateThenRename(host: Host, scene: Scene, first: string, second: string)
    requires Valid(scene) && first != "" && second != ""
    ensures var h := scene.next;
            var s1 := Register(Fresh(scene).(scene := Create(scene, NewObject(first, [Some("Transform")]))), Some("a"), h);
            var cmds := [Blank("CreateEmpty").(id := Some("a"), name := Some(first)),
                         Blank("Rename").(target := Some("a"), name := Some(second))];
            && ValidState(s1) && h in s1.scene.objects
            && RunFrom(host, Fresh(scene), cmds) ==
                 Running(s1.(scene := Update(s1.scene, h, s1.scene.objects[h].(name := second))))
  {
    var create := Blank("CreateEmpty").(id := Some("a"), name := Some(first));
    var rename := Blank("Rename").(target := Some("a"), name := Some(second));
    var cmds := [create, rename];
    var h := scene.next;
    var s1 := Register(Fresh(scene).(scene := Create(scene, NewObject(first, [Some("Transform")]))), Some("a"), h);
    assert Exec(host, Fresh(scene), create) == Stepped(s1);
    assert cmds[..1] == [create] && [create][..0] == [];
    assert RunFrom(host, Fresh(scene), cmds[..1]) == Running(s1);
    assert Resolve(s1, rename.target) == Resolved(h);
    RunStep(host, Fresh(scene), cmds, 1, s1);
    assert cmds[..2] == cmds;
  }

  /** The response for a state whose only created id is "a", naming a root. */
  lemma OneRootEntry(st: State, h: Handle)
    requires ValidState(st) && st.created == ["a"] && "a" in st.aliases && st.aliases["a"] == h
    requires h in st.scene.objects && st.scene.objects[h].parent.None?
    ensures CreatedText(st) ==
              "{" + ("\"" + "a" + "\":{" + "\"instanceId\":" + IntToString(h) + ","
                       + "\"path\":\"" + MiniJson.Escape(st.scene.objects[h].name) + "\"" + "}") + "}"
  {
    SingleLive(st, h);
    var e := EntryText(st, "a", h);
    assert EntryTexts(st, [("a", h)]) == [e] by {
      assert [("a", h)][..0] == [];
    }
    assert Join(",", [e]) == e;
    RootEntry(st, h);
  }

  lemma RootEntry(st: State, h: Handle)
    requires ValidState(st) && h in st.scene.objects && st.scene.objects[h].parent.None?
    ensures EntryText(st, "a", h) ==
              "\"" + "a" + "\":{" + "\"instanceId\":" + IntToString(h) + ","
                + "\"path\":\"" + MiniJson.Escape(st.scene.objects[h].name) + "\"" + "}"
  {
    EscapePlain("a");
    assert Path(st.scene, h) == st.scene.objects[h].name;
  }

  lemma SingleLive(st: State, h: Handle)
    requires st.created == ["a"] && "a" in st.aliases && st.aliases["a"] == h && h in st.scene.objects
    ensures Live(st, st.created) == [("a", h)]
  {
    assert ["a"][..0] == [];
  }

  /** Text with no quote or backslash is escaped to itself. */
  lemma EscapePlain(s: string)
    requires forall k :: 0 <= k < |s| ==> s[k] != '\\' && s[k] != '"'
    ensures MiniJson.Escape(s) == s
  {
    AbsentChar(s, "\\");
    ReplaceAbsent(s, "\\", "\\\\");
    AbsentChar(s, "\"");
    ReplaceAbsent(s, "\"", "\\\"");
  }

  /** Create an object under an alias, then rename it through the alias: the
      response shows the path with the new name, because paths are read only
      after the last command. */
  lemma RenameShowsInResponse(host: Host, scene: Scene, first: string, second: string)
    requires Valid(scene) && first != "" && second != ""
    ensures var create := Blank("CreateEmpty").(id := Some("a"), name := Some(first));
            var rename := Blank("Rename").(target := Some("a"), name := Some(second));
            Batch(host, scene, [create, rename]).0 ==
              Done("{" + ("\"" + "a" + "\":{" + "\"instanceId\":" + IntToString(scene.next) + ","
                            + "\"path\":\"" + MiniJson.Escape(second) + "\"" + "}") + "}")
  {
    CreateThenRename(host, scene, first, second);
    var h := scene.next;
    var s1 := Register(Fresh(scene).(scene := Create(scene, NewObject(first, [Some("Transform")]))), Some("a"), h);
    var s2 := s1.(scene := Update(s1.scene, h, s1.scene.objects[h].(name := second)));
    OneRootEntry(s2, h);
  }

  /** Registering the same alias twice lists it twice more in the
      response, both times for the object registered last, after whatever
      was created before (read through the new aliases). */
  lemma DuplicateAliasListedTwice(st: State, id: string, g: Handle, h: Handle)
    requires ValidState(st) && id != "" && h in st.scene.objects
    ensures var s := Register(Register(st, Some(id), g), Some(id), h);
            Live(s, s.created) == Live(s, st.created) + [(id, h), (id, h)]
  {
    var s := Register(Register(st, Some(id), g), Some(id), h);
    var c := st.created;
    assert s.aliases[id] == h && s.scene == st.scene;
    assert s.created == c + [id] + [id];
    LiveSnoc(s, c + [id], id);
    LiveSnoc(s, c, id);
  }

  /** One more id at the end adds its entry, if its object is alive. */
  lemma LiveSnoc(st: State, ids: seq<string>, id: string)
    ensures Live(st, ids + [id]) == Live(st, ids)
              + (if id in st.aliases && st.aliases[id] in st.scene.objects then [(id, st.aliases[id])] else [])
  {
    assert (ids + [id])[..|ids|] == ids;
  }

  /** An id whose object was destroyed later in the batch is left out of the
      response. */
  lemma DestroyedObjectsLeftOut(st: State, ids: seq<string>)
    requires forall k :: 0 <= k < |ids| ==> ids[k] !in st.aliases || st.aliases[ids[k]] !in st.scene.objects
    ensures Live(st, ids) == []
  {
    if |ids| > 0 {
      DestroyedObjectsLeftOut(st, ids[..|ids| - 1]);
    }
  }
}
