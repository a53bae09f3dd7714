/** UnityMCPCommandParser.Parse: the value tree MiniParse produces becomes a
    CommandRequest holding one CommandData per object in its "commands"
    list. A field read with `as string` is null unless the value is a string;
    `(bool)` on anything but a boolean and Convert.ToSingle on a list or an
    object throw, which aborts the whole request. */
module Commands {
  import opened Wrappers
  import opened MiniJson

  /** What Convert.ToSingle is given for one coordinate. The float it
      produces is not modelled: the JSON value it comes from is kept. */
  datatype Scalar = Zero | FromBool(b: bool) | FromNumber(token: string) | FromText(text: string)

  datatype Vec3 = Vec3(x: Scalar, y: Scalar, z: Scalar)
  datatype Quat = Quat(x: Scalar, y: Scalar, z: Scalar, w: Scalar)

  /** CommandData; `kind` is the C# field `type`. */
  datatype CommandData = CommandData(
    kind: Option<string>,
    id: Option<string>,
    primitive: Option<string>,
    name: Option<string>,
    target: Option<string>,
    position: Option<Vec3>,
    rotation: Option<Quat>,
    scale: Option<Vec3>,
    componentType: Option<string>,
    scriptClass: Option<string>,
    all: bool)

  datatype CommandRequest = CommandRequest(requestId: Option<string>, commands: seq<CommandData>)

  /** Why Parse throws: MiniParse fails on the text, or a cast fails on the
      field named. */
  datatype DecodeError = Malformed(cause: MiniJson.Error) | InvalidCast(field: string)

  datatype Decoded<T> = Decoded(value: T) | Rejected(error: DecodeError)

  // ---------------------------------------------------------------------
  // Field readers

  /** `obj as string`. */
  function AsString(v: Value): (r: Option<string>)
    ensures r.Some? <==> v.Str?
    ensures v.Str? ==> r.value == v.s
  {
    if v.Str? then Some(v.s) else None
  }

  /** A string field of a command object: null unless the key is present
      and holds a string. */
  function StringField(fields: map<string, Value>, key: string): (r: Option<string>)
    ensures r.Some? <==> key in fields && fields[key].Str?
    ensures r.Some? ==> r.value == fields[key].s
  {
    if key in fields then AsString(fields[key]) else None
  }

  /** ToFloat: Convert.ToSingle(o, InvariantCulture). Null gives 0; a list
      or an object is not IConvertible and throws InvalidCastException. */
  function ToFloat(v: Value, field: string): (r: Decoded<Scalar>)
    ensures r.Rejected? <==> v.Arr? || v.Obj?
    ensures r.Rejected? ==> r.error == InvalidCast(field)
  {
    match v
    case Null => Decoded(Zero)
    case Bool(b) => Decoded(FromBool(b))
    case Number(t) => Decoded(FromNumber(t))
    case Str(s) => Decoded(FromText(s))
    case Arr(_) => Rejected(InvalidCast(field))
    case Obj(_) => Rejected(InvalidCast(field))
  }

  /** A coordinate list element Convert.ToSingle accepts. */
  predicate IsScalar(v: Value) {
    !v.Arr? && !v.Obj?
  }

  /** The scalar of an element ToFloat accepts. */
  function ScalarOf(v: Value): Scalar
    requires IsScalar(v)
  {
    ToFloat(v, "").value
  }

  /** ParseVec3: null unless the value is a list of at least three items;
      items after the third are ignored. */
  function Vec3Of(v: Value, field: string): (r: Decoded<Option<Vec3>>)
  {
    if !v.Arr? || |v.items| < 3 then Decoded(None)
    else
      match (ToFloat(v.items[0], field), ToFloat(v.items[1], field), ToFloat(v.items[2], field))
      case (Decoded(x), Decoded(y), Decoded(z)) => Decoded(Some(Vec3(x, y, z)))
      case _ => Rejected(InvalidCast(field))
  }

  /** ParseQuat: as ParseVec3, with four items. */
  function QuatOf(v: Value, field: string): (r: Decoded<Option<Quat>>)
  {
    if !v.Arr? || |v.items| < 4 then Decoded(None)
    else
      match (ToFloat(v.items[0], field), ToFloat(v.items[1], field), ToFloat(v.items[2], field), ToFloat(v.items[3], field))
      case (Decoded(x), Decoded(y), Decoded(z), Decoded(w)) => Decoded(Some(Quat(x, y, z, w)))
      case _ => Rejected(InvalidCast(field))
  }

  /** The `all` flag: unboxing anything but a boolean throws. */
  function AllField(fields: map<string, Value>): (r: Decoded<bool>)
  {
    if "all" !in fields then Decoded(false)
    else if fields["all"].Bool? then Decoded(fields["all"].b)
    else Rejected(InvalidCast("all"))
  }

  function Vec3Field(fields: map<string, Value>, key: string): Decoded<Option<Vec3>> {
    if key in fields then Vec3Of(fields[key], key) else Decoded(None)
  }

  function QuatField(fields: map<string, Value>, key: string): Decoded<Option<Quat>> {
    if key in fields then QuatOf(fields[key], key) else Decoded(None)
  }

  /** The body of the foreach loop for one object in "commands". The string
      fields cannot fail; the casts are tried in the order `all`,
      `position`, `rotation`, `scale`. */
  function CommandOf(fields: map<string, Value>): Decoded<CommandData> {
    match (AllField(fields), Vec3Field(fields, "position"), QuatField(fields, "rotation"), Vec3Field(fields, "scale"))
    case (Rejected(e), _, _, _) => Rejected(e)
    case (_, Rejected(e), _, _) => Rejected(e)
    case (_, _, Rejected(e), _) => Rejected(e)
    case (_, _, _, Rejected(e)) => Rejected(e)
    case (Decoded(all), Decoded(position), Decoded(rotation), Decoded(scale)) =>
      Decoded(CommandData(
        StringField(fields, "type"), StringField(fields, "id"), StringField(fields, "primitive"),
        StringField(fields, "name"), StringField(fields, "target"),
        position, rotation, scale,
        StringField(fields, "componentType"), StringField(fields, "scriptClass"), all))
  }

  // ---------------------------------------------------------------------
  // The request

  /** The foreach loop over the "commands" list, read up to its end:
      non-objects are skipped, the first failing command aborts. */
  function CommandsOf(items: seq<Value>): Decoded<seq<CommandData>>
    decreases |items|
  {
    if |items| == 0 then Decoded([])
    else
      match CommandsOf(items[..|items| - 1])
      case Rejected(e) => Rejected(e)
      case Decoded(cs) =>
        var last := items[|items| - 1];
        if !last.Obj? then Decoded(cs)
        else
          match CommandOf(last.fields)
          case Rejected(e) => Rejected(e)
          case Decoded(c) => Decoded(cs + [c])
  }

  /** Parse on the value MiniParse returned. */
  function RequestOf(doc: Value): Decoded<CommandRequest> {
    if !doc.Obj? then Decoded(CommandRequest(None, []))
    else
      var id := StringField(doc.fields, "requestId");
      if "commands" in doc.fields && doc.fields["commands"].Arr? then
        match CommandsOf(doc.fields["commands"].items)
        case Rejected(e) => Rejected(e)
        case Decoded(cs) => Decoded(CommandRequest(id, cs))
      else Decoded(CommandRequest(id, []))
  }

  /** Parse(json). */
  function Decode(json: string): Decoded<CommandRequest> {
    match Document(json)
    case Fail(e) => Rejected(Malformed(e))
    case Ok(v, _) => RequestOf(v)
  }

  /** UnityMCPCommandParser.Parse: MiniParse, then the foreach loop. */
  method Parse(json: string) returns (r: Decoded<CommandRequest>)
    ensures r == Decode(json)
  {
    var parsed := MiniParse(json);
    if parsed.Fail? {
      return Rejected(Malformed(parsed.error));
    }
    var doc := parsed.value;
    if !doc.Obj? {
      return Decoded(CommandRequest(None, []));
    }
    var requestId := StringField(doc.fields, "requestId");
    if !("commands" in doc.fields && doc.fields["commands"].Arr?) {
      return Decoded(CommandRequest(requestId, []));
    }
    var items := doc.fields["commands"].items;
    var commands: seq<CommandData> := [];
    var i := 0;
    while i < |items|
      invariant 0 <= i <= |items|
      invariant CommandsOf(items[..i]) == Decoded(commands)
    {
      assert items[..i + 1][..i] == items[..i];
      if items[i].Obj? {
        var c := CommandOf(items[i].fields);
        if c.Rejected? {
          assert CommandsOf(items[..i + 1]).Rejected?;
          RejectionPersists(items, i + 1);
          assert items[..|items|] == items;
          return Rejected(c.error);
        }
        commands := commands + [c.value];
      }
      i := i + 1;
    }
    assert items[..i] == items;
    return Decoded(CommandRequest(requestId, commands));
  }

  /** Once a command fails, the rest of the list is never read. */
  lemma {:induction false} RejectionPersists(items: seq<Value>, i: nat)
    requires i <= |items|
    requires CommandsOf(items[..i]).Rejected?
    ensures CommandsOf(items) == CommandsOf(items[..i])
    decreases |items| - i
  {
    if i < |items| {
      assert items[..i + 1][..i] == items[..i];
      RejectionPersists(items, i + 1);
    } else {
      assert items[..i] == items;
    }
  }

  // ---------------------------------------------------------------------
  // Properties

  /** A top level that is not an object gives a request with no commands and
      a null requestId. */
  lemma NonObjectDocumentIsEmptyRequest(json: string)
    requires Document(json).Ok? && !Document(json).value.Obj?
    ensures Decode(json) == Decoded(CommandRequest(None, []))
  {
  }

  /** A "commands" value that is not a list is ignored; requestId is still read. */
  lemma CommandsNotAListIgnored(fields: map<string, Value>)
    requires "commands" !in fields || !fields["commands"].Arr?
    ensures RequestOf(Obj(fields)) == Decoded(CommandRequest(StringField(fields, "requestId"), []))
  {
  }

  /** The objects of a list, in order. */
  function Objects(items: seq<Value>): (r: seq<map<string, Value>>)
    ensures |r| <= |items|
    decreases |items|
  {
    if |items| == 0 then []
    else
      var last := items[|items| - 1];
      Objects(items[..|items| - 1]) + (if last.Obj? then [last.fields] else [])
  }

  /** The commands are exactly the objects of the list, decoded one by one
      in order (every other item is skipped), and the list decodes iff every
      one of its objects does. */
  lemma {:induction false} CommandsFollowObjects(items: seq<Value>)
    ensures CommandsOf(items).Decoded? <==> forall k :: 0 <= k < |Objects(items)| ==> CommandOf(Objects(items)[k]).Decoded?
    ensures CommandsOf(items).Decoded? ==>
              |CommandsOf(items).value| == |Objects(items)|
              && forall k :: 0 <= k < |Objects(items)| ==> CommandOf(Objects(items)[k]) == Decoded(CommandsOf(items).value[k])
    decreases |items|
  {
    if |items| > 0 {
      var init := items[..|items| - 1];
      var last := items[|items| - 1];
      CommandsFollowObjects(init);
      var os := Objects(items);
      assert os[..|Objects(init)|] == Objects(init);
      if last.Obj? {
        assert os == Objects(init) + [last.fields];
        if CommandsOf(init).Decoded? && CommandOf(last.fields).Decoded? {
          var cs := CommandsOf(init).value;
          assert CommandsOf(items).value == cs + [CommandOf(last.fields).value];
        }
        if !CommandsOf(items).Decoded? {
          if CommandsOf(init).Decoded? {
            assert !CommandOf(os[|os| - 1]).Decoded?;
          } else {
            var k :| 0 <= k < |Objects(init)| && !CommandOf(Objects(init)[k]).Decoded?;
            assert os[k] == Objects(init)[k];
          }
        }
      } else {
        assert os == Objects(init);
        assert CommandsOf(items) == CommandsOf(init);
        if !CommandsOf(init).Decoded? {
          var k :| 0 <= k < |Objects(init)| && !CommandOf(Objects(init)[k]).Decoded?;
          assert !CommandOf(os[k]).Decoded?;
        }
      }
    }
  }

  /** A request with no "commands" list, or one holding no objects, has no commands. */
  lemma NoObjectsNoCommands(items: seq<Value>)
    requires forall k :: 0 <= k < |items| ==> !items[k].Obj?
    ensures CommandsOf(items) == Decoded([])
  {
    CommandsFollowObjects(items);
    NoObjects(items);
  }

  lemma {:induction false} NoObjects(items: seq<Value>)
    requires forall k :: 0 <= k < |items| ==> !items[k].Obj?
    ensures Objects(items) == []
    decreases |items|
  {
    if |items| > 0 {
      NoObjects(items[..|items| - 1]);
    }
  }

  /** ParseVec3 yields a vector iff it is given a list of at least three
      items whose first three Convert.ToSingle accepts; it is null for any
      other value and for a shorter list. */
  lemma Vec3NeedsThreeScalars(v: Value, field: string)
    ensures Vec3Of(v, field) == Decoded(None) <==> !v.Arr? || |v.items| < 3
    ensures Vec3Of(v, field).Rejected? <==> v.Arr? && |v.items| >= 3 && !(IsScalar(v.items[0]) && IsScalar(v.items[1]) && IsScalar(v.items[2]))
    ensures v.Arr? && |v.items| >= 3 && IsScalar(v.items[0]) && IsScalar(v.items[1]) && IsScalar(v.items[2]) ==>
              Vec3Of(v, field) == Decoded(Some(Vec3(ScalarOf(v.items[0]), ScalarOf(v.items[1]), ScalarOf(v.items[2]))))
  {
  }

  /** ParseQuat: the same with four items. */
  lemma QuatNeedsFourScalars(v: Value, field: string)
    ensures QuatOf(v, field) == Decoded(None) <==> !v.Arr? || |v.items| < 4
    ensures QuatOf(v, field).Rejected? <==> v.Arr? && |v.items| >= 4 && !(IsScalar(v.items[0]) && IsScalar(v.items[1]) && IsScalar(v.items[2]) && IsScalar(v.items[3]))
    ensures v.Arr? && |v.items| >= 4 && IsScalar(v.items[0]) && IsScalar(v.items[1]) && IsScalar(v.items[2]) && IsScalar(v.items[3]) ==>
              QuatOf(v, field) == Decoded(Some(Quat(ScalarOf(v.items[0]), ScalarOf(v.items[1]), ScalarOf(v.items[2]), ScalarOf(v.items[3]))))
  {
  }

  /** A command decodes iff its casts succeed; its string fields are the
      string-valued entries of the object and nothing else. */
  lemma CommandFields(fields: map<string, Value>)
    ensures CommandOf(fields).Decoded? <==>
              AllField(fields).Decoded? && Vec3Field(fields, "position").Decoded?
              && QuatField(fields, "rotation").Decoded? && Vec3Field(fields, "scale").Decoded?
    ensures CommandOf(fields).Decoded? ==>
              var c := CommandOf(fields).value;
              && (c.kind.Some? <==> "type" in fields && fields["type"].Str?)
              && (c.target.Some? <==> "target" in fields && fields["target"].Str?)
              && (c.all <==> "all" in fields && fields["all"] == Bool(true))
  {
  }
}
