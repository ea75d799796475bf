/**
 * `Easybase._apply` of index.ts: the deterministic reducer that turns a
 * batch of log nodes into view mutations and writer-set changes.
 */
module Reducer {
  import opened Values
  import opened Views
  import opened Batch

  /** What `_apply` reads from the Easybase object besides the batch. */
  datatype Config = Config(
    viewType: ViewType,
    actions: map<string, Action>,
    viewHasFlush: bool,        // whether `view.flush` exists
    codecs: Codecs)

  /** The view and the writer set the reducer mutates. */
  datatype State = State(view: View, writers: set<Bytes>)

  const InvitePath: string := "invite.json"
  const NoDeleteOnDefault: string := "Cannot delete invite from default view"

  /**
   * `_isHyperdrive(view)`: a type guard that never looks at the view. On the
   * view `_openView` built it tells the truth; on any other view it answers
   * the opposite of the view's kind.
   */
  function IsHyperdrive(cfg: Config, v: View): (r: bool)
    ensures Matches(v, cfg.viewType) ==> (r <==> v.Drive?)
    ensures !Matches(v, cfg.viewType) ==> (r <==> v.Log?)
  {
    cfg.viewType == Hyperdrive
  }

  /**
   * `_addInvite`: the Hyperdrive view keeps the serialized record at
   * `invite.json` and nothing else changes; the default view gets the record
   * appended. A missing record cannot be serialized.
   */
  function AddInvite(cfg: Config, v: View, record: Js): (r: Result<View>)
    ensures cfg.viewType == Hyperdrive ==> (r.Ok? <==> v.Drive? && record != Undefined)
    ensures cfg.viewType == Hyperdrive && record == Undefined ==> r.Err? && r.error.TypeError?
    ensures cfg.viewType == Default ==> (r.Ok? <==> v.Log?)
    ensures r.Ok? && v.Drive? ==>
              && r.value.Drive?
              && InvitePath in r.value.files
              && r.value.files[InvitePath] == Buf(cfg.codecs.stringify(record))
              && SameElsewhere(v.files, r.value.files, InvitePath)
    ensures r.Ok? && v.Log? ==>
              && r.value.Log?
              && |r.value.entries| == |v.entries| + 1
              && r.value.entries[..|v.entries|] == v.entries
              && r.value.entries[|v.entries|] == record
  {
    if IsHyperdrive(cfg, v) then
      match Serialize(cfg.codecs, record)
      case Err(e) => Err(e)
      case Ok(b) => ApplyOp(v, Put(InvitePath, Buf(b)))
    else ApplyOp(v, Append(record))
  }

  /** `_delInvite`: the Hyperdrive view loses `invite.json` and nothing else, the default view refuses. */
  function DelInvite(cfg: Config, v: View): (r: Result<View>)
    ensures cfg.viewType == Default ==> r == Err(Thrown(NoDeleteOnDefault))
    ensures cfg.viewType == Hyperdrive ==> (r.Ok? <==> v.Drive?)
    ensures r.Ok? ==>
              && v.Drive? && r.value.Drive?
              && InvitePath !in r.value.files
              && SameElsewhere(v.files, r.value.files, InvitePath)
  {
    if IsHyperdrive(cfg, v) then ApplyOp(v, Del(InvitePath))
    else Err(Thrown(NoDeleteOnDefault))
  }

  /** `Buffer.from(record.key, "hex")`: a string is hex-decoded, a Buffer is copied, anything else is refused. */
  function WriterKey(cfg: Config, record: Js): (r: Result<Bytes>)
    ensures r.Ok? <==> !Nullish(record) && (Prop(record, "key").Str? || Prop(record, "key").Buf?)
    ensures Prop(record, "key").Buf? ==> r == Ok(Prop(record, "key").bytes)
    ensures Prop(record, "key").Str? ==> r == Ok(cfg.codecs.hexDecode(Prop(record, "key").s))
  {
    if Nullish(record) then Err(TypeError("cannot read property 'key' of the record"))
    else match Prop(record, "key")
      case Str(s) => Ok(cfg.codecs.hexDecode(s))
      case Buf(b) => Ok(b)
      case _ => Err(TypeError("Buffer.from: unsupported key"))
  }

  /** The `default` branch's blob test, on the configured view type. */
  predicate CarriesBlob(cfg: Config, value: Js)
  {
    cfg.viewType == Hyperdrive && Truthy(Prop(Prop(value, "record"), "blob"))
  }

  /**
   * The branch a node takes, in the order the `switch` and its `default`
   * test them: the four built-in types, then a blob record on the Hyperdrive
   * view, then whatever `actions[type]` finds (a registered action first,
   * an `Object.prototype` member otherwise), then the append fallback.
   */
  function RouteOf(cfg: Config, value: Js): (r: Route)
    ensures var t := Prop(value, "type");
            && (r == InviteAdd <==> t == Str("add-invite"))
            && (r == InviteDel <==> t == Str("del-invite"))
            && (r == WriterAdd <==> t == Str("add-writer"))
            && (r == WriterRemove <==> t == Str("remove-writer"))
    ensures r == BlobPut <==> !IsBuiltin(Prop(value, "type")) && CarriesBlob(cfg, value)
    ensures r.CustomAction? <==>
              && !IsBuiltin(Prop(value, "type")) && !CarriesBlob(cfg, value)
              && Prop(value, "type").Str? && Prop(value, "type").s in cfg.actions
    ensures r.CustomAction? ==> Prop(value, "type") == Str(r.name) && r.value == value
    ensures r.InheritedMember? <==>
              && !IsBuiltin(Prop(value, "type")) && !CarriesBlob(cfg, value)
              && Found(cfg.actions, Prop(value, "type")) && Prop(value, "type").s !in cfg.actions
    ensures r.InheritedMember? ==> Prop(value, "type") == Str(r.name) && r.name in Inherited
    ensures r == AppendValue <==>
              !IsBuiltin(Prop(value, "type")) && !CarriesBlob(cfg, value) && !Found(cfg.actions, Prop(value, "type"))
  {
    var t := Prop(value, "type");
    if t == Str("add-invite") then InviteAdd
    else if t == Str("del-invite") then InviteDel
    else if t == Str("add-writer") then WriterAdd
    else if t == Str("remove-writer") then WriterRemove
    else if CarriesBlob(cfg, value) then BlobPut
    else if t.Str? && t.s in cfg.actions then CustomAction(t.s, value)
    else if t.Str? && t.s in Inherited then InheritedMember(t.s)
    else AppendValue
  }

  /**
   * The blob branch: `record.blob` is stored at `record.filename` unless that
   * path already exists, so the first write of a path wins; the writers and
   * every other path stay as they were.
   */
  function PutBlob(s: State, record: Js): (r: Step<State>)
    ensures r.state.writers == s.writers
    ensures r.error.Some? ==> r.state == s
    ensures r.error.Some? <==> !Prop(record, "filename").Str? || s.view.Log?
    ensures var name := Prop(record, "filename");
            r.error.None? ==>
              && s.view.Drive? && r.state.view.Drive? && name.Str?
              && name.s in r.state.view.files
              && r.state.view.files[name.s] == (if name.s in s.view.files then s.view.files[name.s] else Prop(record, "blob"))
              && SameElsewhere(s.view.files, r.state.view.files, name.s)
  {
    var filename := Prop(record, "filename");
    if !filename.Str? then Step(s, Some(TypeError("the path must be a string")))
    else match Get(s.view, filename.s)
      case Err(e) => Step(s, Some(e))
      case Ok(Some(_)) => Step(s, None)
      case Ok(None) =>
        match ApplyOp(s.view, Put(filename.s, Prop(record, "blob")))
        case Err(e) => Step(s, Some(e))
        case Ok(v) => Step(s.(view := v), None)
  }

  /** The state after a view mutation that either succeeded or threw. */
  function WithView(s: State, r: Result<View>): Step<State>
  {
    match r
    case Ok(v) => Step(s.(view := v), None)
    case Err(e) => Step(s, Some(e))
  }

  /**
   * One iteration of the loop of `_apply`. Only the two writer routes touch
   * the writer set, and they leave the view alone; an inherited member
   * changes nothing; no route changes the kind of the view.
   */
  function Dispatch(cfg: Config, s: State, value: Js): (r: Step<State>)
    ensures Nullish(value) ==> r.error.Some? && r.state == s
    ensures r.state.view.Drive? == s.view.Drive?
    ensures !RouteOf(cfg, value).WriterAdd? && !RouteOf(cfg, value).WriterRemove? ==> r.state.writers == s.writers
    ensures RouteOf(cfg, value).WriterAdd? || RouteOf(cfg, value).WriterRemove? ==> r.state.view == s.view
    ensures !Nullish(value) && RouteOf(cfg, value).InheritedMember? ==>
              r.state == s && r.error == InheritedCall(RouteOf(cfg, value).name, value, cfg.actions.Keys)
  {
    if Nullish(value) then Step(s, Some(TypeError("cannot destructure the node value")))
    else
      var record := Prop(value, "record");
      match RouteOf(cfg, value)
      case InviteAdd => WithView(s, AddInvite(cfg, s.view, record))
      case InviteDel => WithView(s, DelInvite(cfg, s.view))
      case WriterAdd =>
        (match WriterKey(cfg, record)
         case Ok(k) => Step(s.(writers := s.writers + {k}), None)
         case Err(e) => Step(s, Some(e)))
      case WriterRemove =>
        (match WriterKey(cfg, record)
         case Ok(k) => Step(s.(writers := s.writers - {k}), None)
         case Err(e) => Step(s, Some(e)))
      case BlobPut => PutBlob(s, record)
      case CustomAction(name, _) =>
        (match cfg.actions[name](value, s.view)
         case Err(e) => Step(s, Some(e))
         case Ok(ops) =>
           var (v, e) := ApplyOps(s.view, ops);
           Step(s.(view := v), e))
      case InheritedMember(name) => Step(s, InheritedCall(name, value, cfg.actions.Keys))
      case AppendValue => WithView(s, ApplyOp(s.view, Append(value)))
  }

  function Stepper(cfg: Config): (State, Js) -> Step<State>
  {
    (s, value) => Dispatch(cfg, s, value)
  }

  function Router(cfg: Config): Js -> Route
  {
    value => RouteOf(cfg, value)
  }

  /**
   * The whole of `_apply`: the loop, then a flush when the view has one and
   * no node threw. A missing `flush` is skipped, never an error.
   */
  function Apply(cfg: Config, s: State, nodes: seq<Js>): (r: Outcome<State>)
    ensures r.error.None? ==> |r.trace| == |nodes| + (if cfg.viewHasFlush then 1 else 0)
    ensures r.error.Some? ==> |r.trace| < |nodes| && Flushed !in r.trace
  {
    var r := Run(Stepper(cfg), Router(cfg), s, nodes);
    if r.error.None? && cfg.viewHasFlush then r.(trace := r.trace + [Flushed]) else r
  }
}
