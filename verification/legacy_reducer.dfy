/**
 * `Easybase._apply` of build/index.js, the compiled output of an earlier
 * revision: the same loop with no blob branch, `del-invite` delegated to the
 * view, writer keys passed on undecoded and an unconditional flush.
 */
module LegacyReducer {
  import opened Values
  import opened Views
  import opened Batch

  /** The earlier Easybase always opens the default view, so only the actions and the view's flush matter. */
  datatype Config = Config(actions: map<string, Action>, viewHasFlush: bool)

  /** The writer set receives `record.key` as it is, so its members are whatever values the records carried. */
  datatype State = State(view: View, writers: set<Js>)

  /**
   * The built-in types, then whatever `actions[type]` finds (a registered
   * action first, an `Object.prototype` member otherwise), then the append
   * fallback.
   */
  function RouteOf(cfg: Config, value: Js): (r: Route)
    ensures r != BlobPut
    ensures var t := Prop(value, "type");
            && (r == InviteAdd <==> t == Str("add-invite"))
            && (r == InviteDel <==> t == Str("del-invite"))
            && (r == WriterAdd <==> t == Str("add-writer"))
            && (r == WriterRemove <==> t == Str("remove-writer"))
    ensures r.CustomAction? <==>
              !IsBuiltin(Prop(value, "type")) && Prop(value, "type").Str? && Prop(value, "type").s in cfg.actions
    ensures r.CustomAction? ==> Prop(value, "type") == Str(r.name) && r.value == value
    ensures r.InheritedMember? <==>
              !IsBuiltin(Prop(value, "type")) && Found(cfg.actions, Prop(value, "type")) && Prop(value, "type").s !in cfg.actions
    ensures r.InheritedMember? ==> Prop(value, "type") == Str(r.name) && r.name in Inherited
    ensures r == AppendValue <==> !IsBuiltin(Prop(value, "type")) && !Found(cfg.actions, Prop(value, "type"))
  {
    var t := Prop(value, "type");
    if t == Str("add-invite") then InviteAdd
    else if t == Str("del-invite") then InviteDel
    else if t == Str("add-writer") then WriterAdd
    else if t == Str("remove-writer") then WriterRemove
    else if t.Str? && t.s in cfg.actions then CustomAction(t.s, value)
    else if t.Str? && t.s in Inherited then InheritedMember(t.s)
    else AppendValue
  }

  function WithView(s: State, r: Result<View>): Step<State>
  {
    match r
    case Ok(v) => Step(s.(view := v), None)
    case Err(e) => Step(s, Some(e))
  }

  /**
   * One iteration of the loop. Only the two writer routes touch the writer
   * set, and they leave the view alone; an inherited member changes nothing;
   * the view stays a log.
   */
  function Dispatch(cfg: Config, s: State, value: Js): (r: Step<State>)
    ensures Nullish(value) ==> r.error.Some? && r.state == s
    ensures r.state.view.Log? == s.view.Log?
    ensures !RouteOf(cfg, value).WriterAdd? && !RouteOf(cfg, value).WriterRemove? ==> r.state.writers == s.writers
    ensures RouteOf(cfg, value).WriterAdd? || RouteOf(cfg, value).WriterRemove? ==> r.state.view == s.view
    ensures !Nullish(value) && RouteOf(cfg, value).InheritedMember? ==>
              r.state == s && r.error == InheritedCall(RouteOf(cfg, value).name, value, cfg.actions.Keys)
  {
    if Nullish(value) then Step(s, Some(TypeError("cannot destructure the node value")))
    else
      var record := Prop(value, "record");
      match RouteOf(cfg, value)
      case InviteAdd => WithView(s, ApplyOp(s.view, Append(record)))
      case InviteDel => WithView(s, ApplyOp(s.view, Remove(record)))
      case WriterAdd =>
        if Nullish(record) then Step(s, Some(TypeError("cannot read property 'key' of the record")))
        else Step(s.(writers := s.writers + {Prop(record, "key")}), None)
      case WriterRemove =>
        if Nullish(record) then Step(s, Some(TypeError("cannot read property 'key' of the record")))
        else Step(s.(writers := s.writers - {Prop(record, "key")}), None)
      case BlobPut => Step(s, None)   // RouteOf never picks it
      case CustomAction(name, _) =>
        (match cfg.actions[name](value, s.view)
         case Err(e) => Step(s, Some(e))
         case Ok(ops) =>
           var (v, e) := ApplyOps(s.view, ops);
           Step(s.(view := v), e))
      case InheritedMember(name) => Step(s, InheritedCall(name, value, cfg.actions.Keys))
      case AppendValue => WithView(s, ApplyOp(s.view, Append(value)))
  }

  function Stepper(cfg: Config): (State, Js) -> Step<State>
  {
    (s, value) => Dispatch(cfg, s, value)
  }

  function Router(cfg: Config): Js -> Route
  {
    value => RouteOf(cfg, value)
  }

  /**
   * The whole of `_apply`: the loop, then `view.flush()`, which throws when
   * the view has no flush, so a batch without error always ends flushed.
   */
  function Apply(cfg: Config, s: State, nodes: seq<Js>): (r: Outcome<State>)
    ensures !cfg.viewHasFlush ==> r.error.Some?
    ensures r.error.None? ==> |r.trace| == |nodes| + 1 && r.trace[|nodes|] == Flushed
    ensures r.error.Some? ==> |r.trace| <= |nodes| && Flushed !in r.trace
  {
    var r := Run(Stepper(cfg), Router(cfg), s, nodes);
    if r.error.Some? then r
    else if cfg.viewHasFlush then r.(trace := r.trace + [Flushed])
    else r.(error := Some(TypeError("view.flush is not a function")))
  }
}

/**
 * What the earlier `_apply` guarantees, and how it relates to the one of
 * index.ts.
 */
module LegacyReducerFacts {
  import opened Values
  import opened Views
  import opened Batch
  import opened LegacyReducer
  import Reducer

  /**
   * Every node is dispatched once, in order; after a loop that did not throw
   * `view.flush()` is always called, once, at the end.
   */
  lemma LegacyApplyTrace(cfg: Config, s: State, nodes: seq<Js>)
    ensures var loop := Run(Stepper(cfg), Router(cfg), s, nodes);
            var r := Apply(cfg, s, nodes);
            && (loop.error.None? ==> r.trace == Routes(Router(cfg), nodes) + (if cfg.viewHasFlush then [Flushed] else []))
            && (loop.error.None? && !cfg.viewHasFlush ==> r.error == Some(TypeError("view.flush is not a function")))
            && (loop.error.Some? ==> |r.trace| < |nodes| && r.trace == Routes(Router(cfg), nodes[..|r.trace|]))
            && (Flushed in r.trace <==> loop.error.None? && cfg.viewHasFlush)
  {
    RunTrace(Stepper(cfg), Router(cfg), s, nodes);
    assert nodes[..|nodes|] == nodes;
  }

  /**
   * `add-invite` appends the record and `del-invite` removes every entry
   * equal to it; neither throws, so adding then deleting leaves no copy.
   */
  lemma LegacyInvites(cfg: Config, entries: seq<Js>, writers: set<Js>, record: Js)
    ensures var s := State(Log(entries), writers);
            var add, del := Operation("add-invite", record), Operation("del-invite", record);
            var r := Run(Stepper(cfg), Router(cfg), s, [add, del]);
            && Dispatch(cfg, s, add) == Step(State(Log(entries + [record]), writers), None)
            && Dispatch(cfg, s, del) == Step(State(Log(Without(entries, record)), writers), None)
            && r.error.None? && r.state.view.Log? && record !in r.state.view.entries
  {
    var s := State(Log(entries), writers);
    var add, del := Operation("add-invite", record), Operation("del-invite", record);
    var s1 := State(Log(entries + [record]), writers);
    LegacyInviteSteps(cfg, entries, writers, record);
    LegacyInviteSteps(cfg, entries + [record], writers, record);
    assert [add][1..] == [];
    RunSnoc(Stepper(cfg), Router(cfg), s, [add], del);
    assert [add] + [del] == [add, del];
  }

  /** One `add-invite` or one `del-invite` node of `LegacyInvites`, through the batch's step function. */
  lemma LegacyInviteSteps(cfg: Config, entries: seq<Js>, writers: set<Js>, record: Js)
    ensures var s := State(Log(entries), writers);
            && Stepper(cfg)(s, Operation("add-invite", record)) == Step(State(Log(entries + [record]), writers), None)
            && Stepper(cfg)(s, Operation("del-invite", record)) == Step(State(Log(Without(entries, record)), writers), None)
  {
  }

  /** `add-writer` and `remove-writer` hand `record.key` to the writer set as it is, string or Buffer alike. */
  lemma LegacyKeysUndecoded(cfg: Config, s: State, record: Js)
    requires !Nullish(record)
    ensures Dispatch(cfg, s, Operation("add-writer", record)) == Step(s.(writers := s.writers + {Prop(record, "key")}), None)
    ensures Dispatch(cfg, s, Operation("remove-writer", record)) == Step(s.(writers := s.writers - {Prop(record, "key")}), None)
  {
  }

  /**
   * The two revisions disagree on a hex string key: index.ts admits its
   * decoded bytes, the earlier one admits the string itself.
   */
  lemma HexKeyDiffers(newCfg: Reducer.Config, cfg: Config, ns: Reducer.State, s: State, hex: string)
    ensures var op := Operation("add-writer", Obj(map["key" := Str(hex)]));
            && Reducer.Dispatch(newCfg, ns, op).state.writers == ns.writers + {newCfg.codecs.hexDecode(hex)}
            && Dispatch(cfg, s, op).state.writers == s.writers + {Str(hex)}
  {
  }

  /**
   * The earlier revision has no blob branch: a blob record whose type
   * `actions[type]` finds nothing for is appended like any value.
   */
  lemma LegacyBlobRecordsAppended(cfg: Config, s: State, value: Js)
    requires s.view.Log? && !Nullish(value)
    requires !IsBuiltin(Prop(value, "type")) && !Found(cfg.actions, Prop(value, "type"))
    ensures Dispatch(cfg, s, value) == Step(s.(view := Log(s.view.entries + [value])), None)
  {
  }

  /** A node neither revision treats differently on the default view. */
  predicate Shared(value: Js)
  {
    Prop(value, "type") !in {Str("del-invite"), Str("add-writer"), Str("remove-writer")}
  }

  /** On the default view the two revisions make the same view change for every shared node. */
  lemma DispatchAgrees(actions: map<string, Action>, newFlush: bool, oldFlush: bool, codecs: Codecs,
                       view: View, newWriters: set<Bytes>, oldWriters: set<Js>, value: Js)
    requires Shared(value)
    ensures var n := Reducer.Dispatch(Reducer.Config(Default, actions, newFlush, codecs), Reducer.State(view, newWriters), value);
            var o := Dispatch(Config(actions, oldFlush), State(view, oldWriters), value);
            && n.state == Reducer.State(o.state.view, newWriters)
            && o.state.writers == oldWriters
            && n.error == o.error
            && Reducer.RouteOf(Reducer.Config(Default, actions, newFlush, codecs), value) == RouteOf(Config(actions, oldFlush), value)
  {
  }

  /**
   * For batches of shared nodes on the default view the two revisions reach
   * the same view, dispatch the same routes and fail on the same node.
   */
  lemma {:induction false} VariantsAgree(actions: map<string, Action>, newFlush: bool, oldFlush: bool, codecs: Codecs,
                                         view: View, newWriters: set<Bytes>, oldWriters: set<Js>, nodes: seq<Js>)
    requires forall i | 0 <= i < |nodes| :: Shared(nodes[i])
    ensures var newCfg := Reducer.Config(Default, actions, newFlush, codecs);
            var oldCfg := Config(actions, oldFlush);
            var n := Run(Reducer.Stepper(newCfg), Reducer.Router(newCfg), Reducer.State(view, newWriters), nodes);
            var o := Run(Stepper(oldCfg), Router(oldCfg), State(view, oldWriters), nodes);
            && n.state == Reducer.State(o.state.view, newWriters)
            && n.trace == o.trace
            && n.error == o.error
    decreases |nodes|
  {
    if nodes != [] {
      var newCfg := Reducer.Config(Default, actions, newFlush, codecs);
      var oldCfg := Config(actions, oldFlush);
      DispatchAgrees(actions, newFlush, oldFlush, codecs, view, newWriters, oldWriters, nodes[0]);
      var o := Dispatch(oldCfg, State(view, oldWriters), nodes[0]);
      VariantsAgree(actions, newFlush, oldFlush, codecs, o.state.view, newWriters, oldWriters, nodes[1..]);
    }
  }
}
