/**
 * What `_apply` of index.ts guarantees: dispatch order and the single flush,
 * writer-set membership, the invite file, first-write-wins blobs, and the
 * action and fallback branches.
 */
module ReducerFacts {
  import opened Values
  import opened Views
  import opened Batch
  import opened Reducer

  /**
   * Every node is dispatched exactly once, in array order, by its route; the
   * flush comes last, once, only when the view has one and no node threw.
   */
  lemma ApplyTrace(cfg: Config, s: State, nodes: seq<Js>)
    ensures var r := Apply(cfg, s, nodes);
            && (r.error.None? ==> r.trace == Routes(Router(cfg), nodes) + (if cfg.viewHasFlush then [Flushed] else []))
            && (r.error.Some? ==> |r.trace| < |nodes| && r.trace == Routes(Router(cfg), nodes[..|r.trace|]))
            && (Flushed in r.trace <==> r.error.None? && cfg.viewHasFlush)
  {
    RunTrace(Stepper(cfg), Router(cfg), s, nodes);
    assert nodes[..|nodes|] == nodes;
  }

  /** `Some(true)` when the node adds writer `k`, `Some(false)` when it removes it, `None` otherwise. */
  function WriterOpOn(cfg: Config, value: Js, k: Bytes): (r: Option<bool>)
    ensures r.Some? ==> Prop(value, "type") in {Str("add-writer"), Str("remove-writer")}
  {
    if Nullish(value) then None
    else
      var route := RouteOf(cfg, value);
      if (route == WriterAdd || route == WriterRemove) && WriterKey(cfg, Prop(value, "record")) == Ok(k)
      then Some(route == WriterAdd)
      else None
  }

  /** The last writer operation on `k` in a batch, if any. */
  function LastWriterOp(cfg: Config, nodes: seq<Js>, k: Bytes): Option<bool>
  {
    if nodes == [] then None
    else
      var later := LastWriterOp(cfg, nodes[1..], k);
      if later.Some? then later else WriterOpOn(cfg, nodes[0], k)
  }

  /** One node changes the membership of `k` only when it is a writer operation on `k`. */
  lemma DispatchWriters(cfg: Config, s: State, value: Js, k: Bytes)
    requires Dispatch(cfg, s, value).error.None?
    ensures var w := WriterOpOn(cfg, value, k);
            k in Dispatch(cfg, s, value).state.writers <==> w == Some(true) || (w.None? && k in s.writers)
  {
  }

  /**
   * After a batch that did not throw, `k` is a writer exactly when the last
   * writer operation on it was `add-writer`, or there was none and it was a
   * writer before; redelivering either operation changes nothing further.
   */
  lemma {:induction false} WritersLastWins(cfg: Config, s: State, nodes: seq<Js>, k: Bytes)
    requires Run(Stepper(cfg), Router(cfg), s, nodes).error.None?
    ensures var last := LastWriterOp(cfg, nodes, k);
            k in Run(Stepper(cfg), Router(cfg), s, nodes).state.writers <==>
              last == Some(true) || (last.None? && k in s.writers)
    decreases |nodes|
  {
    if nodes != [] {
      var st := Dispatch(cfg, s, nodes[0]);
      DispatchWriters(cfg, s, nodes[0], k);
      WritersLastWins(cfg, st.state, nodes[1..], k);
    }
  }

  /** `add-writer` then `remove-writer` for the same key leaves it out, whatever the writer set was. */
  lemma AddThenRemoveWriter(cfg: Config, s: State, key: Bytes)
    ensures var r := Run(Stepper(cfg), Router(cfg), s,
                         [WriterOperation("add-writer", key), WriterOperation("remove-writer", key)]);
            r.error.None? && r.state.writers == s.writers - {key} && r.state.view == s.view
  {
    var add, remove := WriterOperation("add-writer", key), WriterOperation("remove-writer", key);
    var s1 := Dispatch(cfg, s, add);
    assert s1 == Step(s.(writers := s.writers + {key}), None);
    assert Dispatch(cfg, s1.state, remove) == Step(s.(writers := s.writers + {key} - {key}), None);
    assert [add, remove][1..] == [remove] && [remove][1..] == [];
    assert s.writers + {key} - {key} == s.writers - {key};
    assert Run(Stepper(cfg), Router(cfg), s1.state, [remove]).state == s.(writers := s.writers - {key});
  }

  /** Both writer operations are idempotent: applying one twice is applying it once. */
  lemma WriterOpsIdempotent(cfg: Config, s: State, kind: string, key: Bytes)
    requires kind in {"add-writer", "remove-writer"}
    ensures var op := WriterOperation(kind, key);
            var once := Dispatch(cfg, s, op);
            once.error.None? && Dispatch(cfg, once.state, op) == once
  {
    var op := WriterOperation(kind, key);
    assert !Nullish(op) && WriterKey(cfg, Prop(op, "record")) == Ok(key);
    assert s.writers + {key} + {key} == s.writers + {key};
    assert s.writers - {key} - {key} == s.writers - {key};
  }

  /**
   * On the Hyperdrive view `add-invite` overwrites `invite.json` with the
   * serialized record, `del-invite` removes it, and no other path changes;
   * an `add-invite` without a record throws, since `undefined` has no JSON
   * text to make a Buffer of.
   */
  lemma HyperdriveInvites(cfg: Config, files: map<string, Js>, writers: set<Bytes>, record: Js, other: Js)
    requires cfg.viewType == Hyperdrive
    ensures var s := State(Drive(files), writers);
            var added := Dispatch(cfg, s, Operation("add-invite", record));
            && (record != Undefined ==>
                  added == Step(State(Drive(files[InvitePath := Buf(cfg.codecs.stringify(record))]), writers), None))
            && (record == Undefined ==> added.state == s && added.error.Some? && added.error.value.TypeError?)
            && Dispatch(cfg, s, Operation("del-invite", other))
                 == Step(State(Drive(files - {InvitePath}), writers), None)
  {
  }

  /**
   * Adding then deleting the invite leaves no `invite.json`, and a second
   * delete is a no-op, not an error; without a record the batch stops at the
   * add with nothing changed.
   */
  lemma InviteAddDeleteDelete(cfg: Config, files: map<string, Js>, writers: set<Bytes>, record: Js)
    requires cfg.viewType == Hyperdrive
    ensures var s := State(Drive(files), writers);
            var once := Run(Stepper(cfg), Router(cfg), s, [Operation("add-invite", record), Operation("del-invite", record)]);
            var twice := Run(Stepper(cfg), Router(cfg), s,
                             [Operation("add-invite", record), Operation("del-invite", record), Operation("del-invite", record)]);
            && (record != Undefined ==>
                  && once.error.None? && once.state == State(Drive(files - {InvitePath}), writers)
                  && twice == once.(trace := once.trace + [Dispatched(InviteDel)]))
            && (record == Undefined ==> once.error.Some? && once.state == s && once.trace == [] && twice == once)
  {
    if record == Undefined {
      InviteAddStops(cfg, files, writers, record);
    } else {
      InviteDeletesTwice(cfg, files, writers, record);
    }
  }

  /** The `record == undefined` half of `InviteAddDeleteDelete`: the add throws first. */
  lemma InviteAddStops(cfg: Config, files: map<string, Js>, writers: set<Bytes>, record: Js)
    requires cfg.viewType == Hyperdrive && record == Undefined
    ensures var s := State(Drive(files), writers);
            var add, del := Operation("add-invite", record), Operation("del-invite", record);
            var once := Run(Stepper(cfg), Router(cfg), s, [add, del]);
            && once.error.Some? && once.state == s && once.trace == []
            && Run(Stepper(cfg), Router(cfg), s, [add, del, del]) == once
  {
    var add, del := Operation("add-invite", record), Operation("del-invite", record);
    var s := State(Drive(files), writers);
    HyperdriveInvites(cfg, files, writers, record, record);
    assert [add][1..] == [];
    RunStops(Stepper(cfg), Router(cfg), s, [add], [del]);
    RunStops(Stepper(cfg), Router(cfg), s, [add], [del, del]);
    assert [add] + [del] == [add, del] && [add] + [del, del] == [add, del, del];
  }

  /** The three steps of `InviteDeletesTwice`, one node at a time. */
  lemma InviteSteps(cfg: Config, files: map<string, Js>, writers: set<Bytes>, record: Js)
    requires cfg.viewType == Hyperdrive && record != Undefined
    ensures var s1 := State(Drive(files[InvitePath := Buf(cfg.codecs.stringify(record))]), writers);
            var s2 := State(Drive(files - {InvitePath}), writers);
            && Stepper(cfg)(State(Drive(files), writers), Operation("add-invite", record)) == Step(s1, None)
            && Stepper(cfg)(s1, Operation("del-invite", record)) == Step(s2, None)
            && Stepper(cfg)(s2, Operation("del-invite", record)) == Step(s2, None)
  {
    var s1 := State(Drive(files[InvitePath := Buf(cfg.codecs.stringify(record))]), writers);
    var s2 := State(Drive(files - {InvitePath}), writers);
    HyperdriveInvites(cfg, files, writers, record, record);
    HyperdriveInvites(cfg, s1.view.files, writers, record, record);
    HyperdriveInvites(cfg, s2.view.files, writers, record, record);
    assert s1.view.files - {InvitePath} == files - {InvitePath};
    assert s2.view.files - {InvitePath} == files - {InvitePath};
  }

  /** The half of `InviteAddDeleteDelete` with a record: add, delete, delete again. */
  lemma InviteDeletesTwice(cfg: Config, files: map<string, Js>, writers: set<Bytes>, record: Js)
    requires cfg.viewType == Hyperdrive && record != Undefined
    ensures var s := State(Drive(files), writers);
            var add, del := Operation("add-invite", record), Operation("del-invite", record);
            var once := Run(Stepper(cfg), Router(cfg), s, [add, del]);
            && once.error.None? && once.state == State(Drive(files - {InvitePath}), writers)
            && Run(Stepper(cfg), Router(cfg), s, [add, del, del]) == once.(trace := once.trace + [Dispatched(InviteDel)])
  {
    var add, del := Operation("add-invite", record), Operation("del-invite", record);
    var s := State(Drive(files), writers);
    InviteSteps(cfg, files, writers, record);
    assert [add][1..] == [];
    RunSnoc(Stepper(cfg), Router(cfg), s, [add], del);
    assert [add] + [del] == [add, del];
    RunSnoc(Stepper(cfg), Router(cfg), s, [add, del], del);
    assert [add, del] + [del] == [add, del, del];
  }

  /** On the default view `add-invite` appends the record itself. */
  lemma DefaultViewAddInvite(cfg: Config, entries: seq<Js>, writers: set<Bytes>, record: Js)
    requires cfg.viewType == Default
    ensures Dispatch(cfg, State(Log(entries), writers), Operation("add-invite", record))
              == Step(State(Log(entries + [record]), writers), None)
  {
  }

  /**
   * On the default view a `del-invite` anywhere in the batch makes `_apply`
   * throw "Cannot delete invite from default view" by that node at the
   * latest, so the batch ends without its flush.
   */
  lemma {:induction false} DefaultViewDelInviteAborts(cfg: Config, s: State, nodes: seq<Js>, j: nat)
    requires cfg.viewType == Default
    requires j < |nodes| && Prop(nodes[j], "type") == Str("del-invite")
    ensures var r := Apply(cfg, s, nodes);
            r.error.Some? && Flushed !in r.trace && |r.trace| <= j
    decreases |nodes|
  {
    var st := Dispatch(cfg, s, nodes[0]);
    if j == 0 {
      assert st.error == Some(Thrown(NoDeleteOnDefault));
    } else if st.error.None? {
      DefaultViewDelInviteAborts(cfg, st.state, nodes[1..], j - 1);
    }
    ApplyTrace(cfg, s, nodes);
  }

  /**
   * A non-built-in node carrying `record.blob` on the Hyperdrive view goes
   * down the blob branch even when an action is registered for its type:
   * an existing `record.filename` is left alone, a new one gets the blob.
   */
  lemma FirstWriteWins(cfg: Config, files: map<string, Js>, writers: set<Bytes>, value: Js, path: string)
    requires cfg.viewType == Hyperdrive
    requires Prop(value, "type") !in {Str("add-invite"), Str("del-invite"), Str("add-writer"), Str("remove-writer")}
    requires Truthy(Prop(Prop(value, "record"), "blob"))
    requires Prop(Prop(value, "record"), "filename") == Str(path)
    ensures RouteOf(cfg, value) == BlobPut
    ensures var s := State(Drive(files), writers);
            Dispatch(cfg, s, value) ==
              if path in files then Step(s, None)
              else Step(State(Drive(files[path := Prop(Prop(value, "record"), "blob")]), writers), None)
  {
  }

  /** Two blob records for the same new path: the first one's blob stays. */
  lemma FirstBlobStays(cfg: Config, files: map<string, Js>, writers: set<Bytes>, first: Js, second: Js, path: string)
    requires cfg.viewType == Hyperdrive && path !in files
    requires forall v | v in {first, second} ::
      && Prop(v, "type") !in {Str("add-invite"), Str("del-invite"), Str("add-writer"), Str("remove-writer")}
      && Truthy(Prop(Prop(v, "record"), "blob"))
      && Prop(Prop(v, "record"), "filename") == Str(path)
    ensures var r := Run(Stepper(cfg), Router(cfg), State(Drive(files), writers), [first, second]);
            && r.error.None?
            && r.state == State(Drive(files[path := Prop(Prop(first, "record"), "blob")]), writers)
  {
    var stored := files[path := Prop(Prop(first, "record"), "blob")];
    FirstWriteWins(cfg, files, writers, first, path);
    FirstWriteWins(cfg, stored, writers, second, path);
    assert [first, second][1..] == [second] && [second][1..] == [];
    assert Run(Stepper(cfg), Router(cfg), State(Drive(stored), writers), [second]).state == State(Drive(stored), writers);
  }

  /**
   * Any other node with a registered type runs that action once, with the
   * whole node value and the current view, and performs what it asks.
   */
  lemma ActionRunsOnce(cfg: Config, s: State, value: Js, name: string)
    requires Prop(value, "type") == Str(name) && name in cfg.actions
    requires name !in {"add-invite", "del-invite", "add-writer", "remove-writer"}
    requires !CarriesBlob(cfg, value)
    ensures RouteOf(cfg, value) == CustomAction(name, value)
    ensures Dispatch(cfg, s, value) ==
              match cfg.actions[name](value, s.view)
              case Err(e) => Step(s, Some(e))
              case Ok(ops) => Step(s.(view := ApplyOps(s.view, ops).0), ApplyOps(s.view, ops).1)
  {
  }

  /**
   * A node with no built-in type, no blob branch and a type for which
   * `actions[type]` finds nothing (neither a registered action nor an
   * `Object.prototype` member) is appended unchanged to the default view;
   * the Hyperdrive view has no `append`, so there it throws.
   */
  lemma FallbackAppends(cfg: Config, s: State, value: Js)
    requires Matches(s.view, cfg.viewType)
    requires !IsBuiltin(Prop(value, "type")) && !CarriesBlob(cfg, value)
    requires !Found(cfg.actions, Prop(value, "type"))
    requires !Nullish(value)
    ensures RouteOf(cfg, value) == AppendValue
    ensures s.view.Log? ==> Dispatch(cfg, s, value) == Step(s.(view := Log(s.view.entries + [value])), None)
    ensures s.view.Drive? ==> Dispatch(cfg, s, value).error.Some?
  {
  }

  /**
   * A type that only `Object.prototype` answers to is not appended: the
   * inherited member is called and its result ignored, so nothing changes;
   * the batch throws on `__proto__` and the two definers, on a
   * key-converting member when the node has its own `toString` field, and on
   * `toLocaleString` when an action named "toString" is registered; on
   * `valueOf` with an action named "then" registered it never returns.
   */
  lemma InheritedTypeIsNotAppended(cfg: Config, s: State, value: Js, name: string)
    requires Prop(value, "type") == Str(name) && name in Inherited && name !in cfg.actions
    requires !CarriesBlob(cfg, value)
    ensures RouteOf(cfg, value) == InheritedMember(name)
    ensures Dispatch(cfg, s, value).state == s
    ensures Dispatch(cfg, s, value).error.None? <==>
              && name !in {"__proto__", "__defineGetter__", "__defineSetter__"}
              && !(name in KeyConverting && "toString" in value.fields)
              && !(name == "toLocaleString" && "toString" in cfg.actions)
              && !(name == "valueOf" && "then" in cfg.actions)
    ensures Dispatch(cfg, s, value).error.Some? ==>
              (Dispatch(cfg, s, value).error.value.Stalled? <==> name == "valueOf")
  {
    assert !IsBuiltin(Prop(value, "type"));
  }

  /** A batch leaves the view of the kind `_openView` built. */
  lemma {:induction false} RunKeepsKind(cfg: Config, s: State, nodes: seq<Js>)
    ensures Run(Stepper(cfg), Router(cfg), s, nodes).state.view.Drive? == s.view.Drive?
    decreases |nodes|
  {
    if nodes != [] {
      RunKeepsKind(cfg, Dispatch(cfg, s, nodes[0]).state, nodes[1..]);
    }
  }
}
