/**
 * The `Easybase` and `EasybasePairer` objects of index.ts, with the fields
 * their methods update in place. Each method is proved against the
 * functions of `Reducer`, `Admission` and `Pairing`.
 */
module Easybase {
  import opened Values
  import opened Views
  import opened Batch
  import opened Admission
  import Reducer
  import Pairing

  class Easybase {
    /** `viewType`, `actions`, whether the opened view has `flush`, and the codecs. */
    const config: Reducer.Config
    /** `base.key` and `base.encryptionKey`. */
    const key: Bytes
    const encryptionKey: Bytes
    /** The Autobase view and writer set, which `_apply` mutates. */
    var view: View
    var writers: set<Bytes>
    /** Everything sent to `base.append`, `candidate.open` and `candidate.confirm`, in order. */
    var io: seq<Io>
    /** The nodes dispatched by `_apply` so far, and its flushes. */
    ghost var trace: seq<Event>

    function State(): Reducer.State
      reads this
    {
      Reducer.State(view, writers)
    }

    /** `_openView` builds the view `viewType` asks for. */
    ghost predicate Valid()
      reads this
    {
      Matches(view, config.viewType)
    }

    constructor(config: Reducer.Config, key: Bytes, encryptionKey: Bytes, view: View, writers: set<Bytes>)
      requires Matches(view, config.viewType)
      ensures Valid()
      ensures this.config == config && this.key == key && this.encryptionKey == encryptionKey
      ensures this.view == view && this.writers == writers && io == [] && trace == []
    {
      this.config := config;
      this.key := key;
      this.encryptionKey := encryptionKey;
      this.view := view;
      this.writers := writers;
      io := [];
      trace := [];
    }

    /** One call on the view: it mutates the view or throws. */
    method Mutate(op: ViewOp) returns (err: Option<Error>)
      requires Valid()
      modifies this
      ensures Valid()
      ensures Step(State(), err) == Reducer.WithView(old(State()), ApplyOp(old(view), op))
      ensures io == old(io) && trace == old(trace)
    {
      match ApplyOp(view, op)
      case Ok(v) =>
        view := v;
        err := None;
      case Err(e) =>
        err := Some(e);
    }

    /** A custom action's calls on the view, awaited one after the other; the first that throws ends the action. */
    method RunAction(ops: seq<ViewOp>) returns (err: Option<Error>)
      requires Valid()
      modifies this
      ensures Valid()
      ensures (view, err) == ApplyOps(old(view), ops)
      ensures writers == old(writers) && io == old(io) && trace == old(trace)
    {
      var i := 0;
      while i < |ops|
        invariant 0 <= i <= |ops| && Valid()
        invariant ApplyOps(old(view), ops) == ApplyOps(view, ops[i..])
        invariant writers == old(writers) && io == old(io) && trace == old(trace)
      {
        assert ops[i..][1..] == ops[i + 1..];
        err := Mutate(ops[i]);
        if err.Some? {
          return;
        }
        i := i + 1;
      }
      err := None;
    }

    /** The blob branch of the `default` case. */
    method PutBlob(record: Js) returns (err: Option<Error>)
      requires Valid()
      modifies this
      ensures Valid()
      ensures Step(State(), err) == Reducer.PutBlob(old(State()), record)
      ensures io == old(io) && trace == old(trace)
    {
      var filename := Prop(record, "filename");
      if !filename.Str? {
        err := Some(TypeError("the path must be a string"));
        return;
      }
      match Get(view, filename.s)
      case Err(e) =>
        err := Some(e);
      case Ok(existing) =>
        if existing.Some? {
          err := None;   // first write wins: go on with the next node
        } else {
          err := Mutate(Put(filename.s, Prop(record, "blob")));
        }
    }

    /** One iteration of the loop of `_apply`: the `switch` on the node's type. */
    method DispatchNode(value: Js) returns (err: Option<Error>)
      requires Valid()
      modifies this
      ensures Valid()
      ensures Step(State(), err) == Reducer.Dispatch(config, old(State()), value)
      ensures io == old(io) && trace == old(trace)
    {
      if Nullish(value) {
        err := Some(TypeError("cannot destructure the node value"));
        return;
      }
      var t, record := Prop(value, "type"), Prop(value, "record");
      if t == Str("add-invite") {
        if Reducer.IsHyperdrive(config, view) {
          match Serialize(config.codecs, record)
          case Err(e) =>
            err := Some(e);
          case Ok(b) =>
            err := Mutate(Put(Reducer.InvitePath, Buf(b)));
        } else {
          err := Mutate(Append(record));
        }
      } else if t == Str("del-invite") {
        if Reducer.IsHyperdrive(config, view) {
          err := Mutate(Del(Reducer.InvitePath));
        } else {
          err := Some(Thrown(Reducer.NoDeleteOnDefault));
        }
      } else if t == Str("add-writer") || t == Str("remove-writer") {
        match Reducer.WriterKey(config, record)
        case Err(e) =>
          err := Some(e);
        case Ok(k) =>
          if t == Str("add-writer") {
            writers := writers + {k};
          } else {
            writers := writers - {k};
          }
          err := None;
      } else if config.viewType == Hyperdrive && Truthy(Prop(record, "blob")) {
        err := PutBlob(record);
      } else if t.Str? && t.s in config.actions {
        match config.actions[t.s](value, view)
        case Err(e) =>
          err := Some(e);
        case Ok(ops) =>
          err := RunAction(ops);
      } else if t.Str? && t.s in Inherited {
        err := InheritedCall(t.s, value, config.actions.Keys);
      } else {
        err := Mutate(Append(value));
      }
    }

    /** The `for` loop of `_apply`: dispatch the nodes in order and stop at the first that throws. */
    method RunNodes(nodes: seq<Js>) returns (err: Option<Error>)
      requires Valid()
      modifies this
      ensures var r := Run(Reducer.Stepper(config), Reducer.Router(config), old(State()), nodes);
              State() == r.state && err == r.error && trace == old(trace) + r.trace
      ensures io == old(io)
      ensures Valid()
    {
      ghost var s0 := State();
      ghost var done: seq<Event> := [];
      var i := 0;
      while i < |nodes|
        invariant 0 <= i <= |nodes|
        invariant io == old(io) && Valid() && trace == old(trace) + done
        invariant Run(Reducer.Stepper(config), Reducer.Router(config), s0, nodes[..i]) == Outcome(State(), done, None)
      {
        ghost var before := State();
        err := DispatchNode(nodes[i]);
        assert Reducer.Stepper(config)(before, nodes[i]) == Step(State(), err);
        RunPrefix(Reducer.Stepper(config), Reducer.Router(config), s0, nodes, i, before, done);
        if err.Some? {
          return;
        }
        done := done + [Dispatched(Reducer.Router(config)(nodes[i]))];
        trace := trace + [Dispatched(Reducer.Router(config)(nodes[i]))];
        i := i + 1;
      }
      assert nodes[..i] == nodes;
      err := None;
    }

    /**
     * `_apply`: dispatch the nodes in order, stop at the first that throws,
     * and flush once at the end when the view has `flush`.
     */
    method Apply(nodes: seq<Js>) returns (err: Option<Error>)
      requires Valid()
      modifies this
      ensures var r := Reducer.Apply(config, old(State()), nodes);
              State() == r.state && err == r.error && trace == old(trace) + r.trace
      ensures io == old(io)
      ensures Valid()
    {
      err := RunNodes(nodes);
      if err.None? && config.viewHasFlush {
        trace := trace + [Flushed];
      }
    }

    /**
     * `createInvite`, with `found` what `findOne` returned and the clock and
     * the three random values as inputs: the token of the invite reused or
     * published.
     */
    method CreateInvite(found: Js, now: int, id: Bytes, invite: Bytes, publicKey: Bytes) returns (token: string)
      modifies this
      ensures var p := PlanInvite(found, now, id, invite, publicKey);
              token == config.codecs.z32Encode(TokenSource(p)) && io == old(io) + Appends(InviteAppends(p))
      ensures State() == old(State()) && trace == old(trace)
    {
      if Truthy(found) {
        token := config.codecs.z32Encode(Prop(found, "invite"));
        return;
      }
      var record := InviteRecord(id, invite, publicKey, now);
      io := io + [Appended(Operation("add-invite", record))];
      token := config.codecs.z32Encode(Prop(record, "invite"));
    }

    /**
     * `deleteInvite`: the Hyperdrive view reads and parses `invite.json`, the
     * default view takes `found` from `findOne`; a `del-invite` is appended
     * only when something was found.
     */
    method DeleteInvite(found: Js) returns (err: Option<Error>)
      requires Valid()
      modifies this
      ensures var e := InviteToDelete(config.viewType, view, found, config.codecs);
              && (e.Err? ==> err == Some(e.error) && io == old(io))
              && (e.Ok? ==> err.None? && io == old(io) + Appends(DeleteAppends(e.value)))
      ensures err.Some? ==> err.value.SyntaxError?
      ensures State() == old(State()) && trace == old(trace)
    {
      var existing := Undefined;
      if config.viewType == Hyperdrive {
        var data := Get(view, Reducer.InvitePath).value;
        if data.Some? {
          match ParseJson(config.codecs, data.value)
          case Err(e) =>
            err := Some(e);
            return;
          case Ok(v) =>
            existing := v;
        }
      } else {
        existing := found;
      }
      if Truthy(existing) {
        io := io + [Appended(Operation("del-invite", existing))];
      }
      err := None;
    }

    /** `addWriter`: append an `add-writer` for the key as a Buffer, and answer `true`. */
    method AddWriter(key: Js) returns (r: Result<bool>)
      modifies this
      ensures var req := WriterRequest(config.codecs, "add-writer", key);
              && (req.Ok? ==> r == Ok(true) && io == old(io) + [Appended(req.value)])
              && (req.Err? ==> r == Err(req.error) && io == old(io))
      ensures State() == old(State()) && trace == old(trace)
    {
      var k: Bytes;
      if key.Buf? {
        k := key.bytes;
      } else if key.Str? {
        k := config.codecs.utf8(key.s);
      } else {
        r := Err(TypeError("b4a.from: unsupported argument"));
        return;
      }
      io := io + [Appended(WriterOperation("add-writer", k))];
      r := Ok(true);
    }

    /** `removeWriter`: append a `remove-writer` for the key as a Buffer. */
    method RemoveWriter(key: Js) returns (err: Option<Error>)
      modifies this
      ensures var req := WriterRequest(config.codecs, "remove-writer", key);
              && (req.Ok? ==> err.None? && io == old(io) + [Appended(req.value)])
              && (req.Err? ==> err == Some(req.error) && io == old(io))
      ensures State() == old(State()) && trace == old(trace)
    {
      var k: Bytes;
      if key.Buf? {
        k := key.bytes;
      } else if key.Str? {
        k := config.codecs.utf8(key.s);
      } else {
        err := Some(TypeError("b4a.from: unsupported argument"));
        return;
      }
      io := io + [Appended(WriterOperation("remove-writer", k))];
      err := None;
    }

    /** The member's `onadd` in `_replicate`: open, add the writer, and confirm once the append has returned. */
    method MemberOnAdd(c: Candidate) returns (err: Option<Error>)
      modifies this
      ensures io == old(io) + MemberAdmission(config.codecs, c, key, encryptionKey)
      ensures err.None? <==> c.userData.Buf? || c.userData.Str?
      ensures State() == old(State()) && trace == old(trace)
    {
      io := io + [CandidateOpened(c.publicKey)];
      var added := AddWriter(c.userData);
      if added.Err? {
        err := Some(added.error);
        return;
      }
      io := io + [Confirmed(key, encryptionKey)];
      err := None;
    }
  }

  /**
   * The candidate side of pairing. A field holding an object is a flag that
   * says whether it is non-null; the Easybase is the handle it was built
   * from; each `finished()` promise is an entry of `promises`.
   */
  class EasybasePairer {
    const viewType: ViewType
    var store: bool
    var swarm: bool
    var candidate: bool
    var easybase: Option<Pairing.BaseHandle>
    var onresolve: Option<nat>
    var onreject: Option<nat>
    /** The `update` listeners `_whenWritable` subscribed and that have not unsubscribed. */
    var listeners: nat
    var promises: seq<Pairing.Settlement>
    var released: seq<Pairing.Release>

    function Abs(): Pairing.State
      reads this
    {
      Pairing.State(store, swarm, candidate, easybase, onresolve, onreject, listeners, promises, released)
    }

    constructor(viewType: ViewType)
      ensures Abs() == Pairing.Initial() && this.viewType == viewType
    {
      this.viewType := viewType;
      store := true;
      swarm := false;
      candidate := false;
      easybase := None;
      onresolve := None;
      onreject := None;
      listeners := 0;
      promises := [];
      released := [];
    }

    /** `_open`: the swarm is created, then the candidate registered unless the invite does not decode. */
    method Open(inviteValid: bool) returns (err: Option<Error>)
      modifies this
      ensures Abs() == Pairing.Opened(old(Abs()), inviteValid)
      ensures err.Some? <==> !inviteValid
    {
      swarm := true;
      if !inviteValid {
        err := Some(Thrown("z32.decode: malformed invite"));
        return;
      }
      candidate := true;
      err := None;
    }

    /** `finished()`: a new pending promise, whose callbacks become `onresolve` and `onreject`. */
    method Finished() returns (p: nat)
      modifies this
      ensures Abs() == Pairing.Finished(old(Abs()))
      ensures p == |old(promises)| && p < |promises| && promises[p] == Pairing.Pending
    {
      p := |promises|;
      promises := promises + [Pairing.Pending];
      onresolve := Some(p);
      onreject := Some(p);
    }

    /** The candidate's `onadd`, given the member's confirmation and whether the new base is writable already. */
    method OnAdd(key: Bytes, encryptionKey: Bytes, writableNow: bool)
      modifies this
      ensures Abs() == Pairing.Admitted(old(Abs()), viewType, key, encryptionKey, writableNow)
    {
      if easybase.None? {
        easybase := Some(Pairing.BaseHandle(key, encryptionKey, viewType));
      }
      swarm := false;
      store := false;
      if onresolve.Some? {
        WhenWritable(writableNow);
      }
      if candidate {
        released := released + [Pairing.CandidateClosed];
      }
    }

    /** `_whenWritable`: subscribe a check unless the base is writable already. */
    method WhenWritable(writableNow: bool)
      modifies this
      ensures Abs() == Pairing.WhenWritable(old(Abs()), writableNow)
    {
      if writableNow {
        return;
      }
      listeners := listeners + 1;
    }

    /** An `update` on the base: once it is writable, each check unsubscribes and calls `onresolve`. */
    method OnUpdate(writable: bool)
      modifies this
      ensures Abs() == Pairing.Updated(old(Abs()), writable)
    {
      if writable && listeners > 0 && easybase.Some? {
        listeners := 0;
        promises := Pairing.Settle(promises, onresolve, Pairing.Resolved(easybase.value));
      }
    }

    /**
     * `_close`, given the release whose call throws, if any: the releases run
     * in order and the first throw ends `_close` there.
     */
    method Close(failing: Option<Pairing.Release>) returns (err: Option<Error>)
      modifies this
      ensures Abs() == Pairing.Closed(old(Abs()), failing)
      ensures err.Some? <==> Pairing.CloseThrows(old(Abs()), failing)
    {
      ghost var s0 := Abs();
      err := None;
      if candidate {
        err := Release(Pairing.CandidateClosed, failing);
        if err.Some? {
          return;
        }
      }
      if swarm {
        err := Release(Pairing.SwarmDestroyed, failing);
        if err.Some? {
          return;
        }
      }
      if store {
        err := Release(Pairing.StoreClosed, failing);
        if err.Some? {
          return;
        }
      }
      if onreject.Some? {
        promises := Pairing.Settle(promises, onreject, Pairing.Rejected(Pairing.PairingClosed));
      } else if easybase.Some? {
        err := Release(Pairing.EasybaseClosed, failing);
      }
      assert err.None? ==> failing.None? || !Pairing.Attempts(s0, failing.value);
    }

    /** One awaited release of `_close`: it completes, unless it is the one that throws. */
    method Release(x: Pairing.Release, failing: Option<Pairing.Release>) returns (err: Option<Error>)
      modifies this
      ensures err.Some? <==> failing == Some(x)
      ensures Abs() == if err.Some? then old(Abs()) else Pairing.Done(old(Abs()), x)
    {
      if failing == Some(x) {
        err := Some(Thrown("release rejected"));
        return;
      }
      released := released + [x];
      err := None;
    }
  }
}
