/**
 * The `Easybase` and `EasybasePairer` objects of build/index.js, the
 * compiled output of an earlier revision, proved against `LegacyReducer`,
 * `Admission` and the same `Pairing` machine as index.ts.
 */
module LegacyEasybase {
  import opened Values
  import opened Views
  import opened Batch
  import opened Admission
  import LegacyReducer
  import Pairing

  class Easybase {
    /** `actions` and whether the view has `flush`; the view is always the default one. */
    const config: LegacyReducer.Config
    const codecs: Codecs
    const key: Bytes
    const encryptionKey: Bytes
    var view: View
    /** The writer set receives `record.key` as the record carried it. */
    var writers: set<Js>
    /** Everything sent to `base.append`, `candidate.open` and `candidate.confirm`, in order. */
    var io: seq<Io>
    ghost var trace: seq<Event>

    function State(): LegacyReducer.State
      reads this
    {
      LegacyReducer.State(view, writers)
    }

    /** The earlier Easybase always opens the default view. */
    ghost predicate Valid()
      reads this
    {
      view.Log?
    }

    constructor(config: LegacyReducer.Config, codecs: Codecs, key: Bytes, encryptionKey: Bytes, entries: seq<Js>, writers: set<Js>)
      ensures this.config == config && this.codecs == codecs && this.key == key && this.encryptionKey == encryptionKey
      ensures view == Log(entries) && this.writers == writers && io == [] && trace == []
      ensures Valid()
    {
      this.config := config;
      this.codecs := codecs;
      this.key := key;
      this.encryptionKey := encryptionKey;
      view := Log(entries);
      this.writers := writers;
      io := [];
      trace := [];
    }

    /** One call on the view: it mutates the view or throws. */
    method Mutate(op: ViewOp) returns (err: Option<Error>)
      requires Valid()
      modifies this
      ensures Valid()
      ensures Step(State(), err) == LegacyReducer.WithView(old(State()), ApplyOp(old(view), op))
      ensures io == old(io) && trace == old(trace)
    {
      match ApplyOp(view, op)
      case Ok(v) =>
        view := v;
        err := None;
      case Err(e) =>
        err := Some(e);
    }

    /** A custom action's calls on the view, awaited one after the other. */
    method RunAction(ops: seq<ViewOp>) returns (err: Option<Error>)
      requires Valid()
      modifies this
      ensures Valid()
      ensures (view, err) == ApplyOps(old(view), ops)
      ensures writers == old(writers) && io == old(io) && trace == old(trace)
    {
      var i := 0;
      while i < |ops|
        invariant 0 <= i <= |ops| && Valid()
        invariant ApplyOps(old(view), ops) == ApplyOps(view, ops[i..])
        invariant writers == old(writers) && io == old(io) && trace == old(trace)
      {
        assert ops[i..][1..] == ops[i + 1..];
        err := Mutate(ops[i]);
        if err.Some? {
          return;
        }
        i := i + 1;
      }
      err := None;
    }

    /** One iteration of the loop of `_apply`. */
    method DispatchNode(value: Js) returns (err: Option<Error>)
      requires Valid()
      modifies this
      ensures Valid()
      ensures Step(State(), err) == LegacyReducer.Dispatch(config, old(State()), value)
      ensures io == old(io) && trace == old(trace)
    {
      if Nullish(value) {
        err := Some(TypeError("cannot destructure the node value"));
        return;
      }
      var t, record := Prop(value, "type"), Prop(value, "record");
      if t == Str("add-invite") {
        err := Mutate(Append(record));
      } else if t == Str("del-invite") {
        err := Mutate(Remove(record));
      } else if t == Str("add-writer") || t == Str("remove-writer") {
        if Nullish(record) {
          err := Some(TypeError("cannot read property 'key' of the record"));
          return;
        }
        if t == Str("add-writer") {
          writers := writers + {Prop(record, "key")};
        } else {
          writers := writers - {Prop(record, "key")};
        }
        err := None;
      } else if t.Str? && t.s in config.actions {
        match config.actions[t.s](value, view)
        case Err(e) =>
          err := Some(e);
        case Ok(ops) =>
          err := RunAction(ops);
      } else if t.Str? && t.s in Inherited {
        err := InheritedCall(t.s, value, config.actions.Keys);
      } else {
        err := Mutate(Append(value));
      }
    }

    /** The `for` loop of `_apply`: dispatch the nodes in order and stop at the first that throws. */
    method RunNodes(nodes: seq<Js>) returns (err: Option<Error>)
      requires Valid()
      modifies this
      ensures var r := Run(LegacyReducer.Stepper(config), LegacyReducer.Router(config), old(State()), nodes);
              State() == r.state && err == r.error && trace == old(trace) + r.trace
      ensures io == old(io)
      ensures Valid()
    {
      ghost var s0 := State();
      ghost var done: seq<Event> := [];
      var i := 0;
      while i < |nodes|
        invariant 0 <= i <= |nodes|
        invariant io == old(io) && Valid() && trace == old(trace) + done
        invariant Run(LegacyReducer.Stepper(config), LegacyReducer.Router(config), s0, nodes[..i]) == Outcome(State(), done, None)
      {
        ghost var before := State();
        err := DispatchNode(nodes[i]);
        assert LegacyReducer.Stepper(config)(before, nodes[i]) == Step(State(), err);
        RunPrefix(LegacyReducer.Stepper(config), LegacyReducer.Router(config), s0, nodes, i, before, done);
        if err.Some? {
          return;
        }
        done := done + [Dispatched(LegacyReducer.Router(config)(nodes[i]))];
        trace := trace + [Dispatched(LegacyReducer.Router(config)(nodes[i]))];
        i := i + 1;
      }
      assert nodes[..i] == nodes;
      err := None;
    }

    /** `_apply`: dispatch the nodes in order, stop at the first that throws, then call `view.flush()`. */
    method Apply(nodes: seq<Js>) returns (err: Option<Error>)
      requires Valid()
      modifies this
      ensures var r := LegacyReducer.Apply(config, old(State()), nodes);
              State() == r.state && err == r.error && trace == old(trace) + r.trace
      ensures io == old(io)
      ensures Valid()
    {
      err := RunNodes(nodes);
      if err.Some? {
        return;
      }
      if config.viewHasFlush {
        trace := trace + [Flushed];
      } else {
        err := Some(TypeError("view.flush is not a function"));
      }
    }

    /** `createInvite`, with the lookup, the clock and the random values as inputs. */
    method CreateInvite(found: Js, now: int, id: Bytes, invite: Bytes, publicKey: Bytes) returns (token: string)
      modifies this
      ensures var p := PlanInvite(found, now, id, invite, publicKey);
              token == codecs.z32Encode(TokenSource(p)) && io == old(io) + Appends(InviteAppends(p))
      ensures State() == old(State()) && trace == old(trace)
    {
      if Truthy(found) {
        token := codecs.z32Encode(Prop(found, "invite"));
        return;
      }
      var record := InviteRecord(id, invite, publicKey, now);
      io := io + [Appended(Operation("add-invite", record))];
      token := codecs.z32Encode(Prop(record, "invite"));
    }

    /** `deleteInvite`: always the result of `findOne`; a `del-invite` only when it found something. */
    method DeleteInvite(found: Js)
      modifies this
      ensures io == old(io) + Appends(DeleteAppends(found))
      ensures State() == old(State()) && trace == old(trace)
    {
      if Truthy(found) {
        io := io + [Appended(Operation("del-invite", found))];
      }
    }

    /** `addWriter`: append an `add-writer` for the key as a Buffer, and answer `true`. */
    method AddWriter(key: Js) returns (r: Result<bool>)
      modifies this
      ensures var req := WriterRequest(codecs, "add-writer", key);
              && (req.Ok? ==> r == Ok(true) && io == old(io) + [Appended(req.value)])
              && (req.Err? ==> r == Err(req.error) && io == old(io))
      ensures State() == old(State()) && trace == old(trace)
    {
      var k: Bytes;
      if key.Buf? {
        k := key.bytes;
      } else if key.Str? {
        k := codecs.utf8(key.s);
      } else {
        r := Err(TypeError("b4a.from: unsupported argument"));
        return;
      }
      io := io + [Appended(WriterOperation("add-writer", k))];
      r := Ok(true);
    }

    /** `removeWriter`: append a `remove-writer` for the key as a Buffer. */
    method RemoveWriter(key: Js) returns (err: Option<Error>)
      modifies this
      ensures var req := WriterRequest(codecs, "remove-writer", key);
              && (req.Ok? ==> err.None? && io == old(io) + [Appended(req.value)])
              && (req.Err? ==> err == Some(req.error) && io == old(io))
      ensures State() == old(State()) && trace == old(trace)
    {
      var k: Bytes;
      if key.Buf? {
        k := key.bytes;
      } else if key.Str? {
        k := codecs.utf8(key.s);
      } else {
        err := Some(TypeError("b4a.from: unsupported argument"));
        return;
      }
      io := io + [Appended(WriterOperation("remove-writer", k))];
      err := None;
    }

    /** The member's `onadd`: open, add the writer, and confirm once the append has returned. */
    method MemberOnAdd(c: Candidate) returns (err: Option<Error>)
      modifies this
      ensures io == old(io) + MemberAdmission(codecs, c, key, encryptionKey)
      ensures err.None? <==> c.userData.Buf? || c.userData.Str?
      ensures State() == old(State()) && trace == old(trace)
    {
      io := io + [CandidateOpened(c.publicKey)];
      var added := AddWriter(c.userData);
      if added.Err? {
        err := Some(added.error);
        return;
      }
      io := io + [Confirmed(key, encryptionKey)];
      err := None;
    }
  }

  /**
   * The earlier candidate side: it builds a default-view Easybase and calls
   * `this.candidate.close()` without a null check.
   */
  class EasybasePairer {
    var store: bool
    var swarm: bool
    var candidate: bool
    var easybase: Option<Pairing.BaseHandle>
    var onresolve: Option<nat>
    var onreject: Option<nat>
    var listeners: nat
    var promises: seq<Pairing.Settlement>
    var released: seq<Pairing.Release>

    function Abs(): Pairing.State
      reads this
    {
      Pairing.State(store, swarm, candidate, easybase, onresolve, onreject, listeners, promises, released)
    }

    constructor()
      ensures Abs() == Pairing.Initial()
    {
      store := true;
      swarm := false;
      candidate := false;
      easybase := None;
      onresolve := None;
      onreject := None;
      listeners := 0;
      promises := [];
      released := [];
    }

    method Open(inviteValid: bool) returns (err: Option<Error>)
      modifies this
      ensures Abs() == Pairing.Opened(old(Abs()), inviteValid)
      ensures err.Some? <==> !inviteValid
    {
      swarm := true;
      if !inviteValid {
        err := Some(Thrown("z32.decode: malformed invite"));
        return;
      }
      candidate := true;
      err := None;
    }

    method Finished() returns (p: nat)
      modifies this
      ensures Abs() == Pairing.Finished(old(Abs()))
      ensures p == |old(promises)| && p < |promises| && promises[p] == Pairing.Pending
    {
      p := |promises|;
      promises := promises + [Pairing.Pending];
      onresolve := Some(p);
      onreject := Some(p);
    }

    /**
     * The candidate's `onadd`. Everything up to the candidate's close happens
     * as in index.ts; with no candidate set, the close throws instead.
     */
    method OnAdd(key: Bytes, encryptionKey: Bytes, writableNow: bool) returns (err: Option<Error>)
      modifies this
      ensures Abs() == Pairing.Admitted(old(Abs()), Default, key, encryptionKey, writableNow)
      ensures err.Some? <==> !old(candidate)
    {
      if easybase.None? {
        easybase := Some(Pairing.BaseHandle(key, encryptionKey, Default));
      }
      swarm := false;
      store := false;
      if onresolve.Some? {
        WhenWritable(writableNow);
      }
      if !candidate {
        err := Some(TypeError("cannot read property 'close' of null"));
        return;
      }
      released := released + [Pairing.CandidateClosed];
      err := None;
    }

    method WhenWritable(writableNow: bool)
      modifies this
      ensures Abs() == Pairing.WhenWritable(old(Abs()), writableNow)
    {
      if writableNow {
        return;
      }
      listeners := listeners + 1;
    }

    method OnUpdate(writable: bool)
      modifies this
      ensures Abs() == Pairing.Updated(old(Abs()), writable)
    {
      if writable && listeners > 0 && easybase.Some? {
        listeners := 0;
        promises := Pairing.Settle(promises, onresolve, Pairing.Resolved(easybase.value));
      }
    }

    /**
     * `_close`, given the release whose call throws, if any: the releases run
     * in order and the first throw ends `_close` there.
     */
    method Close(failing: Option<Pairing.Release>) returns (err: Option<Error>)
      modifies this
      ensures Abs() == Pairing.Closed(old(Abs()), failing)
      ensures err.Some? <==> Pairing.CloseThrows(old(Abs()), failing)
    {
      ghost var s0 := Abs();
      err := None;
      if candidate {
        err := Release(Pairing.CandidateClosed, failing);
        if err.Some? {
          return;
        }
      }
      if swarm {
        err := Release(Pairing.SwarmDestroyed, failing);
        if err.Some? {
          return;
        }
      }
      if store {
        err := Release(Pairing.StoreClosed, failing);
        if err.Some? {
          return;
        }
      }
      if onreject.Some? {
        promises := Pairing.Settle(promises, onreject, Pairing.Rejected(Pairing.PairingClosed));
      } else if easybase.Some? {
        err := Release(Pairing.EasybaseClosed, failing);
      }
      assert err.None? ==> failing.None? || !Pairing.Attempts(s0, failing.value);
    }

    /** One awaited release of `_close`: it completes, unless it is the one that throws. */
    method Release(x: Pairing.Release, failing: Option<Pairing.Release>) returns (err: Option<Error>)
      modifies this
      ensures err.Some? <==> failing == Some(x)
      ensures Abs() == if err.Some? then old(Abs()) else Pairing.Done(old(Abs()), x)
    {
      if failing == Some(x) {
        err := Some(Thrown("release rejected"));
        return;
      }
      released := released + [x];
      err := None;
    }
  }
}
