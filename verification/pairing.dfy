/**
 * The candidate side of pairing (`EasybasePairer`) as a state machine over
 * its nullable fields. Both revisions of the pairer are proved against it;
 * they differ only in the view type of the Easybase they build.
 */
module Pairing {
  import opened Values
  import opened Views

  /** The Easybase `onadd` builds from the member's confirmation. */
  datatype BaseHandle = BaseHandle(key: Bytes, encryptionKey: Bytes, viewType: ViewType)

  /** A promise returned by `finished()`; once settled, later calls to its resolve or reject do nothing. */
  datatype Settlement = Pending | Resolved(base: BaseHandle) | Rejected(reason: string)

  /** The resources the pairer releases, in the order it releases them. */
  datatype Release = CandidateClosed | SwarmDestroyed | StoreClosed | EasybaseClosed

  const PairingClosed: string := "Pairing closed"

  /**
   * The fields of the pairer. `store`, `swarm` and `candidate` say whether
   * the field is non-null; `onresolve` and `onreject` name the promise whose
   * callbacks they hold; `listeners` counts the `update` listeners that
   * `_whenWritable` left subscribed.
   */
  datatype State = State(
    store: bool,
    swarm: bool,
    candidate: bool,
    easybase: Option<BaseHandle>,
    onresolve: Option<nat>,
    onreject: Option<nat>,
    listeners: nat,
    promises: seq<Settlement>,
    released: seq<Release>)

  /** What the events carry. */
  datatype Stimulus =
    | Open(inviteValid: bool)   // whether `z32.decode` accepts the invite string
    | Finish
    | Admit(key: Bytes, encryptionKey: Bytes, writableNow: bool)
    | Update(writable: bool)
    | Close(failing: Option<Release>)   // the release whose call throws, if `_close` gets to it

  /** The constructor: only the store is set. */
  function Initial(): State
  {
    State(true, false, false, None, None, None, 0, [], [])
  }

  /** The callbacks always belong to one promise, and a subscribed listener always has a base and a promise to resolve. */
  ghost predicate Inv(s: State)
  {
    && s.onresolve == s.onreject
    && (s.onresolve.Some? ==> s.onresolve.value < |s.promises|)
    && (s.listeners > 0 ==> s.easybase.Some? && s.onresolve.Some?)
  }

  /** Settle promise `i` with `outcome` unless it is already settled. */
  function Settle(promises: seq<Settlement>, i: Option<nat>, outcome: Settlement): (r: seq<Settlement>)
    ensures |r| == |promises|
    ensures forall j | 0 <= j < |promises| && promises[j] != Pending :: r[j] == promises[j]
  {
    if i.Some? && i.value < |promises| && promises[i.value].Pending? then promises[i.value := outcome] else promises
  }

  /**
   * `_open`: the swarm is created, then the invite is decoded; a malformed
   * invite throws there, before `addCandidate`, so the candidate stays unset.
   * Nothing else changes.
   */
  function Opened(s: State, inviteValid: bool): (r: State)
    ensures r.swarm
    ensures r.candidate <==> s.candidate || inviteValid
    ensures r.(swarm := s.swarm, candidate := s.candidate) == s
  {
    if inviteValid then s.(swarm := true, candidate := true) else s.(swarm := true)
  }

  /**
   * `finished()`: a new pending promise whose callbacks replace whatever
   * `onresolve` and `onreject` held, so no earlier promise can be settled
   * any more; the earlier promises and the resources are untouched.
   */
  function Finished(s: State): (r: State)
    ensures |r.promises| == |s.promises| + 1
    ensures r.promises[..|s.promises|] == s.promises && r.promises[|s.promises|] == Pending
    ensures r.onresolve == r.onreject == Some(|s.promises|)
    ensures r.(promises := s.promises, onresolve := s.onresolve, onreject := s.onreject) == s
  {
    var p := |s.promises|;
    s.(promises := s.promises + [Pending], onresolve := Some(p), onreject := Some(p))
  }

  /**
   * `_whenWritable`: nothing if the base is writable already, otherwise one
   * more `update` listener and nothing else.
   */
  function WhenWritable(s: State, writableNow: bool): (r: State)
    ensures writableNow ==> r == s
    ensures !writableNow ==> r.listeners == s.listeners + 1 && r.(listeners := s.listeners) == s
  {
    if writableNow then s else s.(listeners := s.listeners + 1)
  }

  /**
   * The candidate's `onadd`: build the Easybase if there is none, drop the
   * swarm and the store (the Easybase owns them now), start waiting for
   * writability if `finished()` was called, and close the candidate (when
   * set) without clearing the field.
   */
  function Admitted(s: State, vt: ViewType, key: Bytes, encryptionKey: Bytes, writableNow: bool): (r: State)
    ensures r.easybase == (if s.easybase.None? then Some(BaseHandle(key, encryptionKey, vt)) else s.easybase)
    ensures !r.swarm && !r.store && r.candidate == s.candidate
    ensures r.promises == s.promises && r.onresolve == s.onresolve && r.onreject == s.onreject
    ensures r.listeners == s.listeners + (if s.onresolve.Some? && !writableNow then 1 else 0)
    ensures r.released == s.released + (if s.candidate then [CandidateClosed] else [])
  {
    var base := if s.easybase.None? then Some(BaseHandle(key, encryptionKey, vt)) else s.easybase;
    var s1 := s.(easybase := base, swarm := false, store := false);
    var s2 := if s1.onresolve.Some? then WhenWritable(s1, writableNow) else s1;
    s2.(released := s2.released + (if s2.candidate then [CandidateClosed] else []))
  }

  /**
   * An `update` on the base: every listener sees `writable` and, once it is
   * true, unsubscribes and resolves the current promise with the Easybase.
   * Without a listener, or while not writable, nothing changes.
   */
  function Updated(s: State, writable: bool): (r: State)
    ensures !writable || s.listeners == 0 ==> r == s
    ensures r.(listeners := s.listeners, promises := s.promises) == s
    ensures |r.promises| == |s.promises|
    ensures Inv(s) && writable && s.listeners > 0 ==>
              && r.listeners == 0
              && (s.promises[s.onresolve.value] == Pending ==> r.promises[s.onresolve.value] == Resolved(s.easybase.value))
              && (forall j | 0 <= j < |s.promises| && j != s.onresolve.value :: r.promises[j] == s.promises[j])
  {
    if writable && s.listeners > 0 && s.easybase.Some? then
      s.(listeners := 0, promises := Settle(s.promises, s.onresolve, Resolved(s.easybase.value)))
    else s
  }

  /** Whether `_close` attempts release `x`: the candidate, swarm and store when set, the Easybase when there is no promise to reject. */
  predicate Attempts(s: State, x: Release)
  {
    match x
    case CandidateClosed => s.candidate
    case SwarmDestroyed => s.swarm
    case StoreClosed => s.store
    case EasybaseClosed => s.onreject.None? && s.easybase.Some?
  }

  /**
   * What `_close` releases, in order: the candidate, the swarm and the store
   * when set, then the Easybase when there is no `finished()` promise to
   * reject instead.
   */
  function Releasing(s: State): (rs: seq<Release>)
    ensures forall x :: x in rs <==> Attempts(s, x)
  {
    (if s.candidate then [CandidateClosed] else [])
    + (if s.swarm then [SwarmDestroyed] else [])
    + (if s.store then [StoreClosed] else [])
    + (if s.onreject.None? && s.easybase.Some? then [EasybaseClosed] else [])
  }

  /** Whether `_close` reaches the release that throws. */
  predicate CloseThrows(s: State, failing: Option<Release>)
  {
    failing.Some? && Attempts(s, failing.value)
  }

  /** `s` after release `x` completed. */
  function Done(s: State, x: Release): State
  {
    s.(released := s.released + [x])
  }

  /**
   * `_close`: release the candidate, the swarm and the store when set, then,
   * when `finished()` was ever called, reject its promise with "Pairing
   * closed", otherwise close the Easybase if one was built. The release that
   * throws, if `_close` reaches it, ends `_close` there. Only the releases
   * and that promise change.
   */
  function Closed(s: State, failing: Option<Release>): (r: State)
    ensures s.onreject.None? || CloseThrows(s, failing) ==> r.promises == s.promises
    ensures r.(released := s.released, promises := s.promises) == s
  {
    if s.candidate && failing == Some(CandidateClosed) then s else
    var s1 := if s.candidate then Done(s, CandidateClosed) else s;
    if s1.swarm && failing == Some(SwarmDestroyed) then s1 else
    var s2 := if s1.swarm then Done(s1, SwarmDestroyed) else s1;
    if s2.store && failing == Some(StoreClosed) then s2 else
    var s3 := if s2.store then Done(s2, StoreClosed) else s2;
    if s3.onreject.Some? then s3.(promises := Settle(s3.promises, s3.onreject, Rejected(PairingClosed)))
    else if s3.easybase.Some? then (if failing == Some(EasybaseClosed) then s3 else Done(s3, EasybaseClosed))
    else s3
  }

  function Next(s: State, e: Stimulus, vt: ViewType): State
  {
    match e
    case Open(inviteValid) => Opened(s, inviteValid)
    case Finish => Finished(s)
    case Admit(key, encryptionKey, writableNow) => Admitted(s, vt, key, encryptionKey, writableNow)
    case Update(writable) => Updated(s, writable)
    case Close(failing) => Closed(s, failing)
  }

  /**
   * The events in order. Any sequence is accepted, including ones the
   * lifecycle of the pairer would not deliver (an event after `Close`, a
   * second `Open`): the facts below hold for all of them.
   */
  function Replay(s: State, events: seq<Stimulus>, vt: ViewType): State
    decreases |events|
  {
    if events == [] then s else Replay(Next(s, events[0], vt), events[1..], vt)
  }
}

/** The behaviour of the candidate side, quirks included. */
module PairingFacts {
  import opened Values
  import opened Views
  import opened Pairing

  /** Every event keeps the invariant. */
  lemma NextKeepsInv(s: State, e: Stimulus, vt: ViewType)
    requires Inv(s)
    ensures Inv(Next(s, e, vt))
  {
  }

  lemma {:induction false} ReplayKeepsInv(s: State, events: seq<Stimulus>, vt: ViewType)
    requires Inv(s)
    ensures Inv(Replay(s, events, vt))
    decreases |events|
  {
    if events != [] {
      NextKeepsInv(s, events[0], vt);
      ReplayKeepsInv(Next(s, events[0], vt), events[1..], vt);
    }
  }

  /** One event never drops a promise, never changes a settled one and only adds releases. */
  lemma NextKeepsSettled(s: State, e: Stimulus, vt: ViewType, i: nat)
    requires i < |s.promises| && s.promises[i] != Pending
    ensures var t := Next(s, e, vt);
            && i < |t.promises| && t.promises[i] == s.promises[i]
            && s.released <= t.released
  {
  }

  /**
   * A settled promise stays settled with the same outcome, whatever happens
   * next: in particular the reject that `_close` calls after resolution does
   * nothing. Releases are only ever added.
   */
  lemma {:induction false} SettledIsFinal(s: State, events: seq<Stimulus>, vt: ViewType, i: nat)
    requires i < |s.promises| && s.promises[i] != Pending
    ensures var t := Replay(s, events, vt);
            && i < |t.promises| && t.promises[i] == s.promises[i]
            && s.released <= t.released
    decreases |events|
  {
    if events != [] {
      var n := Next(s, events[0], vt);
      NextKeepsSettled(s, events[0], vt, i);
      SettledIsFinal(n, events[1..], vt, i);
    }
  }

  /**
   * Admission before `finished()` never starts the wait: the later
   * `finished()` promise is not resolved by any number of updates.
   */
  lemma {:induction false} FinishedTooLateNeverResolves(s: State, vt: ViewType, key: Bytes, encryptionKey: Bytes,
                                                        writableNow: bool, updates: seq<bool>)
    requires Inv(s) && s.onresolve.None?
    ensures var t := Finished(Admitted(s, vt, key, encryptionKey, writableNow));
            var p := |s.promises|;
            var r := Replay(t, UpdateEvents(updates), vt);
            p < |r.promises| && r.promises[p] == Pending
  {
    var t := Finished(Admitted(s, vt, key, encryptionKey, writableNow));
    assert t.listeners == 0;
    UpdatesWithoutListeners(t, updates, vt);
  }

  /** `update` events, one per flag. */
  function UpdateEvents(updates: seq<bool>): (es: seq<Stimulus>)
    ensures |es| == |updates|
    ensures forall i | 0 <= i < |es| :: es[i] == Update(updates[i])
  {
    if updates == [] then [] else [Update(updates[0])] + UpdateEvents(updates[1..])
  }

  /** With no listener subscribed, `update` events change nothing. */
  lemma {:induction false} UpdatesWithoutListeners(s: State, updates: seq<bool>, vt: ViewType)
    requires s.listeners == 0
    ensures Replay(s, UpdateEvents(updates), vt) == s
    decreases |updates|
  {
    if updates != [] {
      assert UpdateEvents(updates)[1..] == UpdateEvents(updates[1..]);
      UpdatesWithoutListeners(s, updates[1..], vt);
    }
  }

  /**
   * `_whenWritable` returns without subscribing when the base is already
   * writable at admission, so the pending `finished()` promise is never
   * resolved by any later updates.
   */
  lemma {:induction false} WritableAtAdmissionNeverResolves(s: State, vt: ViewType, key: Bytes, encryptionKey: Bytes, updates: seq<bool>)
    requires Inv(s) && s.listeners == 0 && s.onresolve.Some?
    requires s.promises[s.onresolve.value] == Pending
    ensures var t := Admitted(s, vt, key, encryptionKey, true);
            var r := Replay(t, UpdateEvents(updates), vt);
            s.onresolve.value < |r.promises| && r.promises[s.onresolve.value] == Pending
  {
    UpdatesWithoutListeners(Admitted(s, vt, key, encryptionKey, true), updates, vt);
  }

  /**
   * Updates with `writable` false leave everything as it is; the first one
   * with `writable` true resolves the pending promise with the Easybase and
   * unsubscribes every listener.
   */
  lemma {:induction false} FirstWritableUpdateResolves(s: State, vt: ViewType, notYet: nat)
    requires Inv(s) && s.listeners > 0
    requires s.promises[s.onresolve.value] == Pending
    ensures var falses := seq(notYet, _ => false);
            var t := Replay(s, UpdateEvents(falses + [true]), vt);
            && Replay(s, UpdateEvents(falses), vt) == s
            && t.listeners == 0
            && s.onresolve.value < |t.promises|
            && t.promises[s.onresolve.value] == Resolved(s.easybase.value)
            && t.easybase == s.easybase && t.released == s.released
    decreases notYet
  {
    var falses := seq(notYet, _ => false);
    if notYet == 0 {
      assert falses + [true] == [true];
      assert UpdateEvents([true])[1..] == [];
    } else {
      var rest := seq(notYet - 1, _ => false);
      assert falses[1..] == rest;
      assert (falses + [true])[1..] == rest + [true];
      assert UpdateEvents(falses)[1..] == UpdateEvents(rest);
      assert UpdateEvents(falses + [true])[1..] == UpdateEvents(rest + [true]);
      FirstWritableUpdateResolves(s, vt, notYet - 1);
    }
  }

  /** The whole happy path: open, `finished()`, admission while not yet writable, then a writable update. */
  lemma HappyPath(vt: ViewType, key: Bytes, encryptionKey: Bytes)
    ensures var t := Replay(Initial(), [Open(true), Finish, Admit(key, encryptionKey, false), Update(true)], vt);
            && t.promises == [Resolved(BaseHandle(key, encryptionKey, vt))]
            && t.released == [CandidateClosed]
            && !t.swarm && !t.store && t.candidate
  {
    var base := BaseHandle(key, encryptionKey, vt);
    var s0 := Initial();
    var s1 := State(true, true, true, None, None, None, 0, [], []);
    var s2 := State(true, true, true, None, Some(0), Some(0), 0, [Pending], []);
    var s3 := State(false, false, true, Some(base), Some(0), Some(0), 1, [Pending], [CandidateClosed]);
    var s4 := State(false, false, true, Some(base), Some(0), Some(0), 0, [Resolved(base)], [CandidateClosed]);
    assert Next(s0, Open(true), vt) == s1;
    assert Next(s1, Finish, vt) == s2;
    assert Next(s2, Admit(key, encryptionKey, false), vt) == s3;
    assert Next(s3, Update(true), vt) == s4;
    assert Replay(s4, [], vt) == s4;
    assert Replay(s3, [Update(true)], vt) == s4;
    assert Replay(s2, [Admit(key, encryptionKey, false), Update(true)], vt) == s4;
    assert Replay(s1, [Finish, Admit(key, encryptionKey, false), Update(true)], vt) == s4;
  }

  /**
   * A malformed invite leaves the pairer with a swarm but no candidate: no
   * member can ever admit it, and closing it destroys the swarm and closes
   * the store, with no candidate to close.
   */
  lemma MalformedInvite(vt: ViewType)
    ensures var t := Replay(Initial(), [Open(false), Finish], vt);
            && t.swarm && !t.candidate && t.promises == [Pending]
            && Closed(t, None).released == [SwarmDestroyed, StoreClosed]
            && Closed(t, None).promises == [Rejected(PairingClosed)]
  {
    var s1 := State(true, true, false, None, None, None, 0, [], []);
    var s2 := State(true, true, false, None, Some(0), Some(0), 0, [Pending], []);
    assert Next(Initial(), Open(false), vt) == s1;
    assert Next(s1, Finish, vt) == s2;
    assert Replay(s2, [], vt) == s2;
    assert Replay(s1, [Finish], vt) == s2;
  }

  /**
   * `_close` releases exactly the candidate, swarm and store that are still
   * set. After `finished()` it rejects with "Pairing closed" (a no-op on a
   * promise already resolved) and never closes the Easybase; without
   * `finished()` it closes the Easybase if one was built. When one of those
   * calls throws, the releases before it are done, nothing after it is
   * attempted, the promise is not rejected and the Easybase is not closed.
   */
  lemma CloseReleases(s: State, failing: Option<Release>)
    requires Inv(s)
    ensures var t := Closed(s, failing);
            var resources := (if s.candidate then [CandidateClosed] else [])
                           + (if s.swarm then [SwarmDestroyed] else [])
                           + (if s.store then [StoreClosed] else []);
            && (!CloseThrows(s, failing) && s.onreject.Some? ==>
                  && t.released == s.released + resources
                  && t.promises[s.onreject.value] ==
                       (if s.promises[s.onreject.value] == Pending then Rejected(PairingClosed) else s.promises[s.onreject.value]))
            && (!CloseThrows(s, failing) && s.onreject.None? ==>
                  && t.promises == s.promises
                  && t.released == s.released + resources + (if s.easybase.Some? then [EasybaseClosed] else []))
            && (CloseThrows(s, failing) ==>
                  var done := t.released[|s.released|..];
                  && s.released <= t.released
                  && done < Releasing(s) && Releasing(s)[|done|] == failing.value
                  && EasybaseClosed !in done
                  && t.promises == s.promises)
  {
    if CloseThrows(s, failing) {
      CloseStopsAtThrow(s, failing);
    } else {
      CloseCompletes(s, failing);
      var resources := (if s.candidate then [CandidateClosed] else [])
                     + (if s.swarm then [SwarmDestroyed] else [])
                     + (if s.store then [StoreClosed] else []);
      if s.onreject.Some? {
        assert Releasing(s) == resources + [];
      }
    }
  }

  /** Without a throw, `_close` completes every release `Releasing` lists. */
  lemma CloseCompletes(s: State, failing: Option<Release>)
    requires !CloseThrows(s, failing)
    ensures Closed(s, failing).released == s.released + Releasing(s)
    ensures s.onreject.Some? ==> Closed(s, failing).promises == Settle(s.promises, s.onreject, Rejected(PairingClosed))
  {
    var c := if s.candidate then [CandidateClosed] else [];
    var w := if s.swarm then [SwarmDestroyed] else [];
    var st := if s.store then [StoreClosed] else [];
    var e := if s.onreject.None? && s.easybase.Some? then [EasybaseClosed] else [];
    var s1 := if s.candidate then Done(s, CandidateClosed) else s;
    var s2 := if s1.swarm then Done(s1, SwarmDestroyed) else s1;
    var s3 := if s2.store then Done(s2, StoreClosed) else s2;
    assert s1.released == s.released + c;
    assert s2.released == s1.released + w;
    assert s3.released == s2.released + st;
    assert Closed(s, failing).released == s3.released + e;
    Appends(s.released, c, w, st, e);
  }

  /** Regrouping the releases of `_close`. */
  lemma Appends(r: seq<Release>, c: seq<Release>, w: seq<Release>, st: seq<Release>, e: seq<Release>)
    ensures r + c + w + st + e == r + (c + w + st + e)
  {
  }

  /**
   * A throw ends `_close` with the releases before the throwing one, in
   * order; the Easybase is not closed and no promise changes.
   */
  lemma CloseStopsAtThrow(s: State, failing: Option<Release>)
    requires CloseThrows(s, failing)
    ensures var t := Closed(s, failing);
            var done := t.released[|s.released|..];
            && s.released <= t.released
            && done < Releasing(s) && Releasing(s)[|done|] == failing.value
            && EasybaseClosed !in done
            && t.promises == s.promises
  {
    var c := if s.candidate then [CandidateClosed] else [];
    var w := if s.swarm then [SwarmDestroyed] else [];
    var st := if s.store then [StoreClosed] else [];
    var e := if s.onreject.None? && s.easybase.Some? then [EasybaseClosed] else [];
    assert Releasing(s) == c + w + st + e;
    match failing.value
    case CandidateClosed =>
      assert Releasing(s) == [] + [CandidateClosed] + (w + st + e);
      StopsAt(s, failing, [], w + st + e);
    case SwarmDestroyed =>
      ThrowsAtSwarm(s);
      assert Releasing(s) == c + [SwarmDestroyed] + (st + e);
      StopsAt(s, failing, c, st + e);
    case StoreClosed =>
      ThrowsAtStore(s);
      assert Releasing(s) == (c + w) + [StoreClosed] + e;
      StopsAt(s, failing, c + w, e);
    case EasybaseClosed =>
      ThrowsAtEasybase(s);
      StopsAt(s, failing, c + w + st, []);
  }

  /** Where a throw from the swarm, the store or the Easybase leaves `_close`'s releases. */
  lemma ThrowsAtSwarm(s: State)
    requires s.swarm
    ensures Closed(s, Some(SwarmDestroyed)).released == s.released + (if s.candidate then [CandidateClosed] else [])
  {
  }

  lemma ThrowsAtStore(s: State)
    requires s.store
    ensures Closed(s, Some(StoreClosed)).released ==
              s.released + ((if s.candidate then [CandidateClosed] else []) + (if s.swarm then [SwarmDestroyed] else []))
  {
  }

  lemma ThrowsAtEasybase(s: State)
    requires s.onreject.None? && s.easybase.Some?
    ensures Closed(s, Some(EasybaseClosed)).released ==
              s.released + ((if s.candidate then [CandidateClosed] else []) + (if s.swarm then [SwarmDestroyed] else [])
                            + (if s.store then [StoreClosed] else []))
  {
  }

  /** `_close` stopped after `pre`, the releases before the throwing one. */
  lemma StopsAt(s: State, failing: Option<Release>, pre: seq<Release>, rest: seq<Release>)
    requires CloseThrows(s, failing)
    requires Closed(s, failing).released == s.released + pre
    requires Releasing(s) == pre + [failing.value] + rest
    requires EasybaseClosed !in pre
    ensures var t := Closed(s, failing);
            var done := t.released[|s.released|..];
            && s.released <= t.released
            && done < Releasing(s) && Releasing(s)[|done|] == failing.value
            && EasybaseClosed !in done
            && t.promises == s.promises
  {
    assert (s.released + pre)[|s.released|..] == pre;
  }

  /**
   * Closing after a successful pairing leaves the promise resolved and does
   * not close the Easybase handed to the caller; closing after admission
   * but before writability rejects, unless a release throws first, and
   * leaves the built Easybase open.
   */
  lemma CloseAfterAdmission(s: State, failing: Option<Release>)
    requires Inv(s) && s.onreject.Some? && s.easybase.Some?
    ensures EasybaseClosed !in Closed(s, failing).released[|s.released|..]
    ensures s.promises[s.onreject.value].Resolved? ==> Closed(s, failing).promises == s.promises
    ensures s.promises[s.onreject.value].Pending? ==>
              Closed(s, failing).promises[s.onreject.value] == (if CloseThrows(s, failing) then Pending else Rejected(PairingClosed))
  {
    var c := if s.candidate then [CandidateClosed] else [];
    var w := if s.swarm then [SwarmDestroyed] else [];
    var st := if s.store then [StoreClosed] else [];
    var t := Closed(s, failing);
    assert t.released[|s.released|..] <= c + w + st by {
      CloseReleases(s, failing);
    }
  }
}
