/**
 * What `createInvite`, `deleteInvite`, `addWriter`, `removeWriter` and the
 * member's `onadd` callback decide to append to the log, given what they
 * read. The lookups, the clock and the random bytes are inputs.
 */
module Admission {
  import opened Values
  import opened Views
  import Reducer
  import LegacyReducer

  /** `24 * 60 * 60 * 1000`: an invite record expires a day after it is made. */
  const InviteLifetime: int := 24 * 60 * 60 * 1000

  /** `inviteData`: three fresh 32-byte values and the expiry time. */
  function InviteRecord(id: Bytes, invite: Bytes, publicKey: Bytes, now: int): (r: Js)
    ensures Truthy(r)
    ensures Prop(r, "id") == Buf(id) && Prop(r, "invite") == Buf(invite) && Prop(r, "publicKey") == Buf(publicKey)
    ensures Prop(r, "expires") == Num(now + 86_400_000)
  {
    Obj(map["id" := Buf(id), "invite" := Buf(invite), "publicKey" := Buf(publicKey), "expires" := Num(now + InviteLifetime)])
  }

  /** What `createInvite` does: hand back the invite it found, or publish a new one. */
  datatype InvitePlan = Reuse(existing: Js) | Publish(record: Js)

  /** `createInvite` with `found` the result of `findOne` (on either view type). */
  function PlanInvite(found: Js, now: int, id: Bytes, invite: Bytes, publicKey: Bytes): (p: InvitePlan)
    ensures p.Reuse? <==> Truthy(found)
    ensures p.Reuse? ==> p.existing == found
    ensures p.Publish? ==> p.record == InviteRecord(id, invite, publicKey, now)
  {
    if Truthy(found) then Reuse(found) else Publish(InviteRecord(id, invite, publicKey, now))
  }

  /** The value `createInvite` encodes as the token: the `invite` field of the record reused or published. */
  function TokenSource(p: InvitePlan): Js
  {
    match p
    case Reuse(existing) => Prop(existing, "invite")
    case Publish(record) => Prop(record, "invite")
  }

  /** What `createInvite` appends to the log: nothing, or one `add-invite`. */
  function InviteAppends(p: InvitePlan): (ops: seq<Js>)
    ensures p.Reuse? <==> ops == []
    ensures p.Publish? ==> ops == [Operation("add-invite", p.record)]
  {
    match p
    case Reuse(_) => []
    case Publish(record) => [Operation("add-invite", record)]
  }

  /**
   * `existing` in `deleteInvite` of index.ts: the Hyperdrive view reads and
   * parses `invite.json` when present (a file read back is a Buffer, never
   * falsy), the default view takes the result of `findOne`. A file that is
   * not JSON makes `deleteInvite` throw.
   */
  function InviteToDelete(vt: ViewType, view: View, found: Js, codecs: Codecs): (r: Result<Js>)
    ensures vt == Default ==> r == Ok(found)
    ensures vt == Hyperdrive && view.Log? ==> r.Err?
    ensures vt == Hyperdrive && view.Drive? && Reducer.InvitePath !in view.files ==> r == Ok(Undefined)
    ensures vt == Hyperdrive && view.Drive? && Reducer.InvitePath in view.files ==>
              var data := view.files[Reducer.InvitePath];
              && (r.Ok? <==> codecs.parseJson(data).Some?)
              && (r.Ok? ==> r.value == codecs.parseJson(data).value)
              && (r.Err? ==> r.error.SyntaxError?)
  {
    if vt == Hyperdrive then
      match Get(view, Reducer.InvitePath)
      case Err(e) => Err(e)
      case Ok(None) => Ok(Undefined)
      case Ok(Some(data)) => ParseJson(codecs, data)
    else Ok(found)
  }

  /** What `deleteInvite` appends: one `del-invite` carrying the record found, only if one was found. */
  function DeleteAppends(existing: Js): (ops: seq<Js>)
    ensures |ops| <= 1
    ensures ops != [] <==> Truthy(existing)
    ensures ops != [] ==> ops[0] == Operation("del-invite", existing)
  {
    if Truthy(existing) then [Operation("del-invite", existing)] else []
  }

  /** What the object that owns the log sends out, in order. */
  datatype Io =
    | Appended(op: Js)                              // base.append(op)
    | CandidateOpened(publicKey: Js)                // candidate.open(publicKey)
    | Confirmed(key: Bytes, encryptionKey: Bytes)   // candidate.confirm({ key, encryptionKey })

  /** The log appends, as sent out. */
  function Appends(ops: seq<Js>): (io: seq<Io>)
    ensures |io| == |ops|
    ensures forall i | 0 <= i < |ops| :: io[i] == Appended(ops[i])
  {
    seq(|ops|, i requires 0 <= i < |ops| => Appended(ops[i]))
  }

  /** What the pairing library hands the member's `onadd`. */
  datatype Candidate = Candidate(publicKey: Js, userData: Js)

  /** `addWriter(key)` and `removeWriter(key)`: the operation appended, once `key` is turned into a Buffer. */
  function WriterRequest(codecs: Codecs, kind: string, key: Js): (r: Result<Js>)
    ensures r.Ok? <==> key.Buf? || key.Str?
    ensures key.Buf? ==> r == Ok(WriterOperation(kind, key.bytes))
    ensures key.Str? ==> r == Ok(WriterOperation(kind, codecs.utf8(key.s)))
  {
    match ToBuffer(codecs, key)
    case Ok(k) => Ok(WriterOperation(kind, k))
    case Err(e) => Err(e)
  }

  /**
   * The member's `onadd`: open the candidate, append `add-writer` for its
   * user data, and only once that append returned, confirm with the log's
   * key and encryption key. A user data `addWriter` refuses stops it after
   * the open.
   */
  function MemberAdmission(codecs: Codecs, c: Candidate, key: Bytes, encryptionKey: Bytes): (io: seq<Io>)
    ensures |io| == 3 || |io| == 1
    ensures io[0] == CandidateOpened(c.publicKey)
    ensures |io| == 3 <==> c.userData.Buf? || c.userData.Str?
    ensures |io| == 3 ==> io[1] == Appended(WriterRequest(codecs, "add-writer", c.userData).value)
                          && io[2] == Confirmed(key, encryptionKey)
  {
    match WriterRequest(codecs, "add-writer", c.userData)
    case Ok(op) => [CandidateOpened(c.publicKey), Appended(op), Confirmed(key, encryptionKey)]
    case Err(_) => [CandidateOpened(c.publicKey)]
  }
}

/** How the requests above play out once the log delivers them to the reducers. */
module AdmissionFacts {
  import opened Values
  import opened Views
  import opened Batch
  import opened Admission
  import Reducer
  import LegacyReducer

  /**
   * Calling `createInvite` again, once the lookup returns what the first call
   * reused or published, yields the same token and appends nothing, whatever
   * the clock and the random bytes say the second time.
   */
  lemma RepeatCreateInvite(found: Js, now: int, id: Bytes, invite: Bytes, publicKey: Bytes,
                           now2: int, id2: Bytes, invite2: Bytes, publicKey2: Bytes)
    ensures var first := PlanInvite(found, now, id, invite, publicKey);
            var inView := match first case Reuse(e) => e case Publish(r) => r;
            var second := PlanInvite(inView, now2, id2, invite2, publicKey2);
            && second == Reuse(inView)
            && TokenSource(second) == TokenSource(first)
            && InviteAppends(second) == []
  {
  }

  /** A published invite's token is the `invite` bytes drawn for it, and its record expires a day later. */
  lemma PublishedInvite(now: int, id: Bytes, invite: Bytes, publicKey: Bytes)
    ensures var p := PlanInvite(Undefined, now, id, invite, publicKey);
            && TokenSource(p) == Buf(invite)
            && |InviteAppends(p)| == 1
            && Prop(Prop(InviteAppends(p)[0], "record"), "expires") == Num(now + InviteLifetime)
  {
  }

  /**
   * `createInvite` looks only at `findOne`, even on the Hyperdrive view where
   * `deleteInvite` reads `invite.json`: with the file present and the lookup
   * empty, one call publishes a fresh invite while the other deletes the file.
   */
  lemma HyperdriveLookupAsymmetry(files: map<string, Js>, codecs: Codecs, now: int, id: Bytes, invite: Bytes, publicKey: Bytes)
    requires Reducer.InvitePath in files
    requires codecs.parseJson(files[Reducer.InvitePath]).Some?
    requires Truthy(codecs.parseJson(files[Reducer.InvitePath]).value)
    ensures PlanInvite(Undefined, now, id, invite, publicKey).Publish?
    ensures var existing := InviteToDelete(Hyperdrive, Drive(files), Undefined, codecs);
            existing.Ok? && |DeleteAppends(existing.value)| == 1
  {
  }

  /**
   * On the Hyperdrive view the `del-invite` that `deleteInvite` appends, once
   * applied, removes `invite.json` and nothing else; with no file, nothing
   * is appended; a file that is not JSON makes the call throw before it
   * appends anything.
   */
  lemma DeleteInviteRemovesFile(cfg: Reducer.Config, files: map<string, Js>, writers: set<Bytes>)
    requires cfg.viewType == Hyperdrive
    ensures var existing := InviteToDelete(Hyperdrive, Drive(files), Undefined, cfg.codecs);
            && (Reducer.InvitePath !in files ==> existing == Ok(Undefined) && DeleteAppends(existing.value) == [])
            && (existing.Err? ==>
                  && Reducer.InvitePath in files
                  && cfg.codecs.parseJson(files[Reducer.InvitePath]).None?)
            && (existing.Ok? && DeleteAppends(existing.value) != [] ==>
                  Reducer.Dispatch(cfg, Reducer.State(Drive(files), writers), DeleteAppends(existing.value)[0])
                    == Step(Reducer.State(Drive(files - {Reducer.InvitePath}), writers), None))
  {
  }

  /**
   * On the default view `deleteInvite` appends a `del-invite` whenever the
   * lookup finds a record, and the reducer of index.ts throws on every such
   * operation, so the batch holding it never reaches its flush.
   */
  lemma DefaultViewDeleteInviteIsRefused(cfg: Reducer.Config, s: Reducer.State, found: Js)
    requires cfg.viewType == Default && Truthy(found)
    ensures var ops := DeleteAppends(InviteToDelete(Default, s.view, found, cfg.codecs).value);
            && |ops| == 1
            && Reducer.Dispatch(cfg, s, ops[0]) == Step(s, Some(Thrown(Reducer.NoDeleteOnDefault)))
  {
  }

  /** The earlier revision deletes the record `findOne` returned: applied, no copy of it is left. */
  lemma LegacyDeleteInviteRemovesRecord(cfg: LegacyReducer.Config, entries: seq<Js>, writers: set<Js>, found: Js)
    requires Truthy(found)
    ensures var ops := DeleteAppends(found);
            var r := LegacyReducer.Dispatch(cfg, LegacyReducer.State(Log(entries), writers), ops[0]);
            && |ops| == 1
            && r.error.None?
            && r.state.view == Log(Without(entries, found))
            && found !in r.state.view.entries
  {
  }

  /**
   * A candidate whose user data is a Buffer is admitted: the `add-writer` the
   * member appends makes that key a writer under either reducer.
   */
  lemma AdmittedCandidateBecomesWriter(codecs: Codecs, c: Candidate, key: Bytes, encryptionKey: Bytes,
                                       cfg: Reducer.Config, s: Reducer.State,
                                       oldCfg: LegacyReducer.Config, ls: LegacyReducer.State)
    requires c.userData.Buf?
    ensures var io := MemberAdmission(codecs, c, key, encryptionKey);
            && |io| == 3 && io[1].Appended?
            && Reducer.Dispatch(cfg, s, io[1].op) == Step(s.(writers := s.writers + {c.userData.bytes}), None)
            && LegacyReducer.Dispatch(oldCfg, ls, io[1].op) == Step(ls.(writers := ls.writers + {c.userData}), None)
  {
  }

  /**
   * `addWriter` turns a string key into its UTF-8 bytes, and the reducer of
   * index.ts admits those bytes as they are: a hex string handed to
   * `addWriter` is not hex-decoded on the way.
   */
  lemma StringKeyIsNotHexDecoded(cfg: Reducer.Config, s: Reducer.State, hex: string)
    ensures var req := WriterRequest(cfg.codecs, "add-writer", Str(hex));
            && req.Ok?
            && Reducer.Dispatch(cfg, s, req.value) == Step(s.(writers := s.writers + {cfg.codecs.utf8(hex)}), None)
  {
  }

  /**
   * Two candidates holding the same invite are each admitted: nothing in the
   * member's callback consumes the invite.
   */
  lemma InviteIsNotSingleUse(codecs: Codecs, first: Candidate, second: Candidate, key: Bytes, encryptionKey: Bytes)
    requires first.userData.Buf? && second.userData.Buf?
    ensures var io := MemberAdmission(codecs, first, key, encryptionKey) + MemberAdmission(codecs, second, key, encryptionKey);
            && io[1] == Appended(WriterOperation("add-writer", first.userData.bytes))
            && io[4] == Appended(WriterOperation("add-writer", second.userData.bytes))
            && io[2] == io[5] == Confirmed(key, encryptionKey)
  {
  }
}
