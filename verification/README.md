# Easybase core in Dafny

Easybase wraps an Autobase multi-writer log. Peers append operations
`{ type, record }` to the log. Autobase hands every peer the same ordered
batches of nodes, and `Easybase._apply` folds each batch into a view and
the log's writer set. The view is either an append-only core (the default
view) or a Hyperdrive (path → content). Four operation types are built in:
`add-invite`, `del-invite`, `add-writer` and `remove-writer`. On the
Hyperdrive view a record carrying a blob is stored first-write-wins. Any
other type goes to a registered custom action, or is appended to the view.

Around the reducer sit the methods that decide what to append:
`createInvite`, `deleteInvite`, `addWriter`, `removeWriter`, and the
member's admission callback. On the other side, `EasybasePairer` lets a
new device join with an invite: it waits for the member's confirmation,
builds its own `Easybase`, and resolves `finished()` once that base is
writable.

Two revisions are modelled. index.ts is the current source.
build/index.js is compiled output of an earlier revision. Its reducer
differs in four ways:
- `del-invite` calls `view.del(record)`;
- there is no blob branch;
- writer keys are not hex-decoded;
- `view.flush()` is called unconditionally.

Layout:
- `values.dfy`: JavaScript values (`Js`), truthiness, property reads, and the opaque codecs.
- `views.dfy`: the two views, the calls a view accepts, and the dispatch routes.
- `batch.dfy`: the `for (const node of nodes)` loop both reducers share, as a fold (`Batch.Run`), with its ordering lemmas.
- `reducer.dfy` and `reducer_facts.dfy`: `_apply` of index.ts and what it guarantees.
- `legacy_reducer.dfy`: `_apply` of build/index.js, and how the two reducers relate.
- `admission.dfy`: what the invite, writer and member-admission methods append.
- `pairing.dfy`: the candidate-side pairer as a state machine, with its quirks as lemmas.
- `easybase.dfy` and `legacy_easybase.dfy`: the `Easybase` and `EasybasePairer` classes of each revision. Their fields are updated in place by methods proved against the functions above.
- `sample_actions.dfy`: the `upload-file` action of example-hyperdrive.ts, as a custom-action instance.

Points where the natural reading of the system's behaviour and its code part ways; the model follows the code:
- **Closing a pairer after it resolved.** One would expect this to close the constructed Easybase. In the code, once `finished()` has been called, `_close` calls `onreject` unless a release throws first, and never closes the Easybase. The reject is a no-op on a settled promise (`PairingFacts.CloseAfterAdmission`).
- **Blob records.** A first-write-wins upload is naturally pictured with `filename` and `blob` at the top level of the operation. The code reads `record.blob` and `record.filename`. A top-level blob therefore falls through to the action or append path (`ReducerFacts.FallbackAppends`).
- **`deleteInvite` on the default view.** It appends a `del-invite` whenever `findOne` finds a record, and the index.ts reducer throws on every such node (`AdmissionFacts.DefaultViewDeleteInviteIsRefused`, `ReducerFacts.DefaultViewDelInviteAborts`).
- **`actions[type]` is a plain property read.** A type such as `toString` or `constructor` finds the function every object inherits, so such a node is handed to that function instead of being appended; `__proto__` finds an object and throws (`ReducerFacts.InheritedTypeIsNotAppended`).

## Model

| member | source | states |
|---|---|---|
| Values.Serialize | index.ts:244 | `Buffer.from(JSON.stringify(record))` succeeds exactly when the record is not `undefined`, giving its JSON text; `undefined` has no JSON text and the call throws. |
| Values.ParseJson | index.ts:378 | `JSON.parse` succeeds exactly when the content is JSON text, giving the parsed value; otherwise it throws a `SyntaxError`. |
| Values.ToBuffer | index.ts:393 | A Buffer key is kept byte for byte, a string key becomes its UTF-8 bytes (not hex-decoded), and anything else is refused. |
| Values.Operation | index.ts:367 | The appended object carries the given `type` and `record`. |
| Values.WriterOperation | index.ts:390-395 | A writer operation carries its kind and `record.key` as a Buffer. |
| Views.Without | build/index.js:152 | Removing a record from the log leaves no entry equal to it, keeps every other entry with its multiplicity, and shortens the log by the number of copies removed. |
| Views.WithoutOne | build/index.js:152 | A single entry is dropped exactly when it equals the record. |
| Views.WithoutSplits | build/index.js:152 | Removal works entry by entry over any split of the log, so the surviving entries keep their order. |
| Views.ApplyOp | index.ts:245-247 | A view call succeeds exactly when the view has that method (append on the core, put/del on the drive), and keeps the view's kind. |
| Views.ApplyOps | index.ts:292 | The calls an action makes keep the view's kind. |
| Views.Get | index.ts:281 | `view.get` works only on the Hyperdrive view, finds content exactly when the path is present, and returns the content stored there. |
| Views.InheritedCall | index.ts:291-292 | Calling the member every object inherits under a type name throws a `TypeError` exactly for `__proto__` (not a function), the two accessor definers (given no function), the four members that turn the node value into a property key when that value has its own `toString` field, and `toLocaleString` when an action named `toString` is registered (it calls that action with no arguments); `valueOf` with an action named `then` registered never settles, since the awaited `actions` is then a thenable whose `then` calls neither callback; every other call returns normally. |
| Batch.Routes | index.ts:261-263 | One dispatch event per node, in array order. |
| Batch.Run | index.ts:261-299 | The loop records at most one event per node, records one for every node exactly when no node threw, and never records a flush. |
| Batch.RunSnoc | index.ts:261-299 | Running one more node extends a batch that has not thrown by exactly that node's step. |
| Batch.RunStops | index.ts:261-299 | Once a node throws, no later node is dispatched. |
| Batch.RunPrefix | index.ts:261-299 | After the first `i` nodes ran without throwing, a throwing node `i` ends the whole batch there, and any other step extends the prefix by that node's event. |
| Batch.RunTrace | index.ts:261-299 | The trace is the route of each node of a prefix of the batch: the whole batch when nothing threw, a strict prefix otherwise. |
| Reducer.IsHyperdrive | index.ts:237-239 | The guard tests the configured view type and never the view: it is right on the view `_openView` built and wrong on any other. |
| Reducer.AddInvite | index.ts:241-249 | On the Hyperdrive view `invite.json` receives the serialized record and no other path changes; a missing record throws a `TypeError`. On the default view the record is appended and the earlier entries kept. Each fails exactly on the other kind of view. |
| Reducer.DelInvite | index.ts:251-258 | The default view throws "Cannot delete invite from default view". The Hyperdrive view loses `invite.json` and nothing else, and fails exactly on a core. |
| Reducer.WriterKey | index.ts:272-277 | A record key is accepted exactly when the record is not nullish and the key is a string or a Buffer; a string is hex-decoded and a Buffer taken as is. |
| Reducer.RouteOf | index.ts:264-296 | Each built-in type takes its own case, in both directions. The blob branch is taken exactly when the type is not built in, the view type is Hyperdrive and `record.blob` is truthy. A registered action is taken exactly when no earlier case applies and `actions` has the type as its own key. An inherited member is taken exactly when only the prototype has it. The append exactly when `actions[type]` finds nothing. |
| Reducer.PutBlob | index.ts:279-288 | The blob branch throws exactly when the filename is not a string or the view has no `get`, and then changes nothing. Otherwise the path holds its existing content if it had one and the blob if not; no other path and no writer changes. |
| Reducer.Dispatch | index.ts:262-298 | A nullish node value throws with nothing changed. No node changes the view's kind. Only the writer routes touch the writers, and they leave the view alone. An inherited member changes nothing and throws as its call does. |
| Reducer.Apply | index.ts:260-305 | Without an error the trace has one event per node, plus the flush when the view has one. After an error the trace is shorter than the batch and holds no flush. |
| ReducerFacts.ApplyTrace | index.ts:261-304 | Every node is dispatched once and in order. The flush comes last, at most once, and exactly when no node threw and the view has `flush`. |
| ReducerFacts.WriterOpOn | index.ts:272-277 | A node touches a writer only if its type is `add-writer` or `remove-writer`. |
| ReducerFacts.DispatchWriters | index.ts:272-277 | After one node, `k` is a writer iff that node added `k`, or did not touch `k` and `k` was a writer. |
| ReducerFacts.WritersLastWins | index.ts:272-277 | After a batch that did not throw, `k` is a writer iff the last writer operation on `k` was an add, or there was none and `k` was a writer. |
| ReducerFacts.AddThenRemoveWriter | index.ts:272-277 | Adding then removing a key leaves it absent, whatever the writer set was, and leaves the view untouched. |
| ReducerFacts.WriterOpsIdempotent | index.ts:272-277 | Repeating an `add-writer` or a `remove-writer` changes nothing further. |
| ReducerFacts.HyperdriveInvites | index.ts:241-258 | On the Hyperdrive view, `add-invite` with a record writes its JSON text at `invite.json`, overwriting it; without a record it throws a `TypeError` and changes nothing. `del-invite` deletes the file. No other path changes. |
| ReducerFacts.InviteAddDeleteDelete | index.ts:241-258 | With a record: add, delete, delete again leaves no `invite.json`, no node throws, and every other path is as before. Without a record the batch throws at the add, with nothing changed and no event recorded, and the deletes never run. |
| ReducerFacts.DefaultViewAddInvite | index.ts:247 | On the default view `add-invite` appends the record. |
| ReducerFacts.DefaultViewDelInviteAborts | index.ts:251-258 | On the default view a batch holding a `del-invite` throws by that node at the latest, and is never flushed. |
| ReducerFacts.FirstWriteWins | index.ts:279-288 | A blob record takes the blob branch even when an action is registered for its type. An existing `record.filename` is left alone; a new one receives `record.blob`. |
| ReducerFacts.FirstBlobStays | index.ts:279-288 | Two blob records for the same new path: the first blob stays and neither throws. |
| ReducerFacts.ActionRunsOnce | index.ts:290-293 | A registered action without a blob record runs once, with the whole node value and the current view, and its view calls are performed. |
| ReducerFacts.FallbackAppends | index.ts:294-296 | When `actions[type]` finds nothing, own or inherited, the node value is appended unchanged; on the Hyperdrive view, which has no `append`, this throws. |
| ReducerFacts.InheritedTypeIsNotAppended | index.ts:291-292 | A type naming an inherited member of `actions` calls that member: nothing is appended or changed, and the node throws exactly for `__proto__`, the accessor definers, a key-converting member given a node with its own `toString` field, and `toLocaleString` when a `toString` action is registered; `valueOf` with a `then` action registered stalls the batch instead. |
| ReducerFacts.RunKeepsKind | index.ts:261-299 | A batch leaves the view of the kind `_openView` built. |
| LegacyReducer.RouteOf | build/index.js:146-169 | The four built-in types take their own cases, in both directions; the blob branch is never taken; a registered action, an inherited member and the append are taken exactly as `actions[type]` finds an own key, an inherited one or nothing. |
| LegacyReducer.Dispatch | build/index.js:144-170 | A nullish node value throws with nothing changed. The view stays a core. Only the writer routes touch the writers, and they leave the view alone. An inherited member changes nothing and throws as its call does. |
| LegacyReducer.Apply | build/index.js:143-173 | A view without `flush` always ends in an error. Without an error the trace is one event per node followed by the flush. After an error the trace holds no flush. |
| LegacyReducerFacts.LegacyApplyTrace | build/index.js:143-172 | Every node is dispatched once and in order. After a loop that did not throw, `view.flush()` is called once; on a view without `flush` that call throws. |
| LegacyReducerFacts.LegacyInvites | build/index.js:148-153 | `add-invite` appends the record and `del-invite` removes it; neither throws, so add then delete leaves no copy. |
| LegacyReducerFacts.LegacyKeysUndecoded | build/index.js:154-159 | `record.key` reaches the writer set unchanged. |
| LegacyReducerFacts.HexKeyDiffers | build/index.js:154-156 | For a hex string key, index.ts admits the decoded bytes and the earlier revision admits the string itself. |
| LegacyReducerFacts.LegacyBlobRecordsAppended | build/index.js:160-169 | A blob record whose type `actions[type]` finds nothing for is appended like any other value. |
| LegacyReducerFacts.DispatchAgrees | build/index.js:146-169 | On the default view, for nodes other than `del-invite` and writer ops, both revisions make the same view change, take the same route and raise the same error. |
| LegacyReducerFacts.VariantsAgree | build/index.js:143-171 | For such batches, both revisions reach the same view, dispatch the same routes and fail on the same node. |
| Admission.InviteRecord | index.ts:359-364 | The invite record holds the three random values, and `expires` is now + 86 400 000. |
| Admission.PlanInvite | index.ts:351-369 | `createInvite` reuses exactly when the lookup found a record, and otherwise publishes a fresh one. |
| Admission.InviteAppends | index.ts:366-367 | Reusing appends nothing; publishing appends exactly one `add-invite` with the new record. |
| Admission.InviteToDelete | index.ts:371-382 | The default view takes the `findOne` result. The Hyperdrive view reads `invite.json`: a missing file finds nothing; a present one is parsed, giving its value when it is JSON and a `SyntaxError` otherwise. A core view has no `get` and fails. |
| Admission.DeleteAppends | index.ts:384-386 | A `del-invite` carrying the record is appended exactly when a record was found. |
| Admission.WriterRequest | index.ts:389-406 | A writer request succeeds exactly for Buffer or string keys; a Buffer key goes into `record.key` as is, a string key as its UTF-8 bytes. |
| Admission.MemberAdmission | index.ts:448-458 | The candidate is opened first. `confirm` with the base key and encryption key comes only after the `add-writer` append, and only when that append could be built. |
| AdmissionFacts.RepeatCreateInvite | index.ts:351-369 | Once the invite is in the view, calling `createInvite` again yields the same token and appends nothing, whatever the clock and the random values. |
| AdmissionFacts.PublishedInvite | index.ts:359-368 | A fresh invite's token encodes its `invite` bytes, and its appended record expires a day later. |
| AdmissionFacts.HyperdriveLookupAsymmetry | index.ts:353 | `createInvite` uses only `findOne` while `deleteInvite` reads `invite.json`: with a file present whose parsed value is truthy and the lookup empty, one publishes and the other deletes. |
| AdmissionFacts.DeleteInviteRemovesFile | index.ts:375-386 | On the Hyperdrive view, with no file nothing is appended; `deleteInvite` fails only on a present file that is not JSON; the `del-invite` it appends, once applied, removes exactly `invite.json`. |
| AdmissionFacts.DefaultViewDeleteInviteIsRefused | index.ts:380-386 | On the default view, the `del-invite` appended for a found record is rejected by the reducer. |
| AdmissionFacts.LegacyDeleteInviteRemovesRecord | build/index.js:219-225 | In the earlier revision, the appended `del-invite` removes every copy of the found record. |
| AdmissionFacts.AdmittedCandidateBecomesWriter | index.ts:448-458 | The member's `add-writer` for a Buffer user data makes that key a writer under either reducer. |
| AdmissionFacts.StringKeyIsNotHexDecoded | index.ts:389-395 | `addWriter` with a string key appends its UTF-8 bytes, and the reducer admits those bytes as the writer, not a hex decoding of the string. |
| AdmissionFacts.InviteIsNotSingleUse | index.ts:448-458 | Two candidates with the same invite are both added and both confirmed. |
| Pairing.Settle | index.ts:152-157 | Settling never changes a promise that is already settled. |
| Pairing.Opened | index.ts:83-102 | `_open` always creates the swarm; the candidate is set exactly when it was already set or the invite decodes, since `z32.decode` throws before `addCandidate` runs; nothing else changes. |
| Pairing.Finished | index.ts:152-157 | `finished()` adds one pending promise after the earlier ones and points both callbacks at it; nothing else changes. |
| Pairing.WhenWritable | index.ts:121-130 | Nothing changes if the base is writable already; otherwise one listener is added and nothing else changes. |
| Pairing.Admitted | index.ts:103-118 | `onadd` builds the Easybase only when there is none, drops the swarm and the store, keeps the candidate, the promises and the callbacks, subscribes a listener only when `finished()` was called and the base is not yet writable, and closes the candidate when set. |
| Pairing.Updated | index.ts:121-130 | Without a listener, or while not writable, nothing changes. A writable update with listeners unsubscribes them all and resolves a pending current promise with the Easybase, leaving every other promise and every other field alone. |
| Pairing.Releasing | index.ts:132-150 | `_close` attempts to release the candidate, the swarm and the store exactly when each is set, and the Easybase exactly when there is no rejecter and the base was built (`Pairing.Attempts`). |
| Pairing.Closed | index.ts:132-150 | Without a rejecter, or when a release throws, the promises stay as they were; nothing but the releases and the promises changes. |
| PairingFacts.NextKeepsInv | index.ts:103-157 | Every pairer event keeps the callbacks on one promise, and every subscribed listener has a base to watch. |
| PairingFacts.ReplayKeepsInv | index.ts:103-157 | Any sequence of pairer events keeps that invariant. |
| PairingFacts.NextKeepsSettled | index.ts:103-157 | One event never forgets a promise, never changes a settled one, and only adds releases. |
| PairingFacts.SettledIsFinal | index.ts:103-157 | A settled `finished()` promise keeps its outcome whatever follows, including the reject in `_close`. |
| PairingFacts.UpdatesWithoutListeners | index.ts:121-130 | With no listener subscribed, `update` events change nothing. |
| PairingFacts.FinishedTooLateNeverResolves | index.ts:115 | When `finished()` is first called after admission, no update ever resolves it. |
| PairingFacts.WritableAtAdmissionNeverResolves | index.ts:122 | If the base is already writable when `_whenWritable` runs, the pending promise is never resolved by later updates. |
| PairingFacts.FirstWritableUpdateResolves | index.ts:121-130 | Non-writable updates change nothing. The first writable update resolves the pending promise with the Easybase and unsubscribes. |
| PairingFacts.HappyPath | index.ts:83-130 | Open, `finished()`, admission before writability, then a writable update: the promise resolves with the Easybase built from the member's keys. |
| PairingFacts.MalformedInvite | index.ts:100-101 | With an invite `z32.decode` rejects, the pairer keeps a swarm but never gets a candidate, so no member can admit it; closing it, with no release throwing, destroys the swarm, closes the store and rejects `finished()`. |
| PairingFacts.CloseReleases | index.ts:132-150 | When no release throws, `_close` releases exactly the candidate, swarm and store still set; with a rejecter it rejects with "Pairing closed" only a pending promise and never closes the Easybase; without one it closes the Easybase if built. When a release throws, `_close` has completed exactly the releases listed before it, has not closed the Easybase and has settled no promise. |
| PairingFacts.CloseCompletes | index.ts:132-150 | With no release throwing, `_close` completes every release `Releasing` lists and, with a rejecter, rejects its promise. |
| PairingFacts.CloseStopsAtThrow | index.ts:132-150 | A release that throws ends `_close`: the releases completed are exactly those listed before it, the Easybase is not closed and no promise changes. |
| PairingFacts.CloseAfterAdmission | index.ts:132-150 | Closing after admission and `finished()` never closes the Easybase. A resolved promise stays resolved, and a pending one is rejected unless a release threw first. |
| Easybase.Easybase.constructor | index.ts:175-200 | The Easybase starts with the given view, writer set and keys, and nothing sent. |
| Easybase.Easybase.Mutate | index.ts:245-247 | One view call updates the view in place or throws, as `ApplyOp` says, and the view keeps the kind the view type names. |
| Easybase.Easybase.RunAction | index.ts:292 | An action's view calls are made in order, and the first that throws ends it, as `ApplyOps` says. |
| Easybase.Easybase.PutBlob | index.ts:279-288 | The blob branch updates the view in place as `Reducer.PutBlob` says. |
| Easybase.Easybase.DispatchNode | index.ts:262-298 | One loop iteration updates the view and the writer set in place exactly as `Reducer.Dispatch` says. |
| Easybase.Easybase.RunNodes | index.ts:261-299 | The loop leaves the view, writers, events and error that `Batch.Run` computes with `Reducer.Dispatch`, and sends nothing. |
| Easybase.Easybase.Apply | index.ts:260-305 | The loop and the conditional flush leave the view, writers, trace and error that `Reducer.Apply` computes. |
| Easybase.Easybase.CreateInvite | index.ts:351-369 | Returns the encoding of the reused or published invite, and sends exactly the appends `InviteAppends` plans. |
| Easybase.Easybase.DeleteInvite | index.ts:371-387 | Sends exactly the appends `DeleteAppends` plans for the record found, or fails with the `SyntaxError` of an `invite.json` that is not JSON, sending nothing. |
| Easybase.Easybase.AddWriter | index.ts:389-397 | Sends one `add-writer` and answers `true`, or refuses a key `b4a.from` cannot take. |
| Easybase.Easybase.RemoveWriter | index.ts:399-406 | Sends one `remove-writer`, or refuses a key `b4a.from` cannot take. |
| Easybase.Easybase.MemberOnAdd | index.ts:448-458 | Sends open, append and confirm exactly as `MemberAdmission` orders them. |
| Easybase.EasybasePairer.constructor | index.ts:62-80 | The pairer starts holding only the store. |
| Easybase.EasybasePairer.Open | index.ts:83-102 | `_open` changes the fields as `Pairing.Opened` says, and throws exactly when the invite does not decode. |
| Easybase.EasybasePairer.Finished | index.ts:152-157 | A new pending promise whose callbacks replace the previous ones. |
| Easybase.EasybasePairer.OnAdd | index.ts:103-118 | The fields change as `Pairing.Admitted` says. |
| Easybase.EasybasePairer.WhenWritable | index.ts:121-130 | Subscribes one listener unless the base is already writable. |
| Easybase.EasybasePairer.OnUpdate | index.ts:123-128 | A writable update unsubscribes the listeners and resolves the current promise. |
| Easybase.EasybasePairer.Close | index.ts:132-150 | Given the release that throws, if any: the fields change as `Pairing.Closed` says, and `_close` fails exactly when it reaches that release (`Pairing.CloseThrows`). |
| Easybase.EasybasePairer.Release | index.ts:133-148 | One awaited release completes, or fails exactly when it is the one that throws, changing nothing. |
| LegacyEasybase.Easybase.constructor | build/index.js:116-141 | The earlier Easybase starts on a default view with the given writers and keys. |
| LegacyEasybase.Easybase.Mutate | build/index.js:149-152 | One view call updates the view in place or throws, and the view stays a core. |
| LegacyEasybase.Easybase.RunAction | build/index.js:163 | An action's view calls are made in order until one throws. |
| LegacyEasybase.Easybase.DispatchNode | build/index.js:145-170 | One loop iteration updates the view and writers exactly as `LegacyReducer.Dispatch` says. |
| LegacyEasybase.Easybase.RunNodes | build/index.js:144-171 | The loop leaves the view, writers, events and error that `Batch.Run` computes with `LegacyReducer.Dispatch`, and sends nothing. |
| LegacyEasybase.Easybase.Apply | build/index.js:143-173 | The loop and the unconditional flush leave what `LegacyReducer.Apply` computes. |
| LegacyEasybase.Easybase.CreateInvite | build/index.js:202-218 | The same plan and token as index.ts. |
| LegacyEasybase.Easybase.DeleteInvite | build/index.js:219-225 | Always uses the `findOne` result, and appends a `del-invite` only if a record was found. |
| LegacyEasybase.Easybase.AddWriter | build/index.js:226-234 | Sends one `add-writer` and answers `true`, or refuses the key. |
| LegacyEasybase.Easybase.RemoveWriter | build/index.js:235-242 | Sends one `remove-writer`, or refuses the key. |
| LegacyEasybase.Easybase.MemberOnAdd | build/index.js:260-269 | Sends open, append and confirm as `MemberAdmission` orders them. |
| LegacyEasybase.EasybasePairer.constructor | build/index.js:21-33 | The pairer starts holding only the store. |
| LegacyEasybase.EasybasePairer.Open | build/index.js:35-68 | `_open` changes the fields as `Pairing.Opened` says, and throws exactly when the invite does not decode. |
| LegacyEasybase.EasybasePairer.Finished | build/index.js:98-103 | A new pending promise whose callbacks replace the previous ones. |
| LegacyEasybase.EasybasePairer.OnAdd | build/index.js:53-67 | The fields change as in index.ts with a default view. With no candidate set, `this.candidate.close()` throws. |
| LegacyEasybase.EasybasePairer.WhenWritable | build/index.js:70-80 | Subscribes one listener unless the base is already writable. |
| LegacyEasybase.EasybasePairer.OnUpdate | build/index.js:72-78 | A writable update unsubscribes the listeners and resolves the current promise. |
| LegacyEasybase.EasybasePairer.Close | build/index.js:81-97 | Given the release that throws, if any: the fields change as `Pairing.Closed` says, and `_close` fails exactly when it reaches that release (`Pairing.CloseThrows`). |
| LegacyEasybase.EasybasePairer.Release | build/index.js:82-95 | One awaited release completes, or fails exactly when it is the one that throws, changing nothing. |
| SampleActions.UploadFile | example-hyperdrive.ts:13-17 | `upload-file` puts top-level `content` at top-level `filename`, and fails on a non-string name. |
| SampleActions.UploadOverwrites | example-hyperdrive.ts:13-17 | Two uploads to one name run the action twice, and the second content replaces the first. |

## Left out

- Networking and pairing transport: Hyperswarm, `join`, replication on connections, and the BlindPairing candidate and member internals. `onadd` and `update` are method calls here.
- Autobase internals: merge order, persistence, and how `writable` becomes true. Writability is a flag carried by each `update`. `base.append` is recorded in `io` and is not fed back into `_apply`; `Apply` takes the batch Autobase delivers.
- Storage construction (`_openView`, `_createHyperdriveView`) and the accessor getters. The view is `Log` or `Drive` from the start, matching `viewType`.
- Codecs: `z32.encode`, `z32.decode`, `JSON.stringify`, `JSON.parse`, `Buffer.from(…, "hex")` and `b4a.from` are opaque functions. No round trip is assumed for them. Their failures are modelled where the code can reach them: `JSON.stringify` of `undefined` (`Values.Serialize`), `JSON.parse` of text that is not JSON (`Values.ParseJson`) and `z32.decode` of a malformed invite (the `inviteValid` input of `Pairing.Opened`). `JSON.stringify` is total on every other value, because a `Js` value holds no function, symbol, `BigInt` or cycle. `Buffer.from(…, "hex")` and `b4a.from` are taken as total: they are given bytes or a string, which they accept. `z32.encode` is taken as total too, although `createInvite` hands it the `invite` field of whatever record the lookup found (see the `CreateInvite` lines below).
- Values.ToBuffer: only a Buffer or a string key is accepted. `b4a.from` also takes arrays and array-likes of bytes, `ArrayBuffer`s and `{ type: "Buffer", data }` objects; those are refused here, because `Js` has no arrays.
- Reducer.WriterKey: only a string or a Buffer `record.key` is accepted. `Buffer.from` also takes arrays, array-likes and `{ type: "Buffer", data }` objects; those throw here, for the same reason.
- Admission.WriterRequest: the same restriction as `Values.ToBuffer` applies to the keys `addWriter` and `removeWriter` accept.
- Reducer.RouteOf: `actions` is an ordinary object, so `actions[type]` also finds the twelve members of `Object.prototype`. A custom `actions` object with a null prototype, or with other inherited members, is not modelled.
- Easybase.Easybase.CreateInvite: returns a token for a found record that has no `invite` field, or one that is not bytes. In index.ts:355 `z32.encode` reads the bytes of that field and throws on `undefined`. z32 is not part of this model, so the values it rejects are not stated.
- LegacyEasybase.Easybase.CreateInvite: the same gap for `z32.encode(existing.invite)` at build/index.js:206.
- Views.InheritedCall: a `Js` value holds no function, so the only way the key-converting members can fail is an own `toString` field hiding the inherited method. Other members of `Object.prototype` added by the host, and an `actions` object whose prototype was changed, are not modelled. A registered `toString` action is taken to read its value or its context, as the declared action signature and the actions of example-hyperdrive.ts do, so that `toLocaleString` calling it with no arguments fails; one that reads neither would return normally. Likewise a registered `then` action is taken to be asynchronous, as the declared signature says: `await` calls it with its resolve and reject callbacks, it calls neither, and the batch never settles (`Values.Stalled`). A synchronous `then` action that throws would make the batch throw instead, and one that calls its first argument would let the batch go on.
- `findOne`, `Date.now` and `randomBytes`: these are inputs to the methods that use them.
- Hyperdrive path normalisation and the content encoding of `put`. A non-string path is modelled as a `TypeError`.
- Legacy `view.del(record)` on the default core: it is modelled as removal of every equal entry, since the core's own `del` is not part of this model.
- Actions that use `base`: a custom action here only reads the node value and the view and asks for view calls. Actions calling `base.addWriter`, and actions that do not await their calls, are outside the model.
- `update-metadata` of example-hyperdrive.ts: it builds its path with a template string over an arbitrary value, and the string conversion is not modelled.
- Non-string `type` values that JavaScript would still match as object keys (for example a number): only a string `type` selects an action.
- Numbers are integers, because the only number computed is a millisecond timestamp.
- Lifecycle plumbing: `ready`, `Easybase._open` and `_close`, the try/catch around closing the Hyperdrive view, and `console.log`.
- The pairer's `pairing` field and the `Easybase` `member`/`pairing` teardown: these are transport objects.
- Awaiting and concurrency: each method runs to completion. Interleavings of in-flight calls and concurrent candidates are not modelled.
- build/index.d.ts: it holds type declarations only.
- Pairing.Updated: every subscribed listener resolves the promise current at the time of the update, all at once. The order in which several listeners run is not modelled, since settling is idempotent.
