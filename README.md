# freestyle-client, modelled in Dafny

A model of the Freestyle smart-lock client: the `Freestyle` object that logs
in, selects a property, fetches the home and tracks its first lock, watches
the lock by polling, publishes an event for every change, and sends lock
commands; and the `lockDiff` helper that compares two lock snapshots.

- `types.dfy` (module `Types`): the lock states, volume levels, lock snapshot,
  home, property and session records. The 17 fields of a lock snapshot are
  also addressed generically (`Field`, `Get`), in declaration order.
- `lock_diff.dfy` (module `SnapshotDiff`): the differ. `Delta` specifies it and
  `LockDiff` performs the 17 comparisons one after the other, as the source
  does. The lemmas prove four things about the result:
  - its entries follow the declaration order, so there are at most 17;
  - a field appears exactly when the two snapshots disagree on it, carrying the new value;
  - it is empty exactly when the snapshots are equal;
  - replaying it over the old snapshot's fields gives the new snapshot's fields.
- `events.dfy` (module `Events`): what one watch tick publishes. This is a
  `change` event with the previous snapshot and the diff, then one event per
  changed field. The well-formedness of the growing event log is proved here.
- `freestyle.dfy` (module `FreestyleClient`): the `Freestyle` class, with its
  optional `session`, `property`, `home`, `lock` and `timer` fields and its
  methods. It also holds the body of one watch tick, the refresh threshold,
  the command requests and their addresses, and the 204 rule of PUT requests.

External effects are parameters:
- The credential exchange service is a function from credentials, or from a
  refresh token, to an optional session; `None` stands for a thrown error.
- A fetch is the fetched value.
- The clock is the `now` argument of a tick.
- A command returns the request it would send.
- The emitter is the `events` log, which every tick appends to.

The class invariant `Valid` states two things:
- the tracked lock is always the first lock of the last fetched home;
- the log consists of whole tick batches.

## Model

| member | source | states |
|---|---|---|
| Types.LockStateValue | src/types.ts:1-5 | each lock state is sent as the string of its own name: UNLOCKED, LOCKED_PRIVACY, LOCKED_DEADLOCK |
| Types.LockStateValueInjective | src/types.ts:1-5 | distinct lock states have distinct wire strings |
| Types.VolumeValue | src/types.ts:7-11 | each volume level is sent as the string of its own name: LOW, MEDIUM, HIGH |
| Types.VolumeValueInjective | src/types.ts:7-11 | distinct volume levels have distinct wire strings |
| Types.Index | src/types.ts:13-31 | every field of a lock snapshot has a position below 17 in the declaration order |
| Types.FieldAt | src/types.ts:13-31 | every position below 17 holds the field whose position it is |
| Types.FieldAtIndex | src/types.ts:13-31 | the declaration order is a one-to-one numbering of the 17 fields |
| Types.FieldName | src/index.ts:189-205 | each field is published under its own property name, the key the differ pushes |
| Types.Get | src/types.ts:13-31 | reading a field yields a value of the field's declared type; desiredState is nullable and reportedState is not |
| Types.SnapshotDeterminedByFields | src/types.ts:13-31 | a snapshot holds nothing but its 17 fields: agreeing on all of them means being equal |
| SnapshotDiff.ChangesUpTo | src/index.ts:189-205 | the diff of the first n fields has at most n entries, each for one of those fields, with the new snapshot's value, which differs from the old one |
| SnapshotDiff.Delta | src/index.ts:187-207 | the diff of two snapshots has at most 17 entries, each for a field the snapshots disagree on, carrying the second snapshot's value |
| SnapshotDiff.PushIfChanged | src/index.ts:189-205 | one comparison extends the diff of the fields before f to the diff up to and including f |
| SnapshotDiff.LockDiff | src/index.ts:187-207 | the 17 comparisons in sequence compute exactly the specified diff |
| SnapshotDiff.ChangesUpToOrdered | src/index.ts:189-205 | the entries of a partial diff are in strictly increasing field order |
| SnapshotDiff.ChangesUpToComplete | src/index.ts:189-205 | every field among the first n on which the snapshots disagree is listed in the partial diff with the new value |
| SnapshotDiff.DeltaOrdered | src/index.ts:189-205 | the diff lists fields in declaration order, each at most once, so it has at most 17 entries |
| SnapshotDiff.DeltaExact | src/index.ts:189-205 | a field is in the diff if and only if the snapshots disagree on it, and each entry carries the second snapshot's value |
| SnapshotDiff.ChangesUpToSelf | src/index.ts:187-207 | comparing a snapshot with itself finds nothing |
| SnapshotDiff.DeltaEmptyIffEqual | src/index.ts:187-207 | the diff is empty if and only if the two snapshots are equal |
| SnapshotDiff.DeltaSingleField | src/index.ts:189-205 | snapshots that differ in one field only give exactly one entry, for that field, with its new value |
| SnapshotDiff.ReplayUntouched | src/index.ts:189-205 | replaying a list of changes leaves a field the list does not name as it was |
| SnapshotDiff.ReplayWritten | src/index.ts:189-205 | after replaying an ordered list of changes, a named field holds the value its entry carries |
| SnapshotDiff.ReplayDelta | src/index.ts:187-207 | replaying the diff over the old snapshot's fields gives the new snapshot's fields |
| SnapshotDiff.FieldsInjective | src/types.ts:13-31 | snapshots with the same field values are the same snapshot |
| Events.TickEvents | src/index.ts:58-68 | a tick publishes nothing if and only if the fetched lock equals the copy taken before the fetch |
| Events.TickEventsShape | src/index.ts:55-67 | a tick with changes publishes one change event with the copy and the diff, then one event per entry in diff order, named by its field and carrying the fetched lock's value |
| Events.TickEventsWellFormed | src/index.ts:58-67 | a tick's events form one whole batch whose changes are ordered, new and of the right type |
| Events.WellFormedAppend | src/index.ts:58-67 | appending a tick's events to a log of whole batches keeps it a log of whole batches |
| Events.FieldNameInjective | src/index.ts:64-67 | a listener on a field's key hears that field and no other |
| Events.BatteryDrop | src/index.ts:58-67 | a battery reading going from 80 to 79 publishes exactly a change event for batteryPercent and one batteryPercent event with 79 |
| FreestyleClient.First | src/index.ts:112 | taking element 0 is undefined exactly on an empty list and otherwise yields its first element |
| FreestyleClient.NeedsRefresh | src/index.ts:72-73 | no refresh is due exactly when the session outlives now plus one watch period plus 60 seconds |
| FreestyleClient.RefreshThreshold | src/index.ts:72-76 | no refresh is due at the threshold itself; once due a refresh stays due as time passes, and a longer watch period makes it due sooner |
| FreestyleClient.VersionedUrlDiffers | src/index.ts:174 | the privacy-lock address never coincides with an unlock or deadlock address |
| FreestyleClient.LockUrl | src/index.ts:140 | a command address is the endpoint, then "/properties/" or "/v0/properties/", the property id, "/locks/" and the MAC address, each readable back from its place |
| FreestyleClient.CommandFor | src/index.ts:141-147 | every command body carries the 12-second timeout, the requested state and the token object with data 605271687314696 |
| FreestyleClient.PutResult | src/index.ts:238-247 | a PUT yields no body exactly on status 204; on every other status, errors included, it yields the parsed body |
| FreestyleClient.RefreshedBy | src/index.ts:42-47 | a refresh always leaves a session in place and passes exactly when the exchange produced a new session |
| FreestyleClient.Freestyle.constructor | src/index.ts:25-36 | a new client has no session, property, home, lock or timer, a 10000 ms watch period and an empty event log |
| FreestyleClient.Freestyle.Authenticate | src/index.ts:38-40 | a successful login replaces the session; a failed one leaves it |
| FreestyleClient.Freestyle.AuthRefresh | src/index.ts:42-47 | without a session it fails with Missing session; otherwise the session becomes the one exchanged for its refresh token, or stays on failure |
| FreestyleClient.Freestyle.Watch | src/index.ts:49-82 | a timer with the current period starts only when none is running; a second call changes nothing and raises no error |
| FreestyleClient.Freestyle.GetProperty | src/index.ts:91-101 | without a session it fails and changes nothing; otherwise the property becomes the first one listed, or undefined for an empty list |
| FreestyleClient.Freestyle.GetHome | src/index.ts:103-114 | without a session or property it fails and changes nothing; otherwise home becomes the fetched home and lock its first lock, and nothing else changes |
| FreestyleClient.Freestyle.Init | src/index.ts:128-132 | login, property selection and home fetch in turn, stopping at the first failure, with the state each step leaves |
| FreestyleClient.Freestyle.Publish | src/index.ts:58-68 | appends exactly the tick's events for the diff (nothing for an empty diff; otherwise the change event, then one event per entry in order) and keeps the log a log of whole batches |
| FreestyleClient.Freestyle.PrintStatus | src/index.ts:116-126 | fails with Missing lock data when no lock is tracked; otherwise succeeds with the lock's MAC, reported and desired states, door and battery |
| FreestyleClient.Freestyle.Tick | src/index.ts:52-76 | the guards and the effects of one tick: the home is replaced, the tick's events are appended to the log, and a refresh happens exactly past the strict threshold; a home without locks fails after the replacement and before any event |
| FreestyleClient.Freestyle.Unlock | src/index.ts:134-149 | fails with Missing session if and only if session, property or lock is missing; otherwise the request targets the plain lock address with the UNLOCKED command body |
| FreestyleClient.Freestyle.DeadLock | src/index.ts:151-166 | fails with Missing session if and only if session, property or lock is missing; otherwise the request targets the plain lock address with the LOCKED_DEADLOCK command body |
| FreestyleClient.Freestyle.PrivacyLock | src/index.ts:168-183 | fails with Missing session if and only if session, property or lock is missing; otherwise the request targets the /v0 lock address with the LOCKED_PRIVACY command body |

Where the code and the documented behaviour differ, the model follows the code:
- Calling `watch` twice only logs a line.
- A tick has no error handling: a failure ends it where it happens, and what was replaced before stays replaced.
- The refresh comparison is strict.
- A request is not failed on an HTTP error status; the error body is returned as data.
- Changing `watchFrequency` does not restart the timer. The threshold reads the live field, but the timer keeps the period it was created with.

## Left out

- The Cognito SRP login and token refresh (`CognitoClient`): the exchange is a parameter, and a thrown error is its `None`. `src/lib/cognito-client.ts` is not part of this model.
- The user pool identifiers and the API base URL come from `src/constants.ts`, which is not part of this model. The base URL is a constructor argument (`endpoint`).
- `fetch`, request headers and JSON encoding and decoding in `apiGet` and `apiPut`: these are network I/O. Fetched values are parameters, and only the 204 rule of `apiPut` is stated.
- Freestyle.GetHome: an error body returned by the server in place of a home is not modelled. In the source, such a body has no `locks`, so reading `locks[0]` throws after `home` has been replaced.
- Freestyle.Tick: the `setInterval` scheduling, the asynchronous interleaving of overlapping ticks and the fate of an error thrown from the timer callback (an unhandled rejection) are timing and concurrency. A tick is one atomic method call, and its failure is a returned outcome.
- The Node `EventEmitter` dispatch and the `on` subscription: only the sequence of emitted events is modelled, as the appended log.
- Freestyle.PrintStatus: the console formatting is left out. The method returns the reported data rather than printing it.
- The "watch already running" and "session expired, refreshing" console lines.
- `example.ts`: command-line key handling and process control.
- JavaScript `number` semantics: the numeric lock and home fields are unbounded integers, so NaN and floating-point rounding are not modelled. The 12.0-second timeout is a `real` constant.
