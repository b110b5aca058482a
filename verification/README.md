# oath: a minimal promise/deferred, modelled in Dafny

`lib/oath.js` is a small synchronous promise. `defer()` creates a `Deferred`
that owns a fresh `Promise`. Consumers call `then(success, failure)` to append
callbacks to two ordered lists, and `catch(failure)` to set a single failure
handler. The producer settles the promise with `resolve(data)` or
`reject(error)`, and that call runs a callback synchronously.

This project models that state machine with pure functions on immutable
records:

- `wrappers.dfy` (module `Wrappers`): `Option`, for a slot or argument that
  may be absent.
- `oath.dfy` (module `Oath`):
  - the data model: `Status`, `Value`, `Callback`, `Promise` and `Deferred`;
  - the operations `Defer`, `Then`, `Catch`, `Resolve` and `Reject`;
  - lemmas about single calls.
- `trace.dfy` (module `Trace`): whole sequences of calls on one promise.
  `Execute` runs them in order. A fault is recorded and the run goes on from
  the already updated promise, as when the caller catches the `TypeError`. A
  caller that lets the error escape makes only the calls up to the fault, and
  that is the run of that prefix. This file also holds the lemmas that relate
  several calls.

Calling a user callback is not executed. A settling call returns an `Event`
that names the callback, the argument it receives, and the slot it came from.

The source's quirks are kept as written:

- `resolve` fires only `successCallbacks[0]`.
- `failCallbacks` is filled by `then` but never read.
- `reject` leaves `value` alone.
- Neither `resolve` nor `reject` checks the status, so settling a second
  time re-runs the assignments and fires the callback again.
- Both calls make their assignments before they call the callback. When the
  callback is missing, the call faults with the promise already changed, so
  `Settlement.after` holds the changed state in both outcomes.

Two consequences of the code follow:

- `resolved` and `rejected` are not terminal. Neither call checks the status
  (`ResolveIgnoresStatus`, `RejectIgnoresStatus`).
- A faulting `resolve` or `reject` has already stored the new status, and for
  `resolve` the new value (lib/oath.js:64-68, 77-79). `Resolve`, `Reject` and
  `ResolveAfterCaughtFault` state this.

## Model

| member | source | states |
|---|---|---|
| Oath.StatusTagsDistinct | lib/oath.js:2-10 | the three status tags are pairwise distinct |
| Oath.NewPromise | lib/oath.js:15-21 | a new promise holds the given value and status, both callback lists are empty, and the failure property is absent |
| Oath.Defer | lib/oath.js:85-87 | a fresh promise is waiting, its value is undefined, both callback lists are empty and no failure handler is set |
| Oath.Register | lib/oath.js:29-34 | a present argument is appended at the end of the list and a falsy one adds nothing; the old entries stay in place as a prefix |
| Oath.Then | lib/oath.js:26-37 | each list grows by exactly the present argument, appended after the old entries; value, status and the failure slot are unchanged |
| Oath.Catch | lib/oath.js:44-47 | the failure slot becomes the argument, even an absent one; lists, status and value are unchanged |
| Oath.Resolve | lib/oath.js:62-69 | value becomes the datum and status becomes resolved, even when the call faults; it fires exactly (successCallbacks[0], datum) and faults exactly when the list is empty |
| Oath.Reject | lib/oath.js:75-80 | status becomes rejected and value is kept, even when the call faults; it fires exactly (failure handler, error) and faults exactly when no handler is set |
| Oath.CatchLastWriterWins | lib/oath.js:44-47 | after two catch calls only the second handler remains |
| Oath.ThenCatchCommute | lib/oath.js:26-47 | then and catch change disjoint parts of the promise, so their order does not matter |
| Oath.ResolveIgnoresStatus | lib/oath.js:62-69 | the result of resolve does not depend on the previous status or value, so there is no guard against settling twice |
| Oath.RejectIgnoresStatus | lib/oath.js:75-80 | the result of reject does not depend on the previous status |
| Oath.RejectIgnoresFailCallbacks | lib/oath.js:75-80 | reject fires the same callback whatever failCallbacks holds |
| Oath.DoubleResolveRefires | lib/oath.js:62-69 | a second resolve fires successCallbacks[0] again with the new datum and overwrites the value |
| Oath.RejectAfterResolveKeepsValue | lib/oath.js:75-80 | reject after resolve marks the promise rejected but keeps the resolved value |
| Trace.Apply | lib/oath.js:26-80 | a then or catch call fires nothing; no call shrinks either list; a success invocation names index 0 of the list before the call |
| Trace.Execute | lib/oath.js:26-80 | over any sequence of calls, continuing past caught faults, both lists only grow; invocations and faults together are at most the number of calls |
| Trace.ExecuteAppend | lib/oath.js:26-80 | running two sequences one after the other is running their concatenation; its invocations and faults are those of the first followed by those of the second |
| Trace.ResolveAfterCaughtFault | lib/oath.js:62-69 | a resolve with no success callback faults but still stores the value and status; after the caller catches it, registers c and resolves again with y, c fires with y |
| Trace.RegistrationsOnlyRecord | lib/oath.js:26-47 | a sequence of then and catch calls fires nothing and never faults; each list becomes the old list followed by the present arguments in call order; the slot holds the last catch argument; status and value are unchanged |
| Trace.FreshResolveFiresFirstRegistered | lib/oath.js:62-69 | on a fresh promise, resolve after any registrations fires only the first success callback ever registered, with the datum; it faults exactly when none was registered |
| Trace.FreshRejectFiresLastCatch | lib/oath.js:75-80 | on a fresh promise, reject after any registrations fires only the last catch handler, with the error, and the value stays undefined; it faults exactly when there is no such handler |
| Trace.OnlyFirstSuccessFires | lib/oath.js:68 | in every run, each invocation by resolve names the first element of the success list |
| Trace.LaterSuccessNeverInvoked | lib/oath.js:68 | a success callback behind index 0 (and distinct from the first) is never invoked by a resolve in any run |
| Trace.FailCallbacksNeverConsulted | lib/oath.js:75-80 | two runs from promises that differ only in failCallbacks fire the same callbacks and fault the same way |

## Left out

- Running user callbacks, and any exception they throw. A callback is an opaque identifier, and calling it is an emitted event.
- Truthy arguments that are not functions, such as `then(5)`. The model treats every present argument as a callable function, so the `TypeError` from calling a non-function is not modelled.
- JavaScript values beyond `undefined`. Payloads are opaque, because the code only stores them and passes them on.
- Object identity. `then` returns its receiver. In the model that is the updated record, and the caller passes it on.
- `catch` returns `undefined`, so it cannot be chained. The model's `Catch` returns the updated record.
- The unused locals `newVal` (line 27) and `self` (line 63). They have no effect.
- The `module.exports` line (line 90). It is packaging only.
- Timing between creation and settlement. Nothing in the code schedules work.
