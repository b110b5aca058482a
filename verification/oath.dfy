/** The promise/deferred primitive of lib/oath.js as pure transitions on an
    immutable record.

    A JavaScript `Promise` object is mutated in place and shared by reference
    between the producer (through its `Deferred`) and every consumer. Here each
    operation takes the current record and returns the next one; the caller
    threads the record through, which is what sharing one reference amounts to
    in a single-threaded program. Calling a user callback is not executed: it is
    reported as an `Event` naming the callback and the argument it receives. */
module Oath {
  import opened Wrappers

  /** The three status tags. The source uses three distinct empty objects
      compared by identity; the variants of a datatype are distinct by
      construction. */
  datatype Status = Waiting | Resolved | Rejected

  /** A JavaScript value as far as this code cares: either `undefined` (the
      value of a fresh promise) or some other value that is only passed along. */
  datatype Value = Undefined | Opaque(id: nat)

  /** A user-supplied function, identified but never run. */
  datatype Callback = Callback(id: nat)

  /** The promise object: its value, its status tag, the two ordered callback
      lists filled by `then`, and the single `failure` property set by `catch`
      (`None` while the property is absent or holds `undefined`). */
  datatype Promise = Promise(
    value: Value,
    status: Status,
    successCallbacks: seq<Callback>,
    failCallbacks: seq<Callback>,
    failure: Option<Callback>)

  /** The producer's handle: it wraps the promise it settles. */
  datatype Deferred = Deferred(promise: Promise)

  /** Where the invoked callback was taken from: index 0 of the success list
      (by `resolve`) or the `failure` slot (by `reject`). */
  datatype Channel = FirstSuccess | CatchSlot

  /** One invocation of a user callback with its single argument. */
  datatype Event = Invoke(callback: Callback, arg: Value, via: Channel)

  /** The two faults: calling an element of an empty success list, or calling
      a `failure` property that was never set. */
  datatype Fault = NoSuccessCallback | NoCatchHandler

  datatype Outcome = Fired(event: Event) | Faulted(fault: Fault)

  /** What a settling call leaves behind. The assignments to the promise come
      before the call that may fault, so `after` is the updated handle in both
      cases. */
  datatype Settlement = Settlement(after: Deferred, outcome: Outcome)

  /** Two promises that differ at most in `failCallbacks`. */
  predicate SameExceptFailCallbacks(p: Promise, q: Promise)
  {
    && p.value == q.value
    && p.status == q.status
    && p.successCallbacks == q.successCallbacks
    && p.failure == q.failure
  }

  /** The `Promise(value, status)` constructor: the two lists start empty and
      the `failure` property does not exist yet. */
  function NewPromise(value: Value, status: Status): (p: Promise)
    ensures p.value == value && p.status == status
    ensures |p.successCallbacks| == 0 && |p.failCallbacks| == 0
    ensures p.failure.None?
  {
    Promise(value, status, [], [], None)
  }

  /** `defer()`, the only way to obtain a promise: a fresh waiting promise with
      an undefined value, wrapped in its deferred. */
  function Defer(): (d: Deferred)
    ensures d.promise.status == Waiting
    ensures d.promise.value == Undefined
    ensures |d.promise.successCallbacks| == 0 && |d.promise.failCallbacks| == 0
    ensures d.promise.failure.None?
  {
    Deferred(NewPromise(Undefined, Waiting))
  }

  /** The push performed by `then` for one argument: only a present (truthy)
      argument is added, at the end. */
  function Register(list: seq<Callback>, cb: Option<Callback>): (r: seq<Callback>)
    ensures list <= r
    ensures |r| == |list| + (if cb.Some? then 1 else 0)
    ensures cb.Some? ==> r[|list|] == cb.value
  {
    match cb
    case None => list
    case Some(f) => list + [f]
  }

  /** `promise.then(success, failure)`: appends each present argument to its
      list, keeps everything else, invokes nothing, and returns the receiver
      itself (here: its updated record). */
  function Then(p: Promise, success: Option<Callback>, failure: Option<Callback>): (r: Promise)
    ensures p.successCallbacks <= r.successCallbacks
    ensures |r.successCallbacks| == |p.successCallbacks| + (if success.Some? then 1 else 0)
    ensures success.Some? ==> r.successCallbacks[|p.successCallbacks|] == success.value
    ensures p.failCallbacks <= r.failCallbacks
    ensures |r.failCallbacks| == |p.failCallbacks| + (if failure.Some? then 1 else 0)
    ensures failure.Some? ==> r.failCallbacks[|p.failCallbacks|] == failure.value
    ensures r.value == p.value && r.status == p.status && r.failure == p.failure
  {
    p.(successCallbacks := Register(p.successCallbacks, success),
       failCallbacks := Register(p.failCallbacks, failure))
  }

  /** `promise.catch(failure)`: assigns the `failure` property, whatever it
      held before and even when the argument is absent. Returns nothing. */
  function Catch(p: Promise, handler: Option<Callback>): (r: Promise)
    ensures r.failure == handler
    ensures r.value == p.value && r.status == p.status
    ensures r.successCallbacks == p.successCallbacks && r.failCallbacks == p.failCallbacks
  {
    p.(failure := handler)
  }

  /** `deferred.resolve(data)`: stores `data`, marks the promise resolved and
      then calls `successCallbacks[0]` with `data`. There is no check of the
      current status. With an empty list the call faults after the
      assignments. */
  function Resolve(d: Deferred, data: Value): (s: Settlement)
    ensures s.after.promise.value == data
    ensures s.after.promise.status == Resolved
    ensures s.after.promise.successCallbacks == d.promise.successCallbacks
    ensures s.after.promise.failCallbacks == d.promise.failCallbacks
    ensures s.after.promise.failure == d.promise.failure
    ensures s.outcome.Fired? <==> |d.promise.successCallbacks| > 0
    ensures s.outcome.Fired? ==>
      s.outcome.event == Invoke(d.promise.successCallbacks[0], data, FirstSuccess)
    ensures s.outcome.Faulted? ==> s.outcome.fault == NoSuccessCallback
  {
    var p := d.promise.(value := data, status := Resolved);
    if |p.successCallbacks| == 0 then
      Settlement(Deferred(p), Faulted(NoSuccessCallback))
    else
      Settlement(Deferred(p), Fired(Invoke(p.successCallbacks[0], data, FirstSuccess)))
  }

  /** `deferred.reject(error)`: marks the promise rejected and then calls the
      `failure` property with `error`. The value is left alone and
      `failCallbacks` is never looked at. With no handler the call faults
      after the assignment. */
  function Reject(d: Deferred, error: Value): (s: Settlement)
    ensures s.after.promise.status == Rejected
    ensures s.after.promise.value == d.promise.value
    ensures s.after.promise.successCallbacks == d.promise.successCallbacks
    ensures s.after.promise.failCallbacks == d.promise.failCallbacks
    ensures s.after.promise.failure == d.promise.failure
    ensures s.outcome.Fired? <==> d.promise.failure.Some?
    ensures s.outcome.Fired? ==>
      s.outcome.event == Invoke(d.promise.failure.value, error, CatchSlot)
    ensures s.outcome.Faulted? ==> s.outcome.fault == NoCatchHandler
  {
    var p := d.promise.(status := Rejected);
    match p.failure
    case None => Settlement(Deferred(p), Faulted(NoCatchHandler))
    case Some(g) => Settlement(Deferred(p), Fired(Invoke(g, error, CatchSlot)))
  }

  /** The status tags never compare equal to one another. */
  lemma StatusTagsDistinct()
    ensures Waiting != Resolved && Waiting != Rejected && Resolved != Rejected
  {
  }

  /** Two `catch` calls in a row leave only the second handler. */
  lemma CatchLastWriterWins(p: Promise, g1: Option<Callback>, g2: Option<Callback>)
    ensures Catch(Catch(p, g1), g2) == Catch(p, g2)
  {
  }

  /** `then` and `catch` touch disjoint parts of the promise, so their order
      does not matter. */
  lemma ThenCatchCommute(p: Promise, s: Option<Callback>, f: Option<Callback>, g: Option<Callback>)
    ensures Then(Catch(p, g), s, f) == Catch(Then(p, s, f), g)
  {
  }

  /** `resolve` has no guard on the status: what it leaves behind and what it
      fires do not depend on the status or value the promise had, so a second
      call on a settled promise behaves exactly like the first. */
  lemma ResolveIgnoresStatus(p: Promise, q: Promise, data: Value)
    requires p.successCallbacks == q.successCallbacks
    requires p.failCallbacks == q.failCallbacks
    requires p.failure == q.failure
    ensures Resolve(Deferred(p), data) == Resolve(Deferred(q), data)
  {
  }

  /** `reject` has no guard on the status either: the status a promise had
      before does not influence the result. */
  lemma RejectIgnoresStatus(p: Promise, q: Promise, error: Value)
    requires p.value == q.value
    requires p.successCallbacks == q.successCallbacks
    requires p.failCallbacks == q.failCallbacks
    requires p.failure == q.failure
    ensures Reject(Deferred(p), error) == Reject(Deferred(q), error)
  {
  }

  /** Whatever `failCallbacks` holds, `reject` fires the same callback (or
      faults the same way). */
  lemma RejectIgnoresFailCallbacks(p: Promise, q: Promise, error: Value)
    requires SameExceptFailCallbacks(p, q)
    ensures Reject(Deferred(p), error).outcome == Reject(Deferred(q), error).outcome
    ensures SameExceptFailCallbacks(Reject(Deferred(p), error).after.promise,
                                    Reject(Deferred(q), error).after.promise)
  {
  }

  /** Settling twice re-runs the assignments and fires index 0 again, now with
      the second datum. */
  lemma DoubleResolveRefires(d: Deferred, x: Value, y: Value)
    requires |d.promise.successCallbacks| > 0
    ensures var first := Resolve(d, x);
            var second := Resolve(first.after, y);
            && first.outcome == Fired(Invoke(d.promise.successCallbacks[0], x, FirstSuccess))
            && second.outcome == Fired(Invoke(d.promise.successCallbacks[0], y, FirstSuccess))
            && second.after.promise.value == y
            && second.after.promise.status == Resolved
  {
  }

  /** A reject after a resolve overrides the status but keeps the resolved
      value, since `reject` does not assign `value`. */
  lemma RejectAfterResolveKeepsValue(d: Deferred, x: Value, e: Value)
    ensures var after := Reject(Resolve(d, x).after, e).after.promise;
            after.status == Rejected && after.value == x
  {
  }
}
