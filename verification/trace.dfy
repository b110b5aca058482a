/** Sequences of calls on one deferred and its promise, run to completion in
    order, as a synchronous JavaScript program would make them. A fault is the
    `TypeError` thrown out of `resolve` or `reject` after the promise has been
    updated. A run records it and goes on from the updated promise, as a caller
    that catches the error and keeps using the promise does; a caller that
    lets the error escape makes the calls up to the fault, which is a run of
    that prefix. */
module Trace {
  import opened Wrappers
  import opened Oath

  /** One call by the producer or a consumer. */
  datatype Op =
    | ThenOp(success: Option<Callback>, failure: Option<Callback>)
    | CatchOp(handler: Option<Callback>)
    | ResolveOp(data: Value)
    | RejectOp(error: Value)

  /** The state after a call and what the call did: nothing visible, one
      callback invocation, or a fault. */
  datatype Effect = Quiet | Emitted(event: Event) | Threw(fault: Fault)
  datatype Step = Step(after: Deferred, effect: Effect)

  /** The state after a sequence of calls, the invocations in order, and the
      faults in order. */
  datatype Run = Run(final: Deferred, events: seq<Event>, faults: seq<Fault>)

  predicate IsRegistration(op: Op)
  {
    op.ThenOp? || op.CatchOp?
  }

  function EffectOf(o: Outcome): Effect
  {
    match o
    case Fired(e) => Emitted(e)
    case Faulted(f) => Threw(f)
  }

  /** One call applied to the shared promise. */
  function Apply(d: Deferred, op: Op): (s: Step)
    ensures IsRegistration(op) ==> s.effect.Quiet?
    ensures d.promise.successCallbacks <= s.after.promise.successCallbacks
    ensures d.promise.failCallbacks <= s.after.promise.failCallbacks
    ensures s.effect.Emitted? && s.effect.event.via == FirstSuccess ==>
      |d.promise.successCallbacks| > 0 && s.effect.event.callback == d.promise.successCallbacks[0]
  {
    match op
    case ThenOp(sc, fc) => Step(Deferred(Then(d.promise, sc, fc)), Quiet)
    case CatchOp(g) => Step(Deferred(Catch(d.promise, g)), Quiet)
    case ResolveOp(x) =>
      var s := Resolve(d, x);
      Step(s.after, EffectOf(s.outcome))
    case RejectOp(e) =>
      var s := Reject(d, e);
      Step(s.after, EffectOf(s.outcome))
  }

  /** Runs `ops` in order from `d`, continuing past faults. Both lists only
      ever grow, and invocations and faults together number at most the
      calls made. */
  function Execute(d: Deferred, ops: seq<Op>): (r: Run)
    ensures d.promise.successCallbacks <= r.final.promise.successCallbacks
    ensures d.promise.failCallbacks <= r.final.promise.failCallbacks
    ensures |r.events| + |r.faults| <= |ops|
    decreases |ops|
  {
    if |ops| == 0 then Run(d, [], [])
    else
      var s := Apply(d, ops[0]);
      var rest := Execute(s.after, ops[1..]);
      match s.effect
      case Quiet => rest
      case Emitted(e) => rest.(events := [e] + rest.events)
      case Threw(f) => rest.(faults := [f] + rest.faults)
  }

  /** The success callbacks a run of registrations adds, in call order. */
  function Successes(regs: seq<Op>): seq<Callback>
  {
    if |regs| == 0 then []
    else
      var head := if regs[0].ThenOp? && regs[0].success.Some? then [regs[0].success.value] else [];
      head + Successes(regs[1..])
  }

  /** The failure callbacks a run of registrations adds to `failCallbacks`. */
  function Failures(regs: seq<Op>): seq<Callback>
  {
    if |regs| == 0 then []
    else
      var head := if regs[0].ThenOp? && regs[0].failure.Some? then [regs[0].failure.value] else [];
      head + Failures(regs[1..])
  }

  /** The `failure` slot after a run of registrations: the argument of the
      last `catch`, or the initial slot if there is none. */
  function LastCatch(regs: seq<Op>, initial: Option<Callback>): Option<Callback>
  {
    if |regs| == 0 then initial
    else if regs[|regs| - 1].CatchOp? then regs[|regs| - 1].handler
    else LastCatch(regs[..|regs| - 1], initial)
  }

  lemma LastCatchCons(op: Op, regs: seq<Op>, initial: Option<Callback>)
    ensures LastCatch([op] + regs, initial)
         == LastCatch(regs, if op.CatchOp? then op.handler else initial)
    decreases |regs|
  {
    if |regs| > 0 {
      var all := [op] + regs;
      assert all[..|all| - 1] == [op] + regs[..|regs| - 1];
      LastCatchCons(op, regs[..|regs| - 1], initial);
    } else {
      assert ([op] + regs)[..0] == [];
    }
  }

  /** Registrations alone fire nothing and never fault; afterwards the lists
      are the old lists followed by the present arguments in call order, the
      slot holds the last `catch` argument, and status and value are as
      before. */
  lemma {:induction false} RegistrationsOnlyRecord(d: Deferred, regs: seq<Op>)
    requires forall i :: 0 <= i < |regs| ==> IsRegistration(regs[i])
    ensures var r := Execute(d, regs);
            && r.events == [] && r.faults == []
            && r.final.promise.successCallbacks == d.promise.successCallbacks + Successes(regs)
            && r.final.promise.failCallbacks == d.promise.failCallbacks + Failures(regs)
            && r.final.promise.failure == LastCatch(regs, d.promise.failure)
            && r.final.promise.status == d.promise.status
            && r.final.promise.value == d.promise.value
    decreases |regs|
  {
    if |regs| > 0 {
      var s := Apply(d, regs[0]);
      RegistrationsOnlyRecord(s.after, regs[1..]);
      LastCatchCons(regs[0], regs[1..], d.promise.failure);
      assert [regs[0]] + regs[1..] == regs;
    }
  }

  /** On a fresh promise, `resolve` after any registrations calls the first
      success callback ever registered, with the resolved datum, and nothing
      else; it faults exactly when no `then` supplied a success callback. */
  lemma FreshResolveFiresFirstRegistered(regs: seq<Op>, x: Value)
    requires forall i :: 0 <= i < |regs| ==> IsRegistration(regs[i])
    ensures var r := Execute(Defer(), regs + [ResolveOp(x)]);
            && r.final.promise.status == Resolved
            && r.final.promise.value == x
            && (|Successes(regs)| > 0 ==>
                  r.events == [Invoke(Successes(regs)[0], x, FirstSuccess)] && r.faults == [])
            && (|Successes(regs)| == 0 ==> r.events == [] && r.faults == [NoSuccessCallback])
  {
    ExecuteAppend(Defer(), regs, [ResolveOp(x)]);
    RegistrationsOnlyRecord(Defer(), regs);
  }

  /** On a fresh promise, `reject` after any registrations calls the handler
      of the last `catch`, with the error, and leaves the value undefined; it
      faults when no `catch` was made or the last one was given nothing. */
  lemma FreshRejectFiresLastCatch(regs: seq<Op>, e: Value)
    requires forall i :: 0 <= i < |regs| ==> IsRegistration(regs[i])
    ensures var r := Execute(Defer(), regs + [RejectOp(e)]);
            var g := LastCatch(regs, None);
            && r.final.promise.status == Rejected
            && r.final.promise.value == Undefined
            && (g.Some? ==> r.events == [Invoke(g.value, e, CatchSlot)] && r.faults == [])
            && (g.None? ==> r.events == [] && r.faults == [NoCatchHandler])
  {
    ExecuteAppend(Defer(), regs, [RejectOp(e)]);
    RegistrationsOnlyRecord(Defer(), regs);
  }

  /** Running `a + b` is running `a`, then running `b` from where `a` ended;
      invocations and faults are those of `a` followed by those of `b`. */
  lemma {:induction false} ExecuteAppend(d: Deferred, a: seq<Op>, b: seq<Op>)
    ensures var ra := Execute(d, a);
            var rb := Execute(ra.final, b);
            Execute(d, a + b) == Run(rb.final, ra.events + rb.events, ra.faults + rb.faults)
    decreases |a|
  {
    if |a| == 0 {
      assert a + b == b;
    } else {
      assert (a + b)[0] == a[0];
      assert (a + b)[1..] == a[1..] + b;
      var s := Apply(d, a[0]);
      ExecuteAppend(s.after, a[1..], b);
      var ra := Execute(s.after, a[1..]);
      var rb := Execute(ra.final, b);
      match s.effect
      case Quiet =>
      case Emitted(e) =>
        assert [e] + (ra.events + rb.events) == ([e] + ra.events) + rb.events;
      case Threw(f) =>
        assert [f] + (ra.faults + rb.faults) == ([f] + ra.faults) + rb.faults;
    }
  }

  /** A `resolve` that faults still leaves the promise resolved with its
      datum; a caller that catches the error, registers a callback and
      resolves again gets that callback fired with the new datum. */
  lemma ResolveAfterCaughtFault(d: Deferred, x: Value, c: Callback, y: Value)
    requires |d.promise.successCallbacks| == 0
    ensures var r := Execute(d, [ResolveOp(x), ThenOp(Some(c), None), ResolveOp(y)]);
            && r.faults == [NoSuccessCallback]
            && r.events == [Invoke(c, y, FirstSuccess)]
            && r.final.promise.value == y
            && r.final.promise.status == Resolved
  {
    var ops := [ResolveOp(x), ThenOp(Some(c), None), ResolveOp(y)];
    assert ops == [ResolveOp(x)] + [ThenOp(Some(c), None)] + [ResolveOp(y)];
    ExecuteAppend(d, [ResolveOp(x)] + [ThenOp(Some(c), None)], [ResolveOp(y)]);
    ExecuteAppend(d, [ResolveOp(x)], [ThenOp(Some(c), None)]);
  }

  /** Every invocation made by a `resolve` in `r` names the first element of
      the final success list. */
  predicate OnlyFirstSuccess(r: Run)
  {
    forall i :: 0 <= i < |r.events| && r.events[i].via == FirstSuccess ==>
      |r.final.promise.successCallbacks| > 0
      && r.events[i].callback == r.final.promise.successCallbacks[0]
  }

  /** Only index 0 of the success list is ever called by `resolve`: in any run, every
      invocation made by a `resolve` names the first element of the final
      list, so callbacks registered later are never reached. */
  lemma {:induction false} OnlyFirstSuccessFires(d: Deferred, ops: seq<Op>)
    ensures OnlyFirstSuccess(Execute(d, ops))
    decreases |ops|
  {
    if |ops| > 0 {
      var s := Apply(d, ops[0]);
      OnlyFirstSuccessFires(s.after, ops[1..]);
      var rest := Execute(s.after, ops[1..]);
      var r := Execute(d, ops);
      if s.effect.Emitted? {
        assert r.events == [s.effect.event] + rest.events && r.final == rest.final;
        forall i | 0 <= i < |r.events| && r.events[i].via == FirstSuccess
          ensures |r.final.promise.successCallbacks| > 0
          ensures r.events[i].callback == r.final.promise.successCallbacks[0]
        {
          if i > 0 {
            assert r.events[i] == rest.events[i - 1];
          } else {
            // the list only grew, so its first element is still the one that fired
            assert d.promise.successCallbacks <= rest.final.promise.successCallbacks;
          }
        }
      }
    }
  }

  /** A success callback that sits behind index 0, and is not also the first
      one, is never called by a `resolve` in any run. */
  lemma LaterSuccessNeverInvoked(d: Deferred, ops: seq<Op>, k: nat)
    requires var r := Execute(d, ops);
             0 < k < |r.final.promise.successCallbacks|
             && r.final.promise.successCallbacks[k] != r.final.promise.successCallbacks[0]
    ensures var r := Execute(d, ops);
            forall i :: 0 <= i < |r.events| && r.events[i].via == FirstSuccess ==>
              r.events[i].callback != r.final.promise.successCallbacks[k]
  {
    OnlyFirstSuccessFires(d, ops);
  }

  /** `failCallbacks` is never consulted: two runs from promises that differ
      only there fire the same callbacks and fault the same way, and still
      differ only there. */
  lemma {:induction false} FailCallbacksNeverConsulted(d: Deferred, e: Deferred, ops: seq<Op>)
    requires SameExceptFailCallbacks(d.promise, e.promise)
    ensures var rd := Execute(d, ops);
            var re := Execute(e, ops);
            && rd.events == re.events
            && rd.faults == re.faults
            && SameExceptFailCallbacks(rd.final.promise, re.final.promise)
    decreases |ops|
  {
    if |ops| > 0 {
      var sd := Apply(d, ops[0]);
      var se := Apply(e, ops[0]);
      if ops[0].RejectOp? {
        RejectIgnoresFailCallbacks(d.promise, e.promise, ops[0].error);
      }
      assert sd.effect == se.effect;
      FailCallbacksNeverConsulted(sd.after, se.after, ops[1..]);
    }
  }
}
