/** How an alarm returns to normal: by a clear, at once or after the off-delay. */
module AlarmEngineReturn {
  import opened AlarmTypes
  import opened AlarmEngineState
  import opened AlarmEngineStates
  import SM = Shelving
  import D = AlarmEngineOnDelay
  import T = AlarmEngineTriggers
  import E = AlarmEngineEscalation

  /** The same alarm, returned to normal with this value. */
  predicate ReturnedWith(was: AlarmEvent, ev: AlarmEvent, returnValue: real) {
    && ev.state == RtnUnack && ev.returnValue == returnValue
    && E.Kept(was, ev) && ev.shelved == was.shelved && ev.outOfService == was.outOfService
  }

  // ---- A clear ----

  predicate Clearable(e: Engine, t: nat) {
    t in e.active && !e.active[t].shelved
  }

  /** A clear ends the tag's on-delay. Without an off-delay it returns an alarm in the table that is not shelved, with
      its value; with one it starts the off-delay, unless one is running, and leaves the alarm. It does nothing else. */
  lemma ClearOutcome(e: Engine, now: int, t: nat, returnValue: real, offDelayMs: int)
    ensures var f := Apply(e, now, OpClear(t, returnValue, offDelayMs));
            && T.OnlyAt(e, f, t) && t !in f.onDelay
            && if Clearable(e, t) && offDelayMs <= 0
               then t in f.active && ReturnedWith(e.active[t], f.active[t], returnValue) && f.offDelay == e.offDelay
               else f.active == e.active &&
                    if Clearable(e, t) && t !in e.offDelay
                    then t in f.offDelay && f.offDelay[t] == OffDelayEntry(returnValue, offDelayMs, now)
                    else f.offDelay == e.offDelay
  {
  }

  // ---- Where an off-delay comes from ----

  lemma {:induction false} OnDelayTimerLeaves(e: Engine, now: int, order: seq<nat>, chattering: set<nat>)
    ensures OnDelayTimer(e, now, order, chattering).offDelay == e.offDelay
  {
    if order != [] {
      OnDelayTimerLeaves(e, now, order[..|order| - 1], chattering);
    }
  }

  lemma {:induction false} LoopsLeave(e: Engine, now: int, list: seq<nat>)
    ensures RestoreAll(e, list).offDelay == UnshelveAll(e, now, list).offDelay == e.offDelay
  {
    if list != [] {
      LoopsLeave(e, now, list[..|list| - 1]);
    }
  }

  lemma OthersLeave(e: Engine, now: int, op: Op)
    requires !op.OpTrigger? && !op.OpClear? && !op.OpOffDelayTimer?
    ensures Apply(e, now, op).offDelay == e.offDelay
  {
    match op
    case OpOnDelayTimer(order, chattering) => OnDelayTimerLeaves(e, now, order, chattering);
    case OpTick(batch, expired) =>
      LoopsLeave(TickFlood(e, now), now, batch);
      LoopsLeave(TickRestore(TickFlood(e, now), batch), now, expired);
    case _ =>
  }

  /** The off-delay timer takes every expired entry out and returns the alarm if it is live; it touches nothing else. */
  lemma {:induction false} OffDelayTimerOutcome(e: Engine, order: seq<nat>, t: nat)
    requires Distinct(order)
    ensures var f := OffDelayTimer(e, order);
            && (t in f.offDelay <==> t in e.offDelay && t !in order)
            && (t in f.offDelay ==> f.offDelay[t] == e.offDelay[t])
            && (t in f.active <==> t in e.active)
            && (t in e.active ==>
                  if t in order && t in e.offDelay && T.Active(e, t)
                  then ReturnedWith(e.active[t], f.active[t], e.offDelay[t].returnValue)
                  else f.active[t] == e.active[t])
  {
    if order != [] {
      var before, last := order[..|order| - 1], order[|order| - 1];
      OffDelayTimerOutcome(e, before, t);
      assert order == before + [last] && last !in before;
    }
  }

  predicate StartsOffDelay(e: Engine, op: Op, t: nat) {
    op.OpClear? && op.tag == t && Clearable(e, t) && op.offDelayMs > 0 && t !in e.offDelay
  }

  lemma OffEntryStep(e: Engine, now: int, op: Op, t: nat)
    requires Allowed(e, now, op) && t in Apply(e, now, op).offDelay
    ensures if StartsOffDelay(e, op, t)
            then Apply(e, now, op).offDelay[t] == OffDelayEntry(op.returnValue, op.offDelayMs, now)
            else t in e.offDelay && Apply(e, now, op).offDelay[t] == e.offDelay[t]
  {
    match op
    case OpTrigger(tag, a, ruled) => TriggerOffEntry(e, now, tag, a, ruled, t);
    case OpClear(tag, returnValue, offDelayMs) => ClearOutcome(e, now, tag, returnValue, offDelayMs);
    case OpOffDelayTimer(order) => OffDelayTimerOutcome(e, order, t);
    case _ => OthersLeave(e, now, op);
  }

  lemma TriggerOffEntry(e: Engine, now: int, tag: nat, a: Trigger, ruled: bool, t: nat)
    requires t in TriggerAlarm(e, now, tag, a, ruled).offDelay
    ensures t in e.offDelay && TriggerAlarm(e, now, tag, a, ruled).offDelay[t] == e.offDelay[t]
  {
  }

  /** An off-delay was started by one clear and has run ever since. */
  ghost predicate StartedAt(states: seq<Engine>, ops: seq<Timed>, t: nat, j: nat, k: nat)
    requires |states| == |ops| + 1 && k <= |ops|
  {
    && j < k && StartsOffDelay(states[j], ops[j].op, t)
    && forall i: nat :: j < i <= k ==>
         t in states[i].offDelay &&
         states[i].offDelay[t] == OffDelayEntry(ops[j].op.returnValue, ops[j].op.offDelayMs, ops[j].now)
  }

  lemma {:induction false} OffEntryHistory(states: seq<Engine>, ops: seq<Timed>, k: nat, t: nat) returns (j: nat)
    requires Run(states, ops) && k <= |ops| && t in states[k].offDelay
    ensures StartedAt(states, ops, t, j, k)
  {
    assert k > 0;
    var e, op, now := states[k - 1], ops[k - 1].op, ops[k - 1].now;
    assert StepAt(states, ops, k - 1);
    OffEntryStep(e, now, op, t);
    if StartsOffDelay(e, op, t) {
      j := k - 1;
    } else {
      j := OffEntryHistory(states, ops, k - 1, t);
    }
  }

  // ---- The return ----

  /** When the off-delay timer fires on a live alarm with an off-delay, the alarm returns exactly if the clear that
      started it is longer ago than its off-delay, and with that clear's value; otherwise both stay as they are. */
  lemma OffDelayReturns(states: seq<Engine>, ops: seq<Timed>, k: nat, t: nat) returns (j: nat)
    requires Run(states, ops) && k < |ops| && ops[k].op.OpOffDelayTimer?
    requires T.Active(states[k], t) && t in states[k].offDelay
    ensures StartedAt(states, ops, t, j, k)
    ensures var e, f, clear := states[k], states[k + 1], ops[j].op;
            && t in f.active
            && (f.active[t].state.RtnUnack? <==> ops[k].now - ops[j].now > clear.offDelayMs)
            && if f.active[t].state.RtnUnack?
               then ReturnedWith(e.active[t], f.active[t], clear.returnValue) && t !in f.offDelay
               else f.active[t] == e.active[t] && t in f.offDelay
  {
    var e, op, now := states[k], ops[k].op, ops[k].now;
    assert StepAt(states, ops, k);
    j := OffEntryHistory(states, ops, k, t);
    OffDelayTimerOutcome(e, op.order, t);
    assert t in op.order <==> t in OffDelayDue(e, now);
  }

  /** Without an off-delay entry the timer leaves an alarm alone. */
  lemma NoOffDelayNoReturn(e: Engine, now: int, op: Op, t: nat)
    requires Allowed(e, now, op) && op.OpOffDelayTimer? && t in e.active && t !in e.offDelay
    ensures t in Apply(e, now, op).active && Apply(e, now, op).active[t] == e.active[t]
  {
    OffDelayTimerOutcome(e, op.order, t);
  }

  predicate Expired(e: Engine, now: int, t: nat) {
    t in e.offDelay && 0 <= e.offDelay[t].offDelayMs < now - e.offDelay[t].start
  }

  /** Apart from the 10 s tick, a step returns a live alarm exactly if it is a clear without off-delay or the off-delay
      timer with the alarm's off-delay expired. */
  lemma BecomesReturned(e: Engine, now: int, op: Op, t: nat)
    requires Inv(e) && Allowed(e, now, op) && T.Active(e, t) && !op.OpTick?
    ensures var f := Apply(e, now, op);
            t in f.active && f.active[t].state.RtnUnack? <==>
            (op.OpClear? && op.tag == t && op.offDelayMs <= 0) || (op.OpOffDelayTimer? && Expired(e, now, t))
  {
    assert EventInv(e.active[t]);
    match op
    case OpTrigger(tag, a, ruled) =>
      if tag == t && !T.HeldBack(e, t, ruled) {
        T.TriggerOfActive(e, now, t, a);
      } else if tag == t {
        T.HeldBackChangesNothing(e, now, t, a, ruled);
      } else {
        E.TriggerKeeps(e, now, op, t);
      }
    case OpClear(tag, returnValue, offDelayMs) => ClearOutcome(e, now, tag, returnValue, offDelayMs);
    case OpOnDelayTimer(order, chattering) => E.OnDelayTimerOutcome(e, now, order, chattering, t);
    case OpOffDelayTimer(order) =>
      OffDelayTimerOutcome(e, order, t);
      assert t in order <==> t in OffDelayDue(e, now);
    case _ => OperatorDoesNotReturn(e, now, op, t);
  }

  lemma OperatorDoesNotReturn(e: Engine, now: int, op: Op, t: nat)
    requires T.Active(e, t) && EventInv(e.active[t]) && E.ByOperator(op) && !op.OpClear?
    ensures var f := Apply(e, now, op); t in f.active ==> !f.active[t].state.RtnUnack?
  {
  }
}
