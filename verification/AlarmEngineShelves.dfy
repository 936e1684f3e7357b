/** Shelving an alarm for a while: how long it stays shelved, and that the 10 s tick lifts the shelve. */
module AlarmEngineShelves {
  import opened AlarmTypes
  import opened AlarmEngineState
  import opened AlarmEngineStates
  import opened Wrappers
  import FD = FloodDetection
  import SM = Shelving
  import D = AlarmEngineOnDelay
  import E = AlarmEngineEscalation
  import T = AlarmEngineTriggers

  // ---- What a tick does to one shelved alarm ----

  /** The shelve has run out: it has a deadline, which has come, and it is not an automatic shelve of a tag that has
      been shelved three times in a row. */
  predicate RunOut(e: Engine, now: int, t: nat) {
    && t in e.shelves.deadlines && 0 < e.shelves.deadlines[t] <= now
    && !(t in e.shelves.isAuto && e.shelves.isAuto[t] && t in e.shelves.counts && e.shelves.counts[t] >= 3)
  }

  lemma ExpiredAreRunOut(e: Engine, now: int, op: Op, t: nat)
    requires op.OpTick? && Allowed(e, now, op)
    ensures t in op.expired <==> RunOut(e, now, t)
  {
    assert t in op.expired <==> t in SM.Expired(e.shelves, now, e.shelves.deadlines.Keys);
  }

  lemma {:induction false} UnshelveAllLifts(e: Engine, now: int, tags: seq<nat>, t: nat)
    requires t in tags
    ensures var f := UnshelveAll(e, now, tags);
            && t !in f.suppressed && t !in f.shelves.deadlines && (t in f.active <==> t in e.active)
            && (t in e.active ==>
                  if e.active[t].shelved
                  then f.active[t] == e.active[t].(shelved := false, state := Resumed(e.active[t].state))
                  else f.active[t] == e.active[t])
  {
    var before, last := tags[..|tags| - 1], tags[|tags| - 1];
    assert tags == before + [last];
    if t in before {
      UnshelveAllLifts(e, now, before, t);
    } else {
      E.UnshelveAllOthers(e, now, before, t);
    }
  }

  /** The tick unshelves a shelved alarm exactly if its shelve has run out or the recovery restores it. A restored alarm
      is in its saved state, one whose shelve has run out is returned, unacknowledged; any other stays as it is. */
  lemma TickLifts(e: Engine, now: int, op: Op, t: nat)
    requires Inv(e) && op.OpTick? && Allowed(e, now, op) && t in e.active && e.active[t].shelved
    ensures var f, g := Apply(e, now, op), TickFlood(e, now);
            var restored := g.recovering && t in op.batch;
            && t in f.active && (!f.active[t].shelved <==> RunOut(e, now, t) || restored)
            && (RunOut(e, now, t) ==> t !in f.suppressed && t !in f.shelves.deadlines)
            && if restored then t in g.pending && f.active[t] == e.active[t].(shelved := false, state := g.pending[t])
               else if RunOut(e, now, t) then f.active[t] == e.active[t].(shelved := false, state := RtnUnack)
               else f.active[t] == e.active[t]
  {
    var g := TickFlood(e, now);
    var h := TickRestore(g, op.batch);
    assert EventInv(e.active[t]);
    assert t in g.active && g.active[t] == e.active[t];
    ExpiredAreRunOut(e, now, op, t);
    E.TickRestoreOutcome(g, op.batch, t);
    if t in op.expired {
      UnshelveAllLifts(h, now, op.expired, t);
    } else {
      E.UnshelveAllOthers(h, now, op.expired, t);
    }
  }

  /** An automatic shelve whose end has come for the third time in a row or more is not lifted but goes on for 600 s. */
  predicate GoesOn(e: Engine, now: int, t: nat) {
    && t in e.shelves.deadlines && 0 < e.shelves.deadlines[t] <= now
    && t in e.shelves.isAuto && e.shelves.isAuto[t] && t in e.shelves.counts && e.shelves.counts[t] >= 3
  }

  lemma {:induction false} UnshelveAllCounts(e: Engine, now: int, tags: seq<nat>)
    ensures UnshelveAll(e, now, tags).shelves.counts == e.shelves.counts
  {
    if tags != [] {
      UnshelveAllCounts(e, now, tags[..|tags| - 1]);
    }
  }

  lemma {:induction false} RestoreAllShelves(e: Engine, batch: seq<nat>)
    ensures RestoreAll(e, batch).shelves == e.shelves
  {
    if batch != [] {
      RestoreAllShelves(e, batch[..|batch| - 1]);
    }
  }

  /** What the tick does to a deadline: one that has not come stays, a shelve that goes on gets 600 s more and one
      strike more, and any other that has come is gone. */
  lemma TickDeadlines(e: Engine, now: int, op: Op, t: nat)
    requires op.OpTick? && Allowed(e, now, op) && t in e.shelves.deadlines && 0 < e.shelves.deadlines[t]
    ensures var s, u := e.shelves, Apply(e, now, op).shelves;
            && (t in u.deadlines <==> !RunOut(e, now, t))
            && (t in u.deadlines ==>
                  u.deadlines[t] == if GoesOn(e, now, t) then now + 600000 else s.deadlines[t])
            && (GoesOn(e, now, t) ==> t in u.counts && u.counts[t] == s.counts[t] + 1)
  {
    var g := TickFlood(e, now);
    var h := TickRestore(g, op.batch);
    RestoreAllShelves(g, op.batch);
    assert h.shelves == SM.Expire(e.shelves, now);
    ExpiredAreRunOut(e, now, op, t);
    UnshelveAllCounts(h, now, op.expired);
    if t in op.expired {
      UnshelveAllLifts(h, now, op.expired, t);
    } else {
      E.UnshelveAllOthers(h, now, op.expired, t);
    }
  }

  // ---- A shelve over a run ----

  /** The alarm is shelved, with nothing else waiting for it, until the deadline; without one, for good. */
  ghost predicate Held(e: Engine, t: nat, deadline: Option<int>) {
    && t in e.active && e.active[t].shelved && e.active[t].state.Shelved?
    && t !in e.onDelay && t !in e.suppressed && t !in e.pending
    && match deadline
       case None => t !in e.shelves.deadlines
       case Some(d) =>
         && d > 0 && t in e.shelves.deadlines && e.shelves.deadlines[t] == d
         && t in e.shelves.isAuto && !e.shelves.isAuto[t]
  }

  /** An operator changes the alarm's shelving or its state by hand. */
  predicate Overrides(op: Op, t: nat) {
    match op
    case OpShelve(tag, _) => tag == t
    case OpUnshelve(tag) => tag == t
    case OpSuppress(tag) => tag == t
    case OpUnsuppress(tag) => tag == t
    case OpOutOfService(tag) => tag == t
    case OpReturnToService(tag) => tag == t
    case _ => false
  }

  predicate Reached(deadline: Option<int>, now: int) {
    deadline.Some? && deadline.value <= now
  }

  lemma FireOnDelayHeld(e: Engine, now: int, tag: nat, chatters: bool, t: nat, deadline: Option<int>)
    requires Held(e, t, deadline) && tag != t
    ensures Held(FireOnDelay(e, now, tag, chatters), t, deadline)
  {
    if tag in e.onDelay {
      var d, e1 := e.onDelay[tag], e.(onDelay := e.onDelay - {tag});
      var r := Raise(e1, now, tag, d).(flood := FD.Record(e1.flood, now, d.priority));
      assert Held(r, t, deadline);
      CheckFloodHeld(r, now, t, deadline);
    }
  }

  lemma CheckFloodHeld(e: Engine, now: int, t: nat, deadline: Option<int>)
    requires Held(e, t, deadline)
    ensures Held(CheckFlood(e, now), t, deadline) && CheckFlood(e, now).active[t] == e.active[t]
  {
  }

  lemma {:induction false} OnDelayTimerHeld(e: Engine, now: int, order: seq<nat>, chattering: set<nat>, t: nat,
                                            deadline: Option<int>)
    requires Held(e, t, deadline) && t !in order
    ensures Held(OnDelayTimer(e, now, order, chattering), t, deadline)
  {
    if order != [] {
      var before, last := order[..|order| - 1], order[|order| - 1];
      OnDelayTimerHeld(e, now, before, chattering, t, deadline);
      FireOnDelayHeld(OnDelayTimer(e, now, before, chattering), now, last, last in chattering, t, deadline);
    }
  }

  lemma {:induction false} OffDelayTimerHeld(e: Engine, order: seq<nat>, t: nat, deadline: Option<int>)
    requires Held(e, t, deadline)
    ensures Held(OffDelayTimer(e, order), t, deadline)
  {
    if order != [] {
      OffDelayTimerHeld(e, order[..|order| - 1], t, deadline);
    }
  }

  lemma TickHeld(e: Engine, now: int, op: Op, t: nat, deadline: Option<int>)
    requires Held(e, t, deadline) && op.OpTick? && Allowed(e, now, op) && !Reached(deadline, now)
    ensures Held(Apply(e, now, op), t, deadline)
  {
    var s := e.(shelves := SM.Expire(e.shelves, now), flood := FD.CheckExpired(e.flood, now));
    assert Held(s, t, deadline);
    CheckFloodHeld(s, now, t, deadline);
    var g := TickFlood(e, now);
    ExpiredAreRunOut(e, now, op, t);
    E.TickRestoreOutcome(g, op.batch, t);
    E.RestoreAllOthers(g, op.batch, t);
    E.UnshelveAllOthers(TickRestore(g, op.batch), now, op.expired, t);
    assert Held(TickRestore(g, op.batch), t, deadline);
  }

  lemma ShelveOther(s: SM.Shelves, now: int, tag: nat, durationSec: int, auto: bool, t: nat)
    requires t != tag
    ensures var r := SM.Shelve(s, now, tag, durationSec, auto);
            && (t in r.deadlines <==> t in s.deadlines) && (t in s.deadlines ==> r.deadlines[t] == s.deadlines[t])
            && (t in r.isAuto <==> t in s.isAuto) && (t in s.isAuto ==> r.isAuto[t] == s.isAuto[t])
  {
  }

  lemma ShelveHeld(e: Engine, now: int, tag: nat, durationSec: int, t: nat, deadline: Option<int>)
    requires Held(e, t, deadline) && tag != t
    ensures Held(ShelveAlarm(e, now, tag, durationSec), t, deadline)
  {
    ShelveOther(e.shelves, now, tag, durationSec, false, t);
  }

  lemma UnshelveHeld(e: Engine, now: int, tag: nat, t: nat, deadline: Option<int>)
    requires Held(e, t, deadline) && tag != t
    ensures Held(UnshelveAlarm(e, now, tag), t, deadline)
  {
    assert UnshelveAll(e, now, [tag]) == UnshelveAlarm(e, now, tag) by {
      assert [tag][..0] == [];
    }
    E.UnshelveAllOthers(e, now, [tag], t);
  }

  lemma SuppressionHeld(e: Engine, tag: nat, t: nat, deadline: Option<int>)
    requires Held(e, t, deadline) && tag != t
    ensures Held(SuppressByDesign(e, tag), t, deadline) && Held(UnsuppressByDesign(e, tag), t, deadline)
  {
  }

  lemma ServiceHeld(e: Engine, tag: nat, t: nat, deadline: Option<int>)
    requires Held(e, t, deadline) && tag != t
    ensures Held(TakeOutOfService(e, tag), t, deadline) && Held(ReturnToService(e, tag), t, deadline)
  {
  }

  lemma AcknowledgeHeld(e: Engine, tag: nat, t: nat, deadline: Option<int>)
    requires Held(e, t, deadline)
    ensures Held(Acknowledge(e, tag), t, deadline) && Held(AcknowledgeAll(e), t, deadline)
    ensures Held(AcknowledgeReturn(e, tag), t, deadline) && Held(AcknowledgeAllReturns(e), t, deadline)
  {
  }

  lemma ClearHeld(e: Engine, now: int, tag: nat, returnValue: real, offDelayMs: int, t: nat, deadline: Option<int>)
    requires Held(e, t, deadline)
    ensures Held(ClearAlarm(e, now, tag, returnValue, offDelayMs), t, deadline)
  {
  }

  lemma OperatorHeld(e: Engine, now: int, op: Op, t: nat, deadline: Option<int>)
    requires Held(e, t, deadline) && E.ByOperator(op) && !Overrides(op, t)
    ensures Held(Apply(e, now, op), t, deadline)
  {
    match op
    case OpShelve(tag, durationSec) => ShelveHeld(e, now, tag, durationSec, t, deadline);
    case OpUnshelve(tag) => UnshelveHeld(e, now, tag, t, deadline);
    case OpSuppress(tag) => SuppressionHeld(e, tag, t, deadline);
    case OpUnsuppress(tag) => SuppressionHeld(e, tag, t, deadline);
    case OpOutOfService(tag) => ServiceHeld(e, tag, t, deadline);
    case OpReturnToService(tag) => ServiceHeld(e, tag, t, deadline);
    case OpAcknowledge(tag) => AcknowledgeHeld(e, tag, t, deadline);
    case OpAcknowledgeReturn(tag) => AcknowledgeHeld(e, tag, t, deadline);
    case OpClear(tag, returnValue, offDelayMs) => ClearHeld(e, now, tag, returnValue, offDelayMs, t, deadline);
    case _ => AcknowledgeHeld(e, t, t, deadline);
  }

  lemma StepHeld(e: Engine, now: int, op: Op, t: nat, deadline: Option<int>)
    requires Held(e, t, deadline) && Allowed(e, now, op) && !Overrides(op, t)
    requires op.OpTick? ==> !Reached(deadline, now)
    ensures Held(Apply(e, now, op), t, deadline)
  {
    match op
    case OpTrigger(tag, a, ruled) =>
      if tag == t {
        T.HeldBackChangesNothing(e, now, t, a, ruled);
      } else {
        TriggerHeld(e, now, tag, a, ruled, t, deadline);
      }
    case OpOnDelayTimer(order, chattering) => OnDelayTimerHeld(e, now, order, chattering, t, deadline);
    case OpOffDelayTimer(order) => OffDelayTimerHeld(e, order, t, deadline);
    case OpTick(_, _) => TickHeld(e, now, op, t, deadline);
    case _ => OperatorHeld(e, now, op, t, deadline);
  }

  lemma TriggerHeld(e: Engine, now: int, tag: nat, a: Trigger, ruled: bool, t: nat, deadline: Option<int>)
    requires Held(e, t, deadline) && tag != t
    ensures Held(TriggerAlarm(e, now, tag, a, ruled), t, deadline)
  {
    if T.HeldBack(e, tag, ruled) {
      T.HeldBackChangesNothing(e, now, tag, a, ruled);
    } else if T.Active(e, tag) {
      T.TriggerOfActive(e, now, tag, a);
    } else if T.HasReturned(e, tag) {
      T.TriggerOfReturned(e, now, tag, a);
    } else {
      T.TriggerOfOther(e, now, tag, a);
    }
  }

  /** When the shelve ends: after the seconds asked for; at the next tick for a negative number; never for 0. */
  function DeadlineOf(now: int, durationSec: int): Option<int> {
    if durationSec > 0 then Some(now + 1000 * durationSec) else if durationSec < 0 then Some(1) else None
  }

  /** An alarm in the table with no on-delay and no flood's mark on it is shelved at step s, and no operator handles it
      after that before step k. */
  ghost predicate ShelvedSince(states: seq<Engine>, ops: seq<Timed>, t: nat, durationSec: int, s: nat, k: nat) {
    && Run(states, ops) && s < k <= |ops| && ops[s].op == OpShelve(t, durationSec)
    && t in states[s].active && t !in states[s].onDelay && t !in states[s].suppressed && t !in states[s].pending
    && forall m: nat :: s < m < k ==> !Overrides(ops[m].op, t)
  }

  /** As long as no tick comes at or after the deadline the alarm stays shelved, whatever triggers, clears, timers and
      floods there are. */
  lemma {:induction false} ShelveHolds(states: seq<Engine>, ops: seq<Timed>, t: nat, durationSec: int, s: nat, k: nat)
    requires ShelvedSince(states, ops, t, durationSec, s, k)
    requires forall m: nat :: s < m < k && ops[m].op.OpTick? ==>
               !Reached(DeadlineOf(ops[s].now, durationSec), ops[m].now)
    ensures Held(states[k], t, DeadlineOf(ops[s].now, durationSec))
    decreases k
  {
    assert StepAt(states, ops, k - 1);
    if k - 1 == s {
      assert 0 < ops[s].now;
    } else {
      ShelveHolds(states, ops, t, durationSec, s, k - 1);
      StepHeld(states[k - 1], ops[k - 1].now, ops[k - 1].op, t, DeadlineOf(ops[s].now, durationSec));
    }
  }

  /** The tick at step k, with no earlier one at or after the deadline, unshelves the alarm exactly if it is itself at
      or after the deadline; the alarm is then returned, unacknowledged, and has no deadline left. */
  lemma ShelveEnds(states: seq<Engine>, ops: seq<Timed>, t: nat, durationSec: int, s: nat, k: nat)
    requires ShelvedSince(states, ops, t, durationSec, s, k) && k < |ops| && ops[k].op.OpTick?
    requires forall m: nat :: s < m < k && ops[m].op.OpTick? ==>
               !Reached(DeadlineOf(ops[s].now, durationSec), ops[m].now)
    ensures var e, f := states[k], states[k + 1];
            && t in e.active && e.active[t].state.Shelved? && e.active[t].shelved && t in f.active
            && (!f.active[t].shelved <==> Reached(DeadlineOf(ops[s].now, durationSec), ops[k].now))
            && (!f.active[t].shelved ==> f.active[t].state.RtnUnack? && t !in f.shelves.deadlines)
            && (f.active[t].shelved ==> f.active[t] == e.active[t])
  {
    var e, op, now := states[k], ops[k].op, ops[k].now;
    ShelveHolds(states, ops, t, durationSec, s, k);
    assert StepAt(states, ops, k);
    RunInv(states, ops, k);
    assert t !in TickFlood(e, now).pending;
    TickLifts(e, now, op, t);
  }
}
