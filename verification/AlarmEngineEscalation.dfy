/** What a raised alarm shows while it stays active, and how it comes to count as acknowledged. */
module AlarmEngineEscalation {
  import opened AlarmTypes
  import opened AlarmEngineState
  import opened AlarmEngineStates
  import FD = FloodDetection
  import SM = Shelving
  import D = AlarmEngineOnDelay
  import F = AlarmEngineFlood
  import T = AlarmEngineTriggers

  predicate Active(e: Engine, t: nat) {
    T.Active(e, t)
  }

  predicate Unacked(e: Engine, t: nat) {
    t in e.active && e.active[t].state.ActiveUnack?
  }

  predicate Acked(e: Engine, t: nat) {
    t in e.active && e.active[t].state.ActiveAck?
  }

  /** The same raise of the same alarm: it was neither escalated nor raised anew. */
  predicate SameRaise(a: AlarmEvent, b: AlarmEvent) {
    a.alarmId == b.alarmId && a.limit == b.limit && a.priority == b.priority && a.thresholdValue == b.thresholdValue &&
    a.triggerTime == b.triggerTime && a.repeatCount == b.repeatCount
  }

  /** The same with the same value: at most its state, its flags and its return value differ. */
  predicate Kept(a: AlarmEvent, b: AlarmEvent) {
    SameRaise(a, b) && a.triggerValue == b.triggerValue
  }

  predicate Reaches(e: Engine, op: Op, t: nat) {
    op.OpTrigger? && op.tag == t && !Blocked(e, t, op.ruled)
  }

  predicate Acknowledges(op: Op, t: nat) {
    op == OpAcknowledge(t) || op == OpAcknowledgeAll
  }

  // ---- One step ----

  /** What an on-delay expiry leaves of alarm t: the alarm as it was or put aside, or an event raised just now. */
  predicate KeptOrRaised(e: Engine, f: Engine, t: nat) {
    && e.alarmCounter <= f.alarmCounter && (t in e.active ==> t in f.active)
    && (t in f.active ==>
          var ev := f.active[t];
          || (t in e.active && Kept(e.active[t], ev) && (ev.state == e.active[t].state || ev.state.Shelved?))
          || (e.alarmCounter < ev.alarmId <= f.alarmCounter && (ev.state.ActiveUnack? || ev.state.Shelved?)))
  }

  lemma FireOnDelayOutcome(e: Engine, now: int, tag: nat, chatters: bool, t: nat)
    ensures KeptOrRaised(e, FireOnDelay(e, now, tag, chatters), t)
  {
    if tag in e.onDelay {
      var d, e1 := e.onDelay[tag], e.(onDelay := e.onDelay - {tag});
      D.CheckFloodKeeps(Raise(e1, now, tag, d).(flood := FD.Record(e1.flood, now, d.priority)), now, t);
    }
  }

  lemma {:induction false} OnDelayTimerOutcome(e: Engine, now: int, order: seq<nat>, chattering: set<nat>, t: nat)
    ensures KeptOrRaised(e, OnDelayTimer(e, now, order, chattering), t)
  {
    if order != [] {
      var before, last := order[..|order| - 1], order[|order| - 1];
      OnDelayTimerOutcome(e, now, before, chattering, t);
      FireOnDelayOutcome(OnDelayTimer(e, now, before, chattering), now, last, last in chattering, t);
    }
  }

  lemma {:induction false} OffDelayTimerKeeps(e: Engine, order: seq<nat>, t: nat)
    requires t in e.active
    ensures var f := OffDelayTimer(e, order);
            t in f.active && Kept(e.active[t], f.active[t]) && f.alarmCounter == e.alarmCounter &&
            (f.active[t].state == e.active[t].state || f.active[t].state.RtnUnack?)
  {
    if order != [] {
      OffDelayTimerKeeps(e, order[..|order| - 1], t);
    }
  }

  lemma {:induction false} UnshelveAllKeeps(e: Engine, now: int, tags: seq<nat>, t: nat)
    requires t in e.active
    ensures var f := UnshelveAll(e, now, tags);
            && t in f.active && Kept(e.active[t], f.active[t])
            && (f.active[t].state == e.active[t].state || f.active[t].state == Resumed(e.active[t].state))
            && (!e.active[t].shelved || t !in tags ==> f.active[t] == e.active[t])
  {
    if tags != [] {
      UnshelveAllKeeps(e, now, tags[..|tags| - 1], t);
      assert tags == tags[..|tags| - 1] + [tags[|tags| - 1]];
    }
  }

  /** The loops of the tick leave every other tag's alarm, marks and deadline alone. */
  ghost predicate SameAt(e: Engine, f: Engine, t: nat) {
    && (t in f.active <==> t in e.active) && (t in e.active ==> f.active[t] == e.active[t])
    && (t in f.onDelay <==> t in e.onDelay) && (t in f.suppressed <==> t in e.suppressed)
    && (t in f.pending <==> t in e.pending)
    && (t in f.shelves.deadlines <==> t in e.shelves.deadlines)
    && (t in e.shelves.deadlines ==> f.shelves.deadlines[t] == e.shelves.deadlines[t])
    && (t in f.shelves.isAuto <==> t in e.shelves.isAuto)
    && (t in e.shelves.isAuto ==> f.shelves.isAuto[t] == e.shelves.isAuto[t])
  }

  lemma {:induction false} UnshelveAllOthers(e: Engine, now: int, tags: seq<nat>, t: nat)
    requires t !in tags
    ensures SameAt(e, UnshelveAll(e, now, tags), t)
  {
    if tags != [] {
      UnshelveAllOthers(e, now, tags[..|tags| - 1], t);
    }
  }

  lemma {:induction false} RestoreAllOthers(e: Engine, batch: seq<nat>, t: nat)
    requires t !in e.pending
    ensures SameAt(e, RestoreAll(e, batch), t)
  {
    if batch != [] {
      RestoreAllOthers(e, batch[..|batch| - 1], t);
    }
  }

  lemma TickRestoreOutcome(g: Engine, batch: seq<nat>, t: nat)
    requires t in g.active && (g.recovering ==> ValidBatch(g, batch))
    ensures var h := TickRestore(g, batch);
            t in h.active && if g.recovering && t in batch
                             then t in g.pending && h.active[t] == g.active[t].(shelved := false, state := g.pending[t])
                             else h.active[t] == g.active[t]
  {
    if g.recovering {
      F.TickRestores(g, batch);
    }
  }

  /** Restored by the tick: the saved state, whatever the state was. Otherwise the alarm stays, is put aside by the
      flood, or is unshelved. */
  lemma TickOutcome(e: Engine, now: int, batch: seq<nat>, expired: seq<nat>, t: nat)
    requires t in e.active && Allowed(e, now, OpTick(batch, expired))
    ensures var f, g := Tick(e, now, batch, expired), TickFlood(e, now);
            && t in f.active && Kept(e.active[t], f.active[t])
            && if g.recovering && t in batch
               then t in g.pending && f.active[t] == e.active[t].(shelved := false, state := g.pending[t])
               else f.active[t].state in {e.active[t].state, Shelved, Resumed(e.active[t].state), RtnUnack} &&
                    (t !in expired ==> t in g.active && f.active[t] == g.active[t])
  {
    var g := TickFlood(e, now);
    D.CheckFloodKeeps(e.(shelves := SM.Expire(e.shelves, now), flood := FD.CheckExpired(e.flood, now)), now, t);
    TickRestoreOutcome(g, batch, t);
    UnshelveAllKeeps(TickRestore(g, batch), now, expired, t);
  }

  lemma TriggerKeeps(e: Engine, now: int, op: Op, t: nat)
    requires t in e.active && op.OpTrigger? && !Reaches(e, op, t)
    ensures t in Apply(e, now, op).active && Apply(e, now, op).active[t] == e.active[t]
  {
    if op.tag == t {
      assert Apply(e, now, op) == e;
    }
  }

  predicate ByOperator(op: Op) {
    !op.OpTrigger? && !op.OpOnDelayTimer? && !op.OpOffDelayTimer? && !op.OpTick?
  }

  /** No alarm but one that was there, and none newly acknowledged. */
  predicate Undisturbed(e: Engine, f: Engine, t: nat) {
    t in f.active ==> t in e.active && Kept(e.active[t], f.active[t]) && (Acked(f, t) ==> Acked(e, t))
  }

  lemma ShelveKeeps(e: Engine, now: int, tag: nat, durationSec: int, t: nat)
    ensures Undisturbed(e, ShelveAlarm(e, now, tag, durationSec), t)
  {
  }

  lemma SuppressionKeeps(e: Engine, tag: nat, t: nat)
    ensures Undisturbed(e, SuppressByDesign(e, tag), t) && Undisturbed(e, UnsuppressByDesign(e, tag), t)
  {
  }

  lemma UnshelveKeeps(e: Engine, now: int, tag: nat, t: nat)
    ensures Undisturbed(e, UnshelveAlarm(e, now, tag), t)
  {
  }

  lemma ServiceKeeps(e: Engine, tag: nat, t: nat)
    ensures Undisturbed(e, TakeOutOfService(e, tag), t) && Undisturbed(e, ReturnToService(e, tag), t)
  {
  }

  lemma ReturnAckKeeps(e: Engine, tag: nat, t: nat)
    ensures Undisturbed(e, AcknowledgeReturn(e, tag), t) && Undisturbed(e, AcknowledgeAllReturns(e), t)
  {
  }

  lemma ClearKeeps(e: Engine, now: int, tag: nat, returnValue: real, offDelayMs: int, t: nat)
    ensures Undisturbed(e, ClearAlarm(e, now, tag, returnValue, offDelayMs), t)
  {
  }

  lemma AcknowledgeKeeps(e: Engine, tag: nat, t: nat)
    requires t in e.active
    ensures var f := Acknowledge(e, tag);
            t in f.active && Kept(e.active[t], f.active[t]) &&
            (Acked(f, t) <==> Acked(e, t) || (Unacked(e, t) && tag == t))
  {
  }

  lemma AcknowledgeAllKeeps(e: Engine, t: nat)
    requires t in e.active
    ensures var f := AcknowledgeAll(e);
            t in f.active && Kept(e.active[t], f.active[t]) && (Acked(f, t) <==> Acked(e, t) || Unacked(e, t))
  {
  }

  lemma OperatorKeeps(e: Engine, now: int, op: Op, t: nat)
    requires t in Apply(e, now, op).active && ByOperator(op)
    ensures t in e.active && Kept(e.active[t], Apply(e, now, op).active[t])
    ensures Acked(Apply(e, now, op), t) ==> Acked(e, t) || (Unacked(e, t) && Acknowledges(op, t))
    ensures Unacked(e, t) && Acknowledges(op, t) ==> Acked(Apply(e, now, op), t)
  {
    match op
    case OpClear(tag, returnValue, offDelayMs) => ClearKeeps(e, now, tag, returnValue, offDelayMs, t);
    case OpAcknowledge(tag) => AcknowledgeKeeps(e, tag, t);
    case OpAcknowledgeAll => AcknowledgeAllKeeps(e, t);
    case OpAcknowledgeReturn(tag) => ReturnAckKeeps(e, tag, t);
    case OpAcknowledgeAllReturns => ReturnAckKeeps(e, t, t);
    case OpShelve(tag, durationSec) => ShelveKeeps(e, now, tag, durationSec, t);
    case OpUnshelve(tag) => UnshelveKeeps(e, now, tag, t);
    case OpSuppress(tag) => SuppressionKeeps(e, tag, t);
    case OpUnsuppress(tag) => SuppressionKeeps(e, tag, t);
    case OpOutOfService(tag) => ServiceKeeps(e, tag, t);
    case OpReturnToService(tag) => ServiceKeeps(e, tag, t);
  }

  // ---- Identities ----

  /** Every alarm has an id handed out before. */
  ghost predicate IdsIssued(e: Engine) {
    forall t :: t in e.active ==> e.active[t].alarmId <= e.alarmCounter
  }

  lemma {:induction false} CountersStay(e: Engine, now: int, list: seq<nat>)
    ensures OffDelayTimer(e, list).alarmCounter == RestoreAll(e, list).alarmCounter ==
            UnshelveAll(e, now, list).alarmCounter == e.alarmCounter
  {
    if list != [] {
      CountersStay(e, now, list[..|list| - 1]);
    }
  }

  lemma CounterGrows(e: Engine, now: int, op: Op)
    requires !op.OpOnDelayTimer?
    ensures Apply(e, now, op).alarmCounter == e.alarmCounter
  {
    match op
    case OpOffDelayTimer(order) => CountersStay(e, now, order);
    case OpTick(batch, expired) =>
      CountersStay(TickFlood(e, now), now, batch);
      CountersStay(TickRestore(TickFlood(e, now), batch), now, expired);
    case _ =>
  }

  lemma TriggerSameId(e: Engine, now: int, tag: nat, a: Trigger, ruled: bool, t: nat)
    requires t in TriggerAlarm(e, now, tag, a, ruled).active
    ensures t in e.active && TriggerAlarm(e, now, tag, a, ruled).active[t].alarmId == e.active[t].alarmId
  {
    if Blocked(e, tag, ruled) || Accepts(e, tag, ruled) {
      assert TriggerAlarm(e, now, tag, a, ruled).active == e.active;
    }
  }

  lemma SameId(e: Engine, now: int, op: Op, t: nat)
    requires Allowed(e, now, op) && !op.OpOnDelayTimer? && t in Apply(e, now, op).active
    ensures t in e.active && Apply(e, now, op).active[t].alarmId == e.active[t].alarmId
  {
    match op
    case OpTrigger(tag, args, ruled) => TriggerSameId(e, now, tag, args, ruled, t);
    case OpOffDelayTimer(order) =>
      D.OtherOpsEffect(e, now, op, t);
      OffDelayTimerKeeps(e, order, t);
    case OpTick(batch, expired) =>
      D.OtherOpsEffect(e, now, op, t);
      TickOutcome(e, now, batch, expired, t);
    case _ => OperatorKeeps(e, now, op, t);
  }

  lemma {:induction false} RunIds(states: seq<Engine>, ops: seq<Timed>, k: nat)
    requires Run(states, ops) && k <= |ops|
    ensures IdsIssued(states[k])
  {
    if k > 0 {
      RunIds(states, ops, k - 1);
      var e, now, op := states[k - 1], ops[k - 1].now, ops[k - 1].op;
      assert StepAt(states, ops, k - 1);
      forall t | t in states[k].active ensures states[k].active[t].alarmId <= states[k].alarmCounter {
        if op.OpOnDelayTimer? {
          OnDelayTimerOutcome(e, now, op.order, op.chattering, t);
        } else {
          CounterGrows(e, now, op);
          SameId(e, now, op, t);
        }
      }
    }
  }

  // ---- While the alarm stays active ----

  /** One alarm, known by its id, that is active at i and that no step up to k, other than a trigger that reaches it,
      makes inactive or raises anew. */
  ghost predicate ActiveThroughout(states: seq<Engine>, ops: seq<Timed>, t: nat, i: nat, k: nat) {
    && Run(states, ops) && i <= k <= |ops| && Active(states[i], t)
    && (forall m: nat :: i <= m < k && !Reaches(states[m], ops[m].op, t) ==>
          Active(states[m + 1], t) && states[m + 1].active[t].alarmId == states[i].active[t].alarmId)
  }

  /** The triggers of the tag at steps i..k that were not held back. */
  function Triggers(states: seq<Engine>, ops: seq<Timed>, t: nat, i: nat, k: nat): seq<Trigger>
    requires i <= k <= |ops| && |states| == |ops| + 1
  {
    if i == k then []
    else Triggers(states, ops, t, i, k - 1) +
         if Reaches(states[k - 1], ops[k - 1].op, t) then [ops[k - 1].op.args] else []
  }

  /** Trigger i is the first with limit l, which is above all before it, the alarm's own included. */
  ghost predicate Record(from: AlarmEvent, triggers: seq<Trigger>, i: nat, ev: AlarmEvent) {
    && i < |triggers| && from.limit.Rank() < ev.limit.Rank()
    && triggers[i].limit == ev.limit && triggers[i].threshold == ev.thresholdValue
    && triggers[i].priority == ev.priority
    && (forall m :: 0 <= m < i ==> triggers[m].limit.Rank() < ev.limit.Rank())
  }

  /** The alarm shows the highest limit so far, with the threshold and priority of the trigger that first reached
      it, and the last value. */
  ghost predicate Shows(from: AlarmEvent, triggers: seq<Trigger>, ev: AlarmEvent) {
    && (forall i :: 0 <= i < |triggers| ==> triggers[i].limit.Rank() <= ev.limit.Rank())
    && (|| (ev.limit == from.limit && ev.thresholdValue == from.thresholdValue && ev.priority == from.priority)
        || (exists i: nat :: Record(from, triggers, i, ev)))
    && ev.triggerValue == (if triggers == [] then from.triggerValue else triggers[|triggers| - 1].value)
    && ev.alarmId == from.alarmId && ev.triggerTime == from.triggerTime
  }

  lemma ShowsMore(from: AlarmEvent, triggers: seq<Trigger>, e: Engine, now: int, op: Op, t: nat)
    requires Active(e, t) && Reaches(e, op, t) && Shows(from, triggers, e.active[t])
    requires from.limit.Rank() <= e.active[t].limit.Rank()
    ensures t in Apply(e, now, op).active && Shows(from, triggers + [op.args], Apply(e, now, op).active[t])
    ensures from.limit.Rank() <= Apply(e, now, op).active[t].limit.Rank()
  {
    var ev, more, next := e.active[t], triggers + [op.args], Apply(e, now, op).active[t];
    if op.args.limit.Rank() > ev.limit.Rank() {
      assert Record(from, more, |triggers|, next);
    } else if ev.limit != from.limit {
      var i: nat :| Record(from, triggers, i, ev);
      assert Record(from, more, i, next);
    }
  }

  lemma ShowsKept(from: AlarmEvent, triggers: seq<Trigger>, ev: AlarmEvent, ev': AlarmEvent)
    requires Shows(from, triggers, ev) && Kept(ev, ev')
    ensures Shows(from, triggers, ev')
  {
    if i: nat :| Record(from, triggers, i, ev) {
      assert Record(from, triggers, i, ev');
    }
  }

  lemma ReachedStays(from: AlarmEvent, triggers: seq<Trigger>, e: Engine, now: int, op: Op, t: nat)
    requires Active(e, t) && Reaches(e, op, t)
    requires Shows(from, triggers, e.active[t]) && from.limit.Rank() <= e.active[t].limit.Rank()
    ensures var f := Apply(e, now, op);
            Active(f, t) && f.active[t].alarmId == e.active[t].alarmId && from.limit.Rank() <= f.active[t].limit.Rank()
            && Shows(from, triggers + [op.args], f.active[t])
  {
    T.TriggerOfActive(e, now, t, op.args);
    ShowsMore(from, triggers, e, now, op, t);
  }

  /** An alarm that is not raised anew changes only by a trigger that reaches it. */
  lemma UnreachedStays(from: AlarmEvent, triggers: seq<Trigger>, e: Engine, now: int, op: Op, t: nat)
    requires Allowed(e, now, op) && IdsIssued(e) && Active(e, t) && t in Apply(e, now, op).active && !Reaches(e, op, t)
    requires Apply(e, now, op).active[t].alarmId == e.active[t].alarmId
    requires Shows(from, triggers, e.active[t])
    ensures Apply(e, now, op).active[t].limit == e.active[t].limit && Shows(from, triggers, Apply(e, now, op).active[t])
  {
    match op {
      case OpTrigger(_, _, _) => TriggerKeeps(e, now, op, t);
      case OpOnDelayTimer(order, chattering) => OnDelayTimerOutcome(e, now, order, chattering, t);
      case OpOffDelayTimer(order) => OffDelayTimerKeeps(e, order, t);
      case OpTick(batch, expired) => TickOutcome(e, now, batch, expired, t);
      case _ => OperatorKeeps(e, now, op, t);
    }
    ShowsKept(from, triggers, e.active[t], Apply(e, now, op).active[t]);
  }

  /** An alarm that no step but its own triggers could end is active throughout and always shows the highest limit and
      the last value of the triggers that reached it, whatever operators, timers and floods of other alarms do. */
  lemma {:induction false} ShowsHighestLimit(states: seq<Engine>, ops: seq<Timed>, t: nat, i: nat, k: nat)
    requires ActiveThroughout(states, ops, t, i, k)
    ensures Active(states[k], t) && states[k].active[t].alarmId == states[i].active[t].alarmId
    ensures states[i].active[t].limit.Rank() <= states[k].active[t].limit.Rank()
    ensures Shows(states[i].active[t], Triggers(states, ops, t, i, k), states[k].active[t])
    decreases k
  {
    if i < k {
      ShowsHighestLimit(states, ops, t, i, k - 1);
      var e, now, op, before := states[k - 1], ops[k - 1].now, ops[k - 1].op, Triggers(states, ops, t, i, k - 1);
      assert StepAt(states, ops, k - 1);
      if Reaches(e, op, t) {
        ReachedStays(states[i].active[t], before, e, now, op, t);
        assert Triggers(states, ops, t, i, k) == before + [op.args];
      } else {
        assert !Reaches(states[k - 1], ops[k - 1].op, t);
        RunIds(states, ops, k - 1);
        UnreachedStays(states[i].active[t], before, e, now, op, t);
        assert Triggers(states, ops, t, i, k) == before;
      }
    }
  }

  // ---- Acknowledgement ----

  /** A tick that restores alarm t to a saved state that was acknowledged. */
  ghost predicate RestoresAcked(e: Engine, now: int, op: Op, t: nat) {
    op.OpTick? && TickFlood(e, now).recovering && t in op.batch &&
    t in TickFlood(e, now).pending && TickFlood(e, now).pending[t].ActiveAck?
  }

  lemma TriggerAcks(e: Engine, now: int, op: Op, t: nat)
    requires op.OpTrigger? && Acked(Apply(e, now, op), t)
    ensures Acked(e, t) && SameRaise(e.active[t], Apply(e, now, op).active[t])
  {
    if Blocked(e, op.tag, op.ruled) || Accepts(e, op.tag, op.ruled) {
      assert Apply(e, now, op).active == e.active;
    }
  }

  /** Whatever the step, an alarm that ends up acknowledged was there before, as the same raise. */
  lemma AckedIsOld(e: Engine, now: int, op: Op, t: nat)
    requires Allowed(e, now, op) && Acked(Apply(e, now, op), t)
    ensures t in e.active && SameRaise(e.active[t], Apply(e, now, op).active[t])
  {
    if op.OpOnDelayTimer? {
      OnDelayTimerOutcome(e, now, op.order, op.chattering, t);
    } else if op.OpTrigger? {
      TriggerAcks(e, now, op, t);
    } else {
      D.OtherOpsEffect(e, now, op, t);
      match op
      case OpOffDelayTimer(order) => OffDelayTimerKeeps(e, order, t);
      case OpTick(batch, expired) => TickOutcome(e, now, batch, expired, t);
      case _ => OperatorKeeps(e, now, op, t);
    }
  }

  /** One step makes an alarm acknowledged exactly if it is an acknowledgement of an unacknowledged active alarm or a
      tick that restores the alarm to a saved acknowledged state, whatever its state was. */
  lemma BecomesAcked(e: Engine, now: int, op: Op, t: nat)
    requires Allowed(e, now, op) && !Acked(e, t)
    ensures Acked(Apply(e, now, op), t) <==>
              t in e.active && ((Unacked(e, t) && Acknowledges(op, t)) || RestoresAcked(e, now, op, t))
  {
    if Acked(Apply(e, now, op), t) {
      AckedIsOld(e, now, op, t);
    }
    if t in e.active {
      match op
      case OpTrigger(_, _, _) =>
        if Acked(Apply(e, now, op), t) {
          TriggerAcks(e, now, op, t);
        }
      case OpOnDelayTimer(order, chattering) => OnDelayTimerOutcome(e, now, order, chattering, t);
      case OpOffDelayTimer(order) => OffDelayTimerKeeps(e, order, t);
      case OpTick(batch, expired) => TickOutcome(e, now, batch, expired, t);
      case _ =>
        if t in Apply(e, now, op).active {
          OperatorKeeps(e, now, op, t);
        }
    }
  }

  /** Every acknowledged alarm of every run became so at one last step j and is the same raise since, so it has not
      escalated. Step j acknowledged it, exactly unless step j is a tick that restores a saved acknowledged state. */
  lemma {:induction false} AcknowledgedSinceEscalation(states: seq<Engine>, ops: seq<Timed>, t: nat, k: nat)
    returns (j: nat)
    requires Run(states, ops) && k <= |ops| && Acked(states[k], t)
    ensures j < k && t in states[j].active && !Acked(states[j], t)
    ensures forall m: nat :: j < m <= k ==>
              Acked(states[m], t) && SameRaise(states[j].active[t], states[m].active[t])
    ensures Unacked(states[j], t) && Acknowledges(ops[j].op, t) <==>
              !RestoresAcked(states[j], ops[j].now, ops[j].op, t)
    decreases k
  {
    assert k > 0;
    var e, now, op := states[k - 1], ops[k - 1].now, ops[k - 1].op;
    assert StepAt(states, ops, k - 1);
    AckedIsOld(e, now, op, t);
    if Acked(e, t) {
      j := AcknowledgedSinceEscalation(states, ops, t, k - 1);
    } else {
      BecomesAcked(e, now, op, t);
      j := k - 1;
    }
  }

  // ---- Acknowledged since the last raise ----

  /** Step m acknowledged the alarm, which has been the same raise from then to state k. */
  ghost predicate AckedBy(states: seq<Engine>, ops: seq<Timed>, t: nat, m: nat, k: nat)
    requires |states| == |ops| + 1
  {
    && m < k <= |ops| && Unacked(states[m], t) && Acknowledges(ops[m].op, t)
    && (forall x: nat :: m <= x <= k ==> t in states[x].active && SameRaise(states[m].active[t], states[x].active[t]))
  }

  ghost predicate AckedSinceRaise(states: seq<Engine>, ops: seq<Timed>, t: nat, k: nat)
    requires |states| == |ops| + 1
  {
    exists m: nat :: AckedBy(states, ops, t, m, k)
  }

  /** The `acknowledged` field of the source's event: set by an acknowledgement, cleared by every raise and
      escalation. */
  function Flag(states: seq<Engine>, ops: seq<Timed>, t: nat, k: nat): bool
    requires |states| == |ops| + 1 && k <= |ops|
  {
    && k > 0 && t in states[k - 1].active && t in states[k].active
    && SameRaise(states[k - 1].active[t], states[k].active[t])
    && ((Unacked(states[k - 1], t) && Acknowledges(ops[k - 1].op, t)) || Flag(states, ops, t, k - 1))
  }

  lemma {:induction false} FlagMeans(states: seq<Engine>, ops: seq<Timed>, t: nat, k: nat)
    requires |states| == |ops| + 1 && k <= |ops|
    ensures Flag(states, ops, t, k) <==> AckedSinceRaise(states, ops, t, k)
  {
    if k > 0 {
      FlagMeans(states, ops, t, k - 1);
      if Flag(states, ops, t, k) {
        if Unacked(states[k - 1], t) && Acknowledges(ops[k - 1].op, t) {
          assert AckedBy(states, ops, t, k - 1, k);
        } else {
          var m: nat :| AckedBy(states, ops, t, m, k - 1);
          assert AckedBy(states, ops, t, m, k);
        }
      }
      if m: nat :| AckedBy(states, ops, t, m, k) {
        assert SameRaise(states[m].active[t], states[k - 1].active[t]);
        assert m < k - 1 ==> AckedBy(states, ops, t, m, k - 1);
      }
    }
  }

  /** Which acknowledged alarms have been acknowledged since they were last raised or escalated: all of them, except
      those that a recovery restored to a saved acknowledged state although their flag was off. */
  lemma AcknowledgedRightlyIff(states: seq<Engine>, ops: seq<Timed>, t: nat, k: nat) returns (j: nat)
    requires Run(states, ops) && k <= |ops| && Acked(states[k], t)
    ensures j < k && t in states[j].active && !Acked(states[j], t)
    ensures forall m: nat :: j < m <= k ==> Acked(states[m], t) && SameRaise(states[j].active[t], states[m].active[t])
    ensures AckedSinceRaise(states, ops, t, k) <==>
              !RestoresAcked(states[j], ops[j].now, ops[j].op, t) || Flag(states, ops, t, j)
  {
    j := AcknowledgedSinceEscalation(states, ops, t, k);
    FlagSince(states, ops, t, j, k);
    FlagMeans(states, ops, t, k);
  }

  lemma {:induction false} FlagSince(states: seq<Engine>, ops: seq<Timed>, t: nat, j: nat, k: nat)
    requires |states| == |ops| + 1 && j < k <= |ops| && t in states[j].active
    requires forall m: nat :: j < m <= k ==> Acked(states[m], t) && SameRaise(states[j].active[t], states[m].active[t])
    ensures Flag(states, ops, t, k) <==>
              (Unacked(states[j], t) && Acknowledges(ops[j].op, t)) || Flag(states, ops, t, j)
    decreases k
  {
    if j < k - 1 {
      FlagSince(states, ops, t, j, k - 1);
      assert Acked(states[k - 1], t);
    }
  }
}
