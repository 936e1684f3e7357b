/** What a trigger does to the alarm it is for, case by case. */
module AlarmEngineTriggers {
  import opened AlarmTypes
  import opened AlarmEngineState

  predicate Active(e: Engine, t: nat) {
    t in e.active && IsActive(e.active[t].state)
  }

  predicate HasReturned(e: Engine, t: nat) {
    t in e.active && (e.active[t].state.RtnUnack? || e.active[t].state.RtnAck?)
  }

  /** Ruled out, put aside by a flood, shelved, or out of service. */
  predicate HeldBack(e: Engine, t: nat, ruled: bool) {
    ruled || t in e.suppressed || (t in e.active && (e.active[t].shelved || e.active[t].outOfService))
  }

  /** Nothing but the alarm, the on-delay and the off-delay entry of tag t differs. */
  ghost predicate OnlyAt(e: Engine, f: Engine, t: nat) {
    && f.suppressed == e.suppressed && f.pending == e.pending && f.recovering == e.recovering
    && f.flood == e.flood && f.shelves == e.shelves && f.alarmCounter == e.alarmCounter
    && (forall u: nat :: u != t ==>
          (u in f.active <==> u in e.active) && (u in e.active ==> f.active[u] == e.active[u]))
    && (forall u: nat :: u != t ==>
          (u in f.onDelay <==> u in e.onDelay) && (u in e.onDelay ==> f.onDelay[u] == e.onDelay[u]))
    && (forall u: nat :: u != t ==>
          (u in f.offDelay <==> u in e.offDelay) && (u in e.offDelay ==> f.offDelay[u] == e.offDelay[u]))
  }

  /** The alarm carries the trigger's limit, priority, threshold and value, live and unacknowledged, as the same alarm
      repeated once more. */
  predicate RaisedAgain(was: AlarmEvent, ev: AlarmEvent, a: Trigger) {
    && ev.state == ActiveUnack && ev.limit == a.limit && ev.priority == a.priority
    && ev.thresholdValue == a.threshold && ev.triggerValue == a.value
    && ev.alarmId == was.alarmId && ev.repeatCount == was.repeatCount + 1
    && ev.shelved == was.shelved && ev.outOfService == was.outOfService && ev.returnValue == was.returnValue
  }

  lemma HeldBackChangesNothing(e: Engine, now: int, t: nat, a: Trigger, ruled: bool)
    ensures HeldBack(e, t, ruled) ==> Apply(e, now, OpTrigger(t, a, ruled)) == e
  {
  }

  /** A trigger that is not held back leaves an active alarm active: a higher limit escalates it, which makes it
      unacknowledged again, and any other only brings the value. */
  lemma TriggerOfActive(e: Engine, now: int, t: nat, a: Trigger)
    requires !HeldBack(e, t, false) && Active(e, t)
    ensures var f := Apply(e, now, OpTrigger(t, a, false));
            && Active(f, t) && OnlyAt(e, f, t) && f.onDelay == e.onDelay && f.offDelay == e.offDelay
            && if a.limit.Rank() > e.active[t].limit.Rank()
               then RaisedAgain(e.active[t], f.active[t], a) && f.active[t].triggerTime == e.active[t].triggerTime
               else f.active[t] == e.active[t].(triggerValue := a.value)
  {
  }

  /** The limits from the lowest to the highest, as they are declared. */
  const Ascending := [NoLimit, LowLow, Low, High, HighHigh, Deviation, RateOfChange]

  /** Only a limit declared later escalates an active alarm. On the low side that is the wrong way round: a LowLow
      trigger does not escalate a Low alarm, and a Low trigger takes a LowLow alarm's priority away. */
  lemma EscalatesInOrder(e: Engine, now: int, t: nat, a: Trigger, i: nat, j: nat)
    requires !HeldBack(e, t, false) && Active(e, t) && i < |Ascending| && j < |Ascending|
    requires e.active[t].limit == Ascending[i] && a.limit == Ascending[j]
    ensures var f := Apply(e, now, OpTrigger(t, a, false));
            t in f.active && (f.active[t].repeatCount == e.active[t].repeatCount + 1 <==> i < j)
    ensures e.active[t].limit == Low && a.limit == LowLow ==>
              Apply(e, now, OpTrigger(t, a, false)).active[t] == e.active[t].(triggerValue := a.value)
    ensures e.active[t].limit == LowLow && a.limit == Low ==>
              Apply(e, now, OpTrigger(t, a, false)).active[t].priority == a.priority
  {
    TriggerOfActive(e, now, t, a);
  }

  /** A trigger that is not held back makes a returned alarm live at once, without on-delay. */
  lemma TriggerOfReturned(e: Engine, now: int, t: nat, a: Trigger)
    requires !HeldBack(e, t, false) && HasReturned(e, t)
    ensures var f := Apply(e, now, OpTrigger(t, a, false));
            && OnlyAt(e, f, t) && f.onDelay == e.onDelay && f.offDelay == e.offDelay
            && t in f.active && RaisedAgain(e.active[t], f.active[t], a) && f.active[t].triggerTime == now
  {
  }

  /** Any other trigger that is not held back starts an on-delay, which ends an off-delay, or adds to one. */
  lemma TriggerOfOther(e: Engine, now: int, t: nat, a: Trigger)
    requires !HeldBack(e, t, false) && !Active(e, t) && !HasReturned(e, t)
    ensures var f := Apply(e, now, OpTrigger(t, a, false));
            && OnlyAt(e, f, t) && f.active == e.active && t in f.onDelay && f.onDelay[t].value == a.value
            && if t in e.onDelay
               then f.offDelay == e.offDelay && f.onDelay[t].start == e.onDelay[t].start &&
                    f.onDelay[t].onDelayMs == e.onDelay[t].onDelayMs &&
                    f.onDelay[t].limit.Rank() >= a.limit.Rank() && f.onDelay[t].limit in {a.limit, e.onDelay[t].limit}
               else t !in f.offDelay &&
                    f.onDelay[t] == OnDelayEntry(a.limit, a.value, a.threshold, a.priority, a.onDelayMs, now)
  {
  }
}
