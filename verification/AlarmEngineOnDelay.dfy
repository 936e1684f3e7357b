/** The on-delay promise: an alarm enters the active table only when its signal has been out of range,
    with no clear in between, for longer than the on-delay. */
module AlarmEngineOnDelay {
  import opened AlarmTypes
  import opened AlarmEngineState
  import FD = FloodDetection

  // ---- What each step does to one tag's on-delay entry ----

  lemma CheckFloodKeeps(e: Engine, now: int, t: nat)
    ensures CheckFlood(e, now).onDelay == e.onDelay && CheckFlood(e, now).active.Keys == e.active.Keys
    ensures t in e.active ==>
              var a, b := e.active[t], CheckFlood(e, now).active[t];
              b == a || b == a.(shelved := true, state := Shelved)
  {
  }

  /** A fresh event that carries what the on-delay entry had collected. */
  predicate RaisedFrom(ev: AlarmEvent, d: OnDelayEntry, now: int) {
    ev.limit == d.limit && ev.triggerValue == d.value && ev.thresholdValue == d.threshold &&
    ev.priority == d.priority && ev.triggerTime == now &&
    ev.returnValue == 0.0 && ev.repeatCount == 0 && !ev.outOfService
  }

  lemma FireOnDelayEffect(e: Engine, now: int, tag: nat, chatters: bool, t: nat)
    ensures var f := FireOnDelay(e, now, tag, chatters);
            && f.onDelay == e.onDelay - {tag}
            && (t != tag ==> (t in f.active <==> t in e.active))
            && (forall d :: t != tag && t in e.active && RaisedFrom(e.active[t], d, now) ==>
                  RaisedFrom(f.active[t], d, now))
            && (tag !in e.active && tag in f.active ==>
                  tag in e.onDelay && RaisedFrom(f.active[tag], e.onDelay[tag], now))
  {
    if tag in e.onDelay {
      var d, e1 := e.onDelay[tag], e.(onDelay := e.onDelay - {tag});
      var r := Raise(e1, now, tag, d).(flood := FD.Record(e1.flood, now, d.priority));
      CheckFloodKeeps(r, now, t);
      CheckFloodKeeps(r, now, tag);
    }
  }

  lemma {:induction false} OnDelayTimerEffect(e: Engine, now: int, order: seq<nat>, chattering: set<nat>, t: nat)
    requires Distinct(order)
    ensures var f := OnDelayTimer(e, now, order, chattering);
            && (t in f.onDelay <==> t in e.onDelay && t !in order)
            && (t in f.onDelay ==> f.onDelay[t] == e.onDelay[t])
            && (t !in order ==> (t in f.active <==> t in e.active))
            && (t !in e.active && t in f.active ==>
                  t in order && t in e.onDelay && RaisedFrom(f.active[t], e.onDelay[t], now))
  {
    if order != [] {
      var before, last := order[..|order| - 1], order[|order| - 1];
      OnDelayTimerEffect(e, now, before, chattering, t);
      FireOnDelayEffect(OnDelayTimer(e, now, before, chattering), now, last, last in chattering, t);
      assert order == before + [last];
    }
  }

  lemma {:induction false} OffDelayTimerEffect(e: Engine, order: seq<nat>)
    ensures OffDelayTimer(e, order).onDelay == e.onDelay && OffDelayTimer(e, order).active.Keys == e.active.Keys
  {
    if order != [] {
      OffDelayTimerEffect(e, order[..|order| - 1]);
    }
  }

  lemma {:induction false} RestoreAllEffect(e: Engine, batch: seq<nat>)
    ensures RestoreAll(e, batch).onDelay == e.onDelay && RestoreAll(e, batch).active.Keys == e.active.Keys
  {
    if batch != [] {
      RestoreAllEffect(e, batch[..|batch| - 1]);
    }
  }

  lemma {:induction false} UnshelveAllEffect(e: Engine, now: int, tags: seq<nat>)
    ensures UnshelveAll(e, now, tags).onDelay == e.onDelay && UnshelveAll(e, now, tags).active.Keys == e.active.Keys
  {
    if tags != [] {
      UnshelveAllEffect(e, now, tags[..|tags| - 1]);
    }
  }

  lemma TickEffect(e: Engine, now: int, batch: seq<nat>, expired: seq<nat>)
    ensures Tick(e, now, batch, expired).onDelay == e.onDelay &&
            Tick(e, now, batch, expired).active.Keys == e.active.Keys
  {
    RestoreAllEffect(TickFlood(e, now), batch);
    UnshelveAllEffect(TickRestore(TickFlood(e, now), batch), now, expired);
  }

  predicate IsAccepted(e: Engine, op: Op, t: nat) {
    op.OpTrigger? && op.tag == t && Accepts(e, t, op.ruled)
  }

  predicate IsClear(op: Op, t: nat) { op.OpClear? && op.tag == t }

  lemma TriggerEffect(e: Engine, now: int, op: Op)
    requires op.OpTrigger?
    ensures if Accepts(e, op.tag, op.ruled) then Apply(e, now, op) == Delayed(e, now, op.tag, op.args)
            else Apply(e, now, op).onDelay == e.onDelay && Apply(e, now, op).active.Keys == e.active.Keys
  {
  }

  lemma OperatorEffect(e: Engine, now: int, op: Op)
    requires !op.OpTrigger? && !op.OpClear? && !op.OpOnDelayTimer? && !op.OpOffDelayTimer? && !op.OpTick?
    ensures Apply(e, now, op).onDelay == e.onDelay && Apply(e, now, op).active.Keys <= e.active.Keys
  {
  }

  /** Only an accepted trigger, a clear or the timer touches a tag's entry, and only the timer adds alarms. */
  lemma OtherOpsEffect(e: Engine, now: int, op: Op, t: nat)
    requires !op.OpOnDelayTimer? && !IsAccepted(e, op, t)
    ensures var f := Apply(e, now, op);
            && (t in f.onDelay <==> t in e.onDelay && !IsClear(op, t))
            && (t in f.onDelay ==> f.onDelay[t] == e.onDelay[t])
            && (t in f.active ==> t in e.active)
  {
    match op
    case OpOffDelayTimer(order) => OffDelayTimerEffect(e, order);
    case OpTick(batch, expired) => TickEffect(e, now, batch, expired);
    case OpTrigger(_, _, _) => TriggerEffect(e, now, op);
    case OpClear(_, _, _) =>
    case _ => OperatorEffect(e, now, op);
  }

  /** An entry present after a step was written by an accepted trigger or is unchanged. */
  lemma EntryStep(e: Engine, now: int, op: Op, t: nat)
    requires Allowed(e, now, op) && t in Apply(e, now, op).onDelay
    ensures if IsAccepted(e, op, t) then Apply(e, now, op) == Delayed(e, now, t, op.args)
            else t in e.onDelay && Apply(e, now, op).onDelay[t] == e.onDelay[t] && !IsClear(op, t)
  {
    if op.OpOnDelayTimer? {
      OnDelayTimerEffect(e, now, op.order, op.chattering, t);
    } else if !IsAccepted(e, op, t) {
      OtherOpsEffect(e, now, op, t);
    }
  }

  // ---- Over a run ----

  /** The accepted triggers of a tag at steps j..k, in order. */
  function AcceptedTriggers(states: seq<Engine>, ops: seq<Timed>, t: nat, j: nat, k: nat): seq<Trigger>
    requires j <= k <= |ops| && |states| == |ops| + 1
  {
    if j == k then []
    else AcceptedTriggers(states, ops, t, j, k - 1) +
         if IsAccepted(states[k - 1], ops[k - 1].op, t) then [ops[k - 1].op.args] else []
  }

  /** The entry holds the first trigger's delay, the last one's value, and the limit, threshold and priority
      of the first trigger that reached the highest limit. */
  ghost predicate Collected(d: OnDelayEntry, triggers: seq<Trigger>) {
    && triggers != []
    && d.onDelayMs == triggers[0].onDelayMs
    && d.value == triggers[|triggers| - 1].value
    && (forall i :: 0 <= i < |triggers| ==> triggers[i].limit.Rank() <= d.limit.Rank())
    && (exists i :: 0 <= i < |triggers| && triggers[i].limit == d.limit && triggers[i].threshold == d.threshold &&
          triggers[i].priority == d.priority && forall m :: 0 <= m < i ==> triggers[m].limit.Rank() < d.limit.Rank())
  }

  lemma CollectMore(e: Engine, now: int, t: nat, a: Trigger, triggers: seq<Trigger>)
    requires t in e.onDelay && Collected(e.onDelay[t], triggers)
    ensures t in Delayed(e, now, t, a).onDelay && Delayed(e, now, t, a).onDelay[t].start == e.onDelay[t].start
    ensures Collected(Delayed(e, now, t, a).onDelay[t], triggers + [a])
  {
    var d, d', all := e.onDelay[t], Delayed(e, now, t, a).onDelay[t], triggers + [a];
    if a.limit.Rank() > d.limit.Rank() {
      assert all[|triggers|] == a && d'.limit == a.limit;
    } else {
      var i :| 0 <= i < |triggers| && triggers[i].limit == d.limit && triggers[i].threshold == d.threshold &&
               triggers[i].priority == d.priority &&
               forall m :: 0 <= m < i ==> triggers[m].limit.Rank() < d.limit.Rank();
      assert all[i] == triggers[i];
    }
  }

  /** Every on-delay entry goes back to an accepted trigger at some step j, and collects all accepted triggers
      since; the tag was not cleared in between. */
  lemma {:induction false} EntryHistory(states: seq<Engine>, ops: seq<Timed>, k: nat, t: nat) returns (j: nat)
    requires Run(states, ops) && k <= |ops| && t in states[k].onDelay
    ensures j < k && IsAccepted(states[j], ops[j].op, t) && states[k].onDelay[t].start == ops[j].now
    ensures forall i :: j <= i < k ==> !IsClear(ops[i].op, t)
    ensures Collected(states[k].onDelay[t], AcceptedTriggers(states, ops, t, j, k))
  {
    assert k > 0;
    var e, op, now := states[k - 1], ops[k - 1].op, ops[k - 1].now;
    assert StepAt(states, ops, k - 1);
    EntryStep(e, now, op, t);
    if t in e.onDelay {
      j := EntryHistory(states, ops, k - 1, t);
      if IsAccepted(e, op, t) {
        CollectMore(e, now, t, op.args, AcceptedTriggers(states, ops, t, j, k - 1));
      } else {
        assert AcceptedTriggers(states, ops, t, j, k) == AcceptedTriggers(states, ops, t, j, k - 1);
      }
    } else {
      j := k - 1;
      assert AcceptedTriggers(states, ops, t, j, j) + [op.args] == [op.args];
    }
  }

  /** An alarm absent from the active table enters it at step k only by the on-delay timer, after an accepted
      trigger at step j more than that trigger's on-delay earlier, with no clear of the tag in between. The new
      event has the highest limit and the last value of the accepted triggers from j on. */
  lemma RaisedOnlyAfterDelay(states: seq<Engine>, ops: seq<Timed>, k: nat, t: nat) returns (j: nat, d: OnDelayEntry)
    requires Run(states, ops) && k < |ops| && t !in states[k].active && t in states[k + 1].active
    ensures ops[k].op.OpOnDelayTimer?
    ensures j < k && IsAccepted(states[j], ops[j].op, t) && ops[k].now - ops[j].now > ops[j].op.args.onDelayMs
    ensures forall i :: j <= i <= k ==> !IsClear(ops[i].op, t)
    ensures Collected(d, AcceptedTriggers(states, ops, t, j, k)) && RaisedFrom(states[k + 1].active[t], d, ops[k].now)
  {
    var e, op, now := states[k], ops[k].op, ops[k].now;
    assert StepAt(states, ops, k);
    if !op.OpOnDelayTimer? && !IsAccepted(e, op, t) {
      OtherOpsEffect(e, now, op, t);
    }
    OnDelayTimerEffect(e, now, op.order, op.chattering, t);
    d := e.onDelay[t];
    j := EntryHistory(states, ops, k, t);
    FirstAccepted(states, ops, t, j, k);
    assert t in OnDelayDue(e, now);
  }

  lemma {:induction false} FirstAccepted(states: seq<Engine>, ops: seq<Timed>, t: nat, j: nat, k: nat)
    requires |states| == |ops| + 1 && j < k <= |ops| && IsAccepted(states[j], ops[j].op, t)
    ensures AcceptedTriggers(states, ops, t, j, k) != []
    ensures AcceptedTriggers(states, ops, t, j, k)[0] == ops[j].op.args
    decreases k
  {
    if k == j + 1 {
      assert AcceptedTriggers(states, ops, t, j, j) == [];
    } else {
      FirstAccepted(states, ops, t, j, k - 1);
    }
  }

  // ---- The other half: an expired delay does raise its alarm ----

  predicate Inactive(e: Engine, t: nat) {
    t in e.active ==> !IsActive(e.active[t].state)
  }

  lemma FireRaises(e: Engine, now: int, t: nat)
    requires Inactive(e, t) && t in e.onDelay
    ensures var f := FireOnDelay(e, now, t, false); t in f.active && RaisedFrom(f.active[t], e.onDelay[t], now)
  {
    var d, e1 := e.onDelay[t], e.(onDelay := e.onDelay - {t});
    CheckFloodKeeps(Raise(e1, now, t, d).(flood := FD.Record(e1.flood, now, d.priority)), now, t);
  }

  lemma {:induction false} OnDelayTimerRaises(e: Engine, now: int, order: seq<nat>, chattering: set<nat>, t: nat)
    requires Distinct(order) && Inactive(e, t)
    ensures var f := OnDelayTimer(e, now, order, chattering);
            if t in order && t in e.onDelay && t !in chattering
            then t in f.active && RaisedFrom(f.active[t], e.onDelay[t], now)
            else Inactive(f, t) && (t in f.active <==> t in e.active)
  {
    if order != [] {
      var before, last := order[..|order| - 1], order[|order| - 1];
      var g := OnDelayTimer(e, now, before, chattering);
      OnDelayTimerRaises(e, now, before, chattering, t);
      OnDelayTimerEffect(e, now, before, chattering, t);
      assert order == before + [last] && last !in before;
      if last != t {
        FireOnDelayEffect(g, now, last, last in chattering, t);
      } else if t !in chattering && t in e.onDelay {
        FireRaises(g, now, t);
      }
    }
  }

  /** When the timer fires, an absent alarm enters the table exactly if its on-delay has expired and it does not
      chatter, with what its entry has collected; and an expired delay raises an alarm anew that is there but not
      active. */
  lemma ExpiredDelayRaises(states: seq<Engine>, ops: seq<Timed>, k: nat, t: nat)
    requires Run(states, ops) && k < |ops| && ops[k].op.OpOnDelayTimer? && Inactive(states[k], t)
    ensures var e, f, op, now := states[k], states[k + 1], ops[k].op, ops[k].now;
            var due := t in e.onDelay && HasExpired(e.onDelay[t].start, e.onDelay[t].onDelayMs, now) &&
                       t !in op.chattering;
            && (due ==> t in f.active && RaisedFrom(f.active[t], e.onDelay[t], now))
            && (t !in e.active ==> (t in f.active <==> due))
  {
    var e, op := states[k], ops[k].op;
    assert StepAt(states, ops, k);
    OnDelayTimerRaises(e, ops[k].now, op.order, op.chattering, t);
    assert t in op.order <==> t in OnDelayDue(e, ops[k].now);
  }
}
