/** Alarm ids over a run: an id names one tag's alarm for ever, and ids are handed out one by one. */
module AlarmEngineIds {
  import opened AlarmTypes
  import opened AlarmEngineState
  import FD = FloodDetection
  import D = AlarmEngineOnDelay
  import E = AlarmEngineEscalation

  // ---- One id, one tag ----

  ghost predicate IdsDiffer(e: Engine) {
    forall t: nat, u: nat :: t in e.active && u in e.active && e.active[t].alarmId == e.active[u].alarmId ==> t == u
  }

  lemma CheckFloodIds(e: Engine, now: int)
    requires E.IdsIssued(e) && IdsDiffer(e)
    ensures E.IdsIssued(CheckFlood(e, now)) && IdsDiffer(CheckFlood(e, now))
  {
    forall t | t in e.active ensures CheckFlood(e, now).active[t].alarmId == e.active[t].alarmId {
      D.CheckFloodKeeps(e, now, t);
    }
    D.CheckFloodKeeps(e, now, 0);
  }

  lemma FireOnDelayIds(e: Engine, now: int, tag: nat, chatters: bool)
    requires E.IdsIssued(e) && IdsDiffer(e)
    ensures var f := FireOnDelay(e, now, tag, chatters); E.IdsIssued(f) && IdsDiffer(f)
  {
    if tag in e.onDelay {
      var d, e1 := e.onDelay[tag], e.(onDelay := e.onDelay - {tag});
      CheckFloodIds(Raise(e1, now, tag, d).(flood := FD.Record(e1.flood, now, d.priority)), now);
    }
  }

  lemma {:induction false} OnDelayTimerIds(e: Engine, now: int, order: seq<nat>, chattering: set<nat>)
    requires E.IdsIssued(e) && IdsDiffer(e)
    ensures var f := OnDelayTimer(e, now, order, chattering); E.IdsIssued(f) && IdsDiffer(f)
  {
    if order != [] {
      var before, last := order[..|order| - 1], order[|order| - 1];
      OnDelayTimerIds(e, now, before, chattering);
      FireOnDelayIds(OnDelayTimer(e, now, before, chattering), now, last, last in chattering);
    }
  }

  lemma {:induction false} RunIds(states: seq<Engine>, ops: seq<Timed>, k: nat)
    requires Run(states, ops) && k <= |ops|
    ensures E.IdsIssued(states[k]) && IdsDiffer(states[k])
  {
    E.RunIds(states, ops, k);
    if k > 0 {
      RunIds(states, ops, k - 1);
      var e, now, op := states[k - 1], ops[k - 1].now, ops[k - 1].op;
      assert StepAt(states, ops, k - 1);
      if op.OpOnDelayTimer? {
        OnDelayTimerIds(e, now, op.order, op.chattering);
      } else {
        forall t | t in states[k].active
          ensures t in e.active && states[k].active[t].alarmId == e.active[t].alarmId
        {
          E.SameId(e, now, op, t);
        }
      }
    }
  }

  /** A step keeps an alarm's id or gives it one that has never been handed out. */
  lemma IdStep(states: seq<Engine>, ops: seq<Timed>, k: nat, t: nat)
    requires Run(states, ops) && k < |ops| && t in states[k + 1].active
    ensures var e, f := states[k], states[k + 1];
            (t in e.active && f.active[t].alarmId == e.active[t].alarmId) || f.active[t].alarmId > e.alarmCounter
  {
    var e, now, op := states[k], ops[k].now, ops[k].op;
    assert StepAt(states, ops, k);
    if op.OpOnDelayTimer? {
      E.OnDelayTimerOutcome(e, now, op.order, op.chattering, t);
    } else {
      E.SameId(e, now, op, t);
    }
  }

  lemma {:induction false} CounterNeverFalls(states: seq<Engine>, ops: seq<Timed>, i: nat, j: nat)
    requires Run(states, ops) && i <= j <= |ops|
    ensures states[i].alarmCounter <= states[j].alarmCounter
    decreases j
  {
    if i < j {
      CounterNeverFalls(states, ops, i, j - 1);
      var e, now, op := states[j - 1], ops[j - 1].now, ops[j - 1].op;
      assert StepAt(states, ops, j - 1);
      if op.OpOnDelayTimer? {
        E.OnDelayTimerOutcome(e, now, op.order, op.chattering, 0);
      } else {
        E.CounterGrows(e, now, op);
      }
    }
  }

  /** Two alarms of a run with the same id, at whatever times, are of the same tag. */
  lemma {:induction false} IdNamesOneTag(states: seq<Engine>, ops: seq<Timed>, i: nat, j: nat, t: nat, u: nat)
    requires Run(states, ops) && i <= j <= |ops| && t in states[i].active && u in states[j].active
    requires states[i].active[t].alarmId == states[j].active[u].alarmId
    ensures t == u
    decreases j
  {
    RunIds(states, ops, i);
    if i < j {
      CounterNeverFalls(states, ops, i, j - 1);
      IdStep(states, ops, j - 1, u);
      IdNamesOneTag(states, ops, i, j - 1, t, u);
    }
  }

  // ---- Ids are handed out one by one ----

  lemma FireOnDelayNumbers(e: Engine, now: int, tag: nat, chatters: bool)
    ensures var f := FireOnDelay(e, now, tag, chatters);
            f.alarmCounter == e.alarmCounter ||
            (f.alarmCounter == e.alarmCounter + 1 && tag in f.active && f.active[tag].alarmId == f.alarmCounter)
  {
    if tag in e.onDelay {
      var d, e1 := e.onDelay[tag], e.(onDelay := e.onDelay - {tag});
      D.CheckFloodKeeps(Raise(e1, now, tag, d).(flood := FD.Record(e1.flood, now, d.priority)), now, tag);
    }
  }

  lemma FireOnDelaySpares(e: Engine, now: int, tag: nat, chatters: bool, t: nat)
    requires t != tag && t in e.active
    ensures var f := FireOnDelay(e, now, tag, chatters); t in f.active && f.active[t].alarmId == e.active[t].alarmId
  {
    if tag in e.onDelay {
      var d, e1 := e.onDelay[tag], e.(onDelay := e.onDelay - {tag});
      D.CheckFloodKeeps(Raise(e1, now, tag, d).(flood := FD.Record(e1.flood, now, d.priority)), now, t);
    }
  }

  lemma {:induction false} OnDelayTimerNumbers(e: Engine, now: int, order: seq<nat>, chattering: set<nat>, n: nat)
    returns (t: nat)
    requires Distinct(order) && e.alarmCounter < n <= OnDelayTimer(e, now, order, chattering).alarmCounter
    ensures t in order && t in OnDelayTimer(e, now, order, chattering).active
    ensures OnDelayTimer(e, now, order, chattering).active[t].alarmId == n
  {
    var before, last := order[..|order| - 1], order[|order| - 1];
    var g := OnDelayTimer(e, now, before, chattering);
    assert order == before + [last] && last !in before;
    FireOnDelayNumbers(g, now, last, last in chattering);
    if n <= g.alarmCounter {
      t := OnDelayTimerNumbers(e, now, before, chattering, n);
      FireOnDelaySpares(g, now, last, last in chattering, t);
    } else {
      t := last;
    }
  }

  /** Every number up to the counter has been the id of some alarm of the run. */
  lemma {:induction false} EveryIdWasUsed(states: seq<Engine>, ops: seq<Timed>, k: nat, n: nat) returns (i: nat, t: nat)
    requires Run(states, ops) && k <= |ops| && 1 <= n <= states[k].alarmCounter
    ensures i <= k && t in states[i].active && states[i].active[t].alarmId == n
  {
    assert k > 0;
    var e, now, op := states[k - 1], ops[k - 1].now, ops[k - 1].op;
    assert StepAt(states, ops, k - 1);
    if n <= e.alarmCounter {
      i, t := EveryIdWasUsed(states, ops, k - 1, n);
    } else if op.OpOnDelayTimer? {
      i := k;
      t := OnDelayTimerNumbers(e, now, op.order, op.chattering, n);
    } else {
      E.CounterGrows(e, now, op);
      assert false;
    }
  }
}
