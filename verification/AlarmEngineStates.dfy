/** What the engine keeps in every run, and how far it follows the transition table. */
module AlarmEngineStates {
  import opened AlarmTypes
  import opened AlarmEngineState
  import FD = FloodDetection
  import SM = Shelving

  ghost predicate EventInv(ev: AlarmEvent) {
    && !ev.state.Normal? && !ev.state.RtnAck?
    && (ev.state.Shelved? ==> ev.shelved)
    && (ev.state.OutOfService? ==> ev.outOfService)
    && (ev.shelved ==> !IsActive(ev.state))
  }

  ghost predicate SavedInv(saved: map<nat, AlarmState>) {
    forall t :: t in saved ==> saved[t].ActiveUnack? || saved[t].ActiveAck? || saved[t].RtnUnack?
  }

  ghost predicate Inv(e: Engine) {
    && (forall t :: t in e.active ==> EventInv(e.active[t]))
    && SavedInv(e.suppressed) && SavedInv(e.pending)
    && (e.recovering <==> e.pending != map[])
  }

  lemma CheckFloodInv(e: Engine, now: int)
    requires Inv(e)
    ensures Inv(CheckFlood(e, now))
  {
  }

  lemma FireOnDelayInv(e: Engine, now: int, tag: nat, chatters: bool)
    requires Inv(e)
    ensures Inv(FireOnDelay(e, now, tag, chatters))
  {
    if tag in e.onDelay {
      var d, e1 := e.onDelay[tag], e.(onDelay := e.onDelay - {tag});
      CheckFloodInv(Raise(e1, now, tag, d).(flood := FD.Record(e1.flood, now, d.priority)), now);
    }
  }

  lemma {:induction false} OnDelayTimerInv(e: Engine, now: int, order: seq<nat>, chattering: set<nat>)
    requires Inv(e)
    ensures Inv(OnDelayTimer(e, now, order, chattering))
  {
    if order != [] {
      var before, last := order[..|order| - 1], order[|order| - 1];
      OnDelayTimerInv(e, now, before, chattering);
      FireOnDelayInv(OnDelayTimer(e, now, before, chattering), now, last, last in chattering);
    }
  }

  lemma {:induction false} OffDelayTimerInv(e: Engine, order: seq<nat>)
    requires Inv(e)
    ensures Inv(OffDelayTimer(e, order))
  {
    if order != [] {
      OffDelayTimerInv(e, order[..|order| - 1]);
    }
  }

  /** The restoration loop leaves the flag alone; the rest of the invariant holds throughout. */
  lemma {:induction false} RestoreAllInv(e: Engine, batch: seq<nat>)
    requires Inv(e)
    ensures var r := RestoreAll(e, batch);
            (forall t :: t in r.active ==> EventInv(r.active[t])) && SavedInv(r.suppressed) && SavedInv(r.pending) &&
            r.recovering == e.recovering
  {
    if batch != [] {
      RestoreAllInv(e, batch[..|batch| - 1]);
    }
  }

  lemma {:induction false} UnshelveAllInv(e: Engine, now: int, tags: seq<nat>)
    requires Inv(e)
    ensures Inv(UnshelveAll(e, now, tags))
  {
    if tags != [] {
      UnshelveAllInv(e, now, tags[..|tags| - 1]);
    }
  }

  lemma TickInv(e: Engine, now: int, batch: seq<nat>, expired: seq<nat>)
    requires Inv(e)
    ensures Inv(Tick(e, now, batch, expired))
  {
    var f := TickFlood(e, now);
    CheckFloodInv(e.(shelves := SM.Expire(e.shelves, now), flood := FD.CheckExpired(e.flood, now)), now);
    RestoreAllInv(f, batch);
    UnshelveAllInv(TickRestore(f, batch), now, expired);
  }

  lemma TriggerInv(e: Engine, now: int, tag: nat, a: Trigger, ruled: bool)
    requires Inv(e)
    ensures Inv(TriggerAlarm(e, now, tag, a, ruled))
  {
  }

  lemma OperatorInv(e: Engine, now: int, op: Op)
    requires Inv(e)
    requires op.OpShelve? || op.OpUnshelve? || op.OpSuppress? || op.OpUnsuppress? || op.OpOutOfService?
             || op.OpReturnToService?
    ensures Inv(Apply(e, now, op))
  {
  }

  lemma ApplyInv(e: Engine, now: int, op: Op)
    requires Inv(e)
    ensures Inv(Apply(e, now, op))
  {
    match op
    case OpOnDelayTimer(order, chattering) => OnDelayTimerInv(e, now, order, chattering);
    case OpOffDelayTimer(order) => OffDelayTimerInv(e, order);
    case OpTick(batch, expired) => TickInv(e, now, batch, expired);
    case OpTrigger(tag, args, ruled) => TriggerInv(e, now, tag, args, ruled);
    case OpShelve(_, _) | OpUnshelve(_) | OpSuppress(_) | OpUnsuppress(_) | OpOutOfService(_) | OpReturnToService(_) =>
      OperatorInv(e, now, op);
    case _ =>
  }

  /** In every reachable state: no entry is Normal or RtnAck, the state agrees with the shelved and
      out-of-service flags, saved flood states are live or returned ones, and a recovery is on exactly
      while something is left to restore. */
  lemma {:induction false} RunInv(states: seq<Engine>, ops: seq<Timed>, k: nat)
    requires Run(states, ops) && k <= |ops|
    ensures Inv(states[k])
  {
    if k > 0 {
      RunInv(states, ops, k - 1);
      assert StepAt(states, ops, k - 1);
      ApplyInv(states[k - 1], ops[k - 1].now, ops[k - 1].op);
    }
  }

  // ---- The transition table ----

  /** An alarm without an entry is Normal. */
  function StateOf(e: Engine, tag: nat): AlarmState {
    if tag in e.active then e.active[tag].state else Normal
  }

  predicate TableStep(from: AlarmState, to: AlarmState) { from == to || CanTransition(from, to) }

  /** The operations whose effect the table is meant to describe. */
  predicate FollowsTable(op: Op) {
    match op
    case OpTrigger(_, _, _) | OpClear(_, _, _) | OpOffDelayTimer(_) | OpAcknowledge(_) | OpAcknowledgeAll
       | OpUnshelve(_) | OpUnsuppress(_) | OpReturnToService(_) => true
    case _ => false
  }

  lemma {:induction false} OffDelayTimerFollows(e: Engine, order: seq<nat>, t: nat)
    ensures var from, to := StateOf(e, t), StateOf(OffDelayTimer(e, order), t);
            to == from || (IsActive(from) && to == RtnUnack)
  {
    if order != [] {
      OffDelayTimerFollows(e, order[..|order| - 1], t);
    }
  }

  lemma ClearFollows(e: Engine, now: int, tag: nat, returnValue: real, offDelayMs: int, t: nat)
    requires Inv(e)
    ensures TableStep(StateOf(e, t), StateOf(ClearAlarm(e, now, tag, returnValue, offDelayMs), t))
  {
    if tag in e.active {
      assert EventInv(e.active[tag]);
    }
  }

  lemma OperatorFollows(e: Engine, now: int, op: Op, t: nat)
    requires Inv(e)
    requires op.OpAcknowledge? || op.OpAcknowledgeAll? || op.OpUnshelve? || op.OpUnsuppress? || op.OpReturnToService?
    ensures TableStep(StateOf(e, t), StateOf(Apply(e, now, op), t))
  {
  }

  lemma OpFollowsTable(e: Engine, now: int, op: Op, t: nat)
    requires Inv(e) && FollowsTable(op)
    ensures TableStep(StateOf(e, t), StateOf(Apply(e, now, op), t))
  {
    match op
    case OpTrigger(_, _, _) =>
    case OpClear(tag, returnValue, offDelayMs) => ClearFollows(e, now, tag, returnValue, offDelayMs, t);
    case OpOffDelayTimer(order) => OffDelayTimerFollows(e, order, t);
    case _ => OperatorFollows(e, now, op, t);
  }

  /** Trigger, clear, off-delay, acknowledge, unshelve, unsuppress and return to service move every alarm
      along one step of the table or leave it where it is. */
  lemma StepsFollowTable(states: seq<Engine>, ops: seq<Timed>, k: nat, t: nat)
    requires Run(states, ops) && k < |ops| && FollowsTable(ops[k].op)
    ensures TableStep(StateOf(states[k], t), StateOf(states[k + 1], t))
  {
    RunInv(states, ops, k);
    assert StepAt(states, ops, k);
    OpFollowsTable(states[k], ops[k].now, ops[k].op, t);
  }

  /** unshelveAlarm and unsuppressByDesign always land in RtnUnack, whatever the alarm was before. */
  lemma ResumeLandsInRtn(e: Engine, now: int, t: nat)
    requires Inv(e) && t in e.active
    ensures e.active[t].shelved ==>
              var f := Apply(e, now, OpUnshelve(t)); t in f.active && f.active[t].state.RtnUnack?
    ensures e.active[t].state.SuppressedByDesign? ==>
              var f := Apply(e, now, OpUnsuppress(t)); t in f.active && f.active[t].state.RtnUnack?
  {
    assert EventInv(e.active[t]);
  }

  /** Acknowledging a return erases the entry. That is not a step of the table: it is the two steps
      RtnUnack to RtnAck to Normal at once, and it happens exactly to the acknowledged alarms in RtnUnack. */
  lemma ReturnAckSkipsAStep(e: Engine, now: int, op: Op, t: nat)
    requires op.OpAcknowledgeAllReturns? || op.OpAcknowledgeReturn?
    requires Inv(e)
    ensures var from, to := StateOf(e, t), StateOf(Apply(e, now, op), t);
            !TableStep(from, to) <==> from.RtnUnack? && (op.OpAcknowledgeReturn? ==> op.tag == t)
    ensures var from, to := StateOf(e, t), StateOf(Apply(e, now, op), t);
            from != to ==>
              from.RtnUnack? && to.Normal? && CanTransition(RtnUnack, RtnAck) && CanTransition(RtnAck, Normal)
  {
  }

  /** An expired on-delay, apart from chattering, raises its alarm along the table; what the flood check does
      afterwards is to move live or returned non-critical alarms to Shelved and to remember where they were. */
  lemma OnDelayRaisesAlongTable(e: Engine, now: int, tag: nat, t: nat)
    requires Inv(e) && tag in e.onDelay
    ensures var d := e.onDelay[tag];
            var raised := if tag in e.active && IsActive(e.active[tag].state) then e else Raise(e, now, tag, d);
            var after := FireOnDelay(e, now, tag, false);
            && TableStep(StateOf(e, t), StateOf(raised, t))
            && (StateOf(after, t) != StateOf(raised, t) ==>
                  t in after.active && after.active[t].state.Shelved? && after.active[t].shelved &&
                  !after.active[t].priority.Critical? && after.flood.inFlood &&
                  t in after.suppressed && after.suppressed[t] == StateOf(raised, t))
  {
  }

  /** Shelving, suppressing and taking out of service set the state unconditionally. They stay within the
      table exactly from these states. */
  lemma OperatorsOutsideTable(e: Engine, now: int, op: Op)
    requires op.OpShelve? || op.OpSuppress? || op.OpOutOfService?
    requires op.tag in e.active && Inv(e)
    ensures var from := e.active[op.tag].state;
            TableStep(from, StateOf(Apply(e, now, op), op.tag)) <==>
              if op.OpShelve? then IsActive(from) || from.Shelved?
              else if op.OpSuppress? then IsActive(from) || from.SuppressedByDesign?
              else IsSuppressed(from)
  {
    assert EventInv(e.active[op.tag]);
  }
}
