/** What the operator's state changes, the flood check and the chattering guard do to one alarm. */
module AlarmEngineOperators {
  import opened AlarmTypes
  import opened AlarmEngineState
  import opened AlarmEngineStates
  import FD = FloodDetection
  import SM = Shelving
  import D = AlarmEngineOnDelay
  import T = AlarmEngineTriggers
  import E = AlarmEngineEscalation

  // ---- Out of service, suppressed, and back ----

  /** Only the alarm of tag t differs, and it only in state and flags. */
  ghost predicate OnlyState(e: Engine, f: Engine, t: nat) {
    && T.OnlyAt(e, f, t) && f.onDelay == e.onDelay && f.offDelay == e.offDelay
    && t in e.active && t in f.active && E.Kept(e.active[t], f.active[t])
    && f.active[t].returnValue == e.active[t].returnValue
  }

  /** Taking an alarm out of service marks it. */
  lemma OutOfServiceOutcome(e: Engine, now: int, t: nat)
    requires t in e.active
    ensures var f := Apply(e, now, OpOutOfService(t));
            OnlyState(e, f, t) && f.active[t].outOfService && f.active[t].state.OutOfService? &&
            f.active[t].shelved == e.active[t].shelved
  {
  }

  /** Returning it to service takes the mark off and puts a live alarm into ActiveUnack, any other into RtnUnack; an
      alarm without the mark is not returned. */
  lemma ReturnToServiceOutcome(e: Engine, now: int, t: nat)
    requires t in e.active
    ensures var f := Apply(e, now, OpReturnToService(t));
            if e.active[t].outOfService
            then OnlyState(e, f, t) && !f.active[t].outOfService && f.active[t].shelved == e.active[t].shelved &&
                 f.active[t].state == if T.Active(e, t) then ActiveUnack else RtnUnack
            else f == e
  {
  }

  /** Out of service and back: the alarm is returned and unacknowledged, whatever it was before. */
  lemma ServiceRoundTrip(e: Engine, now: int, t: nat)
    requires t in e.active
    ensures var f := Apply(Apply(e, now, OpOutOfService(t)), now, OpReturnToService(t));
            OnlyState(e, f, t) && !f.active[t].outOfService && f.active[t].state.RtnUnack?
  {
    OutOfServiceOutcome(e, now, t);
    ReturnToServiceOutcome(Apply(e, now, OpOutOfService(t)), now, t);
  }

  /** Only the state differs, flags included. */
  ghost predicate OnlyStateItself(e: Engine, f: Engine, t: nat) {
    && OnlyState(e, f, t)
    && f.active[t].shelved == e.active[t].shelved && f.active[t].outOfService == e.active[t].outOfService
  }

  lemma SuppressOutcome(e: Engine, now: int, t: nat)
    requires t in e.active
    ensures var f := Apply(e, now, OpSuppress(t)); OnlyStateItself(e, f, t) && f.active[t].state.SuppressedByDesign?
  {
  }

  lemma UnsuppressOutcome(e: Engine, now: int, t: nat)
    requires t in e.active
    ensures var f := Apply(e, now, OpUnsuppress(t));
            if e.active[t].state.SuppressedByDesign? then OnlyStateItself(e, f, t) && f.active[t].state.RtnUnack?
            else f == e
  {
  }

  /** Suppressed by design and back: again returned and unacknowledged, with the flags as they were. */
  lemma SuppressRoundTrip(e: Engine, now: int, t: nat)
    requires t in e.active
    ensures var f := Apply(Apply(e, now, OpSuppress(t)), now, OpUnsuppress(t));
            OnlyStateItself(e, f, t) && f.active[t].state.RtnUnack?
  {
    SuppressOutcome(e, now, t);
    UnsuppressOutcome(Apply(e, now, OpSuppress(t)), now, t);
  }

  // ---- The flood check ----

  /** What a flood puts aside. */
  predicate PutAsideBy(e: Engine, t: nat) {
    && e.flood.inFlood && t in e.active && t !in e.suppressed && !e.active[t].priority.Critical?
    && !e.active[t].shelved && !e.active[t].outOfService
    && !e.active[t].state.SuppressedByDesign? && !e.active[t].state.OutOfService?
  }

  /** A recovery begins once the flood is over and has been for 30 s, if anything is aside. */
  predicate RecoveryBegins(e: Engine, now: int) {
    && !e.flood.inFlood && !e.recovering && e.suppressed != map[]
    && (e.flood.floodEnd <= 0 || now - e.flood.floodEnd >= 30000)
  }

  /** The alarm before and after a flood check. */
  ghost predicate CheckedAt(e: Engine, f: Engine, t: nat) {
    && (t in f.active <==> t in e.active)
    && (t in f.suppressed <==> t in e.suppressed || PutAsideBy(e, t))
    && (t in e.suppressed ==> f.suppressed[t] == e.suppressed[t])
    && if PutAsideBy(e, t)
       then f.suppressed[t] == e.active[t].state && E.Kept(e.active[t], f.active[t]) &&
            f.active[t].shelved && f.active[t].state.Shelved?
       else t in e.active ==> f.active[t] == e.active[t]
  }

  /** The flood check puts an alarm aside, with its state remembered, exactly in a flood and if nothing else holds
      it. */
  lemma FloodCheckPutsAside(e: Engine, now: int, t: nat)
    ensures CheckedAt(e, CheckFlood(e, now), t)
  {
  }

  /** It begins a recovery, with all that is aside, exactly when one is due; and it leaves everything else. */
  lemma FloodCheckRecovers(e: Engine, now: int)
    ensures var f := CheckFlood(e, now);
            && (f.recovering <==> e.recovering || RecoveryBegins(e, now))
            && f.pending == (if RecoveryBegins(e, now) then e.suppressed else e.pending)
            && f.onDelay == e.onDelay && f.offDelay == e.offDelay && f.flood == e.flood && f.shelves == e.shelves
  {
  }

  // ---- The chattering guard ----

  /** Shelved automatically for 600 s at this time. */
  ghost predicate AutoShelved(e: Engine, t: nat, now: int) {
    && t in e.active && e.active[t].shelved && e.active[t].state.Shelved?
    && t in e.shelves.deadlines && e.shelves.deadlines[t] == now + 600000
    && t in e.shelves.isAuto && e.shelves.isAuto[t]
  }

  lemma FireKeepsShelved(e: Engine, now: int, tag: nat, chatters: bool, t: nat)
    requires AutoShelved(e, t, now) && tag != t
    ensures AutoShelved(FireOnDelay(e, now, tag, chatters), t, now)
  {
    if tag in e.onDelay {
      var d, e1 := e.onDelay[tag], e.(onDelay := e.onDelay - {tag});
      var r := Raise(e1, now, tag, d).(flood := FD.Record(e1.flood, now, d.priority));
      FloodCheckPutsAside(r, now, t);
      FloodCheckRecovers(r, now);
    }
  }

  lemma FireShelves(e: Engine, now: int, t: nat)
    requires t in e.onDelay && t in e.active && D.Inactive(e, t)
    ensures AutoShelved(FireOnDelay(e, now, t, true), t, now)
  {
  }

  lemma {:induction false} TimerShelves(e: Engine, now: int, order: seq<nat>, chattering: set<nat>, t: nat)
    requires Distinct(order) && t in order && t in chattering && t in e.onDelay && t in e.active && D.Inactive(e, t)
    ensures AutoShelved(OnDelayTimer(e, now, order, chattering), t, now)
  {
    var before, last := order[..|order| - 1], order[|order| - 1];
    var g := OnDelayTimer(e, now, before, chattering);
    assert order == before + [last] && last !in before;
    if last == t {
      D.OnDelayTimerRaises(e, now, before, chattering, t);
      D.OnDelayTimerEffect(e, now, before, chattering, t);
      FireShelves(g, now, t);
    } else {
      TimerShelves(e, now, before, chattering, t);
      FireKeepsShelved(g, now, last, last in chattering, t);
    }
  }

  /** When its on-delay expires while it chatters, an alarm in the table that is not active is shelved automatically for
      600 s instead of being raised. */
  lemma ChatteringShelves(e: Engine, now: int, op: Op, t: nat)
    requires op.OpOnDelayTimer? && Allowed(e, now, op) && t in op.chattering && t in e.active && D.Inactive(e, t)
    requires t in e.onDelay && HasExpired(e.onDelay[t].start, e.onDelay[t].onDelayMs, now)
    ensures AutoShelved(Apply(e, now, op), t, now)
  {
    assert t in OnDelayDue(e, now);
    TimerShelves(e, now, op.order, op.chattering, t);
  }
}
