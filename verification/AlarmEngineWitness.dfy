/** Runs from the idle engine into a flood and into its recovery, and the two ways in which an operator's unshelve then
    goes wrong. Tag 0 is a Major alarm that was acknowledged before the flood; the others are Critical. */
module AlarmEngineWitness {
  import opened AlarmTypes
  import opened AlarmEngineState
  import FD = FloodDetection
  import SM = Shelving
  import E = AlarmEngineEscalation
  import U = AlarmEngineUnshelve

  // ---- Building runs ----

  function Last(states: seq<Engine>): Engine
    requires states != []
  {
    states[|states| - 1]
  }

  ghost predicate RunTo(states: seq<Engine>, ops: seq<Timed>, now: int) {
    Run(states, ops) && now > 0 && forall k :: 0 <= k < |ops| ==> ops[k].now <= now
  }

  lemma Extend(states: seq<Engine>, ops: seq<Timed>, then': int, now: int, op: Op)
    requires RunTo(states, ops, then') && then' <= now && Allowed(Last(states), now, op)
    ensures RunTo(states + [Apply(Last(states), now, op)], ops + [Timed(now, op)], now)
  {
    var states', ops' := states + [Apply(Last(states), now, op)], ops + [Timed(now, op)];
    forall k: nat | k < |ops'| ensures StepAt(states', ops', k) {
      if k < |ops| {
        assert StepAt(states, ops, k);
      }
    }
  }

  const High0 := Trigger(High, 1.0, 0.0, Major, 0)
  const Critical0 := Trigger(HighHigh, 1.0, 0.0, Critical, 0)

  /** The engine after an alarm went through its on-delay. */
  function Raised(e: Engine, now: int, tag: nat, a: Trigger): Engine {
    var d := OnDelayEntry(a.limit, a.value, a.threshold, a.priority, a.onDelayMs, now - 1);
    var r := Raise(e.(offDelay := e.offDelay - {tag}), now, tag, d);
    CheckFlood(r.(flood := FD.Record(e.flood, now, a.priority)), now)
  }

  lemma RaisedByTimer(e: Engine, now: int, tag: nat, a: Trigger)
    requires Accepts(e, tag, false) && tag !in e.active && e.onDelay == map[] && a.onDelayMs == 0
    ensures var e1, timer := Apply(e, now, OpTrigger(tag, a, false)), OpOnDelayTimer([tag], {});
            Allowed(e1, now + 1, timer) && Apply(e1, now + 1, timer) == Raised(e, now + 1, tag, a)
  {
    var e1 := Apply(e, now, OpTrigger(tag, a, false));
    assert e1 == Delayed(e, now, tag, a);
    assert OnDelayDue(e1, now + 1) == {tag};
    assert [tag][..0] == [];
    assert OnDelayTimer(e1, now + 1, [tag], {}) == FireOnDelay(e1, now + 1, tag, false);
    assert e1.onDelay - {tag} == e.onDelay;
    assert e1.(onDelay := e1.onDelay - {tag}) == e.(offDelay := e.offDelay - {tag});
  }

  lemma RaiseMore(states: seq<Engine>, ops: seq<Timed>, now: int, tag: nat, a: Trigger)
    returns (states': seq<Engine>, ops': seq<Timed>)
    requires RunTo(states, ops, now) && a.onDelayMs == 0
    requires var e := Last(states); tag !in e.active && tag !in e.suppressed && e.onDelay == map[]
    ensures RunTo(states', ops', now + 1) && Last(states') == Raised(Last(states), now + 1, tag, a)
  {
    var e := Last(states);
    RaisedByTimer(e, now, tag, a);
    var op, timer := OpTrigger(tag, a, false), OpOnDelayTimer([tag], {});
    Extend(states, ops, now, now, op);
    states', ops' := states + [Apply(e, now, op)], ops + [Timed(now, op)];
    Extend(states', ops', now, now + 1, timer);
    states', ops' := states' + [Apply(Last(states'), now + 1, timer)], ops' + [Timed(now + 1, timer)];
  }

  // ---- Into the flood ----

  /** The acknowledged Major alarm 0 and n Critical ones, all in the window opened at 2. */
  ghost predicate Ready(e: Engine, n: nat) {
    && (forall t: nat :: t in e.active <==> t <= n)
    && (forall t: nat :: 1 <= t <= n ==> e.active[t].priority.Critical?)
    && E.Acked(e, 0) && e.active[0].priority.Major? && e.active[0].limit.High?
    && !e.active[0].shelved && !e.active[0].outOfService
    && e.onDelay == map[] && e.suppressed == map[] && e.pending == map[] && !e.recovering
    && e.flood.windowStart == 2 && e.flood.windowCount == n + 1 && !e.flood.inFlood && e.flood.floodEnd == 0
    && e.shelves == SM.NoShelves
  }

  lemma {:induction false} GetReady(n: nat) returns (states: seq<Engine>, ops: seq<Timed>)
    requires n <= 8
    ensures RunTo(states, ops, 2 + n) && Ready(Last(states), n)
  {
    if n == 0 {
      states, ops := RaiseMore([Idle], [], 1, 0, High0);
      var e := Last(states);
      Extend(states, ops, 2, 2, OpAcknowledge(0));
      states, ops := states + [Apply(e, 2, OpAcknowledge(0))], ops + [Timed(2, OpAcknowledge(0))];
    } else {
      states, ops := GetReady(n - 1);
      states, ops := RaiseMore(states, ops, 1 + n, n, Critical0);
    }
  }

  predicate PutAside0(e: Engine) {
    0 in e.active && e.active[0].state.Shelved? && e.active[0].shelved && !e.active[0].outOfService &&
    e.active[0].limit.High?
  }

  /** Alarm 0 put aside by a flood that began at time 11. */
  ghost predicate Flooded(e: Engine) {
    && (forall t: nat :: t in e.active <==> t <= 9)
    && PutAside0(e) && e.active[0].priority.Major?
    && (forall t: nat :: 1 <= t <= 9 ==> e.active[t].priority.Critical?)
    && e.onDelay == map[] && e.suppressed == map[0 := ActiveAck] && e.pending == map[] && !e.recovering
    && e.flood.windowStart == 2 && e.flood.inFlood && e.flood.floodStart == e.flood.lastAlarm == 11
    && e.shelves == SM.NoShelves
  }

  lemma TenthAlarmFloods(e: Engine)
    requires Ready(e, 8)
    ensures Flooded(Raised(e, 11, 9, Critical0))
  {
    var r := Raise(e.(offDelay := e.offDelay - {9}), 11, 9, OnDelayEntry(HighHigh, 1.0, 0.0, Critical, 0, 10));
    r := r.(flood := FD.Record(e.flood, 11, Critical));
    assert Suppressibles(r) == {0};
    assert SaveAll(r.active, {0}) == map[0 := ActiveAck];
    assert map[] + map[0 := ActiveAck] == map[0 := ActiveAck];
    assert Raised(e, 11, 9, Critical0) == CheckFlood(r, 11);
  }

  lemma GetFlooded() returns (states: seq<Engine>, ops: seq<Timed>)
    ensures RunTo(states, ops, 11) && Flooded(Last(states))
  {
    states, ops := GetReady(8);
    TenthAlarmFloods(Last(states));
    states, ops := RaiseMore(states, ops, 10, 9, Critical0);
  }

  // ---- Into the recovery ----

  /** Alarm 0 still put aside and waiting to be restored to ActiveAck. */
  ghost predicate Recovering(e: Engine) {
    && PutAside0(e) && e.pending == e.suppressed == map[0 := ActiveAck] && e.recovering && !e.flood.inFlood
    && e.shelves == SM.NoShelves
  }

  const FloodEnds := 11 + FD.FLOOD_WINDOW_MS + 1
  const RecoveryStarts := FloodEnds + FD.FLOOD_COOLDOWN_MS

  ghost predicate Cooling(e: Engine) {
    && (forall t: nat :: t in e.active <==> t <= 9)
    && PutAside0(e) && e.onDelay == map[] && e.suppressed == map[0 := ActiveAck] && e.pending == map[] && !e.recovering
    && e.flood.windowStart == 2 && !e.flood.inFlood && e.flood.floodEnd == FloodEnds
    && e.shelves == SM.NoShelves
  }

  lemma NextAlarmStartsRecovery(e: Engine)
    requires Cooling(e)
    ensures Recovering(Raised(e, RecoveryStarts, 10, Critical0))
  {
    var r := Raise(e.(offDelay := e.offDelay - {10}), RecoveryStarts, 10,
                   OnDelayEntry(HighHigh, 1.0, 0.0, Critical, 0, RecoveryStarts - 1));
    r := r.(flood := FD.Record(e.flood, RecoveryStarts, Critical));
    assert !FD.InCooldown(r.flood, RecoveryStarts) && 0 in r.suppressed;
    assert Raised(e, RecoveryStarts, 10, Critical0) == CheckFlood(r, RecoveryStarts);
  }

  lemma GetRecovering() returns (states: seq<Engine>, ops: seq<Timed>)
    ensures RunTo(states, ops, RecoveryStarts) && Recovering(Last(states))
  {
    states, ops := GetFlooded();
    var e, op := Last(states), OpTick([], []);
    Extend(states, ops, 11, FloodEnds, op);
    states, ops := states + [Apply(e, FloodEnds, op)], ops + [Timed(FloodEnds, op)];
    NextAlarmStartsRecovery(Last(states));
    assert RunTo(states, ops, RecoveryStarts - 1);
    states, ops := RaiseMore(states, ops, RecoveryStarts - 1, 10, Critical0);
  }

  // ---- What goes wrong ----

  const Tick0 := OpTick([0], [])
  const HighHigh0 := Trigger(HighHigh, 2.0, 1.0, Critical, 0)

  lemma TickRestoresZero(e: Engine, now: int)
    requires 0 in e.active && e.pending == map[0 := ActiveAck] && e.recovering && !e.flood.inFlood
    requires e.shelves.deadlines == map[]
    ensures Allowed(e, now, Tick0) && U.Shows(Apply(e, now, Tick0), 0,
            e.active[0].(shelved := false, state := ActiveAck))
    ensures E.RestoresAcked(e, now, Tick0, 0)
  {
    var g := TickFlood(e, now);
    assert g.pending == e.pending && g.recovering && g.active == e.active;
    assert [0][..0] == [];
    assert CountActive(g, [0]) == 1;
    assert ValidBatch(g, [0]);
    assert SM.Expired(e.shelves, now, e.shelves.deadlines.Keys) == {};
    U.RestoredOrPending(e, now, Tick0, 0);
  }

  /** An acknowledged alarm is put aside by a flood, unshelved by the operator once the recovery has begun, and
      triggered again at a higher limit; the next tick makes it acknowledged, although nobody acknowledged the new
      trigger. */
  lemma RecoveryAcknowledges() returns (states: seq<Engine>, ops: seq<Timed>, n: nat)
    ensures Run(states, ops) && |ops| == n + 3
    ensures ops[n].op == OpUnshelve(0) && ops[n + 1].op == OpTrigger(0, HighHigh0, false) && ops[n + 2].op.OpTick?
    ensures E.Unacked(states[n + 2], 0) && states[n + 2].active[0].limit.HighHigh?
    ensures 0 in states[n].active && states[n].active[0].limit.High?
    ensures E.Acked(states[n + 3], 0) && states[n + 3].active[0].limit.HighHigh?
    ensures E.RestoresAcked(states[n + 2], ops[n + 2].now, ops[n + 2].op, 0)
    ensures !E.AckedSinceRaise(states, ops, 0, n + 3)
  {
    states, ops := GetRecovering();
    n := |ops|;
    var now, e, trigger := RecoveryStarts, Last(states), OpTrigger(0, HighHigh0, false);
    var e1 := Apply(e, now + 1000, OpUnshelve(0));
    var e2 := Apply(e1, now + 2000, trigger);
    assert 0 !in e1.suppressed;
    TickRestoresZero(e2, now + 3000);
    Extend(states, ops, now, now + 1000, OpUnshelve(0));
    states, ops := states + [e1], ops + [Timed(now + 1000, OpUnshelve(0))];
    Extend(states, ops, now + 1000, now + 2000, trigger);
    states, ops := states + [e2], ops + [Timed(now + 2000, trigger)];
    Extend(states, ops, now + 2000, now + 3000, Tick0);
    states, ops := states + [Apply(e2, now + 3000, Tick0)], ops + [Timed(now + 3000, Tick0)];
    assert e2.active[0].repeatCount == e1.active[0].repeatCount + 1;
    assert !E.Flag(states, ops, 0, n + 2);
    E.FlagMeans(states, ops, 0, n + 3);
  }

  /** Unshelved once the recovery has begun, the alarm is live again after the next tick. */
  lemma RecoveryUndoesUnshelve() returns (states: seq<Engine>, ops: seq<Timed>, n: nat)
    ensures Run(states, ops) && |ops| == n + 2 && ops[n].op == OpUnshelve(0) && ops[n + 1].op.OpTick?
    ensures 0 in states[n].active && !U.WillLast(states[n], ops[n].now, 0) && !states[n].flood.inFlood
    ensures StateOf0(states[n + 1]).RtnUnack? && StateOf0(states[n + 2]).ActiveAck?
  {
    states, ops := GetRecovering();
    n := |ops|;
    var now, e := RecoveryStarts, Last(states);
    var e1 := Apply(e, now + 1000, OpUnshelve(0));
    TickRestoresZero(e1, now + 2000);
    Extend(states, ops, now, now + 1000, OpUnshelve(0));
    states, ops := states + [e1], ops + [Timed(now + 1000, OpUnshelve(0))];
    Extend(states, ops, now + 1000, now + 2000, Tick0);
    states, ops := states + [Apply(e1, now + 2000, Tick0)], ops + [Timed(now + 2000, Tick0)];
  }

  function StateOf0(e: Engine): AlarmState {
    if 0 in e.active then e.active[0].state else Normal
  }

  /** Unshelved while the flood is still on, the alarm is put aside again by the next tick, and what is saved is the
      state RtnUnack. */
  lemma FloodUndoesUnshelve() returns (states: seq<Engine>, ops: seq<Timed>, n: nat)
    ensures Run(states, ops) && |ops| == n + 2 && ops[n].op == OpUnshelve(0) && ops[n + 1].op.OpTick?
    ensures 0 in states[n].active && !U.WillLast(states[n], ops[n].now, 0) && states[n].pending == map[]
    ensures StateOf0(states[n + 1]).RtnUnack? && StateOf0(states[n + 2]).Shelved?
    ensures 0 in states[n + 2].suppressed && states[n + 2].suppressed[0].RtnUnack?
  {
    states, ops := GetFlooded();
    n := |ops|;
    var now, e, tick := 11, Last(states), OpTick([], []);
    var e1 := Apply(e, now + 1000, OpUnshelve(0));
    assert SM.Expired(e1.shelves, now + 2000, e1.shelves.deadlines.Keys) == {};
    assert !TickFlood(e1, now + 2000).recovering;
    U.FloodSuppressesAgain(e1, now + 2000, tick, 0);
    Extend(states, ops, now, now + 1000, OpUnshelve(0));
    states, ops := states + [e1], ops + [Timed(now + 1000, OpUnshelve(0))];
    Extend(states, ops, now + 1000, now + 2000, tick);
    states, ops := states + [Apply(e1, now + 2000, tick)], ops + [Timed(now + 2000, tick)];
  }
}
