/** Flood suppression and recovery: the round trip over the 10 s ticks, and how fast a recovery ends. */
module AlarmEngineFlood {
  import opened AlarmTypes
  import opened AlarmEngineState
  import opened AlarmEngineStates
  import FD = FloodDetection
  import SM = Shelving

  // ---- One batch ----

  function Members(list: seq<nat>): set<nat> { set t | t in list }

  /** The restoration loop puts back every visited alarm and drops it from both tables. */
  lemma {:induction false} RestoreAllEffect(e: Engine, batch: seq<nat>)
    requires Distinct(batch) && forall i :: 0 <= i < |batch| ==> batch[i] in e.pending
    ensures var r := RestoreAll(e, batch);
            && r.pending == e.pending - Members(batch)
            && r.suppressed == e.suppressed - Members(batch)
            && r.active.Keys == e.active.Keys
            && (forall t :: t in e.active ==>
                  r.active[t] == if t in batch then e.active[t].(shelved := false, state := e.pending[t])
                                 else e.active[t])
            && r.recovering == e.recovering && r.flood == e.flood
  {
    if batch != [] {
      var before, last := batch[..|batch| - 1], batch[|batch| - 1];
      RestoreAllEffect(e, before);
      assert batch == before + [last];
      assert Members(batch) == Members(before) + {last};
      assert last !in before;
    }
  }

  lemma {:induction false} MembersCount(batch: seq<nat>)
    requires Distinct(batch)
    ensures |Members(batch)| == |batch|
  {
    if batch != [] {
      var before, last := batch[..|batch| - 1], batch[|batch| - 1];
      MembersCount(before);
      assert batch == before + [last];
      assert Members(batch) == Members(before) + {last} && last !in before;
    }
  }

  lemma DropCount(m: map<nat, AlarmState>, batch: seq<nat>)
    requires Distinct(batch) && forall i :: 0 <= i < |batch| ==> batch[i] in m
    ensures |m - Members(batch)| == |m| - |batch|
  {
    MembersCount(batch);
    assert Members(batch) <= m.Keys;
    assert (m - Members(batch)).Keys == m.Keys - Members(batch);
  }

  lemma {:induction false} CountActiveBound(e: Engine, list: seq<nat>)
    ensures CountActive(e, list) <= |list|
  {
    if list != [] {
      CountActiveBound(e, list[..|list| - 1]);
    }
  }

  lemma BatchBounds(e: Engine, batch: seq<nat>)
    requires ValidBatch(e, batch)
    ensures |batch| >= BatchSize(e) >= CountActive(e, batch)
  {
    CountActiveBound(e, batch);
    if batch != [] {
      assert CountActive(e, batch[..|batch| - 1]) < BatchSize(e);
    }
  }

  /** A tick with a recovery on removes at least min(5, pending) entries and restores at most 5 alarms. */
  lemma TickRestores(e: Engine, batch: seq<nat>)
    requires e.recovering && ValidBatch(e, batch)
    ensures var r := TickRestore(e, batch);
            && |r.pending| == |e.pending| - |batch| <= |e.pending| - BatchSize(e)
            && (r.recovering <==> r.pending != map[])
            && CountActive(e, batch) <= RESTORE_BATCH
            && (forall t :: t in e.active ==>
                  t in r.active && if t in batch
                                   then r.active[t] == e.active[t].(shelved := false, state := e.pending[t])
                                   else r.active[t] == e.active[t])
  {
    RestoreAllEffect(e, batch);
    DropCount(e.pending, batch);
    BatchBounds(e, batch);
  }

  // ---- A recovery ends ----

  function Ticks(ops: seq<Timed>, i: nat, j: nat): nat
    requires i <= j <= |ops|
  {
    if i == j then 0 else Ticks(ops, i, j - 1) + if ops[j - 1].op.OpTick? then 1 else 0
  }

  lemma CheckFloodPending(e: Engine, now: int)
    requires e.recovering
    ensures CheckFlood(e, now).recovering && CheckFlood(e, now).pending == e.pending
  {
  }

  lemma {:induction false} OnDelayTimerPending(e: Engine, now: int, order: seq<nat>, chattering: set<nat>)
    requires e.recovering
    ensures var f := OnDelayTimer(e, now, order, chattering); f.recovering && f.pending == e.pending
  {
    if order != [] {
      OnDelayTimerPending(e, now, order[..|order| - 1], chattering);
    }
  }

  lemma {:induction false} OffDelayTimerPending(e: Engine, order: seq<nat>)
    ensures OffDelayTimer(e, order).recovering == e.recovering && OffDelayTimer(e, order).pending == e.pending
  {
    if order != [] {
      OffDelayTimerPending(e, order[..|order| - 1]);
    }
  }

  lemma {:induction false} UnshelveAllPending(e: Engine, now: int, tags: seq<nat>)
    ensures UnshelveAll(e, now, tags).recovering == e.recovering && UnshelveAll(e, now, tags).pending == e.pending
  {
    if tags != [] {
      UnshelveAllPending(e, now, tags[..|tags| - 1]);
    }
  }

  lemma TickPending(e: Engine, now: int, batch: seq<nat>, expired: seq<nat>)
    requires e.recovering && ValidBatch(TickFlood(e, now), batch)
    ensures var f := Tick(e, now, batch, expired);
            |f.pending| <= |e.pending| - (if |e.pending| < RESTORE_BATCH then |e.pending| else RESTORE_BATCH) &&
            (f.recovering <==> f.pending != map[])
  {
    CheckFloodPending(e.(shelves := SM.Expire(e.shelves, now), flood := FD.CheckExpired(e.flood, now)), now);
    TickRestores(TickFlood(e, now), batch);
    UnshelveAllPending(TickRestore(TickFlood(e, now), batch), now, expired);
  }

  /** Whatever else happens, a recovery with n alarms to restore survives fewer than n/5 ticks: each tick takes
      five off and nothing puts any back. */
  lemma {:induction false} RecoveryEnds(states: seq<Engine>, ops: seq<Timed>, i: nat, j: nat)
    requires Run(states, ops) && i <= j <= |ops|
    requires forall k :: i <= k <= j ==> states[k].recovering
    ensures |states[j].pending| >= 1
    ensures |states[j].pending| + RESTORE_BATCH * Ticks(ops, i, j) <= |states[i].pending|
    decreases j
  {
    RunInv(states, ops, j);
    if i < j {
      RecoveryEnds(states, ops, i, j - 1);
      var e, now, op := states[j - 1], ops[j - 1].now, ops[j - 1].op;
      assert StepAt(states, ops, j - 1);
      PendingStep(e, now, op);
    }
  }

  lemma PendingStep(e: Engine, now: int, op: Op)
    requires e.recovering && Allowed(e, now, op)
    ensures var f := Apply(e, now, op);
            if op.OpTick? then (f.recovering <==> f.pending != map[]) &&
                               (|f.pending| + RESTORE_BATCH <= |e.pending| || f.pending == map[])
            else f.pending == e.pending
  {
    match op
    case OpTick(batch, expired) =>
      CheckFloodPending(e.(shelves := SM.Expire(e.shelves, now), flood := FD.CheckExpired(e.flood, now)), now);
      TickPending(e, now, batch, expired);
    case OpOnDelayTimer(order, chattering) => OnDelayTimerPending(e, now, order, chattering);
    case OpOffDelayTimer(order) => OffDelayTimerPending(e, order);
    case _ =>
  }

  // ---- The round trip ----

  /** e is e0 with the non-critical alarms in `suppressed` put aside, each with its state remembered. */
  ghost predicate Mirrors(e0: Engine, e: Engine) {
    && e.active.Keys == e0.active.Keys
    && (forall t :: t in e.suppressed ==>
          t in e.active && e0.active[t].state == e.suppressed[t] &&
          !e0.active[t].shelved && !e0.active[t].priority.Critical? &&
          e.active[t] == e0.active[t].(shelved := true, state := Shelved))
    && (forall t :: t in e.active && t !in e.suppressed ==> e.active[t] == e0.active[t])
    && (if e.recovering then e.pending == e.suppressed && e.pending != map[] && !e.flood.inFlood
        else e.pending == map[])
  }

  lemma RestoreMirrors(e0: Engine, e: Engine, batch: seq<nat>)
    requires Mirrors(e0, e) && (e.recovering ==> ValidBatch(e, batch))
    ensures Mirrors(e0, TickRestore(e, batch))
    ensures TickRestore(e, batch).flood == e.flood
  {
    if e.recovering {
      RestoreAllEffect(e, batch);
      var r := RestoreAll(e, batch);
      assert r.suppressed == r.pending;
      forall t | t in e.active && t in batch
        ensures r.active[t] == e0.active[t]
      {
        assert t in e.pending;
      }
    }
  }

  lemma RestoreShrinks(e0: Engine, e: Engine, batch: seq<nat>)
    requires Mirrors(e0, e) && e.recovering && ValidBatch(e, batch)
    ensures |TickRestore(e, batch).suppressed| <= |e.suppressed| - BatchSize(e)
  {
    RestoreAllEffect(e, batch);
    TickRestores(e, batch);
    assert TickRestore(e, batch).suppressed == TickRestore(e, batch).pending;
  }

  lemma TickMirrors(e0: Engine, e: Engine, now: int, batch: seq<nat>)
    requires Mirrors(e0, e) && (TickFlood(e, now).recovering ==> ValidBatch(TickFlood(e, now), batch))
    ensures Mirrors(e0, Tick(e, now, batch, []))
  {
    var s := e.(shelves := SM.Expire(e.shelves, now), flood := FD.CheckExpired(e.flood, now));
    RestoreMirrors(e0, TickFlood(e, now), batch);
  }

  ghost predicate TickAt(states: seq<Engine>, ops: seq<Timed>, k: nat)
    requires k < |ops| && |states| == |ops| + 1
  {
    ops[k].op.OpTick? && ops[k].op.expired == [] && StepAt(states, ops, k)
  }

  /** A stretch of ticks with nothing else going on and no shelve running out. */
  ghost predicate OnlyTicks(states: seq<Engine>, ops: seq<Timed>) {
    && |states| == |ops| + 1
    && (forall k: nat :: k < |ops| ==> TickAt(states, ops, k))
    && (forall i, j :: 0 <= i <= j < |ops| ==> ops[i].now <= ops[j].now)
  }

  /** From empty flood tables, suppression and then any number of ticks, in flood, cooling down or recovering in
      any batch order, only ever puts non-critical alarms aside. */
  lemma {:induction false} TicksMirror(e0: Engine, now: int, states: seq<Engine>, ops: seq<Timed>, k: nat)
    requires e0.suppressed == e0.pending == map[] && !e0.recovering
    requires OnlyTicks(states, ops) && states[0] == CheckFlood(e0, now) && k < |states|
    ensures Mirrors(e0, states[k])
  {
    if k > 0 {
      TicksMirror(e0, now, states, ops, k - 1);
      assert TickAt(states, ops, k - 1);
      TickMirrors(e0, states[k - 1], ops[k - 1].now, ops[k - 1].op.batch);
    }
  }

  /** Critical alarms are never touched, and once nothing is left aside every alarm is exactly as it was. */
  lemma FloodRoundTrip(e0: Engine, now: int, states: seq<Engine>, ops: seq<Timed>, k: nat)
    requires e0.suppressed == e0.pending == map[] && !e0.recovering
    requires OnlyTicks(states, ops) && states[0] == CheckFlood(e0, now) && k < |states|
    ensures forall t :: t in e0.active && e0.active[t].priority.Critical? ==>
              t in states[k].active && states[k].active[t] == e0.active[t]
    ensures states[k].suppressed == map[] ==> states[k].active == e0.active && !states[k].recovering
  {
    TicksMirror(e0, now, states, ops, k);
  }

  // ---- The round trip completes ----

  lemma TickFloodState(e: Engine, now: int, batch: seq<nat>)
    requires TickFlood(e, now).recovering ==> ValidBatch(TickFlood(e, now), batch)
    ensures Tick(e, now, batch, []).flood == FD.CheckExpired(e.flood, now)
  {
    if TickFlood(e, now).recovering {
      RestoreAllEffect(TickFlood(e, now), batch);
    }
  }

  /** Ticks only ever end a flood. If tick a comes late enough after the last alarm, the flood is over from then on. */
  lemma {:induction false} FloodOver(states: seq<Engine>, ops: seq<Timed>, a: nat, k: nat)
    requires OnlyTicks(states, ops) && a < |ops| && k < |states|
    requires LateEnough(states[0].flood, ops[a].now)
    ensures var f, g := states[0].flood, states[k].flood;
            && (g.inFlood ==> g == f && k <= a)
            && (!g.inFlood ==> g.floodEnd <= ops[a].now)
  {
    if k > 0 {
      FloodOver(states, ops, a, k - 1);
      assert TickAt(states, ops, k - 1);
      TickFloodState(states[k - 1], ops[k - 1].now, ops[k - 1].op.batch);
    }
  }

  /** A tick after the cooldown takes a batch off whatever is still aside. */
  lemma TickShrinks(e0: Engine, e: Engine, now: int, batch: seq<nat>)
    requires Mirrors(e0, e) && (TickFlood(e, now).recovering ==> ValidBatch(TickFlood(e, now), batch))
    requires !e.flood.inFlood && now - e.flood.floodEnd >= FD.FLOOD_COOLDOWN_MS
    ensures |Tick(e, now, batch, []).suppressed| <=
              if |e.suppressed| < RESTORE_BATCH then 0 else |e.suppressed| - RESTORE_BATCH
  {
    var s := e.(shelves := SM.Expire(e.shelves, now), flood := FD.CheckExpired(e.flood, now));
    if TickFlood(e, now).recovering {
      RestoreShrinks(e0, TickFlood(e, now), batch);
    }
  }

  /** Nothing is left that the flood check would put aside. */
  ghost predicate Settled(e: Engine) {
    e.flood.inFlood ==> forall t :: t in e.active ==> !FloodSuppresses(e, t)
  }

  lemma TickNoGrowth(e0: Engine, e: Engine, now: int, batch: seq<nat>)
    requires Mirrors(e0, e) && (TickFlood(e, now).recovering ==> ValidBatch(TickFlood(e, now), batch))
    requires Settled(e)
    ensures |Tick(e, now, batch, []).suppressed| <= |e.suppressed| && Settled(Tick(e, now, batch, []))
  {
    var s := e.(shelves := SM.Expire(e.shelves, now), flood := FD.CheckExpired(e.flood, now));
    assert Settled(s);
    if TickFlood(e, now).recovering {
      RestoreShrinks(e0, TickFlood(e, now), batch);
      RestoreMirrors(e0, TickFlood(e, now), batch);
    }
  }

  /** The setting of the complete round trip: suppression of a flood, then only ticks. Tick a comes 600 s after the
      last alarm and a minute after the flood began (if one is on), tick b 30 s later. */
  ghost predicate Aftermath(e0: Engine, now: int, states: seq<Engine>, ops: seq<Timed>, a: nat, b: nat) {
    && e0.suppressed == e0.pending == map[] && !e0.recovering
    && OnlyTicks(states, ops) && states[0] == CheckFlood(e0, now)
    && a < b < |ops|
    && LateEnough(states[0].flood, ops[a].now)
    && ops[b].now - ops[a].now >= FD.FLOOD_COOLDOWN_MS
  }

  predicate LateEnough(f: FD.Flood, at: int) {
    && f.floodEnd <= at
    && (f.inFlood ==>
          f.lastAlarm > 0 && at - f.lastAlarm > FD.FLOOD_WINDOW_MS && at - f.floodStart >= FD.MIN_FLOOD_DURATION_MS)
  }

  function Left(n: nat, ticks: nat): nat {
    if n <= RESTORE_BATCH * ticks then 0 else n - RESTORE_BATCH * ticks
  }

  lemma OneTick(e0: Engine, e: Engine, now: int, batch: seq<nat>, over: bool, e': Engine)
    requires Mirrors(e0, e) && (TickFlood(e, now).recovering ==> ValidBatch(TickFlood(e, now), batch))
    requires Settled(e) && e' == Tick(e, now, batch, [])
    requires over ==> !e.flood.inFlood && now - e.flood.floodEnd >= FD.FLOOD_COOLDOWN_MS
    ensures Settled(e') && |e'.suppressed| <= Left(|e.suppressed|, if over then 1 else 0)
  {
    TickNoGrowth(e0, e, now, batch);
    if over {
      TickShrinks(e0, e, now, batch);
    }
  }

  lemma AftermathTick(e0: Engine, now: int, states: seq<Engine>, ops: seq<Timed>, a: nat, b: nat, k: nat)
    requires Aftermath(e0, now, states, ops, a, b) && k < |ops| && Settled(states[k])
    ensures Settled(states[k + 1])
    ensures |states[k + 1].suppressed| <= Left(|states[k].suppressed|, if k >= b then 1 else 0)
  {
    TicksMirror(e0, now, states, ops, k);
    FloodOver(states, ops, a, k);
    assert k >= b ==> ops[b].now <= ops[k].now;
    assert TickAt(states, ops, k);
    OneTick(e0, states[k], ops[k].now, ops[k].op.batch, k >= b, states[k + 1]);
  }

  lemma {:induction false} SuppressedShrinks(e0: Engine, now: int, states: seq<Engine>, ops: seq<Timed>, a: nat,
                                             b: nat, k: nat)
    requires Aftermath(e0, now, states, ops, a, b) && k < |states|
    ensures |states[k].suppressed| <= Left(|states[0].suppressed|, if k <= b then 0 else k - b)
    ensures Settled(states[k])
  {
    if k > 0 {
      SuppressedShrinks(e0, now, states, ops, a, b, k - 1);
      AftermathTick(e0, now, states, ops, a, b, k - 1);
    }
  }

  /** A flood, left alone, undoes itself: one tick once 600 s have passed since the last alarm, one tick 30 s after
      that, and a tick for every five alarms put aside bring back every alarm exactly as it was. */
  lemma FloodUndone(e0: Engine, now: int, states: seq<Engine>, ops: seq<Timed>, a: nat, b: nat, k: nat)
    requires Aftermath(e0, now, states, ops, a, b) && b < k < |states|
    ensures RESTORE_BATCH * (k - b) >= |states[0].suppressed| ==>
              states[k].active == e0.active && states[k].suppressed == states[k].pending == map[] &&
              !states[k].recovering
  {
    if RESTORE_BATCH * (k - b) >= |states[0].suppressed| {
      TicksMirror(e0, now, states, ops, k);
      SuppressedShrinks(e0, now, states, ops, a, b, k);
      assert |states[k].suppressed| == 0;
    }
  }
}
