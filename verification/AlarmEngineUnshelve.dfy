/** How long an operator's unshelve lasts: what the following 10 s ticks do to the alarm. */
module AlarmEngineUnshelve {
  import opened AlarmTypes
  import opened AlarmEngineState
  import opened AlarmEngineStates
  import FD = FloodDetection
  import SM = Shelving
  import D = AlarmEngineOnDelay
  import F = AlarmEngineFlood
  import E = AlarmEngineEscalation

  // ---- Ticks after an unshelve ----

  ghost predicate TickAt(states: seq<Engine>, ops: seq<Timed>, k: nat)
    requires k < |ops| && |states| == |ops| + 1
  {
    ops[k].op.OpTick? && StepAt(states, ops, k)
  }

  /** Any number of ticks from time `now` on, with any batches and any other shelves running out. */
  ghost predicate TickRun(e: Engine, now: int, states: seq<Engine>, ops: seq<Timed>) {
    && |states| == |ops| + 1 && states[0] == e
    && (forall k: nat :: k < |ops| ==> TickAt(states, ops, k))
    && (forall k :: 0 <= k < |ops| ==> now <= ops[k].now)
    && (forall i, j :: 0 <= i <= j < |ops| ==> ops[i].now <= ops[j].now)
  }

  predicate Shows(e: Engine, t: nat, ev: AlarmEvent) {
    t in e.active && e.active[t] == ev
  }

  /** However the ticks go, the alarm stays as the unshelve left it. */
  ghost predicate Lasts(e: Engine, now: int, t: nat)
    requires t in e.active
  {
    var u := UnshelveAlarm(e, now, t);
    forall states, ops, k: nat :: TickRun(u, now, states, ops) && k < |states| ==> Shows(states[k], t, u.active[t])
  }

  /** A flood is on that has not run out by now. */
  predicate FloodOn(e: Engine, now: int) {
    FD.CheckExpired(e.flood, now).inFlood
  }

  /** An alarm that a flood may put aside, once it is unshelved. */
  predicate Exposed(ev: AlarmEvent) {
    !ev.priority.Critical? && !ev.outOfService
  }

  /** What the operator can see before unshelving: the alarm does not wait to be restored to another state than
      RtnUnack, and no flood is on that would put it aside again. */
  predicate WillLast(e: Engine, now: int, t: nat)
    requires t in e.active
  {
    && (t in e.pending ==> e.pending[t].RtnUnack?)
    && !(FloodOn(e, now) && Exposed(e.active[t]))
  }

  // ---- It lasts ----

  ghost predicate Settled(e: Engine, now: int, t: nat, ev: AlarmEvent) {
    && Shows(e, t, ev) && ev.state.RtnUnack? && !ev.shelved
    && t !in e.suppressed && (t in e.pending ==> e.pending[t].RtnUnack?) && t !in e.shelves.deadlines
    && !(FloodOn(e, now) && Exposed(ev))
  }

  lemma {:induction false} RestoreAllTables(e: Engine, batch: seq<nat>, t: nat)
    ensures var r := RestoreAll(e, batch);
            && r.shelves == e.shelves && r.flood == e.flood
            && (t in r.suppressed ==> t in e.suppressed)
            && (t in r.pending ==> t in e.pending && r.pending[t] == e.pending[t])
  {
    if batch != [] {
      RestoreAllTables(e, batch[..|batch| - 1], t);
    }
  }

  lemma {:induction false} UnshelveAllTables(e: Engine, now: int, tags: seq<nat>, t: nat)
    ensures var r := UnshelveAll(e, now, tags);
            && r.flood == e.flood && r.pending == e.pending && r.recovering == e.recovering
            && (t in r.suppressed ==> t in e.suppressed)
            && (t !in tags && t in e.suppressed ==> t in r.suppressed && r.suppressed[t] == e.suppressed[t])
            && (t in r.shelves.deadlines ==> t in e.shelves.deadlines)
  {
    if tags != [] {
      UnshelveAllTables(e, now, tags[..|tags| - 1], t);
      assert tags == tags[..|tags| - 1] + [tags[|tags| - 1]];
    }
  }

  /** What a tick does to the tables as far as alarm t is concerned. */
  lemma TickTables(e: Engine, now: int, batch: seq<nat>, expired: seq<nat>, t: nat)
    ensures var f, g := Tick(e, now, batch, expired), TickFlood(e, now);
            && f.flood == FD.CheckExpired(e.flood, now)
            && (t in f.suppressed ==> t in g.suppressed)
            && (t in f.pending ==> t in g.pending && f.pending[t] == g.pending[t])
            && (t in f.shelves.deadlines ==> t in e.shelves.deadlines)
  {
    RestoreAllTables(TickFlood(e, now), batch, t);
    UnshelveAllTables(TickRestore(TickFlood(e, now), batch), now, expired, t);
  }

  lemma TickSettled(e: Engine, then': int, now: int, op: Op, t: nat, ev: AlarmEvent)
    requires Settled(e, then', t, ev) && then' <= now && op.OpTick? && Allowed(e, now, op)
    ensures Settled(Apply(e, now, op), now, t, ev)
  {
    assert t !in op.expired;
    E.TickOutcome(e, now, op.batch, op.expired, t);
    TickTables(e, now, op.batch, op.expired, t);
    assert FD.CheckExpired(FD.CheckExpired(e.flood, now), now) == FD.CheckExpired(e.flood, now);
  }

  lemma {:induction false} StaysSettled(e: Engine, now: int, states: seq<Engine>, ops: seq<Timed>, k: nat, t: nat,
                                        ev: AlarmEvent)
    requires TickRun(e, now, states, ops) && k < |states| && Settled(e, now, t, ev)
    ensures Settled(states[k], if k == 0 then now else ops[k - 1].now, t, ev)
  {
    if k > 0 {
      StaysSettled(e, now, states, ops, k - 1, t, ev);
      assert TickAt(states, ops, k - 1);
      TickSettled(states[k - 1], if k == 1 then now else ops[k - 2].now, ops[k - 1].now, ops[k - 1].op, t, ev);
    }
  }

  // ---- It does not ----

  lemma {:induction false} SomeList(tags: set<nat>) returns (list: seq<nat>)
    ensures SM.Lists(list, tags)
  {
    if tags == {} {
      list := [];
    } else {
      var t :| t in tags;
      var rest := SomeList(tags - {t});
      list := rest + [t];
      SM.ListsAppend(rest, tags - {t}, t);
      assert tags - {t} + {t} == tags;
    }
  }

  /** A batch may begin with any pending alarms that do not exceed it. */
  lemma {:induction false} SomeBatch(e: Engine, begun: seq<nat>) returns (batch: seq<nat>)
    requires Distinct(begun) && (forall i :: 0 <= i < |begun| ==> begun[i] in e.pending) && |begun| <= |e.pending|
    requires forall k :: 0 <= k < |begun| ==> CountActive(e, begun[..k]) < BatchSize(e)
    ensures ValidBatch(e, batch) && begun <= batch
    decreases |e.pending| - |begun|
  {
    if CountActive(e, begun) >= BatchSize(e) || |begun| == |e.pending| {
      batch := begun;
    } else {
      F.MembersCount(begun);
      var p := OneMore(e.pending.Keys, F.Members(begun));
      var more := begun + [p];
      assert forall k :: 0 <= k < |begun| ==> more[..k] == begun[..k];
      assert more[..|begun|] == begun;
      assert p !in begun;
      F.MembersCount(more);
      SubsetSize(F.Members(more), e.pending.Keys);
      batch := SomeBatch(e, more);
    }
  }

  lemma SubsetSize(a: set<nat>, b: set<nat>)
    requires a <= b
    ensures |a| <= |b|
  {
    assert b == a + (b - a);
  }

  lemma OneMore(all: set<nat>, some: set<nat>) returns (p: nat)
    requires |some| < |all|
    ensures p in all && p !in some
  {
    if all <= some {
      SubsetSize(all, some);
    }
    p :| p in all && p !in some;
  }

  /** A tick is always possible; if a recovery is on, its batch may include any pending alarm. */
  lemma SomeTick(e: Engine, now: int, t: nat) returns (op: Op)
    ensures op.OpTick? && Allowed(e, now, op)
    ensures TickFlood(e, now).recovering && t in TickFlood(e, now).pending ==> t in op.batch
  {
    var g := TickFlood(e, now);
    var expired := SomeList(SM.Expired(e.shelves, now, e.shelves.deadlines.Keys));
    var batch: seq<nat> := [];
    if g.recovering {
      var begun: seq<nat> := if t in g.pending then [t] else [];
      if t in g.pending {
        SubsetSize({t}, g.pending.Keys);
        assert begun[..0] == [];
      }
      batch := SomeBatch(g, begun);
      assert t in g.pending ==> batch[0] == t;
    }
    op := OpTick(batch, expired);
  }

  /** A tick in a flood puts the unshelved alarm aside again, unless it restores it at the same time. */
  lemma FloodSuppressesAgain(e: Engine, now: int, op: Op, t: nat)
    requires op.OpTick? && Allowed(e, now, op) && FloodOn(e, now)
    requires t in e.active && e.active[t].state.RtnUnack? && !e.active[t].shelved && Exposed(e.active[t])
    requires t !in e.suppressed && t !in e.pending && t !in e.shelves.deadlines
    ensures Shows(Apply(e, now, op), t, PutAside(e.active[t]))
    ensures var f := Apply(e, now, op); t in f.suppressed && f.suppressed[t].RtnUnack?
  {
    var g := TickFlood(e, now);
    assert FloodSuppresses(e, t);
    assert Shows(g, t, PutAside(e.active[t])) && t in g.suppressed && g.suppressed[t].RtnUnack? &&
        g.pending == e.pending;
    assert t !in op.expired;
    assert g.recovering ==> t !in op.batch;
    E.TickOutcome(e, now, op.batch, op.expired, t);
    RestoreOthers(g, op.batch, t);
    UnshelveAllTables(TickRestore(g, op.batch), now, op.expired, t);
  }

  lemma {:induction false} RestoreOthers(e: Engine, batch: seq<nat>, t: nat)
    requires t !in e.pending
    ensures var r := RestoreAll(e, batch);
            t !in r.pending && (t in r.suppressed <==> t in e.suppressed) &&
            (t in e.suppressed ==> r.suppressed[t] == e.suppressed[t])
  {
    if batch != [] {
      RestoreOthers(e, batch[..|batch| - 1], t);
    }
  }

  /** One tick of a recovery restores a pending alarm to its saved state or leaves it pending. */
  lemma RestoredOrPending(e: Engine, now: int, op: Op, t: nat)
    requires op.OpTick? && Allowed(e, now, op) && e.recovering && t in e.pending && t in e.active
    ensures var f := Apply(e, now, op);
            if t in op.batch
            then Shows(f, t, e.active[t].(shelved := false, state := e.pending[t])) &&
                 t !in f.pending && t !in f.suppressed
            else t in f.active && t in f.pending && f.pending[t] == e.pending[t] && f.recovering
  {
    var g := TickFlood(e, now);
    F.CheckFloodPending(e.(shelves := SM.Expire(e.shelves, now), flood := FD.CheckExpired(e.flood, now)), now);
    E.TickOutcome(e, now, op.batch, op.expired, t);
    F.RestoreAllEffect(g, op.batch);
    UnshelveAllTables(TickRestore(g, op.batch), now, op.expired, t);
  }

  lemma TwoTicks(e: Engine, now: int, op: Op, op': Op) returns (states: seq<Engine>, ops: seq<Timed>)
    requires op.OpTick? && Allowed(e, now, op) && op'.OpTick? && Allowed(Apply(e, now, op), now, op')
    ensures TickRun(e, now, states, ops) && |states| == 3 && states[2] == Apply(Apply(e, now, op), now, op')
  {
    states := [e, Apply(e, now, op), Apply(Apply(e, now, op), now, op')];
    ops := [Timed(now, op), Timed(now, op')];
    assert StepAt(states, ops, 0) && StepAt(states, ops, 1);
  }

  /** Unshelved while waiting to be restored to a live state: a tick may restore it. */
  lemma RestoreUndoes(e: Engine, now: int, t: nat) returns (states: seq<Engine>, ops: seq<Timed>)
    requires Inv(e) && t in e.active && e.active[t].shelved && t in e.pending && !e.pending[t].RtnUnack?
    ensures var u := UnshelveAlarm(e, now, t);
            TickRun(u, now, states, ops) && |states| == 2 && !Shows(states[1], t, u.active[t])
  {
    var u := UnshelveAlarm(e, now, t);
    F.CheckFloodPending(u.(shelves := SM.Expire(u.shelves, now), flood := FD.CheckExpired(u.flood, now)), now);
    var op := SomeTick(u, now, t);
    RestoredOrPending(u, now, op, t);
    states, ops := [u, Apply(u, now, op)], [Timed(now, op)];
    assert StepAt(states, ops, 0);
  }

  /** A tick restores the alarm to RtnUnack, and the next puts it aside. */
  lemma FloodUndoesPending(u: Engine, now: int, t: nat) returns (states: seq<Engine>, ops: seq<Timed>)
    requires t in u.active && t in u.pending && u.recovering && u.pending[t].RtnUnack?
    requires t !in u.suppressed && t !in u.shelves.deadlines
    requires FloodOn(u, now) && Exposed(u.active[t]) && !u.active[t].shelved && u.active[t].state.RtnUnack?
    ensures TickRun(u, now, states, ops) && |states| == 3 && !Shows(states[2], t, u.active[t])
  {
    var op := SomeTick(u, now, t);
    F.CheckFloodPending(u.(shelves := SM.Expire(u.shelves, now), flood := FD.CheckExpired(u.flood, now)), now);
    RestoredOrPending(u, now, op, t);
    TickTables(u, now, op.batch, op.expired, t);
    var f := Apply(u, now, op);
    var op' := SomeTick(f, now, t);
    FloodSuppressesAgain(f, now, op', t);
    states, ops := TwoTicks(u, now, op, op');
  }

  /** Unshelved during a flood: the first tick, or the second if the first restores it, puts it aside again. */
  lemma FloodUndoes(e: Engine, now: int, t: nat) returns (states: seq<Engine>, ops: seq<Timed>, k: nat)
    requires Inv(e) && t in e.active && e.active[t].shelved && FloodOn(e, now) && Exposed(e.active[t])
    requires t in e.pending ==> e.pending[t].RtnUnack?
    ensures var u := UnshelveAlarm(e, now, t);
            TickRun(u, now, states, ops) && k < |states| && !Shows(states[k], t, u.active[t])
  {
    var u := UnshelveAlarm(e, now, t);
    if t !in u.pending {
      var op := SomeTick(u, now, t);
      FloodSuppressesAgain(u, now, op, t);
      states, ops, k := [u, Apply(u, now, op)], [Timed(now, op)], 1;
      assert StepAt(states, ops, 0);
    } else {
      states, ops := FloodUndoesPending(u, now, t);
      k := 2;
    }
  }

  /** In every reachable state: unshelving an alarm lasts through all following ticks, however they go, exactly if the
      alarm does not wait to be restored to a live state and no flood is on that would put it aside again. */
  lemma UnshelveLastsIff(states: seq<Engine>, ops: seq<Timed>, i: nat, now: int, t: nat)
    requires Run(states, ops) && i < |states| && t in states[i].active && states[i].active[t].shelved
    ensures Lasts(states[i], now, t) <==> WillLast(states[i], now, t)
  {
    var e := states[i];
    RunInv(states, ops, i);
    var u := UnshelveAlarm(e, now, t);
    if WillLast(e, now, t) {
      assert Settled(u, now, t, u.active[t]);
      forall states, ops, k: nat | TickRun(u, now, states, ops) && k < |states|
        ensures Shows(states[k], t, u.active[t]) {
        StaysSettled(u, now, states, ops, k, t, u.active[t]);
      }
    } else if t in e.pending && !e.pending[t].RtnUnack? {
      var bad, ticks := RestoreUndoes(e, now, t);
      assert !Shows(bad[1], t, u.active[t]);
    } else {
      var bad, ticks, k := FloodUndoes(e, now, t);
    }
  }

  /** Once as many ticks have come as the recovery needs, the restore has certainly happened: some tick put the alarm
      back to its saved state. */
  lemma {:induction false} RecoveryOverridesUnshelve(e: Engine, now: int, states: seq<Engine>, ops: seq<Timed>,
                                                     t: nat, k: nat)
    returns (m: nat)
    requires Inv(e) && t in e.active && t in e.pending && k <= |ops|
    requires TickRun(UnshelveAlarm(e, now, t), now, states, ops) && RESTORE_BATCH * k >= |e.pending|
    ensures 0 < m <= k && t in states[m].active
    ensures states[m].active[t].state == e.pending[t] && !states[m].active[t].shelved && t !in states[m].pending
  {
    m := FirstRestore(UnshelveAlarm(e, now, t), now, states, ops, t, k);
  }

  lemma {:induction false} FirstRestore(u: Engine, now: int, states: seq<Engine>, ops: seq<Timed>, t: nat, k: nat)
    returns (m: nat)
    requires TickRun(u, now, states, ops) && k <= |ops| && Inv(u) && t in u.active && t in u.pending
    requires RESTORE_BATCH * k >= |u.pending|
    ensures 0 < m <= k && t in states[m].active
    ensures states[m].active[t].state == u.pending[t] && !states[m].active[t].shelved && t !in states[m].pending
    decreases k
  {
    SubsetSize({t}, u.pending.Keys);
    assert TickAt(states, ops, 0);
    var op, f := ops[0].op, states[1];
    RestoredOrPending(u, ops[0].now, op, t);
    if t in op.batch {
      m := 1;
    } else {
      F.TickPending(u, ops[0].now, op.batch, op.expired);
      ApplyInv(u, ops[0].now, op);
      SubsetSize({t}, f.pending.Keys);
      assert TickRun(f, now, states[1..], ops[1..]) by {
        forall j: nat | j < |ops[1..]| ensures TickAt(states[1..], ops[1..], j) {
          assert TickAt(states, ops, j + 1);
        }
      }
      m := FirstRestore(f, now, states[1..], ops[1..], t, k - 1);
      m := m + 1;
    }
  }
}
