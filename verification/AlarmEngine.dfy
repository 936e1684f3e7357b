/** The class itself: hash tables updated in place, the iterate-and-change loops, and the two component
    objects it drives. Each method is proved to take the engine's state to what AlarmEngineState says. */
module AlarmEngines {
  import opened Wrappers
  import opened AlarmTypes
  import opened AlarmEngineState
  import FD = FloodDetection
  import SM = Shelving

  // ---- What the loops over the active table have done after visiting `seen` ----

  lemma PutOne(active: map<nat, AlarmEvent>, saved: map<nat, AlarmState>, tags: set<nat>, t: nat)
    requires t in active && t !in tags
    ensures PutAll(active, tags).Keys == active.Keys && PutAll(active, tags)[t] == active[t]
    ensures PutAll(active, tags + {t}) == PutAll(active, tags)[t := PutAside(active[t])]
    ensures saved + SaveAll(active, tags + {t}) == (saved + SaveAll(active, tags))[t := active[t].state]
  {
  }

  /** What the restoration loop has done after visiting `batch`. */
  ghost predicate Visited(e: Engine, batch: seq<nat>, r: Engine, restored: nat) {
    && r == RestoreAll(e, batch) && r.active.Keys == e.active.Keys
    && Distinct(batch) && |batch| + |r.pending| == |e.pending|
    && (forall t :: t in e.pending <==> t in r.pending || t in batch)
    && (forall t :: t in batch ==> t !in r.pending)
    && restored == CountActive(e, batch) <= BatchSize(e)
    && (forall k :: 0 <= k < |batch| ==> CountActive(e, batch[..k]) < BatchSize(e))
  }

  lemma VisitPending(e: Engine, batch: seq<nat>, r: Engine, restored: nat, t: nat)
    requires Visited(e, batch, r, restored) && t in r.pending
    ensures var more, next := batch + [t], Restore(r, t);
            && Distinct(more) && |more| + |next.pending| == |e.pending| && |next.pending| < |r.pending|
            && (forall u :: u in e.pending <==> u in next.pending || u in more)
            && (forall u :: u in more ==> u !in next.pending)
  {
    assert Restore(r, t).pending.Keys == r.pending.Keys - {t};
  }

  lemma VisitCounts(e: Engine, batch: seq<nat>, r: Engine, restored: nat, t: nat)
    requires Visited(e, batch, r, restored) && t in r.pending && restored < BatchSize(e)
    ensures var more := batch + [t];
            && RestoreAll(e, more) == Restore(r, t)
            && CountActive(e, more) == (if t in e.active then restored + 1 else restored) <= BatchSize(e)
            && (forall k :: 0 <= k < |more| ==> CountActive(e, more[..k]) < BatchSize(e))
  {
    var more := batch + [t];
    assert more[..|batch|] == batch;
    assert forall k :: 0 <= k < |batch| ==> more[..k] == batch[..k];
  }

  lemma VisitOne(e: Engine, batch: seq<nat>, r: Engine, restored: nat, t: nat)
    requires Visited(e, batch, r, restored) && t in r.pending && restored < BatchSize(e)
    ensures Visited(e, batch + [t], Restore(r, t), if t in Restore(r, t).active then restored + 1 else restored)
    ensures |Restore(r, t).pending| < |r.pending|
  {
    VisitPending(e, batch, r, restored, t);
    VisitCounts(e, batch, r, restored, t);
    assert Restore(r, t).active.Keys == r.active.Keys;
  }

  class AlarmEngine {
    var active: map<nat, AlarmEvent>
    var onDelay: map<nat, OnDelayEntry>
    var offDelay: map<nat, OffDelayEntry>
    var suppressed: map<nat, AlarmState>
    var pending: map<nat, AlarmState>
    var recovering: bool
    var alarmCounter: nat
    const flood: FD.FloodDetector
    const shelves: SM.ShelveManager

    ghost function State(): Engine
      reads this, flood, shelves
    {
      Engine(active, onDelay, offDelay, suppressed, pending, recovering, flood.State(), shelves.State(), alarmCounter)
    }

    constructor ()
      ensures State() == Idle && fresh(flood) && fresh(shelves)
    {
      active, onDelay, offDelay, suppressed, pending := map[], map[], map[], map[], map[];
      recovering, alarmCounter := false, 0;
      flood := new FD.FloodDetector();
      shelves := new SM.ShelveManager();
    }

    method Trigger(now: int, tag: nat, a: Trigger, ruled: bool)
      modifies this`active, this`onDelay, this`offDelay
      ensures State() == TriggerAlarm(old(State()), now, tag, a, ruled)
    {
      if ruled {
        return;
      }
      if tag in active && active[tag].shelved {
        return;
      }
      if tag in active && active[tag].outOfService {
        return;
      }
      if tag in suppressed {
        return;
      }
      if tag in active && IsActive(active[tag].state) {
        var ev := active[tag];
        if a.limit.Rank() > ev.limit.Rank() {
          ev := ev.(limit := a.limit, priority := a.priority, triggerValue := a.value, thresholdValue := a.threshold);
          ev := ev.(state := ActiveUnack, repeatCount := ev.repeatCount + 1);
          active := active[tag := ev];
          return;
        }
        active := active[tag := ev.(triggerValue := a.value)];
        return;
      }
      if tag in active && (active[tag].state.RtnUnack? || active[tag].state.RtnAck?) {
        var ev := active[tag].(state := ActiveUnack, limit := a.limit, priority := a.priority);
        ev := ev.(triggerValue := a.value, thresholdValue := a.threshold, triggerTime := now);
        active := active[tag := ev.(repeatCount := ev.repeatCount + 1)];
        return;
      }
      if tag in onDelay {
        var d := onDelay[tag];
        if a.limit.Rank() > d.limit.Rank() {
          d := d.(limit := a.limit, value := a.value, threshold := a.threshold, priority := a.priority);
        }
        onDelay := onDelay[tag := d.(value := a.value)];
        return;
      }
      offDelay := offDelay - {tag};
      onDelay := onDelay[tag := OnDelayEntry(a.limit, a.value, a.threshold, a.priority, a.onDelayMs, now)];
    }

    method Clear(now: int, tag: nat, returnValue: real, offDelayMs: int)
      modifies this`active, this`onDelay, this`offDelay
      ensures State() == ClearAlarm(old(State()), now, tag, returnValue, offDelayMs)
    {
      onDelay := onDelay - {tag};
      if tag !in active {
        return;
      }
      if active[tag].shelved {
        return;
      }
      if offDelayMs > 0 {
        if tag !in offDelay {
          offDelay := offDelay[tag := OffDelayEntry(returnValue, offDelayMs, now)];
        }
        return;
      }
      active := active[tag := active[tag].(state := RtnUnack, returnValue := returnValue)];
    }

    method CheckFloodCondition(now: int)
      modifies this`active, this`suppressed, this`pending, this`recovering
      ensures State() == CheckFlood(old(State()), now)
    {
      if !flood.inFlood {
        if suppressed != map[] {
          if !flood.inFlood && flood.floodEndTime > 0 && now - flood.floodEndTime < FD.FLOOD_COOLDOWN_MS {
            return;
          }
          if !recovering {
            recovering := true;
            pending := suppressed;
          }
        }
        return;
      }
      SuppressNonCritical();
    }

    /** The loop over the active table that a flood runs. */
    method SuppressNonCritical()
      modifies this`active, this`suppressed
      ensures var e := old(State());
              State() == e.(active := PutAll(e.active, Suppressibles(e)),
                            suppressed := e.suppressed + SaveAll(e.active, Suppressibles(e)))
    {
      ghost var e, aside := State(), {};
      assert PutAll(active, aside) == active && suppressed + SaveAll(active, aside) == suppressed;
      var todo := active.Keys;
      while todo != {}
        invariant todo <= e.active.Keys == active.Keys
        invariant aside == Suppressibles(e) - todo
        invariant active == PutAll(e.active, aside) && suppressed == e.suppressed + SaveAll(e.active, aside)
        decreases todo
      {
        var t :| t in todo;
        var ev := active[t];
        assert ev == e.active[t] && (t in suppressed <==> t in e.suppressed);
        if !ev.shelved && !ev.outOfService && !IsSuppressed(ev.state) && t !in suppressed {
          if !ev.priority.Critical? {
            PutOne(e.active, e.suppressed, aside, t);
            suppressed := suppressed[t := ev.state];
            active := active[t := ev.(shelved := true, state := Shelved)];
            aside := aside + {t};
          }
        }
        todo := todo - {t};
      }
      assert aside == Suppressibles(e);
    }

    method OnOnDelayTimeout(now: int, tag: nat, d: OnDelayEntry, chatters: bool)
      modifies this, flood, shelves
      ensures State() == OnDelayTimeout(old(State()), now, tag, d, chatters)
    {
      if tag in active && IsActive(active[tag].state) {
        return;
      }
      if chatters {
        if tag in active {
          active := active[tag := active[tag].(shelved := true, state := Shelved)];
          shelves.ShelveTag(now, tag, CHATTER_SHELVE_SEC, true);
        }
        return;
      }
      alarmCounter := alarmCounter + 1;
      var ev := AlarmEvent(alarmCounter, d.limit, d.priority, d.value, d.threshold, now, 0.0,
                           ActiveUnack, false, false, 0);
      active := active[tag := ev];
      flood.RecordAlarm(now, d.priority);
      ghost var e := old(State());
      assert State() == Raise(e, now, tag, d).(flood := FD.Record(e.flood, now, d.priority));
      CheckFloodCondition(now);
    }

    method OnDelayTimerFires(now: int, chattering: set<nat>) returns (order: seq<nat>)
      modifies this, flood, shelves
      ensures SM.Lists(order, OnDelayDue(old(State()), now))
      ensures State() == OnDelayTimer(old(State()), now, order, chattering)
    {
      order := CollectOnDelay(now);
      ghost var e := State();
      assert order[..0] == [];
      for i := 0 to |order|
        invariant State() == OnDelayTimer(e, now, order[..i], chattering)
      {
        assert order[..i + 1][..i] == order[..i];
        var tag := order[i];
        if tag in onDelay {
          var entry := onDelay[tag];
          onDelay := onDelay - {tag};
          OnOnDelayTimeout(now, tag, entry, tag in chattering);
        }
      }
      assert order[..|order|] == order;
    }

    method CollectOnDelay(now: int) returns (due: seq<nat>)
      ensures SM.Lists(due, OnDelayDue(State(), now))
    {
      due := [];
      var todo := onDelay.Keys;
      while todo != {}
        invariant todo <= onDelay.Keys
        invariant SM.Lists(due, OnDelayDue(State(), now) - todo)
        decreases todo
      {
        var t :| t in todo;
        if HasExpired(onDelay[t].start, onDelay[t].onDelayMs, now) {
          SM.ListsAppend(due, OnDelayDue(State(), now) - todo, t);
          due := due + [t];
          assert OnDelayDue(State(), now) - (todo - {t}) == OnDelayDue(State(), now) - todo + {t};
        } else {
          assert OnDelayDue(State(), now) - (todo - {t}) == OnDelayDue(State(), now) - todo;
        }
        todo := todo - {t};
      }
      assert OnDelayDue(State(), now) - todo == OnDelayDue(State(), now);
    }

    method OnOffDelayTimeout(tag: nat, returnValue: real)
      modifies this`active
      ensures State() == OffDelayTimeout(old(State()), tag, returnValue)
    {
      if tag !in active || !IsActive(active[tag].state) {
        return;
      }
      active := active[tag := active[tag].(state := RtnUnack, returnValue := returnValue)];
    }

    method OffDelayTimerFires(now: int) returns (order: seq<nat>)
      modifies this`active, this`offDelay
      ensures SM.Lists(order, OffDelayDue(old(State()), now))
      ensures State() == OffDelayTimer(old(State()), order)
    {
      order := CollectOffDelay(now);
      ghost var e := State();
      assert order[..0] == [];
      for i := 0 to |order|
        invariant State() == OffDelayTimer(e, order[..i])
      {
        assert order[..i + 1][..i] == order[..i];
        var tag := order[i];
        if tag in offDelay {
          var returnValue := offDelay[tag].returnValue;
          offDelay := offDelay - {tag};
          OnOffDelayTimeout(tag, returnValue);
        }
      }
      assert order[..|order|] == order;
    }

    method CollectOffDelay(now: int) returns (due: seq<nat>)
      ensures SM.Lists(due, OffDelayDue(State(), now))
    {
      due := [];
      var todo := offDelay.Keys;
      while todo != {}
        invariant todo <= offDelay.Keys
        invariant SM.Lists(due, OffDelayDue(State(), now) - todo)
        decreases todo
      {
        var t :| t in todo;
        if HasExpired(offDelay[t].start, offDelay[t].offDelayMs, now) {
          SM.ListsAppend(due, OffDelayDue(State(), now) - todo, t);
          due := due + [t];
          assert OffDelayDue(State(), now) - (todo - {t}) == OffDelayDue(State(), now) - todo + {t};
        } else {
          assert OffDelayDue(State(), now) - (todo - {t}) == OffDelayDue(State(), now) - todo;
        }
        todo := todo - {t};
      }
      assert OffDelayDue(State(), now) - todo == OffDelayDue(State(), now);
    }

    /** acknowledgeAlarm looks its alarm up by id: the first live, unacknowledged one found is acknowledged. */
    method AcknowledgeById(alarmId: nat) returns (found: Option<nat>)
      modifies this`active
      ensures found == None ==>
                State() == old(State()) &&
                forall t :: t in active ==> active[t].alarmId != alarmId || !active[t].state.ActiveUnack?
      ensures found.Some? ==>
                found.value in old(active) && old(active)[found.value].alarmId == alarmId &&
                old(active)[found.value].state.ActiveUnack? && State() == Acknowledge(old(State()), found.value)
    {
      var todo := active.Keys;
      while todo != {}
        invariant todo <= active.Keys && active == old(active)
        invariant forall t :: t in active && t !in todo ==>
                    active[t].alarmId != alarmId || !active[t].state.ActiveUnack?
        decreases todo
      {
        var t :| t in todo;
        if active[t].alarmId == alarmId && active[t].state.ActiveUnack? {
          active := active[t := active[t].(state := ActiveAck)];
          return Some(t);
        }
        todo := todo - {t};
      }
      return None;
    }

    method AcknowledgeByTag(tag: nat) returns (ok: bool)
      modifies this`active
      ensures State() == Acknowledge(old(State()), tag)
      ensures ok <==> tag in old(active) && old(active)[tag].state.ActiveUnack?
    {
      if tag !in active || !active[tag].state.ActiveUnack? {
        return false;
      }
      active := active[tag := active[tag].(state := ActiveAck)];
      return true;
    }

    method AcknowledgeEverything()
      modifies this`active
      ensures State() == AcknowledgeAll(old(State()))
    {
      var todo := active.Keys;
      while todo != {}
        invariant todo <= active.Keys == old(active).Keys
        invariant forall t :: t in active ==>
                    active[t] == if t !in todo && old(active)[t].state.ActiveUnack?
                                 then old(active)[t].(state := ActiveAck) else old(active)[t]
        decreases todo
      {
        var t :| t in todo;
        if active[t].state.ActiveUnack? {
          active := active[t := active[t].(state := ActiveAck)];
        }
        todo := todo - {t};
      }
      assert active == AcknowledgeAll(old(State())).active;
    }

    method AcknowledgeReturnByTag(tag: nat)
      modifies this`active
      ensures State() == AcknowledgeReturn(old(State()), tag)
    {
      if tag !in active || !active[tag].state.RtnUnack? {
        return;
      }
      active := active - {tag};
    }

    method AcknowledgeEveryReturn()
      modifies this`active
      ensures State() == AcknowledgeAllReturns(old(State()))
    {
      var todo := active.Keys;
      while todo != {}
        invariant todo <= active.Keys <= old(active).Keys
        invariant forall t :: t in active ==> active[t] == old(active)[t]
        invariant forall t :: t in old(active) ==> (t in active <==> t in todo || !old(active)[t].state.RtnUnack?)
        decreases todo
      {
        var t :| t in todo;
        if active[t].state.RtnUnack? {
          active := active - {t};
        }
        todo := todo - {t};
      }
      assert active == AcknowledgeAllReturns(old(State())).active;
    }

    method Shelve(now: int, tag: nat, durationSec: int)
      modifies this`active, shelves
      ensures State() == ShelveAlarm(old(State()), now, tag, durationSec)
    {
      if tag !in active {
        return;
      }
      active := active[tag := active[tag].(shelved := true, state := Shelved)];
      shelves.ShelveTag(now, tag, durationSec, false);
    }

    method Unshelve(now: int, tag: nat)
      modifies this`active, this`suppressed, shelves
      ensures State() == UnshelveAlarm(old(State()), now, tag)
    {
      shelves.UnshelveTag(now, tag);
      suppressed := suppressed - {tag};
      if tag !in active || !active[tag].shelved {
        return;
      }
      var ev := active[tag].(shelved := false);
      active := active[tag := ev.(state := if IsActive(ev.state) then ActiveUnack else RtnUnack)];
    }

    method Suppress(tag: nat)
      modifies this`active
      ensures State() == SuppressByDesign(old(State()), tag)
    {
      if tag in active {
        active := active[tag := active[tag].(state := SuppressedByDesign)];
      }
    }

    method Unsuppress(tag: nat)
      modifies this`active
      ensures State() == UnsuppressByDesign(old(State()), tag)
    {
      if tag !in active || !active[tag].state.SuppressedByDesign? {
        return;
      }
      var ev := active[tag];
      active := active[tag := ev.(state := if IsActive(ev.state) then ActiveUnack else RtnUnack)];
    }

    method SetOutOfService(tag: nat)
      modifies this`active
      ensures State() == TakeOutOfService(old(State()), tag)
    {
      if tag in active {
        active := active[tag := active[tag].(outOfService := true, state := OutOfService)];
      }
    }

    method BackToService(tag: nat)
      modifies this`active
      ensures State() == ReturnToService(old(State()), tag)
    {
      if tag !in active || !active[tag].outOfService {
        return;
      }
      var ev := active[tag].(outOfService := false);
      active := active[tag := ev.(state := if IsActive(ev.state) then ActiveUnack else RtnUnack)];
    }

    /** The restoration loop of the tick. */
    method RestoreBatch() returns (batch: seq<nat>)
      modifies this`active, this`suppressed, this`pending
      ensures ValidBatch(old(State()), batch)
      ensures State() == RestoreAll(old(State()), batch)
    {
      ghost var e := State();
      var batchSize := if RESTORE_BATCH < |pending| then RESTORE_BATCH else |pending|;
      var restored := 0;
      batch := [];
      while pending != map[] && restored < batchSize
        invariant Visited(e, batch, State(), restored)
        decreases |pending|
      {
        var t :| t in pending;
        ghost var r := State();
        VisitOne(e, batch, r, restored, t);
        RestoreOne(t);
        if t in active {
          restored := restored + 1;
        }
        batch := batch + [t];
      }
    }

    method RestoreOne(t: nat)
      requires t in pending
      modifies this`active, this`suppressed, this`pending
      ensures State() == Restore(old(State()), t)
    {
      if t in active {
        active := active[t := active[t].(shelved := false, state := pending[t])];
      }
      suppressed := suppressed - {t};
      pending := pending - {t};
    }

    method ShelveTimerTick(now: int) returns (batch: seq<nat>, expired: seq<nat>)
      modifies this, flood, shelves
      ensures Allowed(old(State()), now, OpTick(batch, expired))
      ensures State() == Tick(old(State()), now, batch, expired)
    {
      ghost var e := State();
      var extended;
      expired, extended := shelves.CheckExpired(now);
      flood.CheckExpiredFlood(now);
      CheckFloodCondition(now);
      ghost var f := State();
      assert f == TickFlood(e, now);
      batch := [];
      if recovering {
        batch := RestoreBatch();
        if pending == map[] {
          recovering := false;
        }
      }
      ghost var g := State();
      assert g == TickRestore(f, batch);
      assert expired[..0] == [];
      for i := 0 to |expired|
        invariant State() == UnshelveAll(g, now, expired[..i])
      {
        assert expired[..i + 1][..i] == expired[..i];
        Unshelve(now, expired[i]);
      }
      assert expired[..|expired|] == expired;
    }
  }
}
