/** The tumbling-window flood detector of FloodDetector.h. The clock is an argument; times are positive
    and never go back. */
module FloodDetection {
  import opened AlarmTypes

  const FLOOD_THRESHOLD := 10
  const FLOOD_WINDOW_MS := 600000
  const MIN_FLOOD_DURATION_MS := 60000
  const FLOOD_COOLDOWN_MS := 30000
  const MAX_PAST_FLOODS := 100

  datatype FloodEvent = FloodEvent(startTime: int, endTime: int, alarmCount: nat, peakRate: nat, weightedCount: nat)

  datatype Flood = Flood(
    windowStart: int, windowCount: nat, weightedCount: nat,
    inFlood: bool, floodStart: int, floodEnd: int, lastAlarm: int,
    current: FloodEvent, past: seq<FloodEvent>)

  const Quiet := Flood(0, 0, 0, false, 0, 0, 0, FloodEvent(0, 0, 0, 0, 0), [])

  function Weight(p: AlarmPriority): nat {
    match p
    case Critical => 5
    case Major => 3
    case _ => 1
  }

  function EndFlood(f: Flood, now: int): Flood {
    if !f.inFlood || now - f.floodStart < MIN_FLOOD_DURATION_MS then f else
    var past := [f.current.(endTime := now)] + f.past;
    f.(current := f.current.(endTime := now),
       past := if |past| > MAX_PAST_FLOODS then past[..|past| - 1] else past,
       inFlood := false, floodEnd := now, weightedCount := 0)
  }

  predicate OpensWindow(f: Flood, now: int) {
    f.windowStart == 0 || now - f.windowStart > FLOOD_WINDOW_MS
  }

  function Record(f: Flood, now: int, p: AlarmPriority): Flood {
    if OpensWindow(f, now) then
      var ended := if f.inFlood && now - f.floodStart >= MIN_FLOOD_DURATION_MS then EndFlood(f, now) else f;
      ended.(windowStart := now, windowCount := 1, weightedCount := Weight(p))
    else
      var g := f.(windowCount := f.windowCount + 1, weightedCount := f.weightedCount + Weight(p), lastAlarm := now);
      var h := if g.windowCount >= FLOOD_THRESHOLD && !g.inFlood
               then g.(inFlood := true, floodStart := now,
                       current := FloodEvent(g.windowStart, 0, g.windowCount, g.windowCount, g.weightedCount))
               else g;
      if !h.inFlood then h else
      h.(current := h.current.(alarmCount := h.windowCount, weightedCount := h.weightedCount,
                               peakRate := if h.current.peakRate < h.windowCount then h.windowCount
                                           else h.current.peakRate))
  }

  function CheckExpired(f: Flood, now: int): Flood {
    if f.inFlood && now - f.floodStart >= MIN_FLOOD_DURATION_MS && f.lastAlarm > 0 &&
       now - f.lastAlarm > FLOOD_WINDOW_MS
    then EndFlood(f, now) else f
  }

  predicate InCooldown(f: Flood, now: int) {
    !f.inFlood && f.floodEnd > 0 && now - f.floodEnd < FLOOD_COOLDOWN_MS
  }

  // ---- The class ----

  class FloodDetector {
    var windowStart: int
    var windowCount: nat
    var weightedCount: nat
    var inFlood: bool
    var floodStartTime: int
    var floodEndTime: int
    var lastAlarmTime: int
    var currentFlood: FloodEvent
    var pastFloods: seq<FloodEvent>

    ghost function State(): Flood
      reads this
    {
      Flood(windowStart, windowCount, weightedCount, inFlood, floodStartTime, floodEndTime, lastAlarmTime,
            currentFlood, pastFloods)
    }

    constructor ()
      ensures State() == Quiet
    {
      windowStart, windowCount, weightedCount, inFlood := 0, 0, 0, false;
      floodStartTime, floodEndTime, lastAlarmTime := 0, 0, 0;
      currentFlood, pastFloods := FloodEvent(0, 0, 0, 0, 0), [];
    }

    method RecordAlarm(now: int, p: AlarmPriority)
      modifies this
      ensures State() == Record(old(State()), now, p)
    {
      if windowStart == 0 || now - windowStart > FLOOD_WINDOW_MS {
        if inFlood && now - floodStartTime >= MIN_FLOOD_DURATION_MS {
          EndCurrentFlood(now);
        }
        windowStart, windowCount, weightedCount := now, 1, Weight(p);
        return;
      }
      windowCount := windowCount + 1;
      weightedCount := weightedCount + Weight(p);
      lastAlarmTime := now;
      if windowCount >= FLOOD_THRESHOLD && !inFlood {
        inFlood, floodStartTime := true, now;
        currentFlood := FloodEvent(windowStart, 0, windowCount, windowCount, weightedCount);
      }
      if inFlood {
        var peak := if currentFlood.peakRate < windowCount then windowCount else currentFlood.peakRate;
        currentFlood := currentFlood.(alarmCount := windowCount, peakRate := peak, weightedCount := weightedCount);
      }
    }

    method EndCurrentFlood(now: int)
      modifies this
      ensures State() == EndFlood(old(State()), now)
    {
      if !inFlood {
        return;
      }
      if now - floodStartTime < MIN_FLOOD_DURATION_MS {
        return;
      }
      currentFlood := currentFlood.(endTime := now);
      pastFloods := [currentFlood] + pastFloods;
      if |pastFloods| > MAX_PAST_FLOODS {
        pastFloods := pastFloods[..|pastFloods| - 1];
      }
      inFlood, floodEndTime, weightedCount := false, now, 0;
    }

    method CheckExpiredFlood(now: int)
      modifies this
      ensures State() == CheckExpired(old(State()), now)
    {
      if !inFlood {
        return;
      }
      if now - floodStartTime >= MIN_FLOOD_DURATION_MS && lastAlarmTime > 0 && now - lastAlarmTime > FLOOD_WINDOW_MS {
        EndCurrentFlood(now);
      }
    }
  }

  // ---- Runs ----

  datatype Event = Recorded(time: int, priority: AlarmPriority) | Checked(time: int)

  function Apply(f: Flood, e: Event): Flood {
    if e.Recorded? then Record(f, e.time, e.priority) else CheckExpired(f, e.time)
  }

  /** states[k] is the detector after the first k events; times are positive and never go back. */
  ghost predicate Run(states: seq<Flood>, events: seq<Event>) {
    && |states| == |events| + 1 && states[0] == Quiet
    && (forall k :: 0 <= k < |events| ==> states[k + 1] == Apply(states[k], events[k]))
    && (forall k :: 0 <= k < |events| ==> 0 < events[k].time)
    && (forall i, j :: 0 <= i <= j < |events| ==> events[i].time <= events[j].time)
  }

  function TimeBefore(events: seq<Event>, k: nat): int
    requires k <= |events|
  {
    if k == 0 then 0 else events[k - 1].time
  }

  /** What holds at time `now` after any run. */
  ghost predicate Inv(f: Flood, now: int) {
    && 0 <= f.windowStart <= now && 0 <= f.lastAlarm <= now && 0 <= f.floodEnd <= now
    && (f.windowStart == 0 <==> f.windowCount == 0)
    && (f.windowStart == 0 ==> !f.inFlood)
    && (f.windowCount >= 2 ==> f.windowStart <= f.lastAlarm)
    && (f.inFlood ==> f.floodEnd <= f.floodStart <= now && 0 < f.floodStart)
    && (f.inFlood ==>
          f.current.startTime <= f.floodStart && f.current.peakRate >= FLOOD_THRESHOLD &&
          f.current.peakRate >= f.current.alarmCount)
    && (!f.inFlood && f.windowCount >= FLOOD_THRESHOLD ==> f.floodEnd - f.windowStart > FLOOD_WINDOW_MS)
    && PastInv(f)
  }

  ghost predicate PastInv(f: Flood) {
    && |f.past| <= MAX_PAST_FLOODS
    && (f.past == [] <==> f.floodEnd == 0)
    && (f.past != [] ==> f.past[0].endTime == f.floodEnd)
    && (forall i :: 0 <= i < |f.past| ==> f.past[i].endTime - f.past[i].startTime >= MIN_FLOOD_DURATION_MS)
    && (forall i :: 0 <= i < |f.past| ==>
          f.past[i].peakRate >= FLOOD_THRESHOLD && f.past[i].peakRate >= f.past[i].alarmCount)
    && (forall i, j :: 0 <= i < j < |f.past| ==> f.past[i].endTime >= f.past[j].endTime + MIN_FLOOD_DURATION_MS)
  }

  lemma EndFloodInv(f: Flood, then': int, now: int)
    requires Inv(f, then') && 0 <= then' <= now && 0 < now
    requires f.windowCount >= FLOOD_THRESHOLD ==> now - f.windowStart > FLOOD_WINDOW_MS
    ensures Inv(EndFlood(f, now), now)
  {
  }

  lemma ApplyInv(f: Flood, then': int, e: Event)
    requires Inv(f, then') && 0 <= then' <= e.time && 0 < e.time
    ensures Inv(Apply(f, e), e.time)
  {
    if e.Checked? {
      if CheckExpired(f, e.time) != f {
        EndFloodInv(f, then', e.time);
      }
    } else if OpensWindow(f, e.time) {
      EndFloodInv(f, then', e.time);
    }
  }

  lemma {:induction false} RunInv(states: seq<Flood>, events: seq<Event>, k: nat)
    requires Run(states, events) && k <= |events|
    ensures Inv(states[k], TimeBefore(events, k))
  {
    if k > 0 {
      RunInv(states, events, k - 1);
      ApplyInv(states[k - 1], TimeBefore(events, k - 1), events[k - 1]);
    }
  }

  /** A flood starts exactly when the tenth alarm of one 600 s window arrives. */
  lemma FloodStartsAtTen(states: seq<Flood>, events: seq<Event>, k: nat)
    requires Run(states, events) && k < |events| && events[k].Recorded? && !states[k].inFlood
    ensures states[k + 1].inFlood <==>
              states[k].windowCount + 1 == states[k + 1].windowCount == FLOOD_THRESHOLD &&
              events[k].time - states[k + 1].windowStart <= FLOOD_WINDOW_MS
  {
    RunInv(states, events, k);
  }

  /** A flood that ends has lasted at least a minute and is filed first with its end time; until then
      neither its start nor the list of past floods changes. */
  lemma FloodLastsAMinute(states: seq<Flood>, events: seq<Event>, k: nat)
    requires Run(states, events) && k < |events| && states[k].inFlood
    ensures !states[k + 1].inFlood ==>
              events[k].time - states[k].floodStart >= MIN_FLOOD_DURATION_MS &&
              states[k + 1].past != [] && states[k + 1].past[0] == states[k].current.(endTime := events[k].time)
    ensures states[k + 1].inFlood ==>
              states[k + 1].floodStart == states[k].floodStart && states[k + 1].past == states[k].past
  {
    RunInv(states, events, k);
  }

  /** A flood ends exactly at a check more than 600 s after its last alarm, or at an alarm more than 600 s after the
      window opened, and never in its first minute. */
  lemma FloodEndsIff(states: seq<Flood>, events: seq<Event>, k: nat)
    requires Run(states, events) && k < |events| && states[k].inFlood
    ensures var f, now := states[k], events[k].time;
            !states[k + 1].inFlood <==>
              now - f.floodStart >= 60000 &&
              if events[k].Recorded? then now - f.windowStart > 600000
              else f.lastAlarm > 0 && now - f.lastAlarm > 600000
    ensures !states[k + 1].inFlood ==>
              states[k + 1].floodEnd == events[k].time && states[k + 1].current == states[k + 1].past[0]
  {
    RunInv(states, events, k);
  }

  // ---- The current flood and the past ones ----

  /** An alarm that falls into the open window. */
  predicate Joins(states: seq<Flood>, events: seq<Event>, k: nat)
    requires k < |events| && |states| == |events| + 1
  {
    events[k].Recorded? && states[k].windowStart > 0 && events[k].time - states[k].windowStart <= 600000
  }

  ghost predicate InFloodSince(states: seq<Flood>, events: seq<Event>, s: nat, k: nat)
    requires k <= |events| && |states| == |events| + 1
  {
    s < k && !states[s].inFlood && Joins(states, events, s) && forall i :: s < i <= k ==> states[i].inFlood
  }

  /** Of the alarms that joined a window since the flood began, m is the last and p one with the highest count. */
  ghost predicate LastAndPeak(states: seq<Flood>, events: seq<Event>, s: nat, m: nat, p: nat, k: nat)
    requires k <= |events| && |states| == |events| + 1
  {
    && s <= m < k && s <= p < k && Joins(states, events, m) && Joins(states, events, p)
    && (forall i: nat :: m < i < k ==> !Joins(states, events, i))
    && (forall i: nat :: s <= i < k && Joins(states, events, i) ==>
          states[i + 1].windowCount <= states[p + 1].windowCount)
  }

  /** The current flood: open, from the start of the window in which it began, with the counts at the last alarm that
      joined a window and the highest count at any. */
  lemma {:induction false} CurrentFloodIs(states: seq<Flood>, events: seq<Event>, k: nat)
    returns (s: nat, m: nat, p: nat)
    requires Run(states, events) && k <= |events| && states[k].inFlood
    ensures InFloodSince(states, events, s, k) && LastAndPeak(states, events, s, m, p, k)
    ensures states[k].current == FloodEvent(states[s].windowStart, 0, states[m + 1].windowCount,
                                            states[p + 1].windowCount, states[m + 1].weightedCount)
  {
    assert k > 0;
    RunInv(states, events, k - 1);
    if states[k - 1].inFlood {
      s, m, p := CurrentFloodIs(states, events, k - 1);
      if Joins(states, events, k - 1) {
        m := k - 1;
        p := if states[p + 1].windowCount < states[k].windowCount then k - 1 else p;
      }
    } else {
      s, m, p := k - 1, k - 1, k - 1;
    }
  }

  /** All floods that have ended, newest first. */
  function Ended(states: seq<Flood>, events: seq<Event>, k: nat): seq<FloodEvent>
    requires k <= |events| && |states| == |events| + 1
  {
    if k == 0 then []
    else (if states[k - 1].inFlood && !states[k].inFlood
          then [states[k - 1].current.(endTime := events[k - 1].time)] else []) + Ended(states, events, k - 1)
  }

  function Newest(all: seq<FloodEvent>): seq<FloodEvent> {
    if |all| > 100 then all[..100] else all
  }

  lemma NewestStays(e: FloodEvent, all: seq<FloodEvent>)
    ensures Newest([e] + Newest(all)) == Newest([e] + all)
  {
  }

  lemma PastStep(f: Flood, e: Event)
    requires |f.past| <= 100
    ensures Apply(f, e).past == if f.inFlood && !Apply(f, e).inFlood
                                then Newest([f.current.(endTime := e.time)] + f.past) else f.past
  {
  }

  /** The list of past floods has the newest hundred of them. */
  lemma {:induction false} PastIsNewest(states: seq<Flood>, events: seq<Event>, k: nat)
    requires Run(states, events) && k <= |events|
    ensures states[k].past == Newest(Ended(states, events, k))
  {
    if k > 0 {
      PastIsNewest(states, events, k - 1);
      PastStep(states[k - 1], events[k - 1]);
      NewestStays(states[k - 1].current.(endTime := events[k - 1].time), Ended(states, events, k - 1));
    }
  }

  /** Five points for a Critical alarm, three for a Major one and one for any other among events i..k. */
  function Points(events: seq<Event>, i: nat, k: nat): nat
    requires i <= k <= |events|
  {
    if i == k then 0
    else Points(events, i, k - 1) +
         match events[k - 1]
         case Checked(_) => 0
         case Recorded(_, p) => if p.Critical? then 5 else if p.Major? then 3 else 1
  }

  /** Event m starts the weighing anew: an alarm that opens a window, or a check that ends a flood. */
  predicate StartsAnew(states: seq<Flood>, events: seq<Event>, m: nat)
    requires |states| == |events| + 1 && m < |events|
  {
    if events[m].Recorded? then OpensWindow(states[m], events[m].time)
    else states[m].inFlood && !states[m + 1].inFlood
  }

  /** The weighted count is the points of the alarms since the weighing last started anew. */
  lemma {:induction false} WeightedCountIs(states: seq<Flood>, events: seq<Event>, k: nat) returns (i: nat)
    requires Run(states, events) && k <= |events|
    ensures i <= k && states[k].weightedCount == Points(events, i, k)
    ensures i == 0 || (i < k && StartsAnew(states, events, i)) || StartsAnew(states, events, i - 1)
    ensures forall m: nat :: i < m < k ==> !StartsAnew(states, events, m)
  {
    if k == 0 {
      i := 0;
    } else if StartsAnew(states, events, k - 1) {
      i := if events[k - 1].Recorded? then k - 1 else k;
      assert Points(events, i, i) == 0;
    } else {
      i := WeightedCountIs(states, events, k - 1);
    }
  }

  /** At most 100 past floods, newest first with ends a minute apart, each with a peak of at least ten
      and at least its alarm count. */
  lemma PastFloods(states: seq<Flood>, events: seq<Event>, k: nat)
    requires Run(states, events) && k <= |events|
    ensures PastInv(states[k])
  {
    RunInv(states, events, k);
  }

  // ---- How many alarms force a flood ----

  /** How many of events i..k are alarms. */
  function Alarms(events: seq<Event>, i: nat, k: nat): nat
    requires i <= k <= |events|
  {
    if i == k then 0 else Alarms(events, i, k - 1) + if events[k - 1].Recorded? then 1 else 0
  }

  /** c alarms since time `first`, none of which left a flood behind, either all fell into a window opened
      before them, or opened one window themselves and left at most eight alarms to the older one. */
  predicate WindowsAfter(f: Flood, first: int, c: nat) {
    c == 0 ||
    (f.windowCount < FLOOD_THRESHOLD &&
     (f.windowCount >= c + 1 || (f.windowStart >= first && f.windowCount + 8 >= c)))
  }

  lemma WindowsStep(f: Flood, then': int, e: Event, first: int, c: nat)
    requires Inv(f, then') && 0 <= then' <= e.time && 0 < first <= e.time <= first + FLOOD_WINDOW_MS
    requires WindowsAfter(f, first, c)
    requires e.Recorded? ==> !Apply(f, e).inFlood
    ensures WindowsAfter(Apply(f, e), first, if e.Recorded? then c + 1 else c)
  {
  }

  lemma {:induction false} TwoWindows(states: seq<Flood>, events: seq<Event>, i: nat, k: nat)
    requires Run(states, events) && i <= k <= |events| && i < |events|
    requires i < k ==> events[k - 1].time - events[i].time <= FLOOD_WINDOW_MS
    requires forall m :: i <= m < k && events[m].Recorded? ==> !states[m + 1].inFlood
    ensures WindowsAfter(states[k], events[i].time, Alarms(events, i, k))
    decreases k
  {
    if i < k {
      TwoWindows(states, events, i, k - 1);
      RunInv(states, events, k - 1);
      WindowsStep(states[k - 1], TimeBefore(events, k - 1), events[k - 1], events[i].time, Alarms(events, i, k - 1));
    }
  }

  /** Any 18 alarms within 600 s put the detector into a flood: right after at least one of them
      isInFlood() holds, whatever checkExpired() calls come between. */
  lemma EighteenAlarmsFlood(states: seq<Flood>, events: seq<Event>, i: nat, j: nat)
    requires Run(states, events) && i < j <= |events|
    requires events[j - 1].time - events[i].time <= FLOOD_WINDOW_MS
    requires Alarms(events, i, j) >= 18
    ensures exists m :: i <= m < j && events[m].Recorded? && states[m + 1].inFlood
  {
    if forall m :: i <= m < j && events[m].Recorded? ==> !states[m + 1].inFlood {
      TwoWindows(states, events, i, j);
    }
  }

  lemma {:induction false} AllAlarms(events: seq<Event>, i: nat, k: nat)
    requires i <= k <= |events| && forall m :: i <= m < k ==> events[m].Recorded?
    ensures Alarms(events, i, k) == k - i
    decreases k
  {
    if i < k {
      AllAlarms(events, i, k - 1);
    }
  }

  /** Eighteen is the least such number: one alarm opens a window, eight more arrive when it is 600 s old,
      and nine a millisecond later. The last seventeen span a millisecond and never leave a flood behind. */
  lemma SeventeenAlarmsMayNot() returns (states: seq<Flood>, events: seq<Event>)
    ensures Run(states, events) && |events| == 18
    ensures Alarms(events, 1, 18) == 17 && events[17].time - events[1].time == 1
    ensures forall k :: 0 <= k < |states| ==> !states[k].inFlood
  {
    events := seq(18, k => Recorded(if k == 0 then 1 else if k <= 8 then 600001 else 600002, Advisory));
    states := seq(19, k requires 0 <= k =>
      if k == 0 then Quiet
      else if k == 1 then Quiet.(windowStart := 1, windowCount := 1, weightedCount := 1)
      else if k <= 9 then Quiet.(windowStart := 1, windowCount := k, weightedCount := k, lastAlarm := 600001)
      else Quiet.(windowStart := 600002, windowCount := k - 9, weightedCount := k - 9,
                  lastAlarm := if k == 10 then 600001 else 600002));
    AllAlarms(events, 1, 18);
  }
}
