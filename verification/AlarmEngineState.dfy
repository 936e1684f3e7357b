/** AlarmEngine as a function of its tables: each public operation and each timer callback of
    AlarmEngine.cpp is one function from the engine's state to its next state. The clock, the verdict of
    the suppression rules, the chattering guard's verdict, the tag's off-delay and the iteration order of
    the hash tables are inputs. Descriptions, operator names and signals are not kept. */
module AlarmEngineState {
  import opened AlarmTypes
  import FD = FloodDetection
  import SM = Shelving

  const RESTORE_BATCH := 5
  const CHATTER_SHELVE_SEC := 600

  datatype AlarmEvent = AlarmEvent(
    alarmId: nat, limit: AlarmLimit, priority: AlarmPriority,
    triggerValue: real, thresholdValue: real, triggerTime: int, returnValue: real,
    state: AlarmState, shelved: bool, outOfService: bool, repeatCount: nat)

  datatype Trigger = Trigger(limit: AlarmLimit, value: real, threshold: real, priority: AlarmPriority, onDelayMs: int)

  datatype OnDelayEntry = OnDelayEntry(
    limit: AlarmLimit, value: real, threshold: real, priority: AlarmPriority, onDelayMs: int, start: int)

  datatype OffDelayEntry = OffDelayEntry(returnValue: real, offDelayMs: int, start: int)

  datatype Engine = Engine(
    active: map<nat, AlarmEvent>,
    onDelay: map<nat, OnDelayEntry>,
    offDelay: map<nat, OffDelayEntry>,
    suppressed: map<nat, AlarmState>,      // m_floodSuppressedAlarms: state before the flood
    pending: map<nat, AlarmState>,         // m_pendingFloodRestoration
    recovering: bool,                      // m_floodRecoveryPending
    flood: FD.Flood,
    shelves: SM.Shelves,
    alarmCounter: nat)

  const Idle := Engine(map[], map[], map[], map[], map[], false, FD.Quiet, SM.NoShelves, 0)

  predicate IsActive(s: AlarmState) { s.ActiveUnack? || s.ActiveAck? }

  predicate IsSuppressed(s: AlarmState) { s.SuppressedByDesign? || s.OutOfService? }

  /** QElapsedTimer::hasExpired: strictly more than the timeout, and never for a negative one. */
  predicate HasExpired(start: int, timeoutMs: int, now: int) {
    timeoutMs >= 0 && now - start > timeoutMs
  }

  // ---- Trigger and clear ----

  predicate Blocked(e: Engine, tag: nat, ruled: bool) {
    || ruled
    || (tag in e.active && (e.active[tag].shelved || e.active[tag].outOfService))
    || tag in e.suppressed
  }

  /** A trigger that reaches the on-delay table. */
  predicate Accepts(e: Engine, tag: nat, ruled: bool) {
    !Blocked(e, tag, ruled) &&
    !(tag in e.active &&
      (IsActive(e.active[tag].state) || e.active[tag].state.RtnUnack? || e.active[tag].state.RtnAck?))
  }

  function Delayed(e: Engine, now: int, tag: nat, a: Trigger): Engine {
    if tag !in e.onDelay then
      e.(offDelay := e.offDelay - {tag},
         onDelay := e.onDelay[tag := OnDelayEntry(a.limit, a.value, a.threshold, a.priority, a.onDelayMs, now)])
    else
      var d := e.onDelay[tag];
      var raised := if a.limit.Rank() > d.limit.Rank()
                    then d.(limit := a.limit, threshold := a.threshold, priority := a.priority) else d;
      e.(onDelay := e.onDelay[tag := raised.(value := a.value)])
  }

  function TriggerAlarm(e: Engine, now: int, tag: nat, a: Trigger, ruled: bool): Engine {
    if Blocked(e, tag, ruled) then e
    else if tag in e.active && IsActive(e.active[tag].state) then
      var ev := e.active[tag];
      if a.limit.Rank() > ev.limit.Rank() then
        e.(active := e.active[tag := ev.(limit := a.limit, priority := a.priority, triggerValue := a.value,
                                         thresholdValue := a.threshold, state := ActiveUnack,
                                         repeatCount := ev.repeatCount + 1)])
      else e.(active := e.active[tag := ev.(triggerValue := a.value)])
    else if tag in e.active && (e.active[tag].state.RtnUnack? || e.active[tag].state.RtnAck?) then
      var ev := e.active[tag];
      e.(active := e.active[tag := ev.(state := ActiveUnack, limit := a.limit, priority := a.priority,
                                       triggerValue := a.value, thresholdValue := a.threshold, triggerTime := now,
                                       repeatCount := ev.repeatCount + 1)])
    else Delayed(e, now, tag, a)
  }

  function Returned(ev: AlarmEvent, returnValue: real): AlarmEvent {
    ev.(state := RtnUnack, returnValue := returnValue)
  }

  function ClearAlarm(e: Engine, now: int, tag: nat, returnValue: real, offDelayMs: int): Engine {
    var c := e.(onDelay := e.onDelay - {tag});
    if tag !in e.active || e.active[tag].shelved then c
    else if offDelayMs > 0 then
      if tag in e.offDelay then c
      else c.(offDelay := e.offDelay[tag := OffDelayEntry(returnValue, offDelayMs, now)])
    else c.(active := e.active[tag := Returned(e.active[tag], returnValue)])
  }

  // ---- Flood ----

  predicate Suppressible(ev: AlarmEvent, aside: bool) {
    !ev.shelved && !ev.outOfService && !IsSuppressed(ev.state) && !aside && !ev.priority.Critical?
  }

  predicate FloodSuppresses(e: Engine, tag: nat)
    requires tag in e.active
  {
    Suppressible(e.active[tag], tag in e.suppressed)
  }

  function PutAside(ev: AlarmEvent): AlarmEvent { ev.(shelved := true, state := Shelved) }

  function Suppressibles(e: Engine): set<nat> { set t | t in e.active && FloodSuppresses(e, t) }

  function PutAll(active: map<nat, AlarmEvent>, tags: set<nat>): map<nat, AlarmEvent> {
    map t | t in active :: if t in tags then PutAside(active[t]) else active[t]
  }

  function SaveAll(active: map<nat, AlarmEvent>, tags: set<nat>): map<nat, AlarmState> {
    map t | t in active && t in tags :: active[t].state
  }

  function CheckFlood(e: Engine, now: int): Engine {
    if e.flood.inFlood then
      e.(active := PutAll(e.active, Suppressibles(e)), suppressed := e.suppressed + SaveAll(e.active, Suppressibles(e)))
    else if e.suppressed != map[] && !FD.InCooldown(e.flood, now) && !e.recovering then
      e.(recovering := true, pending := e.suppressed)
    else e
  }

  // ---- Delay timers ----

  function NewEvent(e: Engine, now: int, d: OnDelayEntry): AlarmEvent {
    AlarmEvent(e.alarmCounter + 1, d.limit, d.priority, d.value, d.threshold, now, 0.0, ActiveUnack, false, false, 0)
  }

  function Raise(e: Engine, now: int, tag: nat, d: OnDelayEntry): Engine {
    e.(active := e.active[tag := NewEvent(e, now, d)], alarmCounter := e.alarmCounter + 1)
  }

  function OnDelayTimeout(e: Engine, now: int, tag: nat, d: OnDelayEntry, chatters: bool): Engine {
    if tag in e.active && IsActive(e.active[tag].state) then e
    else if chatters then
      if tag in e.active then
        e.(active := e.active[tag := e.active[tag].(shelved := true, state := Shelved)],
           shelves := SM.Shelve(e.shelves, now, tag, CHATTER_SHELVE_SEC, true))
      else e
    else
      var r := Raise(e, now, tag, d);
      CheckFlood(r.(flood := FD.Record(e.flood, now, d.priority)), now)
  }

  function FireOnDelay(e: Engine, now: int, tag: nat, chatters: bool): Engine {
    if tag !in e.onDelay then e
    else OnDelayTimeout(e.(onDelay := e.onDelay - {tag}), now, tag, e.onDelay[tag], chatters)
  }

  /** `order` lists the expired tags as the hash table yields them. */
  function OnDelayTimer(e: Engine, now: int, order: seq<nat>, chattering: set<nat>): Engine {
    if order == [] then e
    else var last := order[|order| - 1];
         FireOnDelay(OnDelayTimer(e, now, order[..|order| - 1], chattering), now, last, last in chattering)
  }

  function OnDelayDue(e: Engine, now: int): set<nat> {
    set t | t in e.onDelay && HasExpired(e.onDelay[t].start, e.onDelay[t].onDelayMs, now)
  }

  function OffDelayTimeout(e: Engine, tag: nat, returnValue: real): Engine {
    if tag !in e.active || !IsActive(e.active[tag].state) then e
    else e.(active := e.active[tag := Returned(e.active[tag], returnValue)])
  }

  function FireOffDelay(e: Engine, tag: nat): Engine {
    if tag !in e.offDelay then e
    else OffDelayTimeout(e.(offDelay := e.offDelay - {tag}), tag, e.offDelay[tag].returnValue)
  }

  function OffDelayTimer(e: Engine, order: seq<nat>): Engine {
    if order == [] then e
    else FireOffDelay(OffDelayTimer(e, order[..|order| - 1]), order[|order| - 1])
  }

  function OffDelayDue(e: Engine, now: int): set<nat> {
    set t | t in e.offDelay && HasExpired(e.offDelay[t].start, e.offDelay[t].offDelayMs, now)
  }

  // ---- Operator actions ----

  function Acknowledge(e: Engine, tag: nat): Engine {
    if tag in e.active && e.active[tag].state.ActiveUnack?
    then e.(active := e.active[tag := e.active[tag].(state := ActiveAck)]) else e
  }

  function AcknowledgeAll(e: Engine): Engine {
    e.(active := map t | t in e.active ::
                   if e.active[t].state.ActiveUnack? then e.active[t].(state := ActiveAck) else e.active[t])
  }

  function AcknowledgeReturn(e: Engine, tag: nat): Engine {
    if tag in e.active && e.active[tag].state.RtnUnack? then e.(active := e.active - {tag}) else e
  }

  function AcknowledgeAllReturns(e: Engine): Engine {
    e.(active := map t | t in e.active && !e.active[t].state.RtnUnack? :: e.active[t])
  }

  function ShelveAlarm(e: Engine, now: int, tag: nat, durationSec: int): Engine {
    if tag !in e.active then e
    else e.(active := e.active[tag := e.active[tag].(shelved := true, state := Shelved)],
            shelves := SM.Shelve(e.shelves, now, tag, durationSec, false))
  }

  /** Where unshelving, unsuppressing and returning to service put an alarm. */
  function Resumed(s: AlarmState): AlarmState { if IsActive(s) then ActiveUnack else RtnUnack }

  function UnshelveAlarm(e: Engine, now: int, tag: nat): Engine {
    var u := e.(shelves := SM.Unshelve(e.shelves, now, tag), suppressed := e.suppressed - {tag});
    if tag !in e.active || !e.active[tag].shelved then u
    else u.(active := e.active[tag := e.active[tag].(shelved := false, state := Resumed(e.active[tag].state))])
  }

  function SuppressByDesign(e: Engine, tag: nat): Engine {
    if tag !in e.active then e else e.(active := e.active[tag := e.active[tag].(state := SuppressedByDesign)])
  }

  function UnsuppressByDesign(e: Engine, tag: nat): Engine {
    if tag !in e.active || !e.active[tag].state.SuppressedByDesign? then e
    else e.(active := e.active[tag := e.active[tag].(state := Resumed(e.active[tag].state))])
  }

  function TakeOutOfService(e: Engine, tag: nat): Engine {
    if tag !in e.active then e
    else e.(active := e.active[tag := e.active[tag].(outOfService := true, state := OutOfService)])
  }

  function ReturnToService(e: Engine, tag: nat): Engine {
    if tag !in e.active || !e.active[tag].outOfService then e
    else e.(active := e.active[tag := e.active[tag].(outOfService := false, state := Resumed(e.active[tag].state))])
  }

  // ---- The 10 s tick ----

  function Restore(e: Engine, tag: nat): Engine
    requires tag in e.pending
  {
    e.(active := if tag in e.active
                 then e.active[tag := e.active[tag].(shelved := false, state := e.pending[tag])] else e.active,
       suppressed := e.suppressed - {tag},
       pending := e.pending - {tag})
  }

  ghost predicate Distinct(list: seq<nat>) {
    forall i, j :: 0 <= i < j < |list| ==> list[i] != list[j]
  }

  function RestoreAll(e: Engine, batch: seq<nat>): Engine {
    if batch == [] then e
    else var r := RestoreAll(e, batch[..|batch| - 1]);
         if batch[|batch| - 1] in r.pending then Restore(r, batch[|batch| - 1]) else r
  }

  /** How many tags of the list have an entry in the active table. */
  function CountActive(e: Engine, list: seq<nat>): nat {
    if list == [] then 0
    else CountActive(e, list[..|list| - 1]) + if list[|list| - 1] in e.active then 1 else 0
  }

  function BatchSize(e: Engine): nat { if |e.pending| < RESTORE_BATCH then |e.pending| else RESTORE_BATCH }

  /** The pending tags the restoration loop visits: it stops once BatchSize alarms are restored or none is left. */
  ghost predicate ValidBatch(e: Engine, batch: seq<nat>) {
    && Distinct(batch)
    && (forall i :: 0 <= i < |batch| ==> batch[i] in e.pending)
    && (forall k :: 0 <= k < |batch| ==> CountActive(e, batch[..k]) < BatchSize(e))
    && (CountActive(e, batch) >= BatchSize(e) || |batch| == |e.pending|)
  }

  /** Deadlines, flood end and recovery start: the tick up to the restoration loop. */
  function TickFlood(e: Engine, now: int): Engine {
    CheckFlood(e.(shelves := SM.Expire(e.shelves, now), flood := FD.CheckExpired(e.flood, now)), now)
  }

  function TickRestore(e: Engine, batch: seq<nat>): Engine {
    if !e.recovering then e
    else var r := RestoreAll(e, batch);
         if r.pending == map[] then r.(recovering := false) else r
  }

  function UnshelveAll(e: Engine, now: int, tags: seq<nat>): Engine {
    if tags == [] then e
    else UnshelveAlarm(UnshelveAll(e, now, tags[..|tags| - 1]), now, tags[|tags| - 1])
  }

  function Tick(e: Engine, now: int, batch: seq<nat>, expired: seq<nat>): Engine {
    UnshelveAll(TickRestore(TickFlood(e, now), batch), now, expired)
  }

  // ---- Runs ----

  datatype Op =
    | OpTrigger(tag: nat, args: Trigger, ruled: bool)
    | OpClear(tag: nat, returnValue: real, offDelayMs: int)
    | OpOnDelayTimer(order: seq<nat>, chattering: set<nat>)
    | OpOffDelayTimer(order: seq<nat>)
    | OpAcknowledge(tag: nat)
    | OpAcknowledgeAll
    | OpAcknowledgeReturn(tag: nat)
    | OpAcknowledgeAllReturns
    | OpShelve(tag: nat, durationSec: int)
    | OpUnshelve(tag: nat)
    | OpSuppress(tag: nat)
    | OpUnsuppress(tag: nat)
    | OpOutOfService(tag: nat)
    | OpReturnToService(tag: nat)
    | OpTick(batch: seq<nat>, expired: seq<nat>)

  function Apply(e: Engine, now: int, op: Op): Engine {
    match op
    case OpTrigger(tag, args, ruled) => TriggerAlarm(e, now, tag, args, ruled)
    case OpClear(tag, returnValue, offDelayMs) => ClearAlarm(e, now, tag, returnValue, offDelayMs)
    case OpOnDelayTimer(order, chattering) => OnDelayTimer(e, now, order, chattering)
    case OpOffDelayTimer(order) => OffDelayTimer(e, order)
    case OpAcknowledge(tag) => Acknowledge(e, tag)
    case OpAcknowledgeAll => AcknowledgeAll(e)
    case OpAcknowledgeReturn(tag) => AcknowledgeReturn(e, tag)
    case OpAcknowledgeAllReturns => AcknowledgeAllReturns(e)
    case OpShelve(tag, durationSec) => ShelveAlarm(e, now, tag, durationSec)
    case OpUnshelve(tag) => UnshelveAlarm(e, now, tag)
    case OpSuppress(tag) => SuppressByDesign(e, tag)
    case OpUnsuppress(tag) => UnsuppressByDesign(e, tag)
    case OpOutOfService(tag) => TakeOutOfService(e, tag)
    case OpReturnToService(tag) => ReturnToService(e, tag)
    case OpTick(batch, expired) => Tick(e, now, batch, expired)
  }

  ghost predicate Allowed(e: Engine, now: int, op: Op) {
    match op
    case OpOnDelayTimer(order, _) => SM.Lists(order, OnDelayDue(e, now))
    case OpOffDelayTimer(order) => SM.Lists(order, OffDelayDue(e, now))
    case OpTick(batch, expired) =>
      SM.Lists(expired, SM.Expired(e.shelves, now, e.shelves.deadlines.Keys)) &&
      (TickFlood(e, now).recovering ==> ValidBatch(TickFlood(e, now), batch))
    case _ => true
  }

  datatype Timed = Timed(now: int, op: Op)

  ghost predicate StepAt(states: seq<Engine>, ops: seq<Timed>, k: nat)
    requires k < |ops| && |states| == |ops| + 1
  {
    Allowed(states[k], ops[k].now, ops[k].op) && states[k + 1] == Apply(states[k], ops[k].now, ops[k].op)
  }

  ghost predicate Run(states: seq<Engine>, ops: seq<Timed>) {
    && |states| == |ops| + 1 && states[0] == Idle
    && (forall k: nat :: k < |ops| ==> StepAt(states, ops, k))
    && (forall k :: 0 <= k < |ops| ==> 0 < ops[k].now)
    && (forall i, j :: 0 <= i <= j < |ops| ==> ops[i].now <= ops[j].now)
  }
}
