/** The locking of AlarmEngine: every public operation and timer callback as the sequence of locks it
    takes and gives back and of its accesses to the engine's tables. Any number of threads running any
    mix of them cannot deadlock, and which of them can be at one table at the same time. Locks are
    exclusive and not recursive; the tag table's read-write lock is treated as exclusive. Slots
    connected to the engine's signals are not part of this model. */
module LockOrder {
  import opened Wrappers

  datatype Lock =
    | ActiveAlarms | OnDelay | OffDelay                   // the engine's three mutexes
    | Suppression | Snapshot | TagTable | Kpi | ChangeLog | Audit | Logger   // inside the components it calls
  {
    function Rank(): nat {
      match this
      case ActiveAlarms => 0
      case OnDelay => 1
      case OffDelay => 2
      case Suppression => 3
      case Snapshot => 4
      case TagTable => 5
      case Kpi => 6
      case ChangeLog => 7
      case Audit => 8
      case Logger => 9
    }
  }

  /** The engine's data, each part with the mutex that is to guard it. */
  datatype Table =
    | Alarms                // the alarm table and history, the flood and the shelve books
    | OnDelays | OffDelays
  {
    function Guard(): Lock {
      match this
      case Alarms => ActiveAlarms
      case OnDelays => OnDelay
      case OffDelays => OffDelay
    }
  }

  datatype Step = Acquire(l: Lock) | Unlock(l: Lock) | Touch(table: Table)

  // ---- What each operation does ----

  /** A call into a component that takes its own lock. */
  function Briefly(l: Lock): seq<Step> { [Acquire(l), Unlock(l)] }

  function Locked(table: Table): seq<Step> { [Acquire(table.Guard()), Touch(table), Unlock(table.Guard())] }

  function When(c: bool, steps: seq<Step>): seq<Step> { if c then steps else [] }

  function Repeat(n: nat, steps: seq<Step>): seq<Step> {
    if n == 0 then [] else steps + Repeat(n - 1, steps)
  }

  /** emit alarmCountChanged(activeAlarmCount(), unacknowledgedCount()) */
  const Counts := Locked(Alarms) + Locked(Alarms)

  const LockAll := [Acquire(ActiveAlarms), Acquire(OnDelay), Acquire(OffDelay)]
  const ScopeEnd := [Unlock(OffDelay), Unlock(OnDelay), Unlock(ActiveAlarms)]
  const ExplicitUnlock := [Unlock(ActiveAlarms), Unlock(OnDelay), Unlock(OffDelay)]

  datatype Timeout = EntryGone | AlreadyActive | Chattering | NewAlarm(floodLogged: bool)

  /** A trigger is ruled out, held back or only brings the value; escalates or raises an alarm, which it then announces;
      or goes into the on-delay table, where it may be the tag's first. */
  datatype Outcome = Quiet | Announced | Delayed(first: bool)

  datatype Call =
    | TriggerAlarm(rulesRead: nat, outcome: Outcome)
    | ClearAlarm(inTable: bool, shelved: bool, immediate: bool)
    | OnDelayTimer(due: seq<Timeout>)
    | OffDelayTimer(returned: seq<bool>)                  // per entry: was the alarm still active?
    | ShelveTimer(floodLogs: nat, persists: bool, expired: seq<bool>, extended: nat)
    | OperatorAction(changes: bool, audited: bool)        // acknowledge, shelve, suppress and service calls
    | SetParameter
    | Query
    | UnlockedQuery                                       // past floods, shelve history, shelve count
    | SuppressionRules                                    // add, remove, enable or list rules
    | EvaluateSuppression(rulesRead: nat)
    | KpiQuery

  function TimeoutPath(t: Timeout): seq<Step> {
    Locked(OnDelays) +
    match t
    case EntryGone => []
    case AlreadyActive => Locked(Alarms)
    case Chattering => ChatteringPath + Counts
    case NewAlarm(floodLogged) => RaisePath(floodLogged) + Counts
  }

  const ChatteringPath :=
    [Acquire(ActiveAlarms)] + ([Touch(Alarms)] + Briefly(Logger) + [Touch(Alarms)]) + [Unlock(ActiveAlarms)]

  function RaisePath(floodLogged: bool): seq<Step> {
    [Acquire(ActiveAlarms)] +
    ([Touch(Alarms)] + Briefly(TagTable) + Briefly(TagTable) + [Touch(Alarms)] + Briefly(Kpi) + [Touch(Alarms)] +
     When(floodLogged, Briefly(Logger))) +
    [Unlock(ActiveAlarms)]
  }

  function TimeoutPaths(due: seq<Timeout>): seq<Step> {
    if due == [] then [] else TimeoutPath(due[0]) + TimeoutPaths(due[1..])
  }

  function OffDelayPaths(returned: seq<bool>): seq<Step> {
    if returned == [] then []
    else Locked(OffDelays) + Locked(Alarms) + When(returned[0], Counts) + OffDelayPaths(returned[1..])
  }

  /** Under the rules' mutex, each rule with a condition reads the latest snapshot. */
  function EvaluatePath(rulesRead: nat): seq<Step> {
    [Acquire(Suppression)] + Repeat(rulesRead, Briefly(Snapshot)) + [Unlock(Suppression)]
  }

  /** What a trigger does under the three mutexes. */
  function TriggerBody(rulesRead: nat, outcome: Outcome): seq<Step> {
    [Touch(Alarms)] + EvaluatePath(rulesRead) + [Touch(Alarms)] +
    match outcome
    case Quiet => []
    case Announced => []
    case Delayed(first) => [Touch(OnDelays)] + When(first, [Touch(OffDelays)] + [Touch(OnDelays)])
  }

  /** The announcement reads the alarm once more, after the mutexes were given back. */
  function TriggerPath(rulesRead: nat, outcome: Outcome): seq<Step> {
    LockAll + TriggerBody(rulesRead, outcome) +
    if outcome.Announced? then ExplicitUnlock + ([Touch(Alarms)] + Counts) else ScopeEnd
  }

  function ClearBody(clears: bool, immediate: bool): seq<Step> {
    [Touch(OnDelays)] + [Touch(Alarms)] +
    When(clears, Briefly(TagTable) + if immediate then [Touch(Alarms)] else [Touch(OffDelays)])
  }

  /** The part of the 10 s tick under the mutex, which it may drop and retake to store a KPI snapshot. */
  function TickPath(floodLogs: nat, persists: bool): seq<Step> {
    [Acquire(ActiveAlarms)] +
    ([Touch(Alarms)] + Briefly(Kpi) + [Touch(Alarms)] + Repeat(floodLogs, Briefly(Logger)) + [Touch(Alarms)] +
     When(persists, Briefly(Kpi) + [Touch(Alarms)] + [Unlock(ActiveAlarms), Acquire(ActiveAlarms)])) +
    [Unlock(ActiveAlarms)]
  }

  function OperatorPath(changes: bool, audited: bool): seq<Step> {
    Locked(Alarms) + When(changes, Counts + When(audited, Briefly(Audit)))
  }

  /** Each expired shelve is lifted as an operator lifts it. */
  function UnshelvePaths(expired: seq<bool>): seq<Step> {
    if expired == [] then [] else OperatorPath(expired[0], true) + UnshelvePaths(expired[1..])
  }

  function Path(c: Call): seq<Step> {
    match c
    case TriggerAlarm(rulesRead, outcome) => TriggerPath(rulesRead, outcome)
    case ClearAlarm(inTable, shelved, immediate) =>
      LockAll + ClearBody(inTable && !shelved, immediate) +
      (if inTable && !shelved && immediate then ExplicitUnlock + Counts else ScopeEnd)
    case OnDelayTimer(due) => Locked(OnDelays) + TimeoutPaths(due)
    case OffDelayTimer(returned) => Locked(OffDelays) + OffDelayPaths(returned)
    case ShelveTimer(floodLogs, persists, expired, extended) =>
      TickPath(floodLogs, persists) + UnshelvePaths(expired) + Repeat(extended, Locked(Alarms) + Briefly(Logger))
    case OperatorAction(changes, audited) => OperatorPath(changes, audited)
    case SetParameter => Briefly(TagTable) + Briefly(TagTable) + Briefly(ChangeLog)
    case Query => Locked(Alarms)
    case UnlockedQuery => [Touch(Alarms)]
    case SuppressionRules => Briefly(Suppression)
    case EvaluateSuppression(rulesRead) => EvaluatePath(rulesRead)
    case KpiQuery => Briefly(Kpi)
  }

  /** The program of a thread that makes these calls one after the other. */
  function Program(calls: seq<Call>): seq<Step> {
    if calls == [] then [] else Path(calls[0]) + Program(calls[1..])
  }

  // ---- Lock discipline ----

  ghost predicate Above(l: Lock, held: set<Lock>) {
    forall k :: k in held ==> k.Rank() < l.Rank()
  }

  /** Where a sequence of steps ends: stuck, at a lock that does not outrank every lock held (in particular one that is
      held already) or at an unlock of one that is not held; or through, with the locks held then, and guarded if each
      table was touched under its own lock. */
  datatype Ending = Stuck | Through(held: set<Lock>, guarded: bool)

  ghost function After(held: set<Lock>, steps: seq<Step>): Ending
    decreases steps
  {
    if steps == [] then Through(held, true)
    else match steps[0]
      case Acquire(l) => if Above(l, held) then After(held + {l}, steps[1..]) else Stuck
      case Unlock(l) => if l in held then After(held - {l}, steps[1..]) else Stuck
      case Touch(table) => Then(table.Guard() in held, After(held, steps[1..]))
  }

  function Then(guarded: bool, ending: Ending): Ending {
    if ending.Stuck? then Stuck else ending.(guarded := guarded && ending.guarded)
  }

  ghost predicate Keeps(held: set<Lock>, steps: seq<Step>) {
    After(held, steps) == Through(held, true)
  }

  lemma {:induction false} AfterConcat(held: set<Lock>, a: seq<Step>, b: seq<Step>)
    ensures After(held, a + b) == match After(held, a) case Stuck => Stuck case Through(h, g) => Then(g, After(h, b))
    decreases a
  {
    if a == [] {
      assert a + b == b;
    } else {
      assert (a + b)[1..] == a[1..] + b;
      match a[0]
      case Acquire(l) => AfterConcat(held + {l}, a[1..], b);
      case Unlock(l) => AfterConcat(held - {l}, a[1..], b);
      case Touch(_) => AfterConcat(held, a[1..], b);
    }
  }

  lemma TouchAfter(held: set<Lock>, table: Table)
    ensures After(held, [Touch(table)]) == Through(held, table.Guard() in held)
  {
    assert [Touch(table)][1..] == [];
  }

  lemma BrieflyKeeps(held: set<Lock>, l: Lock)
    requires Above(l, held)
    ensures Keeps(held, Briefly(l))
  {
    assert held + {l} - {l} == held;
    assert Briefly(l)[1..] == [Unlock(l)];
    assert After(held + {l}, [Unlock(l)]) == Through(held, true);
  }

  lemma LockedKeeps(table: Table)
    ensures Keeps({}, Locked(table))
  {
    var l := table.Guard();
    TouchAfter({} + {l}, table);
    BracketKeeps({}, l, [Touch(table)]);
    assert Locked(table) == [Acquire(l)] + [Touch(table)] + [Unlock(l)];
  }

  lemma ConcatKeeps(held: set<Lock>, a: seq<Step>, b: seq<Step>)
    requires Keeps(held, a) && Keeps(held, b)
    ensures Keeps(held, a + b)
  {
    AfterConcat(held, a, b);
  }

  lemma {:induction false} RepeatKeeps(held: set<Lock>, n: nat, steps: seq<Step>)
    requires Keeps(held, steps)
    ensures Keeps(held, Repeat(n, steps))
  {
    if n > 0 {
      RepeatKeeps(held, n - 1, steps);
      ConcatKeeps(held, steps, Repeat(n - 1, steps));
    }
  }

  lemma BracketKeeps(held: set<Lock>, l: Lock, body: seq<Step>)
    requires Above(l, held) && Keeps(held + {l}, body)
    ensures Keeps(held, [Acquire(l)] + body + [Unlock(l)])
  {
    AfterConcat(held + {l}, body, [Unlock(l)]);
    assert held + {l} - {l} == held;
    assert ([Acquire(l)] + body + [Unlock(l)])[1..] == body + [Unlock(l)];
  }

  lemma CountsKeeps()
    ensures Keeps({}, Counts)
  {
    LockedKeeps(Alarms);
    ConcatKeeps({}, Locked(Alarms), Locked(Alarms));
  }

  const Three := {ActiveAlarms, OnDelay, OffDelay}

  lemma LockAllAfter()
    ensures After({}, LockAll) == Through(Three, true)
    ensures After(Three, ScopeEnd) == Through({}, true) && After(Three, ExplicitUnlock) == Through({}, true)
  {
    var one, two := {ActiveAlarms}, {ActiveAlarms, OnDelay};
    assert {} + {ActiveAlarms} == one && one + {OnDelay} == two && two + {OffDelay} == Three;
    assert LockAll[1..][1..] == [Acquire(OffDelay)];
    assert After(two, LockAll[1..][1..]) == Through(Three, true);
    assert After(one, LockAll[1..]) == Through(Three, true);
    assert Three - {OffDelay} == two && two - {OnDelay} == one && one - {ActiveAlarms} == {};
    assert ScopeEnd[1..][1..] == [Unlock(ActiveAlarms)];
    assert After(one, ScopeEnd[1..][1..]) == Through({}, true);
    assert After(two, ScopeEnd[1..]) == Through({}, true);
    var last, lastTwo := {OffDelay}, {OnDelay, OffDelay};
    assert Three - {ActiveAlarms} == lastTwo && lastTwo - {OnDelay} == last && last - {OffDelay} == {};
    assert ExplicitUnlock[1..][1..] == [Unlock(OffDelay)];
    assert After(last, ExplicitUnlock[1..][1..]) == Through({}, true);
    assert After(lastTwo, ExplicitUnlock[1..]) == Through({}, true);
  }

  /** A body run under all three mutexes, ended either way. */
  lemma UnderAllThree(body: seq<Step>, rest: seq<Step>, announces: bool)
    requires Keeps(Three, body) && After({}, rest).Through? && After({}, rest).held == {}
    ensures After({}, LockAll + body + (if announces then ExplicitUnlock + rest else ScopeEnd)) ==
            Through({}, announces ==> After({}, rest).guarded)
  {
    LockAllAfter();
    AfterConcat({}, LockAll, body);
    AfterConcat(Three, ExplicitUnlock, rest);
    AfterConcat({}, LockAll + body, if announces then ExplicitUnlock + rest else ScopeEnd);
  }

  lemma {:induction false} TimeoutPathsKeep(due: seq<Timeout>)
    ensures Keeps({}, TimeoutPaths(due))
  {
    if due != [] {
      TimeoutPathKeeps(due[0]);
      TimeoutPathsKeep(due[1..]);
      ConcatKeeps({}, TimeoutPath(due[0]), TimeoutPaths(due[1..]));
    }
  }

  lemma ChatteringKeeps()
    ensures Keeps({}, ChatteringPath)
  {
    var h := {ActiveAlarms};
    assert {} + {ActiveAlarms} == h;
    TouchAfter(h, Alarms);
    BrieflyKeeps(h, Logger);
    ConcatKeeps(h, [Touch(Alarms)], Briefly(Logger));
    ConcatKeeps(h, [Touch(Alarms)] + Briefly(Logger), [Touch(Alarms)]);
    BracketKeeps({}, ActiveAlarms, [Touch(Alarms)] + Briefly(Logger) + [Touch(Alarms)]);
  }

  lemma RaiseKeeps(floodLogged: bool)
    ensures Keeps({}, RaisePath(floodLogged))
  {
    var h := {ActiveAlarms};
    assert {} + {ActiveAlarms} == h;
    var touch := [Touch(Alarms)];
    TouchAfter(h, Alarms);
    BrieflyKeeps(h, Logger);
    BrieflyKeeps(h, TagTable);
    BrieflyKeeps(h, Kpi);
    var a := touch + Briefly(TagTable);
    ConcatKeeps(h, touch, Briefly(TagTable));
    ConcatKeeps(h, a, Briefly(TagTable));
    ConcatKeeps(h, a + Briefly(TagTable), touch);
    var b := a + Briefly(TagTable) + touch;
    ConcatKeeps(h, b, Briefly(Kpi));
    ConcatKeeps(h, b + Briefly(Kpi), touch);
    ConcatKeeps(h, b + Briefly(Kpi) + touch, When(floodLogged, Briefly(Logger)));
    BracketKeeps({}, ActiveAlarms, b + Briefly(Kpi) + touch + When(floodLogged, Briefly(Logger)));
  }

  /** An expired on-delay takes its locks in order, counts alarms only after unlocking, and touches only what it has
      locked. */
  lemma TimeoutPathKeeps(t: Timeout)
    ensures Keeps({}, TimeoutPath(t))
  {
    LockedKeeps(OnDelays);
    CountsKeeps();
    match t
    case EntryGone => assert TimeoutPath(t) == Locked(OnDelays);
    case AlreadyActive =>
      LockedKeeps(Alarms);
      ConcatKeeps({}, Locked(OnDelays), Locked(Alarms));
    case Chattering =>
      ChatteringKeeps();
      ConcatKeeps({}, ChatteringPath, Counts);
      ConcatKeeps({}, Locked(OnDelays), ChatteringPath + Counts);
    case NewAlarm(floodLogged) =>
      RaiseKeeps(floodLogged);
      ConcatKeeps({}, RaisePath(floodLogged), Counts);
      ConcatKeeps({}, Locked(OnDelays), RaisePath(floodLogged) + Counts);
  }

  lemma {:induction false} OffDelayPathsKeep(returned: seq<bool>)
    ensures Keeps({}, OffDelayPaths(returned))
  {
    if returned != [] {
      OffDelayPathsKeep(returned[1..]);
      LockedKeeps(OffDelays);
      LockedKeeps(Alarms);
      CountsKeeps();
      var one := Locked(OffDelays) + Locked(Alarms);
      ConcatKeeps({}, Locked(OffDelays), Locked(Alarms));
      ConcatKeeps({}, one, When(returned[0], Counts));
      ConcatKeeps({}, one + When(returned[0], Counts), OffDelayPaths(returned[1..]));
    }
  }

  lemma OperatorKeeps(changes: bool, audited: bool)
    ensures Keeps({}, OperatorPath(changes, audited))
  {
    LockedKeeps(Alarms);
    BrieflyKeeps({}, Audit);
    CountsKeeps();
    ConcatKeeps({}, Counts, When(audited, Briefly(Audit)));
    ConcatKeeps({}, Locked(Alarms), When(changes, Counts + When(audited, Briefly(Audit))));
  }

  lemma {:induction false} UnshelvePathsKeep(expired: seq<bool>)
    ensures Keeps({}, UnshelvePaths(expired))
  {
    if expired != [] {
      UnshelvePathsKeep(expired[1..]);
      OperatorKeeps(expired[0], true);
      ConcatKeeps({}, OperatorPath(expired[0], true), UnshelvePaths(expired[1..]));
    }
  }

  lemma TickKeeps(floodLogs: nat, persists: bool)
    ensures Keeps({}, TickPath(floodLogs, persists))
  {
    var h := {ActiveAlarms};
    assert {} + {ActiveAlarms} == h;
    var touch := [Touch(Alarms)];
    TouchAfter(h, Alarms);
    BrieflyKeeps(h, Kpi);
    BrieflyKeeps(h, Logger);
    RepeatKeeps(h, floodLogs, Briefly(Logger));
    var a := touch + Briefly(Kpi) + touch;
    ConcatKeeps(h, touch, Briefly(Kpi));
    ConcatKeeps(h, touch + Briefly(Kpi), touch);
    ConcatKeeps(h, a, Repeat(floodLogs, Briefly(Logger)));
    ConcatKeeps(h, a + Repeat(floodLogs, Briefly(Logger)), touch);
    PersistKeeps();
    var persist := Briefly(Kpi) + touch + [Unlock(ActiveAlarms), Acquire(ActiveAlarms)];
    var b := a + Repeat(floodLogs, Briefly(Logger)) + touch;
    ConcatKeeps(h, b, When(persists, persist));
    BracketKeeps({}, ActiveAlarms, b + When(persists, persist));
  }

  lemma PersistKeeps()
    ensures Keeps({ActiveAlarms}, Briefly(Kpi) + [Touch(Alarms)] + [Unlock(ActiveAlarms), Acquire(ActiveAlarms)])
  {
    var h := {ActiveAlarms};
    var retake := [Unlock(ActiveAlarms), Acquire(ActiveAlarms)];
    assert h - {ActiveAlarms} == {} && {} + {ActiveAlarms} == h;
    assert retake[1..] == [Acquire(ActiveAlarms)];
    assert Keeps(h, retake);
    TouchAfter(h, Alarms);
    BrieflyKeeps(h, Kpi);
    ConcatKeeps(h, Briefly(Kpi), [Touch(Alarms)]);
    ConcatKeeps(h, Briefly(Kpi) + [Touch(Alarms)], retake);
  }

  lemma EvaluateKeeps(held: set<Lock>, rulesRead: nat)
    requires Above(Suppression, held)
    ensures Keeps(held, EvaluatePath(rulesRead))
  {
    var under := held + {Suppression};
    BrieflyKeeps(under, Snapshot);
    RepeatKeeps(under, rulesRead, Briefly(Snapshot));
    BracketKeeps(held, Suppression, Repeat(rulesRead, Briefly(Snapshot)));
  }

  lemma TriggerBodyKeeps(rulesRead: nat, outcome: Outcome)
    ensures Keeps(Three, TriggerBody(rulesRead, outcome))
  {
    var touch := [Touch(Alarms)];
    TouchAfter(Three, Alarms);
    TouchAfter(Three, OnDelays);
    TouchAfter(Three, OffDelays);
    EvaluateKeeps(Three, rulesRead);
    var a := touch + EvaluatePath(rulesRead) + touch;
    ConcatKeeps(Three, touch, EvaluatePath(rulesRead));
    ConcatKeeps(Three, touch + EvaluatePath(rulesRead), touch);
    if outcome.Delayed? {
      ConcatKeeps(Three, [Touch(OffDelays)], [Touch(OnDelays)]);
      var rest := When(outcome.first, [Touch(OffDelays)] + [Touch(OnDelays)]);
      ConcatKeeps(Three, [Touch(OnDelays)], rest);
      ConcatKeeps(Three, a, [Touch(OnDelays)] + rest);
    } else {
      assert TriggerBody(rulesRead, outcome) == a;
    }
  }

  lemma ClearBodyKeeps(clears: bool, immediate: bool)
    ensures Keeps(Three, ClearBody(clears, immediate))
  {
    TouchAfter(Three, Alarms);
    TouchAfter(Three, OnDelays);
    TouchAfter(Three, OffDelays);
    BrieflyKeeps(Three, TagTable);
    var last := if immediate then [Touch(Alarms)] else [Touch(OffDelays)];
    ConcatKeeps(Three, [Touch(OnDelays)], [Touch(Alarms)]);
    ConcatKeeps(Three, Briefly(TagTable), last);
    ConcatKeeps(Three, [Touch(OnDelays)] + [Touch(Alarms)], When(clears, Briefly(TagTable) + last));
  }

  lemma TriggerEnds(rulesRead: nat, outcome: Outcome)
    ensures After({}, TriggerPath(rulesRead, outcome)) == Through({}, !outcome.Announced?)
  {
    TriggerBodyKeeps(rulesRead, outcome);
    TouchAfter({}, Alarms);
    CountsKeeps();
    AfterConcat({}, [Touch(Alarms)], Counts);
    UnderAllThree(TriggerBody(rulesRead, outcome), [Touch(Alarms)] + Counts, outcome.Announced?);
  }

  /** The calls that touch a table only under its lock. */
  predicate Guarded(c: Call) {
    !(c.TriggerAlarm? && c.outcome.Announced?) && !c.UnlockedQuery?
  }

  /** Every call takes its locks in rank order, never one it already holds, and ends with none; all but two kinds touch
      each table only under its lock. */
  lemma PathKeeps(c: Call)
    ensures After({}, Path(c)) == Through({}, Guarded(c))
  {
    match c
    case TriggerAlarm(rulesRead, outcome) => TriggerEnds(rulesRead, outcome);
    case ClearAlarm(inTable, shelved, immediate) =>
      ClearBodyKeeps(inTable && !shelved, immediate);
      CountsKeeps();
      UnderAllThree(ClearBody(inTable && !shelved, immediate), Counts, inTable && !shelved && immediate);
    case OnDelayTimer(due) =>
      LockedKeeps(OnDelays);
      TimeoutPathsKeep(due);
      ConcatKeeps({}, Locked(OnDelays), TimeoutPaths(due));
    case OffDelayTimer(returned) =>
      LockedKeeps(OffDelays);
      OffDelayPathsKeep(returned);
      ConcatKeeps({}, Locked(OffDelays), OffDelayPaths(returned));
    case ShelveTimer(_, _, _, _) => ShelveTimerKeeps(c);
    case OperatorAction(changes, audited) => OperatorKeeps(changes, audited);
    case SetParameter =>
      BrieflyKeeps({}, TagTable);
      BrieflyKeeps({}, ChangeLog);
      ConcatKeeps({}, Briefly(TagTable), Briefly(TagTable));
      ConcatKeeps({}, Briefly(TagTable) + Briefly(TagTable), Briefly(ChangeLog));
    case Query => LockedKeeps(Alarms);
    case UnlockedQuery => TouchAfter({}, Alarms);
    case SuppressionRules => BrieflyKeeps({}, Suppression);
    case EvaluateSuppression(rulesRead) => EvaluateKeeps({}, rulesRead);
    case KpiQuery => BrieflyKeeps({}, Kpi);
  }

  lemma ShelveTimerKeeps(c: Call)
    requires c.ShelveTimer?
    ensures Keeps({}, Path(c))
  {
    TickKeeps(c.floodLogs, c.persists);
    UnshelvePathsKeep(c.expired);
    LockedKeeps(Alarms);
    BrieflyKeeps({}, Logger);
    ConcatKeeps({}, Locked(Alarms), Briefly(Logger));
    RepeatKeeps({}, c.extended, Locked(Alarms) + Briefly(Logger));
    var tick := TickPath(c.floodLogs, c.persists);
    ConcatKeeps({}, tick, UnshelvePaths(c.expired));
    ConcatKeeps({}, tick + UnshelvePaths(c.expired), Repeat(c.extended, Locked(Alarms) + Briefly(Logger)));
  }

  predicate AllGuarded(calls: seq<Call>) {
    forall i :: 0 <= i < |calls| ==> Guarded(calls[i])
  }

  lemma {:induction false} ProgramKeeps(calls: seq<Call>)
    ensures After({}, Program(calls)) == Through({}, AllGuarded(calls))
  {
    if calls != [] {
      PathKeeps(calls[0]);
      ProgramKeeps(calls[1..]);
      AfterConcat({}, Path(calls[0]), Program(calls[1..]));
      assert calls == [calls[0]] + calls[1..];
    }
  }

  // ---- Threads ----

  datatype Thread = Thread(held: set<Lock>, todo: seq<Step>)

  type System = map<nat, Thread>

  ghost predicate Free(s: System, l: Lock) {
    forall t :: t in s ==> l !in s[t].held
  }

  /** Thread t can do its next step: nobody, itself included, holds the lock it wants. */
  ghost predicate CanMove(s: System, t: nat) {
    t in s && s[t].todo != [] && (s[t].todo[0].Acquire? ==> Free(s, s[t].todo[0].l))
  }

  function Done(th: Thread): Thread
    requires th.todo != []
  {
    match th.todo[0]
    case Acquire(l) => Thread(th.held + {l}, th.todo[1..])
    case Unlock(l) => Thread(th.held - {l}, th.todo[1..])
    case Touch(_) => Thread(th.held, th.todo[1..])
  }

  function Move(s: System, t: nat): System
    requires t in s && s[t].todo != []
  {
    s[t := Done(s[t])]
  }

  /** Any number of threads, each about to make any sequence of calls, holding nothing. */
  ghost predicate Init(s: System, calls: map<nat, seq<Call>>) {
    s.Keys == calls.Keys && forall t :: t in s ==> s[t] == Thread({}, Program(calls[t]))
  }

  ghost predicate Run(states: seq<System>, moves: seq<nat>, calls: map<nat, seq<Call>>) {
    && |states| == |moves| + 1 && Init(states[0], calls)
    && (forall i :: 0 <= i < |moves| ==> CanMove(states[i], moves[i]) && states[i + 1] == Move(states[i], moves[i]))
  }

  /** The thread will get through with no lock held, and if all its calls are guarded, under guard. */
  ghost predicate OnCourse(th: Thread, guarded: bool) {
    After(th.held, th.todo).Through? && After(th.held, th.todo).held == {} &&
    (guarded ==> After(th.held, th.todo).guarded)
  }

  ghost predicate Inv(s: System, calls: map<nat, seq<Call>>) {
    && s.Keys == calls.Keys
    && (forall t :: t in s ==> OnCourse(s[t], AllGuarded(calls[t])))
    && (forall t, u :: t in s && u in s && t != u ==> s[t].held !! s[u].held)
  }

  lemma DoneKeeps(th: Thread, guarded: bool)
    requires OnCourse(th, guarded) && th.todo != []
    ensures OnCourse(Done(th), guarded)
  {
  }

  lemma {:induction false} RunInv(states: seq<System>, moves: seq<nat>, calls: map<nat, seq<Call>>, i: nat)
    requires Run(states, moves, calls) && i <= |moves|
    ensures Inv(states[i], calls)
  {
    if i == 0 {
      forall t | t in states[0] ensures OnCourse(states[0][t], AllGuarded(calls[t])) {
        ProgramKeeps(calls[t]);
      }
    } else {
      RunInv(states, moves, calls, i - 1);
      var s, m := states[i - 1], moves[i - 1];
      assert CanMove(s, m) && states[i] == Move(s, m);
      DoneKeeps(s[m], AllGuarded(calls[m]));
    }
  }

  /** Follow the chain from a waiting thread to the holder of the lock it wants: ranks rise, so the
      chain ends at a thread that can move. */
  lemma SomebodyMoves(s: System, calls: map<nat, seq<Call>>, t: nat) returns (mover: nat)
    requires Inv(s, calls) && t in s && s[t].todo != []
    ensures CanMove(s, mover)
    decreases if s[t].todo[0].Acquire? then 10 - s[t].todo[0].l.Rank() else 0
  {
    if CanMove(s, t) {
      mover := t;
    } else {
      var wanted := s[t].todo[0].l;
      assert OnCourse(s[t], AllGuarded(calls[t]));
      var holder :| holder in s && wanted in s[holder].held;
      assert OnCourse(s[holder], AllGuarded(calls[holder]));
      mover := SomebodyMoves(s, calls, holder);
    }
  }

  /** In every run, as long as any thread has work left, some thread can move. */
  lemma NoDeadlock(states: seq<System>, moves: seq<nat>, calls: map<nat, seq<Call>>, i: nat)
    requires Run(states, moves, calls) && i <= |moves|
    requires exists t :: t in states[i] && states[i][t].todo != []
    ensures exists t :: CanMove(states[i], t)
  {
    RunInv(states, moves, calls, i);
    var t :| t in states[i] && states[i][t].todo != [];
    var mover := SomebodyMoves(states[i], calls, t);
  }

  /** No lock is ever held twice: not by two threads, and no thread asks for one it holds. */
  lemma NoRelock(states: seq<System>, moves: seq<nat>, calls: map<nat, seq<Call>>, i: nat)
    requires Run(states, moves, calls) && i <= |moves|
    ensures forall t, u :: t in states[i] && u in states[i] && t != u ==> states[i][t].held !! states[i][u].held
    ensures forall t :: t in states[i] && states[i][t].todo != [] && states[i][t].todo[0].Acquire? ==>
              states[i][t].todo[0].l !in states[i][t].held
  {
    RunInv(states, moves, calls, i);
    forall t | t in states[i] && states[i][t].todo != [] && states[i][t].todo[0].Acquire?
      ensures states[i][t].todo[0].l !in states[i][t].held
    {
      assert OnCourse(states[i][t], AllGuarded(calls[t]));
    }
  }

  // ---- Races ----

  /** The thread's next step touches the table. */
  predicate AtTable(s: System, t: nat, table: Table) {
    t in s && s[t].todo != [] && s[t].todo[0] == Touch(table)
  }

  /** Two threads are never at one table at once, unless one of them makes a call that is not guarded. */
  lemma NoRace(states: seq<System>, moves: seq<nat>, calls: map<nat, seq<Call>>, i: nat, t: nat, u: nat, table: Table)
    requires Run(states, moves, calls) && i <= |moves| && t != u
    requires AtTable(states[i], t, table) && AtTable(states[i], u, table)
    ensures t in calls && u in calls && !(AllGuarded(calls[t]) && AllGuarded(calls[u]))
  {
    RunInv(states, moves, calls, i);
    assert OnCourse(states[i][t], AllGuarded(calls[t])) && OnCourse(states[i][u], AllGuarded(calls[u]));
    assert states[i][t].held !! states[i][u].held;
  }

  lemma RunGrows(states: seq<System>, moves: seq<nat>, calls: map<nat, seq<Call>>, t: nat)
    requires Run(states, moves, calls) && CanMove(states[|moves|], t)
    ensures Run(states + [Move(states[|moves|], t)], moves + [t], calls)
  {
  }

  /** Thread t of s has done the first k of its steps and no other has done any. */
  ghost predicate OnlyMoved(s: System, f: System, t: nat, k: nat) {
    && f.Keys == s.Keys && t in s && k <= |s[t].todo|
    && (forall u :: u in s && u != t ==> f[u] == s[u])
    && After({}, s[t].todo[..k]).Through?
    && f[t] == Thread(After({}, s[t].todo[..k]).held, s[t].todo[k..])
  }

  lemma OneMore(s: System, f: System, calls: map<nat, seq<Call>>, t: nat, k: nat)
    requires Init(s, calls) && OnlyMoved(s, f, t, k) && k < |s[t].todo|
    ensures CanMove(f, t) && OnlyMoved(s, Move(f, t), t, k + 1)
  {
    var steps, next := s[t].todo, s[t].todo[k];
    assert steps[..k + 1] == steps[..k] + [next] && steps[k..][1..] == steps[k + 1..];
    AfterConcat({}, steps[..k], [next]);
    assert [next][1..] == [];
    ProgramKeeps(calls[t]);
    AfterConcat({}, steps[..k], steps[k..]);
    assert steps == steps[..k] + steps[k..];
    if next.Acquire? {
      forall u | u in f ensures next.l !in f[u].held {
        assert u != t ==> f[u] == s[u];
      }
    }
  }

  /** A thread, while no other holds anything, can do the first k of its steps. */
  lemma {:induction false} Alone(s: System, calls: map<nat, seq<Call>>, t: nat, k: nat)
    returns (states: seq<System>, moves: seq<nat>)
    requires Init(s, calls) && t in s && k <= |s[t].todo|
    ensures Run(states, moves, calls) && |moves| == k && OnlyMoved(s, states[k], t, k)
  {
    if k == 0 {
      states, moves := [s], [];
    } else {
      states, moves := Alone(s, calls, t, k - 1);
      OneMore(s, states[k - 1], calls, t, k - 1);
      RunGrows(states, moves, calls, t);
      states, moves := states + [Move(states[k - 1], t)], moves + [t];
    }
  }

  /** Each call that is not guarded does race, in some run, with an operator's action on the alarm table. */
  lemma UnguardedRaces(c: Call) returns (states: seq<System>, moves: seq<nat>, calls: map<nat, seq<Call>>)
    requires !Guarded(c)
    ensures calls == map[0 := [c], 1 := [OperatorAction(true, true)]] && Run(states, moves, calls)
    ensures AtTable(states[|moves|], 0, Alarms) && AtTable(states[|moves|], 1, Alarms)
  {
    calls := map[0 := [c], 1 := [OperatorAction(true, true)]];
    var s: System := map[0 := Thread({}, Program(calls[0])), 1 := Thread({}, Program(calls[1]))];
    assert Program(calls[0]) == Path(c) && Program(calls[1]) == Path(calls[1][0]);
    var k := BeforeRace(c);
    states, moves := Alone(s, calls, 0, k);
    Joins(s, states[k], c, k);
    RunGrows(states, moves, calls, 1);
    states, moves := states + [Move(states[k], 1)], moves + [1];
  }

  lemma Joins(s: System, f: System, c: Call, k: nat)
    requires OnlyMoved(s, f, 0, k) && s[0].todo == Path(c) && k < |Path(c)| && Path(c)[k] == Touch(Alarms)
    requires After({}, Path(c)[..k]) == Through({}, true) && s.Keys == {0, 1}
    requires s[1] == Thread({}, OperatorPath(true, true))
    ensures CanMove(f, 1) && AtTable(Move(f, 1), 0, Alarms) && AtTable(Move(f, 1), 1, Alarms)
  {
    assert f[1].todo[0] == Acquire(ActiveAlarms) && f[1].todo[1] == Touch(Alarms);
    assert Free(f, ActiveAlarms);
  }

  /** Where the unguarded access comes: after k steps, with no lock held. */
  lemma BeforeRace(c: Call) returns (k: nat)
    requires !Guarded(c)
    ensures k < |Path(c)| && Path(c)[k] == Touch(Alarms) && After({}, Path(c)[..k]) == Through({}, true)
  {
    if c.UnlockedQuery? {
      k := 0;
    } else {
      var before := LockAll + TriggerBody(c.rulesRead, c.outcome) + ExplicitUnlock;
      k := |before|;
      assert Path(c) == before + ([Touch(Alarms)] + Counts);
      assert Path(c)[..k] == before;
      TriggerBodyKeeps(c.rulesRead, c.outcome);
      UnderAllThree(TriggerBody(c.rulesRead, c.outcome), [], true);
      assert ExplicitUnlock + [] == ExplicitUnlock;
    }
  }
}
