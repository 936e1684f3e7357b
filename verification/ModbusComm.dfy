/** The write queue of ModbusComm.cpp as a protocol between writer threads. Each critical section under
    m_writeMutex is one step; the connection may come and go at any time, and libmodbus decides the
    outcome of each write. */
module WriteQueueProtocol {

  datatype Task = Task(serverAddress: int, address: int, values: seq<nat>)

  datatype Pc =
    | Checking                       // at the connection test of processWriteQueue
    | NotConnected                   // test failed, m_writeInProgress not yet cleared
    | Draining                       // at the top of the loop
    | Sending(task: Task)            // task taken off the queue, mutex released

  datatype State = State(
    queue: seq<Task>,
    inProgress: bool,
    connected: bool,
    drainers: map<nat, Pc>,          // the threads inside processWriteQueue
    accepted: seq<Task>,             // tasks in the order writeHoldingRegisters took them
    sent: seq<Task>,                 // tasks whose write was attempted, in that order
    failed: set<nat>)                // positions in `sent` reported as failed

  datatype Action =
    | Write(t: nat, task: Task)
    | Check(t: nat)
    | LeaveNotConnected(t: nat)
    | Take(t: nat)
    | LeaveEmpty(t: nat)
    | Send(t: nat, ok: bool)
    | SetConnected(up: bool)

  ghost predicate Init(s: State) {
    s.queue == [] && !s.inProgress && s.drainers == map[] && s.accepted == s.sent == [] && s.failed == {}
  }

  ghost predicate Step(s: State, a: Action, s': State) {
    match a
    case Write(t, task) =>
      // a thread inside processWriteQueue is busy there
      t !in s.drainers &&
      var queued := s.(queue := s.queue + [task], accepted := s.accepted + [task]);
      s' == if s.inProgress then queued else queued.(inProgress := true, drainers := s.drainers[t := Checking])
    case Check(t) =>
      t in s.drainers && s.drainers[t].Checking? &&
      s' == s.(drainers := s.drainers[t := if s.connected then Draining else NotConnected])
    case LeaveNotConnected(t) =>
      t in s.drainers && s.drainers[t].NotConnected? &&
      s' == s.(inProgress := false, drainers := s.drainers - {t})
    case Take(t) =>
      t in s.drainers && s.drainers[t].Draining? && s.queue != [] &&
      s' == s.(queue := s.queue[1..], drainers := s.drainers[t := Sending(s.queue[0])])
    case LeaveEmpty(t) =>
      t in s.drainers && s.drainers[t].Draining? && s.queue == [] &&
      s' == s.(inProgress := false, drainers := s.drainers - {t})
    case Send(t, ok) =>
      // a failed write is reported and the loop goes on with the next task
      t in s.drainers && s.drainers[t].Sending? &&
      s' == s.(sent := s.sent + [s.drainers[t].task], failed := if ok then s.failed else s.failed + {|s.sent|},
               drainers := s.drainers[t := Draining])
    case SetConnected(up) =>
      s' == s.(connected := up)
  }

  ghost predicate Run(states: seq<State>, acts: seq<Action>) {
    && |states| == |acts| + 1 && Init(states[0])
    && (forall i :: 0 <= i < |acts| ==> Step(states[i], acts[i], states[i + 1]))
  }

  /** The task the drainer holds between taking and sending, if any. */
  function InHand(pc: Pc): seq<Task> {
    if pc.Sending? then [pc.task] else []
  }

  ghost predicate Inv(s: State) {
    && (forall t, u :: t in s.drainers && u in s.drainers ==> t == u)
    && (s.inProgress <==> s.drainers != map[])
    && (s.drainers == map[] ==> s.accepted == s.sent + s.queue)
    && (forall t :: t in s.drainers ==> s.accepted == s.sent + InHand(s.drainers[t]) + s.queue)
    && (forall i :: i in s.failed ==> i < |s.sent|)
  }

  lemma InvStep(s: State, a: Action, s': State)
    requires Inv(s) && Step(s, a, s')
    ensures Inv(s')
  {
    match a
    case Write(t, task) =>
    case Take(t) => assert [s.queue[0]] + s.queue[1..] == s.queue;
    case LeaveNotConnected(t) => assert s'.drainers == map[];
    case LeaveEmpty(t) => assert s'.drainers == map[];
    case _ =>
  }

  lemma {:induction false} RunInv(states: seq<State>, acts: seq<Action>, i: nat)
    requires Run(states, acts) && i < |states|
    ensures Inv(states[i])
  {
    if i > 0 {
      RunInv(states, acts, i - 1);
      InvStep(states[i - 1], acts[i - 1], states[i]);
    }
  }

  /** At most one thread drains the queue. */
  lemma OneDrainer(states: seq<State>, acts: seq<Action>, i: nat, t: nat, u: nat)
    requires Run(states, acts) && i < |states| && t in states[i].drainers && u in states[i].drainers
    ensures t == u && states[i].inProgress
  {
    RunInv(states, acts, i);
  }

  /** What was sent is what was accepted, in order and each once, up to the task in the drainer's hand
      and the tasks still queued: nothing is lost, repeated or overtaken. */
  lemma SentInOrder(states: seq<State>, acts: seq<Action>, i: nat)
    requires Run(states, acts) && i < |states|
    ensures states[i].sent <= states[i].accepted
    ensures |states[i].accepted| - |states[i].sent| - |states[i].queue| ==
              if exists t :: t in states[i].drainers && states[i].drainers[t].Sending? then 1 else 0
    ensures states[i].queue == states[i].accepted[|states[i].accepted| - |states[i].queue|..]
  {
    RunInv(states, acts, i);
    var s := states[i];
    if t :| t in s.drainers {
      assert s.drainers != map[];
      assert s.accepted == s.sent + InHand(s.drainers[t]) + s.queue;
    } else {
      assert s.drainers == map[];
    }
  }

  /** A drainer leaves by the empty-queue exit only when everything accepted has been sent. */
  lemma DrainedMeansSent(states: seq<State>, acts: seq<Action>, i: nat)
    requires Run(states, acts) && i < |acts| && acts[i].LeaveEmpty?
    ensures states[i + 1].sent == states[i + 1].accepted
  {
    assert Step(states[i], acts[i], states[i + 1]);
    RunInv(states, acts, i);
  }

  /** Tasks sit in the queue with nobody draining only since a not-connected exit: no thread has been
      inside and no task has been accepted since. The next write picks them all up. */
  lemma {:induction false} StrandedSince(states: seq<State>, acts: seq<Action>, i: nat) returns (j: nat)
    requires Run(states, acts) && i < |states|
    requires states[i].drainers == map[] && states[i].queue != []
    ensures j < i && acts[j].LeaveNotConnected?
    ensures forall k :: j < k <= i ==> states[k].drainers == map[] && states[k].queue == states[i].queue
  {
    assert i > 0;
    assert Step(states[i - 1], acts[i - 1], states[i]);
    RunInv(states, acts, i - 1);
    if acts[i - 1].LeaveNotConnected? {
      j := i - 1;
    } else {
      j := StrandedSince(states, acts, i - 1);
    }
  }

  lemma CheckStep(s: State, a: Action, s': State, t: nat)
    requires Step(s, a, s') && t in s'.drainers && !s'.drainers[t].Checking?
    ensures t in s.drainers && a != LeaveEmpty(t) && a != LeaveNotConnected(t)
    ensures if a == Check(t) then s.connected <==> !s'.drainers[t].NotConnected?
            else !s.drainers[t].Checking? && (s.drainers[t].NotConnected? <==> s'.drainers[t].NotConnected?)
  {
  }

  /** A thread drains because its check found the link up, and leaves the queue alone because it found it down. */
  lemma {:induction false} CheckDecides(states: seq<State>, acts: seq<Action>, i: nat, t: nat) returns (j: nat)
    requires Run(states, acts) && i < |states| && t in states[i].drainers && !states[i].drainers[t].Checking?
    ensures j < i && acts[j] == Check(t) && (states[j].connected <==> !states[i].drainers[t].NotConnected?)
    ensures forall k :: j < k < i ==> acts[k] != LeaveEmpty(t) && acts[k] != LeaveNotConnected(t)
  {
    assert i > 0;
    CheckStep(states[i - 1], acts[i - 1], states[i], t);
    if acts[i - 1] == Check(t) {
      j := i - 1;
    } else {
      j := CheckDecides(states, acts, i - 1, t);
    }
  }

  /** At most so many steps of its own a drainer still has to take if nothing more is queued. */
  function StepsLeft(s: State, t: nat): nat {
    if t !in s.drainers then 0 else
    match s.drainers[t]
    case Checking => 2 * |s.queue| + 2
    case NotConnected => 1
    case Draining => 2 * |s.queue| + 1
    case Sending(_) => 2 * |s.queue| + 2
  }

  predicate OwnStep(a: Action, t: nat) {
    !a.Write? && !a.SetConnected? && a.t == t
  }

  /** Every step of its own brings a drainer nearer to the end, a task accepted meanwhile costs it at most two more, and
      no other step matters to it. */
  lemma DrainAdvances(s: State, a: Action, s': State, t: nat)
    requires Inv(s) && Step(s, a, s') && t in s.drainers
    ensures OwnStep(a, t) ==> StepsLeft(s', t) < StepsLeft(s, t)
    ensures !OwnStep(a, t) ==> t in s'.drainers && StepsLeft(s', t) <= StepsLeft(s, t) + if a.Write? then 2 else 0
  {
  }

  /** And it always can take one: nobody ever blocks it. */
  lemma DrainCanStep(s: State, t: nat) returns (a: Action, s': State)
    requires t in s.drainers
    ensures OwnStep(a, t) && Step(s, a, s')
  {
    match s.drainers[t]
    case Checking =>
      a, s' := Check(t), s.(drainers := s.drainers[t := if s.connected then Draining else NotConnected]);
    case NotConnected =>
      a, s' := LeaveNotConnected(t), s.(inProgress := false, drainers := s.drainers - {t});
    case Draining =>
      if s.queue == [] {
        a, s' := LeaveEmpty(t), s.(inProgress := false, drainers := s.drainers - {t});
      } else {
        a, s' := Take(t), s.(queue := s.queue[1..], drainers := s.drainers[t := Sending(s.queue[0])]);
      }
    case Sending(task) =>
      a, s' := Send(t, true), s.(sent := s.sent + [task], drainers := s.drainers[t := Draining]);
  }

  /** The link is up or down as it was last set. */
  lemma {:induction false} LinkAsSet(states: seq<State>, acts: seq<Action>, j: nat, i: nat)
    requires Run(states, acts) && j < i < |states| && acts[j].SetConnected?
    requires forall k :: j < k < i ==> !acts[k].SetConnected?
    ensures states[i].connected == acts[j].up
  {
    assert Step(states[i - 1], acts[i - 1], states[i]);
    if j < i - 1 {
      LinkAsSet(states, acts, j, i - 1);
    }
  }

  /** How the writes went, one for each, in order. */
  function Results(acts: seq<Action>): seq<bool> {
    if acts == [] then [] else
    var last := acts[|acts| - 1];
    Results(acts[..|acts| - 1]) + if last.Send? then [last.ok] else []
  }

  /** Exactly the failed writes are reported as failed; the rest of the queue is sent all the same. */
  lemma {:induction false} FailuresReported(states: seq<State>, acts: seq<Action>, i: nat, n: nat)
    requires Run(states, acts) && i < |states|
    ensures |Results(acts[..i])| == |states[i].sent|
    ensures n in states[i].failed <==> n < |states[i].sent| && !Results(acts[..i])[n]
  {
    if i > 0 {
      FailuresReported(states, acts, i - 1, n);
      assert Step(states[i - 1], acts[i - 1], states[i]);
      assert acts[..i][..i - 1] == acts[..i - 1];
    }
  }
}

/** The same two methods in their own form, run by one thread. */
module WriteQueue {
  import opened WriteQueueProtocol

  datatype Completion = Completion(task: Task, ok: bool)

  function Tasks(completions: seq<Completion>): seq<Task> {
    seq(|completions|, i requires 0 <= i < |completions| => completions[i].task)
  }

  class ModbusWriter {
    var writeQueue: seq<Task>
    var writeInProgress: bool
    var connected: bool
    var completed: seq<Completion>       // the writeCompleted signals

    constructor (connected: bool)
      ensures writeQueue == [] && !writeInProgress && completed == [] && this.connected == connected
    {
      writeQueue, writeInProgress, completed := [], false, [];
      this.connected := connected;
    }

    method WriteHoldingRegisters(task: Task)
      modifies this`writeQueue, this`writeInProgress, this`completed
      ensures old(writeInProgress) ==>
                writeInProgress && writeQueue == old(writeQueue) + [task] && completed == old(completed)
      ensures !old(writeInProgress) ==> !writeInProgress
      ensures !old(writeInProgress) && connected ==>
                writeQueue == [] && Tasks(completed) == Tasks(old(completed)) + old(writeQueue) + [task]
      ensures !old(writeInProgress) && !connected ==>
                writeQueue == old(writeQueue) + [task] && completed == old(completed)
    {
      writeQueue := writeQueue + [task];
      if !writeInProgress {
        writeInProgress := true;
        ProcessWriteQueue();
      }
    }

    method ProcessWriteQueue()
      modifies this`writeQueue, this`writeInProgress, this`completed
      ensures !writeInProgress
      ensures connected ==> writeQueue == [] && Tasks(completed) == Tasks(old(completed)) + old(writeQueue)
      ensures !connected ==> writeQueue == old(writeQueue) && completed == old(completed)
    {
      if !connected {
        writeInProgress := false;
        return;
      }
      while true
        invariant Tasks(completed) + writeQueue == Tasks(old(completed)) + old(writeQueue)
        decreases |writeQueue|
      {
        if writeQueue == [] {
          writeInProgress := false;
          return;
        }
        var task := writeQueue[0];
        writeQueue := writeQueue[1..];
        var ok: bool := *;
        ghost var before := completed;
        completed := completed + [Completion(task, ok)];
        assert Tasks(completed) == Tasks(before) + [task];
      }
    }
  }
}

/** Heartbeat and reconnection of ModbusComm.cpp: one-shot timers are counted, the outcome of each
    register read and each connect is an input. */
module Reconnect {

  const HEARTBEAT_MAX_FAIL := 3
  const MAX_RECONNECT_ATTEMPTS := 20

  datatype Link = Link(
    connected: bool, hasContext: bool, reconnecting: bool,
    failCount: nat, attempts: nat,
    connectShots: nat,               // pending 2 s one-shots that will try to connect
    retryShots: nat,                 // pending 5 s one-shots that will call attemptReconnect
    tries: nat)                      // connects tried since the last success

  const Fresh := Link(true, true, false, 0, 0, 0, 0, 0)

  function Attempt(l: Link): Link {
    if l.reconnecting then l
    else if l.attempts + 1 > MAX_RECONNECT_ATTEMPTS then l.(attempts := l.attempts + 1)
    else l.(attempts := l.attempts + 1, reconnecting := true, connectShots := l.connectShots + 1)
  }

  function Heartbeat(l: Link, readOk: bool): Link {
    if !l.hasContext then l
    else if l.connected && readOk then l.(failCount := 0)
    else if l.failCount + 1 >= HEARTBEAT_MAX_FAIL then Attempt(l.(failCount := l.failCount + 1, connected := false))
    else l.(failCount := l.failCount + 1)
  }

  function ConnectShot(l: Link, ok: bool): Link
    requires l.connectShots > 0
  {
    var fired := l.(connectShots := l.connectShots - 1, reconnecting := false);
    if ok then fired.(hasContext := true, connected := true, failCount := 0, attempts := 0, tries := 0)
    else fired.(hasContext := false, retryShots := l.retryShots + 1, tries := l.tries + 1)
  }

  function RetryShot(l: Link): Link
    requires l.retryShots > 0
  {
    Attempt(l.(retryShots := l.retryShots - 1))
  }

  class ModbusLink {
    var connected: bool
    var hasContext: bool
    var reconnecting: bool
    var heartbeatFailCount: nat
    var reconnectAttempts: nat
    var connectShots: nat
    var retryShots: nat
    ghost var tries: nat

    ghost function State(): Link
      reads this
    {
      Link(connected, hasContext, reconnecting, heartbeatFailCount, reconnectAttempts, connectShots, retryShots, tries)
    }

    constructor ()
      ensures State() == Fresh
    {
      connected, hasContext, reconnecting := true, true, false;
      heartbeatFailCount, reconnectAttempts, connectShots, retryShots, tries := 0, 0, 0, 0, 0;
    }

    method OnHeartbeatTimeout(readOk: bool)
      modifies this
      ensures State() == Heartbeat(old(State()), readOk)
    {
      if !hasContext {
        return;
      }
      var ok := connected && readOk;
      if !ok {
        heartbeatFailCount := heartbeatFailCount + 1;
        if heartbeatFailCount >= HEARTBEAT_MAX_FAIL {
          connected := false;
          AttemptReconnect();
        }
      } else {
        heartbeatFailCount := 0;
      }
    }

    method AttemptReconnect()
      modifies this
      ensures State() == Attempt(old(State()))
    {
      if reconnecting {
        return;
      }
      reconnecting := true;
      reconnectAttempts := reconnectAttempts + 1;
      if reconnectAttempts > MAX_RECONNECT_ATTEMPTS {
        reconnecting := false;
        return;
      }
      connectShots := connectShots + 1;
    }

    method OnConnectShot(connects: bool)
      requires connectShots > 0
      modifies this
      ensures State() == ConnectShot(old(State()), connects)
    {
      connectShots := connectShots - 1;
      hasContext := false;
      tries := tries + 1;
      if connects {
        hasContext, connected, heartbeatFailCount := true, true, 0;
        reconnecting, reconnectAttempts, tries := false, 0, 0;
      } else {
        reconnecting := false;
        retryShots := retryShots + 1;
      }
    }

    method OnRetryShot()
      requires retryShots > 0
      modifies this
      ensures State() == RetryShot(old(State()))
    {
      retryShots := retryShots - 1;
      AttemptReconnect();
    }
  }

  datatype Callback = HeartbeatFires(readOk: bool) | ConnectFires(ok: bool) | RetryFires

  predicate Enabled(l: Link, c: Callback) {
    match c
    case HeartbeatFires(_) => true
    case ConnectFires(_) => l.connectShots > 0
    case RetryFires => l.retryShots > 0
  }

  function Fire(l: Link, c: Callback): Link
    requires Enabled(l, c)
  {
    match c
    case HeartbeatFires(readOk) => Heartbeat(l, readOk)
    case ConnectFires(ok) => ConnectShot(l, ok)
    case RetryFires => RetryShot(l)
  }

  ghost predicate Run(states: seq<Link>, callbacks: seq<Callback>) {
    && |states| == |callbacks| + 1 && states[0] == Fresh
    && (forall i :: 0 <= i < |callbacks| ==>
          Enabled(states[i], callbacks[i]) && states[i + 1] == Fire(states[i], callbacks[i]))
  }

  predicate GaveUp(l: Link) { l.attempts > MAX_RECONNECT_ATTEMPTS }

  predicate Inv(l: Link) {
    if l.connected then
      l.hasContext && !l.reconnecting && l.attempts == l.connectShots == l.retryShots == l.tries == 0
    else if l.reconnecting then
      l.connectShots == 1 && l.retryShots == 0 && l.attempts == l.tries + 1 <= MAX_RECONNECT_ATTEMPTS &&
      (l.hasContext ==> l.failCount >= HEARTBEAT_MAX_FAIL)
    else if l.retryShots == 1 then
      l.connectShots == 0 && !l.hasContext && l.attempts == l.tries <= MAX_RECONNECT_ATTEMPTS
    else
      l.connectShots == l.retryShots == 0 && !l.hasContext && l.attempts == MAX_RECONNECT_ATTEMPTS + 1 &&
      l.tries == MAX_RECONNECT_ATTEMPTS
  }

  lemma {:induction false} RunInv(states: seq<Link>, callbacks: seq<Callback>, i: nat)
    requires Run(states, callbacks) && i < |states|
    ensures Inv(states[i])
  {
    if i > 0 {
      RunInv(states, callbacks, i - 1);
      assert states[i] == Fire(states[i - 1], callbacks[i - 1]);
    }
  }

  /** At most one reconnect timer is pending, exactly one while the link is down and not given up. At most 20 connects
      are tried from one success to the next, that success included: a connect that is still to come is at most the
      20th. */
  lemma BoundedReconnect(states: seq<Link>, callbacks: seq<Callback>, i: nat)
    requires Run(states, callbacks) && i < |states|
    ensures states[i].connectShots + states[i].retryShots == if states[i].connected || GaveUp(states[i]) then 0 else 1
    ensures states[i].connectShots > 0 ==> states[i].tries + 1 == states[i].attempts <= MAX_RECONNECT_ATTEMPTS
    ensures states[i].tries <= MAX_RECONNECT_ATTEMPTS
    ensures GaveUp(states[i]) ==> states[i].tries == MAX_RECONNECT_ATTEMPTS
  {
    RunInv(states, callbacks, i);
  }

  /** The failed heartbeats since the last good one or the last successful connect. A heartbeat fails if the link is
      down or its read fails; without a context it does nothing. */
  function FailuresInARow(states: seq<Link>, callbacks: seq<Callback>, i: nat): nat
    requires i <= |callbacks| <= |states|
  {
    if i == 0 then 0 else
    match callbacks[i - 1]
    case HeartbeatFires(readOk) =>
      if !states[i - 1].hasContext then FailuresInARow(states, callbacks, i - 1)
      else if states[i - 1].connected && readOk then 0
      else FailuresInARow(states, callbacks, i - 1) + 1
    case ConnectFires(true) => 0
    case _ => FailuresInARow(states, callbacks, i - 1)
  }

  lemma {:induction false} FailuresCounted(states: seq<Link>, callbacks: seq<Callback>, i: nat)
    requires Run(states, callbacks) && i < |states|
    ensures states[i].failCount == FailuresInARow(states, callbacks, i)
  {
    if i > 0 {
      FailuresCounted(states, callbacks, i - 1);
      assert states[i] == Fire(states[i - 1], callbacks[i - 1]);
    }
  }

  /** The link is given up for lost exactly at the third failed heartbeat in a row, and then a reconnect is under
      way. It is back exactly at the next connect that succeeds, with all counts at zero. */
  lemma LostAfterThreeFailures(states: seq<Link>, callbacks: seq<Callback>, i: nat)
    requires Run(states, callbacks) && i < |callbacks|
    ensures states[i].connected ==>
              (!states[i + 1].connected <==>
                 callbacks[i].HeartbeatFires? && FailuresInARow(states, callbacks, i + 1) >= 3) &&
              (!states[i + 1].connected ==> states[i + 1].connectShots == 1)
    ensures !states[i].connected ==> (states[i + 1].connected <==> callbacks[i] == ConnectFires(true))
    ensures !states[i].connected && states[i + 1].connected ==> states[i + 1] == Fresh
  {
    RunInv(states, callbacks, i);
    assert states[i + 1] == Fire(states[i], callbacks[i]);
    RunInv(states, callbacks, i + 1);
    FailuresCounted(states, callbacks, i);
  }

  /** A run, and one more callback. */
  lemma Goes(states: seq<Link>, callbacks: seq<Callback>, c: Callback) returns (more: seq<Link>, calls: seq<Callback>)
    requires Run(states, callbacks) && Enabled(states[|callbacks|], c)
    ensures Run(more, calls) && more[|calls|] == Fire(states[|callbacks|], c)
  {
    more, calls := states + [Fire(states[|callbacks|], c)], callbacks + [c];
  }

  lemma LosingRun() returns (states: seq<Link>, callbacks: seq<Callback>)
    ensures Run(states, callbacks) && states[|callbacks|] == Link(false, true, true, 3, 1, 1, 0, 0)
  {
    states, callbacks := [Fresh], [];
    states, callbacks := Goes(states, callbacks, HeartbeatFires(false));
    states, callbacks := Goes(states, callbacks, HeartbeatFires(false));
    states, callbacks := Goes(states, callbacks, HeartbeatFires(false));
  }

  /** The link after three failed heartbeats and n failed connects, the next one due in 5 s. */
  function Failing(n: nat): Link { Link(false, false, false, 3, n, 0, 1, n) }

  /** A run in which each of the first n connects fails. */
  lemma {:induction false} FailingRun(n: nat) returns (states: seq<Link>, callbacks: seq<Callback>)
    requires 1 <= n <= 20
    ensures Run(states, callbacks) && states[|callbacks|] == Failing(n)
  {
    if n == 1 {
      states, callbacks := LosingRun();
    } else {
      states, callbacks := FailingRun(n - 1);
      states, callbacks := Goes(states, callbacks, RetryFires);
    }
    states, callbacks := Goes(states, callbacks, ConnectFires(false));
  }

  /** The bound is reached: a run that gives up after twenty failed connects. */
  lemma GivingUpHappens() returns (states: seq<Link>, callbacks: seq<Callback>)
    ensures Run(states, callbacks) && GaveUp(states[|callbacks|]) && states[|callbacks|].tries == 20
  {
    states, callbacks := FailingRun(20);
    states, callbacks := Goes(states, callbacks, RetryFires);
  }

  /** Giving up is final: only the heartbeat still fires, and it changes nothing. */
  lemma {:induction false} GivingUpIsFinal(states: seq<Link>, callbacks: seq<Callback>, i: nat, j: nat)
    requires Run(states, callbacks) && i <= j < |states| && GaveUp(states[i])
    ensures states[j] == states[i]
    ensures forall k :: i <= k < j ==> callbacks[k].HeartbeatFires?
    decreases j
  {
    if i < j {
      GivingUpIsFinal(states, callbacks, i, j - 1);
      RunInv(states, callbacks, j - 1);
      assert Enabled(states[j - 1], callbacks[j - 1]);
    }
  }
}
