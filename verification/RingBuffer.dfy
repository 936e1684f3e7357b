/** The sequence-numbered ring of LockFreeRingBuffer.h.

    RingProtocol is the protocol as a step relation: any number of producers, serialised by
    m_enqueueMutex, and one consumer, each load and store of an atomic being one step. A write
    or a move of slot data takes two steps, and between them the slot holds an arbitrary value,
    so that a torn read would be visible. LockFreeRingBuffer is the class itself, run without
    interference. Both share one invariant.

    `pos & m_mask` is written `pos % Capacity`, which is the same for a power of two. */
module RingProtocol {
  import opened Wrappers

  datatype Slot<+T> = Slot(data: T, sequence: nat)

  datatype Producer<+T> =
    | Waiting(v: T)                            // blocked on m_enqueueMutex
    | Entered(v: T)                            // owns the mutex
    | PosLoaded(v: T, pos: nat)
    | SequenceLoaded(v: T, pos: nat, seen: nat)
    | Writing(v: T, pos: nat)                  // slot.data is half written
    | Written(v: T, pos: nat)
    | Published(pos: nat)                      // sequence stored, m_enqueuePos not yet
    | Leaving(ok: bool)                        // about to unlock and return ok

  datatype Consumer<+T> =
    | Outside
    | AtPos(pos: nat)
    | Seen(pos: nat, seen: nat)
    | Reading(pos: nat)                        // slot.data is half moved out
    | Holding(pos: nat, item: T)
    | Released(pos: nat, item: T)              // sequence stored, m_dequeuePos not yet
    | Returning(got: Option<T>)                // about to return: true with a value, or false

  datatype State<T> = State(
    slots: seq<Slot<T>>,
    enqueuePos: nat,
    dequeuePos: nat,
    mutex: Option<nat>,
    producers: map<nat, Producer<T>>,
    consumer: Consumer<T>,
    enqueued: seq<T>,                          // values in the order of their sequence stores
    dequeued: seq<T>)                          // values in the order of their slot releases

  /** One atomic step. `junk` is what a half-written or moved-from slot happens to hold. */
  datatype Action<T> =
    | Call(p: nat, v: T)
    | Lock(p: nat)
    | LoadEnqueuePos(p: nat)
    | LoadSequence(p: nat)
    | BeginWrite(p: nat, junk: T)
    | EndWrite(p: nat)
    | StoreSequence(p: nat)
    | StoreEnqueuePos(p: nat)
    | Refuse(p: nat)
    | Unlock(p: nat)
    | LoadDequeuePos
    | LoadSlot
    | GiveUp
    | BeginRead
    | EndRead(junk: T, item: T)
    | Release
    | StoreDequeuePos
    | Return

  function Capacity<T>(s: State<T>): nat { |s.slots| }

  function Index(k: nat, capacity: nat): (i: nat)
    requires capacity > 0
    ensures i < capacity
  {
    k % capacity
  }

  function SlotAt<T>(s: State<T>, k: nat): Slot<T>
    requires |s.slots| > 0
  {
    s.slots[Index(k, |s.slots|)]
  }

  function SetSlot<T>(s: State<T>, k: nat, x: Slot<T>): State<T>
    requires |s.slots| > 0
  {
    s.(slots := s.slots[Index(k, |s.slots|) := x])
  }

  function Move<T>(s: State<T>, p: nat, pc: Producer<T>): State<T> {
    s.(producers := s.producers[p := pc])
  }

  ghost predicate Step<T>(s: State<T>, a: Action<T>, s': State<T>) {
    |s.slots| >= 2 &&
    match a
    case Call(p, v) =>
      p !in s.producers && s' == Move(s, p, Waiting(v))
    case Lock(p) =>
      p in s.producers && s.producers[p].Waiting? && s.mutex == None &&
      s' == Move(s, p, Entered(s.producers[p].v)).(mutex := Some(p))
    case LoadEnqueuePos(p) =>
      p in s.producers && s.producers[p].Entered? &&
      s' == Move(s, p, PosLoaded(s.producers[p].v, s.enqueuePos))
    case LoadSequence(p) =>
      p in s.producers && s.producers[p].PosLoaded? &&
      var pc := s.producers[p];
      s' == Move(s, p, SequenceLoaded(pc.v, pc.pos, SlotAt(s, pc.pos).sequence))
    case BeginWrite(p, junk) =>
      p in s.producers && s.producers[p].SequenceLoaded? && s.producers[p].seen == s.producers[p].pos &&
      var pc := s.producers[p];
      s' == Move(SetSlot(s, pc.pos, SlotAt(s, pc.pos).(data := junk)), p, Writing(pc.v, pc.pos))
    case EndWrite(p) =>
      p in s.producers && s.producers[p].Writing? &&
      var pc := s.producers[p];
      s' == Move(SetSlot(s, pc.pos, SlotAt(s, pc.pos).(data := pc.v)), p, Written(pc.v, pc.pos))
    case StoreSequence(p) =>
      p in s.producers && s.producers[p].Written? &&
      var pc := s.producers[p];
      s' == Move(SetSlot(s, pc.pos, SlotAt(s, pc.pos).(sequence := pc.pos + 1)), p, Published(pc.pos))
            .(enqueued := s.enqueued + [pc.v])
    case StoreEnqueuePos(p) =>
      p in s.producers && s.producers[p].Published? &&
      s' == Move(s, p, Leaving(true)).(enqueuePos := s.producers[p].pos + 1)
    case Refuse(p) =>
      p in s.producers && s.producers[p].SequenceLoaded? && s.producers[p].seen != s.producers[p].pos &&
      s' == Move(s, p, Leaving(false))
    case Unlock(p) =>
      p in s.producers && s.producers[p].Leaving? &&
      s' == s.(producers := s.producers - {p}, mutex := None)
    case LoadDequeuePos =>
      s.consumer.Outside? && s' == s.(consumer := AtPos(s.dequeuePos))
    case LoadSlot =>
      s.consumer.AtPos? &&
      s' == s.(consumer := Seen(s.consumer.pos, SlotAt(s, s.consumer.pos).sequence))
    case GiveUp =>
      s.consumer.Seen? && s.consumer.seen <= s.consumer.pos && s' == s.(consumer := Returning(None))
    case BeginRead =>
      // the value itself is picked up in EndRead, so that a write in between would be seen
      s.consumer.Seen? && s.consumer.seen > s.consumer.pos && s' == s.(consumer := Reading(s.consumer.pos))
    case EndRead(junk, item) =>
      s.consumer.Reading? &&
      var pos := s.consumer.pos;
      item == SlotAt(s, pos).data &&
      s' == SetSlot(s, pos, SlotAt(s, pos).(data := junk)).(consumer := Holding(pos, item))
    case Release =>
      s.consumer.Holding? &&
      var pos := s.consumer.pos;
      s' == SetSlot(s, pos, SlotAt(s, pos).(sequence := pos + |s.slots|))
            .(consumer := Released(pos, s.consumer.item), dequeued := s.dequeued + [s.consumer.item])
    case StoreDequeuePos =>
      s.consumer.Released? &&
      s' == s.(dequeuePos := s.consumer.pos + 1, consumer := Returning(Some(s.consumer.item)))
    case Return =>
      s.consumer.Returning? && s' == s.(consumer := Outside)
  }

  // ---- The invariant ----

  function Inside<T>(pc: Producer<T>): bool { !pc.Waiting? }

  /** Between these two positions lie the published, not yet released slots. */
  function Tail<T>(s: State<T>): nat { |s.enqueued| }
  function Head<T>(s: State<T>): nat { |s.dequeued| }

  ghost predicate SlotsInv<T>(s: State<T>)
    requires |s.slots| >= 2
  {
    && Head(s) <= Tail(s) <= Head(s) + |s.slots|
    && s.dequeued == s.enqueued[..Head(s)]
    && (forall k :: Head(s) <= k < Tail(s) ==> SlotAt(s, k).sequence == k + 1)
    && (forall k :: Tail(s) <= k < Head(s) + |s.slots| ==> SlotAt(s, k).sequence == k)
    && (forall k :: Head(s) <= k < Tail(s) && !(k == Head(s) && s.consumer.Holding?) ==>
          SlotAt(s, k).data == s.enqueued[k])
  }

  ghost predicate ProducerInv<T>(s: State<T>, pc: Producer<T>)
    requires |s.slots| >= 2
  {
    match pc
    case PosLoaded(_, pos) => pos == Tail(s)
    case SequenceLoaded(_, pos, seen) => pos == Tail(s) && (seen == pos ==> Tail(s) < Head(s) + |s.slots|)
    case Writing(_, pos) => pos == Tail(s) < Head(s) + |s.slots|
    case Written(v, pos) => pos == Tail(s) < Head(s) + |s.slots| && SlotAt(s, pos).data == v
    case Published(pos) => pos + 1 == Tail(s)
    case _ => true
  }

  ghost predicate ConsumerInv<T>(s: State<T>) {
    match s.consumer
    case Outside => s.dequeuePos == Head(s)
    case AtPos(pos) => s.dequeuePos == pos == Head(s)
    case Seen(pos, seen) => s.dequeuePos == pos == Head(s) && (seen > pos ==> Head(s) < Tail(s))
    case Reading(pos) => s.dequeuePos == pos == Head(s) < Tail(s)
    case Holding(pos, item) => s.dequeuePos == pos == Head(s) < Tail(s) && item == s.enqueued[pos]
    case Released(pos, item) => s.dequeuePos == pos && pos + 1 == Head(s)
    case Returning(_) => s.dequeuePos == Head(s)
  }

  ghost predicate MutexInv<T>(s: State<T>) {
    && (forall p :: p in s.producers && Inside(s.producers[p]) ==> s.mutex == Some(p))
    && match s.mutex
       case None => s.enqueuePos == Tail(s)
       case Some(p) =>
         p in s.producers && Inside(s.producers[p]) &&
         s.enqueuePos + (if s.producers[p].Published? then 1 else 0) == Tail(s)
  }

  ghost predicate Inv<T>(s: State<T>) {
    && |s.slots| >= 2
    && SlotsInv(s)
    && ConsumerInv(s)
    && MutexInv(s)
    && (forall p :: p in s.producers ==> ProducerInv(s, s.producers[p]))
  }

  lemma NoMultipleBetween(d: int, q: int, capacity: nat)
    requires 0 < d < capacity
    ensures d != q * capacity
  {
    if q <= 0 {
      assert q * capacity <= 0;
    } else {
      assert (q - 1) * capacity >= 0;
    }
  }

  /** Positions less than one capacity apart sit in different slots. */
  lemma ModDistinct(a: nat, b: nat, capacity: nat)
    requires capacity > 0 && a < b < a + capacity
    ensures Index(a, capacity) != Index(b, capacity)
  {
    if Index(a, capacity) == Index(b, capacity) {
      var qa, qb := a / capacity, b / capacity;
      assert a == qa * capacity + a % capacity && b == qb * capacity + b % capacity;
      assert b - a == (qb - qa) * capacity;
      NoMultipleBetween(b - a, qb - qa, capacity);
    }
  }

  lemma SetSlotFrame<T>(s: State<T>, p: nat, x: Slot<T>, s': State<T>)
    requires |s.slots| > 0 && s'.slots == SetSlot(s, p, x).slots
    ensures SlotAt(s', p) == x
    ensures forall k: nat :: k != p && p < k + |s.slots| && k < p + |s.slots| ==> SlotAt(s', k) == SlotAt(s, k)
  {
    forall k: nat | k != p && p < k + |s.slots| && k < p + |s.slots|
      ensures SlotAt(s', k) == SlotAt(s, k)
    {
      if k < p { ModDistinct(k, p, |s.slots|); } else { ModDistinct(p, k, |s.slots|); }
    }
  }

  lemma OneLap(k: nat, capacity: nat)
    requires capacity > 0
    ensures Index(k + capacity, capacity) == Index(k, capacity)
  {
    var q := k / capacity;
    assert k == q * capacity + k % capacity;
    assert k + capacity == (q + 1) * capacity + k % capacity;
    var r := (k + capacity) % capacity;
    var q' := (k + capacity) / capacity;
    assert k + capacity == q' * capacity + r;
    assert (q + 1 - q') * capacity == r - k % capacity;
    if r > k % capacity {
      NoMultipleBetween(r - k % capacity, q + 1 - q', capacity);
    } else if r < k % capacity {
      assert (q' - q - 1) * capacity == k % capacity - r;
      NoMultipleBetween(k % capacity - r, q' - q - 1, capacity);
    }
  }

  /** The part of the invariant that reads slots and logs does not notice other changes. */
  lemma SameSlots<T>(s: State<T>, s': State<T>)
    requires |s.slots| >= 2 && SlotsInv(s)
    requires s'.slots == s.slots && s'.enqueued == s.enqueued && s'.dequeued == s.dequeued
    requires s'.consumer.Holding? == s.consumer.Holding?
    ensures SlotsInv(s')
    ensures forall pc :: ProducerInv(s', pc) == ProducerInv(s, pc)
  {
    assert forall k: nat :: SlotAt(s', k) == SlotAt(s, k);
  }

  lemma BeginWriteStep<T>(s: State<T>, a: Action<T>, s': State<T>)
    requires Inv(s) && a.BeginWrite? && Step(s, a, s')
    ensures Inv(s')
  {
    var pos := s.producers[a.p].pos;
    SetSlotFrame(s, pos, SlotAt(s, pos).(data := a.junk), s');
  }

  lemma EndWriteStep<T>(s: State<T>, a: Action<T>, s': State<T>)
    requires Inv(s) && a.EndWrite? && Step(s, a, s')
    ensures Inv(s')
  {
    var pc := s.producers[a.p];
    SetSlotFrame(s, pc.pos, SlotAt(s, pc.pos).(data := pc.v), s');
  }

  lemma StoreSequenceStep<T>(s: State<T>, a: Action<T>, s': State<T>)
    requires Inv(s) && a.StoreSequence? && Step(s, a, s')
    ensures Inv(s')
  {
    var pos := s.producers[a.p].pos;
    SetSlotFrame(s, pos, SlotAt(s, pos).(sequence := pos + 1), s');
  }

  lemma EndReadStep<T>(s: State<T>, a: Action<T>, s': State<T>)
    requires Inv(s) && a.EndRead? && Step(s, a, s')
    ensures Inv(s')
  {
    var pos := s.consumer.pos;
    SetSlotFrame(s, pos, SlotAt(s, pos).(data := a.junk), s');
  }

  lemma ReleaseStep<T>(s: State<T>, a: Action<T>, s': State<T>)
    requires Inv(s) && a.Release? && Step(s, a, s')
    ensures Inv(s')
  {
    var pos := s.consumer.pos;
    SetSlotFrame(s, pos, SlotAt(s, pos).(sequence := pos + |s.slots|), s');
    OneLap(pos, |s.slots|);
    assert SlotAt(s', pos + |s.slots|) == SlotAt(s', pos);
  }

  /** What a producer sees in its slot tells exactly whether the ring is full at that load. */
  lemma SequenceTellsFull<T>(s: State<T>)
    requires Inv(s)
    ensures SlotAt(s, Tail(s)).sequence == Tail(s) <==> Tail(s) < Head(s) + |s.slots|
  {
    if Tail(s) == Head(s) + |s.slots| {
      OneLap(Head(s), |s.slots|);
      assert SlotAt(s, Tail(s)) == SlotAt(s, Head(s));
    }
  }

  lemma LoadSequenceStep<T>(s: State<T>, a: Action<T>, s': State<T>)
    requires Inv(s) && a.LoadSequence? && Step(s, a, s')
    ensures Inv(s')
  {
    SameSlots(s, s');
    SequenceTellsFull(s);
  }

  ghost predicate OnConsumer<T>(a: Action<T>) {
    a.LoadDequeuePos? || a.LoadSlot? || a.GiveUp? || a.BeginRead? || a.StoreDequeuePos? || a.Return?
  }

  ghost predicate SlotsUntouched<T>(s: State<T>, s': State<T>) {
    s'.slots == s.slots && s'.enqueued == s.enqueued && s'.dequeued == s.dequeued &&
    s'.consumer.Holding? == s.consumer.Holding?
  }

  lemma QuietConsumerStep<T>(s: State<T>, a: Action<T>, s': State<T>)
    requires Inv(s) && OnConsumer(a) && Step(s, a, s')
    ensures SlotsUntouched(s, s') && ConsumerInv(s') && MutexInv(s') && s'.producers == s.producers
  {
  }

  /** A producer's steps that touch no slot. */
  ghost predicate OffSlots<T>(a: Action<T>) {
    a.Call? || a.Lock? || a.LoadEnqueuePos? || a.StoreEnqueuePos? || a.Refuse? || a.Unlock?
  }

  lemma QuietProducerStep<T>(s: State<T>, a: Action<T>, s': State<T>)
    requires |s.slots| >= 2 && ConsumerInv(s) && MutexInv(s) && OffSlots(a) && Step(s, a, s')
    requires forall p :: p in s.producers ==> ProducerInv(s, s.producers[p])
    ensures SlotsUntouched(s, s') && ConsumerInv(s') && MutexInv(s')
    ensures forall p :: p in s'.producers && p != a.p ==> p in s.producers && s'.producers[p] == s.producers[p]
    ensures a.p in s'.producers ==> ProducerInv(s', s'.producers[a.p])
  {
  }

  lemma QuietInv<T>(s: State<T>, s': State<T>)
    requires Inv(s) && SlotsUntouched(s, s') && ConsumerInv(s') && MutexInv(s')
    requires forall p :: p in s'.producers ==>
               (p in s.producers && s'.producers[p] == s.producers[p]) || ProducerInv(s', s'.producers[p])
    ensures Inv(s')
  {
    SameSlots(s, s');
  }

  /** Whoever is past the mutex is its only owner, so no other producer's facts depend on the tail. */
  lemma InvStep<T>(s: State<T>, a: Action<T>, s': State<T>)
    requires Inv(s) && Step(s, a, s')
    ensures Inv(s')
  {
    if OnConsumer(a) {
      QuietConsumerStep(s, a, s');
      QuietInv(s, s');
    } else if OffSlots(a) {
      QuietProducerStep(s, a, s');
      QuietInv(s, s');
    } else {
      match a
      case BeginWrite(_, _) => BeginWriteStep(s, a, s');
      case EndWrite(_) => EndWriteStep(s, a, s');
      case StoreSequence(_) => StoreSequenceStep(s, a, s');
      case EndRead(_, _) => EndReadStep(s, a, s');
      case Release => ReleaseStep(s, a, s');
      case LoadSequence(_) => LoadSequenceStep(s, a, s');
    }
  }

  // ---- Runs ----

  ghost predicate Init<T>(s: State<T>) {
    && |s.slots| >= 2
    && (forall i :: 0 <= i < |s.slots| ==> s.slots[i].sequence == i)
    && s.enqueuePos == s.dequeuePos == 0 && s.mutex == None && s.producers == map[] && s.consumer == Outside
    && s.enqueued == s.dequeued == []
  }

  ghost predicate Run<T>(states: seq<State<T>>, acts: seq<Action<T>>) {
    && |states| == |acts| + 1
    && Init(states[0])
    && (forall i :: 0 <= i < |acts| ==> Step(states[i], acts[i], states[i + 1]))
  }

  lemma InitInv<T>(s: State<T>)
    requires Init(s)
    ensures Inv(s)
  {
    assert forall k: nat :: k < |s.slots| ==> Index(k, |s.slots|) == k;
  }

  lemma {:induction false} RunInv<T>(states: seq<State<T>>, acts: seq<Action<T>>, i: nat)
    requires Run(states, acts) && i < |states|
    ensures Inv(states[i]) && |states[i].slots| == |states[0].slots|
  {
    if i == 0 {
      InitInv(states[0]);
    } else {
      RunInv(states, acts, i - 1);
      InvStep(states[i - 1], acts[i - 1], states[i]);
    }
  }

  /** First in, first out, nothing lost or repeated, never more than Capacity values inside. */
  lemma Fifo<T>(states: seq<State<T>>, acts: seq<Action<T>>, i: nat)
    requires Run(states, acts) && i < |states|
    ensures states[i].dequeued <= states[i].enqueued
    ensures |states[i].enqueued| - |states[i].dequeued| <= |states[0].slots|
  {
    RunInv(states, acts, i);
  }

  lemma {:induction false} LogsGrow<T>(states: seq<State<T>>, acts: seq<Action<T>>, i: nat, j: nat)
    requires Run(states, acts) && i <= j < |states|
    ensures states[i].enqueued <= states[j].enqueued && states[i].dequeued <= states[j].dequeued
    decreases j - i
  {
    if i < j {
      LogsGrow(states, acts, i, j - 1);
      assert Step(states[j - 1], acts[j - 1], states[j]);
    }
  }

  /** No slot is written by two producers at once, nor moved from while it is being written. */
  lemma NoTornAccess<T>(states: seq<State<T>>, acts: seq<Action<T>>, i: nat)
    requires Run(states, acts) && i < |states|
    ensures forall p, q ::
              p in states[i].producers && q in states[i].producers &&
              Inside(states[i].producers[p]) && Inside(states[i].producers[q])
              ==> p == q
    ensures forall p :: p in states[i].producers && states[i].producers[p].Writing? && states[i].consumer.Reading? ==>
              Index(states[i].producers[p].pos, |states[0].slots|) != Index(states[i].consumer.pos, |states[0].slots|)
  {
    RunInv(states, acts, i);
    var s := states[i];
    forall p | p in s.producers && s.producers[p].Writing? && s.consumer.Reading?
      ensures Index(s.producers[p].pos, |s.slots|) != Index(s.consumer.pos, |s.slots|)
    {
      assert ProducerInv(s, s.producers[p]);
      ModDistinct(s.consumer.pos, s.producers[p].pos, |s.slots|);
    }
  }

  // ---- What a call returns ----

  /** Between steps c and i the action a happened at step j and at no other. */
  ghost predicate OnlyAt<T>(acts: seq<Action<T>>, a: Action<T>, c: nat, j: nat, i: nat)
    requires i <= |acts|
  {
    c < j < i && acts[j] == a && forall k :: c < k < i && acts[k] == a ==> k == j
  }

  ghost predicate Never<T>(acts: seq<Action<T>>, a: Action<T>, c: nat, i: nat)
    requires i <= |acts|
  {
    forall k :: c < k < i ==> acts[k] != a
  }

  ghost predicate HasRoom<T>(s: State<T>) {
    |s.enqueued| - |s.dequeued| < |s.slots|
  }

  /** Step m appended v to the values enqueued. */
  ghost predicate Appends<T>(states: seq<State<T>>, m: nat, v: T) {
    m + 1 < |states| && states[m + 1].enqueued == states[m].enqueued + [v]
  }

  /** The enqueue that p is in at state i: called at step c with a value, its sequence load at step j, its append, if
      any, at step m. */
  ghost predicate EnqueueSoFar<T>(states: seq<State<T>>, acts: seq<Action<T>>, p: nat, c: nat, j: nat, m: nat, i: nat)
    requires |states| == |acts| + 1 && i < |states| && p in states[i].producers
  {
    && c < i && acts[c].Call? && acts[c].p == p && (forall k :: c < k <= i ==> p in states[k].producers)
    && var v, load, store := acts[c].v, LoadSequence(p), StoreSequence(p);
    match states[i].producers[p]
    case Waiting(w) => w == v && Never(acts, load, c, i) && Never(acts, store, c, i)
    case Entered(w) => w == v && Never(acts, load, c, i) && Never(acts, store, c, i)
    case PosLoaded(w, _) => w == v && Never(acts, load, c, i) && Never(acts, store, c, i)
    case SequenceLoaded(w, pos, seen) =>
      w == v && OnlyAt(acts, load, c, j, i) && Never(acts, store, c, i) && (seen == pos <==> HasRoom(states[j]))
    case Writing(w, _) => w == v && OnlyAt(acts, load, c, j, i) && Never(acts, store, c, i) && HasRoom(states[j])
    case Written(w, _) => w == v && OnlyAt(acts, load, c, j, i) && Never(acts, store, c, i) && HasRoom(states[j])
    case Published(_) =>
      OnlyAt(acts, load, c, j, i) && HasRoom(states[j]) && OnlyAt(acts, store, c, m, i) && Appends(states, m, v)
    case Leaving(ok) =>
      OnlyAt(acts, load, c, j, i) && (ok <==> HasRoom(states[j])) &&
      if ok then OnlyAt(acts, store, c, m, i) && Appends(states, m, v) else Never(acts, store, c, i)
  }

  lemma LoadTellsRoom<T>(states: seq<State<T>>, acts: seq<Action<T>>, i: nat, p: nat)
    requires Run(states, acts) && i < |acts| && acts[i] == LoadSequence(p)
    ensures p in states[i + 1].producers && states[i + 1].producers[p].SequenceLoaded?
    ensures states[i + 1].producers[p].seen == states[i + 1].producers[p].pos <==> HasRoom(states[i])
  {
    assert Step(states[i], acts[i], states[i + 1]);
    RunInv(states, acts, i);
    assert ProducerInv(states[i], states[i].producers[p]);
    SequenceTellsFull(states[i]);
  }

  lemma NeverMore<T>(acts: seq<Action<T>>, a: Action<T>, c: nat, j: nat, i: nat)
    requires c < i < |acts|
    ensures Never(acts, a, c, i) && acts[i] != a ==> Never(acts, a, c, i + 1)
    ensures Never(acts, a, c, i) && acts[i] == a ==> OnlyAt(acts, a, c, i, i + 1)
    ensures OnlyAt(acts, a, c, j, i) && acts[i] != a ==> OnlyAt(acts, a, c, j, i + 1)
  {
  }

  lemma EnqueueOwnStep<T>(states: seq<State<T>>, acts: seq<Action<T>>, p: nat, c: nat, j: nat, m: nat, i: nat)
    requires Run(states, acts) && i < |acts| && p in states[i].producers && EnqueueSoFar(states, acts, p, c, j, m, i)
    requires p in states[i + 1].producers && states[i + 1].producers[p] != states[i].producers[p]
    ensures var load, store := acts[i] == LoadSequence(p), acts[i] == StoreSequence(p);
            EnqueueSoFar(states, acts, p, c, if load then i else j, if store then i else m, i + 1)
  {
    assert Step(states[i], acts[i], states[i + 1]);
    NeverMore(acts, LoadSequence(p), c, j, i);
    NeverMore(acts, StoreSequence(p), c, m, i);
    if acts[i] == LoadSequence(p) {
      LoadTellsRoom(states, acts, i, p);
    }
  }

  lemma EnqueueOtherStep<T>(states: seq<State<T>>, acts: seq<Action<T>>, p: nat, c: nat, j: nat, m: nat, i: nat)
    requires Run(states, acts) && i < |acts| && p in states[i].producers && EnqueueSoFar(states, acts, p, c, j, m, i)
    requires p in states[i + 1].producers && states[i + 1].producers[p] == states[i].producers[p]
    ensures EnqueueSoFar(states, acts, p, c, j, m, i + 1)
  {
    assert Step(states[i], acts[i], states[i + 1]);
    NeverMore(acts, LoadSequence(p), c, j, i);
    NeverMore(acts, StoreSequence(p), c, m, i);
  }

  lemma {:induction false} EnqueueHistory<T>(states: seq<State<T>>, acts: seq<Action<T>>, i: nat, p: nat)
      returns (c: nat, j: nat, m: nat)
    requires Run(states, acts) && i < |states| && p in states[i].producers
    ensures EnqueueSoFar(states, acts, p, c, j, m, i)
  {
    assert i > 0;
    assert Step(states[i - 1], acts[i - 1], states[i]);
    if p !in states[i - 1].producers {
      c, j, m := i - 1, i, i;
    } else {
      c, j, m := EnqueueHistory(states, acts, i - 1, p);
      if states[i].producers[p] == states[i - 1].producers[p] {
        EnqueueOtherStep(states, acts, p, c, j, m, i - 1);
      } else {
        EnqueueOwnStep(states, acts, p, c, j, m, i - 1);
        j := if acts[i - 1] == LoadSequence(p) then i - 1 else j;
        m := if acts[i - 1] == StoreSequence(p) then i - 1 else m;
      }
    }
  }

  /** What enqueue returns: true exactly when the call appended its value, once, and exactly when a slot was free at its
      one sequence load; false exactly when all Capacity slots were unreleased then. */
  lemma EnqueueOutcome<T>(states: seq<State<T>>, acts: seq<Action<T>>, i: nat, p: nat) returns (c: nat, j: nat, m: nat)
    requires Run(states, acts) && i < |acts| && acts[i] == Unlock(p)
    ensures p in states[i].producers && states[i].producers[p].Leaving?
    ensures c < i && acts[c].Call? && acts[c].p == p && OnlyAt(acts, LoadSequence(p), c, j, i)
    ensures var ok := states[i].producers[p].ok;
            && (ok <==> !Never(acts, StoreSequence(p), c, i))
            && (ok ==> OnlyAt(acts, StoreSequence(p), c, m, i) && Appends(states, m, acts[c].v))
            && (!ok <==> |states[j].enqueued| - |states[j].dequeued| == |states[0].slots|)
  {
    assert Step(states[i], acts[i], states[i + 1]);
    c, j, m := EnqueueHistory(states, acts, i, p);
    RunInv(states, acts, j);
  }

  /** The dequeue that the consumer is in at state i: begun at step c, its sequence load at step j, its release, if any,
      at step m. */
  ghost predicate DequeueSoFar<T>(states: seq<State<T>>, acts: seq<Action<T>>, c: nat, j: nat, m: nat, i: nat)
    requires |states| == |acts| + 1 && i < |states|
  {
    && c < i && acts[c] == LoadDequeuePos && (forall k :: c < k <= i ==> !states[k].consumer.Outside?)
    && match states[i].consumer
       case Outside => false
       case AtPos(_) => Never(acts, LoadSlot, c, i) && Never(acts, Release, c, i)
       case Seen(pos, seen) =>
         OnlyAt(acts, LoadSlot, c, j, i) && Never(acts, Release, c, i) &&
         (seen > pos <==> Head(states[j]) < Tail(states[j]))
       case Reading(_) =>
         OnlyAt(acts, LoadSlot, c, j, i) && Never(acts, Release, c, i) && Head(states[j]) < Tail(states[j])
       case Holding(_, _) =>
         OnlyAt(acts, LoadSlot, c, j, i) && Never(acts, Release, c, i) && Head(states[j]) < Tail(states[j])
       case Released(_, item) =>
         OnlyAt(acts, LoadSlot, c, j, i) && OnlyAt(acts, Release, c, m, i) && Head(states[j]) < Tail(states[j]) &&
         HandsOut(states, m, item)
       case Returning(got) =>
         OnlyAt(acts, LoadSlot, c, j, i) && (got.Some? <==> Head(states[j]) < Tail(states[j])) &&
         if got.Some? then OnlyAt(acts, Release, c, m, i) && HandsOut(states, m, got.value)
         else Never(acts, Release, c, i)
  }

  /** Step m added x to the values dequeued. */
  ghost predicate HandsOut<T>(states: seq<State<T>>, m: nat, x: T) {
    m + 1 < |states| && states[m + 1].dequeued == states[m].dequeued + [x]
  }

  lemma LoadTellsPublished<T>(states: seq<State<T>>, acts: seq<Action<T>>, i: nat)
    requires Run(states, acts) && i < |acts| && acts[i] == LoadSlot
    ensures states[i + 1].consumer.Seen?
    ensures states[i + 1].consumer.seen > states[i + 1].consumer.pos <==> Head(states[i]) < Tail(states[i])
  {
    assert Step(states[i], acts[i], states[i + 1]);
    RunInv(states, acts, i);
    assert SlotAt(states[i], Head(states[i])).sequence >= 0;
  }

  lemma DequeueStep<T>(states: seq<State<T>>, acts: seq<Action<T>>, c: nat, j: nat, m: nat, i: nat)
    requires Run(states, acts) && i < |acts| && DequeueSoFar(states, acts, c, j, m, i)
    requires !states[i + 1].consumer.Outside?
    ensures DequeueSoFar(states, acts, c, if acts[i] == LoadSlot then i else j,
                         if acts[i] == Release then i else m, i + 1)
  {
    assert Step(states[i], acts[i], states[i + 1]);
    NeverMore(acts, LoadSlot, c, j, i);
    NeverMore(acts, Release, c, m, i);
    if acts[i] == LoadSlot {
      LoadTellsPublished(states, acts, i);
    }
  }

  lemma DequeueBegins<T>(states: seq<State<T>>, acts: seq<Action<T>>, i: nat)
    requires Run(states, acts) && i < |acts| && states[i].consumer.Outside? && !states[i + 1].consumer.Outside?
    ensures DequeueSoFar(states, acts, i, i, i, i + 1)
  {
    assert Step(states[i], acts[i], states[i + 1]);
  }

  lemma {:induction false} DequeueHistory<T>(states: seq<State<T>>, acts: seq<Action<T>>, i: nat)
      returns (c: nat, j: nat, m: nat)
    requires Run(states, acts) && i < |states| && !states[i].consumer.Outside?
    ensures DequeueSoFar(states, acts, c, j, m, i)
  {
    assert i > 0;
    if states[i - 1].consumer.Outside? {
      DequeueBegins(states, acts, i - 1);
      c, j, m := i - 1, i - 1, i - 1;
    } else {
      c, j, m := DequeueHistory(states, acts, i - 1);
      DequeueStep(states, acts, c, j, m, i - 1);
      j := if acts[i - 1] == LoadSlot then i - 1 else j;
      m := if acts[i - 1] == Release then i - 1 else m;
    }
  }

  /** What dequeue returns: a value exactly when it released a slot, once, and that slot's value is the one added to the
      values dequeued; nothing exactly when nothing published was left at its one sequence load. */
  lemma DequeueOutcome<T>(states: seq<State<T>>, acts: seq<Action<T>>, i: nat) returns (c: nat, j: nat, m: nat)
    requires Run(states, acts) && i < |acts| && acts[i] == Return
    ensures states[i].consumer.Returning? && c < i && acts[c] == LoadDequeuePos && OnlyAt(acts, LoadSlot, c, j, i)
    ensures var got := states[i].consumer.got;
            && (got.Some? <==> !Never(acts, Release, c, i))
            && (got.Some? ==> OnlyAt(acts, Release, c, m, i) && HandsOut(states, m, got.value))
            && (got.None? <==> |states[j].enqueued| == |states[j].dequeued|)
  {
    assert Step(states[i], acts[i], states[i + 1]);
    c, j, m := DequeueHistory(states, acts, i);
    RunInv(states, acts, j);
  }

  // ---- Progress ----

  /** At most so many steps of its own a call still has to take. */
  function DequeueStepsLeft<T>(c: Consumer<T>): nat {
    match c
    case Outside => 0
    case AtPos(_) => 6
    case Seen(_, _) => 5
    case Reading(_) => 4
    case Holding(_, _) => 3
    case Released(_, _) => 2
    case Returning(_) => 1
  }

  function EnqueueStepsLeft<T>(pc: Producer<T>): nat {
    match pc
    case Waiting(_) => 8
    case Entered(_) => 7
    case PosLoaded(_, _) => 6
    case SequenceLoaded(_, _, _) => 5
    case Writing(_, _) => 4
    case Written(_, _) => 3
    case Published(_) => 2
    case Leaving(_) => 1
  }

  predicate ByConsumer<T>(a: Action<T>) {
    a.LoadDequeuePos? || a.LoadSlot? || a.GiveUp? || a.BeginRead? || a.EndRead? || a.Release? || a.StoreDequeuePos? ||
    a.Return?
  }

  predicate ByProducer<T>(a: Action<T>, p: nat) {
    !ByConsumer(a) && a.p == p
  }

  /** Inside a dequeue every step of the consumer's own brings it nearer to the end, and nobody else moves it. */
  lemma DequeueAdvances<T>(s: State<T>, a: Action<T>, s': State<T>)
    requires Step(s, a, s')
    ensures !ByConsumer(a) ==> s'.consumer == s.consumer
    ensures ByConsumer(a) && !s.consumer.Outside? ==> DequeueStepsLeft(s'.consumer) < DequeueStepsLeft(s.consumer)
  {
  }

  /** And it always can take one: a dequeue never waits. */
  lemma DequeueCanStep<T>(s: State<T>) returns (a: Action<T>, s': State<T>)
    requires Inv(s) && !s.consumer.Outside?
    ensures ByConsumer(a) && Step(s, a, s')
  {
    var c := s.consumer;
    match c
    case AtPos(pos) =>
      a, s' := LoadSlot, s.(consumer := Seen(pos, SlotAt(s, pos).sequence));
    case Seen(pos, seen) =>
      a := if seen <= pos then GiveUp else BeginRead;
      s' := s.(consumer := if seen <= pos then Returning(None) else Reading(pos));
    case Reading(pos) =>
      var item := SlotAt(s, pos).data;
      a, s' := EndRead(item, item), SetSlot(s, pos, SlotAt(s, pos).(data := item)).(consumer := Holding(pos, item));
    case Holding(pos, item) =>
      a := Release;
      s' := SetSlot(s, pos, SlotAt(s, pos).(sequence := pos + |s.slots|))
      .(consumer := Released(pos, item), dequeued := s.dequeued + [item]);
    case Released(pos, item) =>
      a, s' := StoreDequeuePos, s.(dequeuePos := pos + 1, consumer := Returning(Some(item)));
    case Returning(_) =>
      a, s' := Return, s.(consumer := Outside);
  }

  lemma EnqueueAdvances<T>(s: State<T>, a: Action<T>, s': State<T>, p: nat)
    requires Step(s, a, s') && p in s.producers
    ensures !ByProducer(a, p) ==> p in s'.producers && s'.producers[p] == s.producers[p]
    ensures ByProducer(a, p) ==>
              if p in s'.producers then EnqueueStepsLeft(s'.producers[p]) < EnqueueStepsLeft(s.producers[p])
              else a == Unlock(p)
  {
  }

  /** An enqueue waits only for the mutex: the producer that has it can always take its next step, and when nobody has
      it each that waits can take it. */
  lemma EnqueueCanStep<T>(s: State<T>, p: nat) returns (a: Action<T>, s': State<T>)
    requires Inv(s) && p in s.producers && (s.mutex == None || s.mutex == Some(p))
    ensures ByProducer(a, p) && Step(s, a, s')
  {
    var pc := s.producers[p];
    match pc
    case Waiting(v) =>
      a, s' := Lock(p), Move(s, p, Entered(v)).(mutex := Some(p));
    case Entered(v) =>
      a, s' := LoadEnqueuePos(p), Move(s, p, PosLoaded(v, s.enqueuePos));
    case PosLoaded(v, pos) =>
      a, s' := LoadSequence(p), Move(s, p, SequenceLoaded(v, pos, SlotAt(s, pos).sequence));
    case SequenceLoaded(v, pos, seen) =>
      a := if seen == pos then BeginWrite(p, v) else Refuse(p);
      s' := if seen == pos then Move(SetSlot(s, pos, SlotAt(s, pos).(data := v)), p, Writing(v, pos))
            else Move(s, p, Leaving(false));
    case Writing(v, pos) =>
      a, s' := EndWrite(p), Move(SetSlot(s, pos, SlotAt(s, pos).(data := v)), p, Written(v, pos));
    case Written(v, pos) =>
      a := StoreSequence(p);
      s' := Move(SetSlot(s, pos, SlotAt(s, pos).(sequence := pos + 1)), p, Published(pos))
      .(enqueued := s.enqueued + [v]);
    case Published(pos) =>
      a, s' := StoreEnqueuePos(p), Move(s, p, Leaving(true)).(enqueuePos := pos + 1);
    case Leaving(_) =>
      a, s' := Unlock(p), s.(producers := s.producers - {p}, mutex := None);
  }

  function ConsumerSteps<T>(acts: seq<Action<T>>, c: nat, i: nat): nat
    requires c <= i <= |acts|
  {
    if c == i then 0 else ConsumerSteps(acts, c, i - 1) + if ByConsumer(acts[i - 1]) then 1 else 0
  }

  /** In every run a dequeue takes at most seven steps of its own, whatever the producers do. */
  lemma {:induction false} DequeueIsWaitFree<T>(states: seq<State<T>>, acts: seq<Action<T>>, c: nat, i: nat)
    requires Run(states, acts) && c < i <= |acts| && acts[c] == LoadDequeuePos
    requires forall k :: c < k < i ==> !states[k].consumer.Outside?
    ensures ConsumerSteps(acts, c, i) + DequeueStepsLeft(states[i].consumer) <= 7
  {
    assert Step(states[i - 1], acts[i - 1], states[i]);
    if c < i - 1 {
      DequeueIsWaitFree(states, acts, c, i - 1);
      DequeueAdvances(states[i - 1], acts[i - 1], states[i]);
    } else {
      assert ConsumerSteps(acts, c, c) == 0;
    }
  }

  // ---- size() ----

  function Size(enq: nat, deq: nat): nat { if enq >= deq then enq - deq else 0 }

  /** size() loads m_enqueuePos in state i and m_dequeuePos in state j. Its result exceeds Capacity,
      and then by one, exactly when the second load falls between the two stores that end a dequeue
      and the first load already counted the value put into the slot just released. */
  lemma SizeBound<T>(states: seq<State<T>>, acts: seq<Action<T>>, i: nat, j: nat)
    requires Run(states, acts) && i <= j < |states|
    ensures Size(states[i].enqueuePos, states[j].dequeuePos) <= |states[0].slots| + 1
    ensures Size(states[i].enqueuePos, states[j].dequeuePos) > |states[0].slots| <==>
              states[j].consumer.Released? && states[i].enqueuePos == |states[j].dequeued| + |states[0].slots|
    ensures Size(states[i].enqueuePos, states[j].dequeuePos) == 0 <==> states[i].enqueuePos <= states[j].dequeuePos
  {
    RunInv(states, acts, i);
    RunInv(states, acts, j);
    LogsGrow(states, acts, i, j);
  }

  // ---- Runs that exist ----

  ghost predicate Reachable<T(!new)>(s: State<T>, capacity: nat) {
    exists states: seq<State<T>>, acts: seq<Action<T>> ::
      Run(states, acts) && states[|acts|] == s && |states[0].slots| == capacity
  }

  lemma ReachableStep<T(!new)>(s: State<T>, a: Action<T>, s': State<T>, capacity: nat)
    requires Reachable(s, capacity) && Step(s, a, s')
    ensures Reachable(s', capacity) && Inv(s') && |s'.slots| == capacity
  {
    var states: seq<State<T>>, acts: seq<Action<T>> :|
      Run(states, acts) && states[|acts|] == s && |states[0].slots| == capacity;
    var states', acts' := states + [s'], acts + [a];
    assert Run(states', acts') && states'[|acts'|] == s';
    RunInv(states', acts', |acts'|);
  }

  /** A producer running alone completes its enqueue whenever a slot is free, whatever the consumer is doing. */
  lemma EnqueueAlone<T(!new)>(s: State<T>, p: nat, v: T, capacity: nat) returns (s': State<T>)
    requires Reachable(s, capacity) && Inv(s) && |s.slots| == capacity
    requires s.mutex == None && s.producers == map[] && |s.enqueued| < |s.dequeued| + capacity
    ensures Reachable(s', capacity) && Inv(s') && |s'.slots| == capacity
    ensures s'.mutex == None && s'.producers == map[] && s'.enqueued == s.enqueued + [v]
    ensures s'.consumer == s.consumer && s'.dequeued == s.dequeued && s'.dequeuePos == s.dequeuePos
  {
    var s1 := Move(s, p, Waiting(v));
    ReachableStep(s, Call(p, v), s1, capacity);
    var s2 := Move(s1, p, Entered(v)).(mutex := Some(p));
    ReachableStep(s1, Lock(p), s2, capacity);
    var s3 := Move(s2, p, PosLoaded(v, s.enqueuePos));
    ReachableStep(s2, LoadEnqueuePos(p), s3, capacity);
    var s4 := Move(s3, p, SequenceLoaded(v, s.enqueuePos, SlotAt(s3, s.enqueuePos).sequence));
    ReachableStep(s3, LoadSequence(p), s4, capacity);
    SequenceTellsFull(s3);
    s' := FinishEnqueue(s4, p, capacity);
  }

  lemma FinishEnqueue<T(!new)>(s: State<T>, p: nat, capacity: nat) returns (s': State<T>)
    requires Reachable(s, capacity) && Inv(s) && |s.slots| == capacity
    requires s.mutex == Some(p) && s.producers.Keys == {p} && s.producers[p].SequenceLoaded?
    requires s.producers[p].pos == s.producers[p].seen
    ensures Reachable(s', capacity) && Inv(s') && |s'.slots| == capacity
    ensures s'.mutex == None && s'.producers == map[] && s'.enqueued == s.enqueued + [s.producers[p].v]
    ensures s'.consumer == s.consumer && s'.dequeued == s.dequeued && s'.dequeuePos == s.dequeuePos
  {
    var v, pos := s.producers[p].v, s.producers[p].pos;
    var s1 := Move(SetSlot(s, pos, SlotAt(s, pos).(data := v)), p, Writing(v, pos));
    ReachableStep(s, BeginWrite(p, v), s1, capacity);
    var s2 := Move(SetSlot(s1, pos, SlotAt(s1, pos).(data := v)), p, Written(v, pos));
    ReachableStep(s1, EndWrite(p), s2, capacity);
    s' := PublishAndLeave(s2, p, capacity);
  }

  lemma PublishAndLeave<T(!new)>(s: State<T>, p: nat, capacity: nat) returns (s': State<T>)
    requires Reachable(s, capacity) && Inv(s) && |s.slots| == capacity
    requires s.mutex == Some(p) && s.producers.Keys == {p} && s.producers[p].Written?
    ensures Reachable(s', capacity) && Inv(s') && |s'.slots| == capacity
    ensures s'.mutex == None && s'.producers == map[] && s'.enqueued == s.enqueued + [s.producers[p].v]
    ensures s'.consumer == s.consumer && s'.dequeued == s.dequeued && s'.dequeuePos == s.dequeuePos
  {
    var v, pos := s.producers[p].v, s.producers[p].pos;
    var s1 := Move(SetSlot(s, pos, SlotAt(s, pos).(sequence := pos + 1)), p,
        Published(pos)).(enqueued := s.enqueued + [v]);
    ReachableStep(s, StoreSequence(p), s1, capacity);
    var s2 := Move(s1, p, Leaving(true)).(enqueuePos := pos + 1);
    ReachableStep(s1, StoreEnqueuePos(p), s2, capacity);
    s' := s2.(producers := s2.producers - {p}, mutex := None);
    ReachableStep(s2, Unlock(p), s', capacity);
  }

  lemma {:induction false} FillAlone<T(!new)>(n: nat, v: T, capacity: nat) returns (s: State<T>)
    requires capacity >= 2 && n <= capacity
    ensures Reachable(s, capacity) && Inv(s) && |s.slots| == capacity
    ensures s.mutex == None && s.producers == map[] && |s.enqueued| == n && s.dequeued == []
    ensures s.consumer == Outside && s.dequeuePos == 0
  {
    if n == 0 {
      s := State(seq(capacity, i requires 0 <= i => Slot(v, i)), 0, 0, None, map[], Outside, [], []);
      var acts: seq<Action<T>> := [];
      assert Run([s], acts) && [s][|acts|] == s;
      InitInv(s);
    } else {
      var t := FillAlone(n - 1, v, capacity);
      s := EnqueueAlone(t, 0, v, capacity);
    }
  }

  /** For every capacity the bound Capacity on size() fails in some run: fill the ring, let the consumer
      release one slot but not yet store m_dequeuePos, and enqueue once more. */
  lemma SizeOverruns<T(!new)>(v: T, capacity: nat) returns (s: State<T>)
    requires capacity >= 2
    ensures Reachable(s, capacity) && Size(s.enqueuePos, s.dequeuePos) == capacity + 1
  {
    var s0 := FillAlone(capacity, v, capacity);
    var s1 := s0.(consumer := AtPos(0));
    ReachableStep(s0, LoadDequeuePos, s1, capacity);
    var s2 := s1.(consumer := Seen(0, SlotAt(s1, 0).sequence));
    ReachableStep(s1, LoadSlot, s2, capacity);
    assert SlotAt(s1, 0).sequence == 1;
    var s3 := s2.(consumer := Reading(0));
    ReachableStep(s2, BeginRead, s3, capacity);
    var s4 := SetSlot(s3, 0, SlotAt(s3, 0).(data := v)).(consumer := Holding(0, SlotAt(s3, 0).data));
    ReachableStep(s3, EndRead(v, SlotAt(s3, 0).data), s4, capacity);
    var s5 := SetSlot(s4, 0, SlotAt(s4, 0).(sequence := capacity)).(
        consumer := Released(0, s4.consumer.item), dequeued := [s4.consumer.item]);
    ReachableStep(s4, Release, s5, capacity);
    s := EnqueueAlone(s5, 0, v, capacity);
  }
}

/** The class run without interference: its arrays and counters are the protocol's shared state with
    nobody inside, so the protocol's invariant is the class invariant. */
module RingBuffer {
  import opened Wrappers
  import P = RingProtocol

  class LockFreeRingBuffer<T(0)> {
    const capacity: nat
    const data: array<T>
    const sequence: array<nat>
    var enqueuePos: nat
    var dequeuePos: nat
    ghost var enqueued: seq<T>
    ghost var dequeued: seq<T>

    ghost predicate Shape()
      reads this
    {
      capacity >= 2 && data.Length == sequence.Length == capacity && data as object != sequence
    }

    ghost function Shared(): P.State<T>
      requires Shape()
      reads this, data, sequence
    {
      P.State(seq(capacity, i requires 0 <= i < capacity reads this, data, sequence
                              requires Shape() => P.Slot(data[i], sequence[i])),
              enqueuePos, dequeuePos, None, map[], P.Outside, enqueued, dequeued)
    }

    ghost predicate Valid()
      reads this, data, sequence
    {
      Shape() && P.Inv(Shared())
    }

    /** The values accepted and not yet handed out, oldest first. */
    ghost function Contents(): seq<T>
      requires Valid()
      reads this, data, sequence
    {
      enqueued[|dequeued|..]
    }

    constructor (capacity: nat)
      requires capacity >= 2
      ensures Valid() && fresh(data) && fresh(sequence)
      ensures this.capacity == capacity && Contents() == []
    {
      this.capacity := capacity;
      data := new T[capacity];
      sequence := new nat[capacity];
      enqueuePos, dequeuePos, enqueued, dequeued := 0, 0, [], [];
      new;
      for i := 0 to capacity
        invariant forall k :: 0 <= k < i ==> sequence[k] == k
        invariant Shape() && enqueuePos == dequeuePos == 0 && enqueued == dequeued == []
      {
        sequence[i] := i;
      }
      P.InitInv(Shared());
    }

    method Enqueue(v: T) returns (ok: bool)
      requires Valid()
      modifies this`enqueuePos, this`enqueued, data, sequence
      ensures Valid()
      ensures ok <==> |old(Contents())| < capacity
      ensures Contents() == if ok then old(Contents()) + [v] else old(Contents())
    {
      ghost var s := Shared();
      P.SequenceTellsFull(s);
      var pos := enqueuePos;
      var slot := P.Index(pos, capacity);
      assert P.SlotAt(s, pos) == P.Slot(data[slot], sequence[slot]);
      if sequence[slot] == pos {
        data[slot] := v;
        sequence[slot] := pos + 1;
        enqueuePos := pos + 1;
        enqueued := enqueued + [v];
        assert Shared().slots == P.SetSlot(s, pos, P.Slot(v, pos + 1)).slots;
        P.SetSlotFrame(s, pos, P.Slot(v, pos + 1), Shared());
        return true;
      }
      return false;
    }

    method Dequeue() returns (item: Option<T>)
      requires Valid()
      modifies this`dequeuePos, this`dequeued, sequence
      ensures Valid()
      ensures old(Contents()) == [] ==> item == None && Contents() == []
      ensures old(Contents()) != [] ==> item == Some(old(Contents())[0]) && Contents() == old(Contents())[1..]
    {
      ghost var s := Shared();
      var pos := dequeuePos;
      var slot := P.Index(pos, capacity);
      assert P.SlotAt(s, pos) == P.Slot(data[slot], sequence[slot]);
      if sequence[slot] > pos {
        item := Some(data[slot]);
        sequence[slot] := pos + capacity;
        dequeuePos := pos + 1;
        dequeued := dequeued + [item.value];
        ghost var x := P.Slot(data[slot], pos + capacity);
        assert Shared().slots == P.SetSlot(s, pos, x).slots;
        P.SetSlotFrame(s, pos, x, Shared());
        P.OneLap(pos, capacity);
        assert P.SlotAt(Shared(), pos + capacity) == x;
      } else {
        item := None;
      }
    }

    method DequeueBatch(maxCount: nat) returns (output: seq<T>)
      requires Valid()
      modifies this`dequeuePos, this`dequeued, sequence
      ensures Valid()
      ensures |output| == if maxCount < |old(Contents())| then maxCount else |old(Contents())|
      ensures output + Contents() == old(Contents())
    {
      output := [];
      ghost var all := Contents();
      while |output| < maxCount
        invariant Valid() && |output| <= maxCount
        invariant output + Contents() == all
      {
        ghost var before := Contents();
        var item := Dequeue();
        if item == None {
          assert Contents() == [];
          break;
        }
        ghost var after := Contents();
        assert before == [item.value] + after;
        assert output + before == output + [item.value] + after;
        output := output + [item.value];
      }
    }
  }
}
