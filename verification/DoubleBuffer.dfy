/** The snapshot buffer of DoubleBuffer.h: one writer/committer, any number of readers, and a
    five-slot pool that the shared_ptr deleter refills.

    Each atomic load, compare-exchange and shared_ptr operation is one step. A weak
    compare-exchange may fail spuriously (`spurious` in the action). A shared_ptr is a handle; the
    published pointer and every handle count as references, and dropping the last one starts a
    deleter, which runs on some thread until the map is back in the pool or freed. */
module DoubleBuffer {
  import opened Wrappers

  const POOL_SIZE := 5

  datatype Snapshot = Snapshot(
    tagId: nat, currentValue: real, setPoint: real, outputValue: real,
    alarmState: nat, quality: nat, timestamp: int)

  type SnapshotMap = map<nat, Snapshot>

  /** What a shared_ptr points to: the map made by the constructor, or one that goes back to the pool. */
  datatype Ref = Initial | Managed(ptr: nat)

  datatype Writer =
    | Idle
    | Scanning(i: nat)
    | SlotLoaded(i: nat, expected: nat)
    | Owning(ptr: nat)
    | Filled(ptr: nat)
    | Swapped                            // published, m_writeBuffer not yet cleared

  datatype Deleter = Clearing(ptr: nat) | Returning(ptr: nat, i: nat)

  datatype State = State(
    heap: map<nat, SnapshotMap>,         // the maps that are allocated and not freed
    pool: seq<Option<nat>>,
    writeBuffer: SnapshotMap,
    writer: Writer,
    published: Ref,
    handles: map<nat, Ref>,
    deleters: map<nat, Deleter>,
    commits: seq<SnapshotMap>)           // content of every snapshot when it was published

  datatype Action =
    | Write(tagId: nat, snapshot: Snapshot)
    | BeginCommit
    | LoadPoolSlot
    | TakePoolSlot(spurious: bool)
    | Allocate(ptr: nat)
    | MoveIn(leftover: SnapshotMap)      // what the moved-from write buffer happens to hold
    | Publish(replaced: nat)             // the replaced shared_ptr becomes this handle until dropped
    | ClearWriteBuffer
    | Read(h: nat)
    | Copy(h: nat, copy: nat)
    | Drop(h: nat, deleter: nat)
    | ClearMap(d: nat)
    | PutPoolSlot(d: nat, spurious: bool)
    | Free(d: nat)

  predicate Holds(s: State, h: nat, ptr: nat) {
    h in s.handles && s.handles[h] == Managed(ptr)
  }

  ghost predicate Referenced(s: State, ptr: nat) {
    s.published == Managed(ptr) || exists h :: Holds(s, h, ptr)
  }

  ghost predicate Step(s: State, a: Action, s': State) {
    match a
    case Write(tagId, snapshot) =>
      s.writer.Idle? && s' == s.(writeBuffer := s.writeBuffer[tagId := snapshot])
    case BeginCommit =>
      s.writer.Idle? && s' == s.(writer := Scanning(0))
    case LoadPoolSlot =>
      s.writer.Scanning? && s.writer.i < |s.pool| &&
      var i := s.writer.i;
      s' == s.(writer := if s.pool[i] == None then Scanning(i + 1) else SlotLoaded(i, s.pool[i].value))
    case TakePoolSlot(spurious) =>
      s.writer.SlotLoaded? && s.writer.i < |s.pool| &&
      var i, expected := s.writer.i, s.writer.expected;
      s' == if s.pool[i] == Some(expected) && !spurious
            then s.(pool := s.pool[i := None], writer := Owning(expected))
            else s.(writer := Scanning(i + 1))
    case Allocate(ptr) =>
      s.writer.Scanning? && s.writer.i >= |s.pool| && ptr !in s.heap &&
      s' == s.(heap := s.heap[ptr := map[]], writer := Owning(ptr))
    case MoveIn(leftover) =>
      s.writer.Owning? &&
      s' == s.(heap := s.heap[s.writer.ptr := s.writeBuffer], writeBuffer := leftover, writer := Filled(s.writer.ptr))
    case Publish(replaced) =>
      s.writer.Filled? && s.writer.ptr in s.heap && replaced !in s.handles &&
      s' == s.(handles := s.handles[replaced := s.published], published := Managed(s.writer.ptr), writer := Swapped,
               commits := s.commits + [s.heap[s.writer.ptr]])
    case ClearWriteBuffer =>
      s.writer.Swapped? && s' == s.(writeBuffer := map[], writer := Idle)
    case Read(h) =>
      h !in s.handles && s' == s.(handles := s.handles[h := s.published])
    case Copy(h, copy) =>
      h in s.handles && copy !in s.handles && s' == s.(handles := s.handles[copy := s.handles[h]])
    case Drop(h, deleter) =>
      h in s.handles && deleter !in s.deleters &&
      var dropped := s.(handles := s.handles - {h});
      s' == if s.handles[h].Managed? && !Referenced(dropped, s.handles[h].ptr)
            then dropped.(deleters := s.deleters[deleter := Clearing(s.handles[h].ptr)])
            else dropped
    case ClearMap(d) =>
      d in s.deleters && s.deleters[d].Clearing? &&
      var ptr := s.deleters[d].ptr;
      s' == s.(heap := s.heap[ptr := map[]], deleters := s.deleters[d := Returning(ptr, 0)])
    case PutPoolSlot(d, spurious) =>
      d in s.deleters && s.deleters[d].Returning? && s.deleters[d].i < |s.pool| &&
      var ptr, i := s.deleters[d].ptr, s.deleters[d].i;
      s' == if s.pool[i] == None && !spurious
            then s.(pool := s.pool[i := Some(ptr)], deleters := s.deleters - {d})
            else s.(deleters := s.deleters[d := Returning(ptr, i + 1)])
    case Free(d) =>
      d in s.deleters && s.deleters[d].Returning? && s.deleters[d].i >= |s.pool| &&
      s' == s.(heap := s.heap - {s.deleters[d].ptr}, deleters := s.deleters - {d})
  }

  // ---- Every managed map is in exactly one place ----

  datatype Place = InPool(i: nat) | InUse | WithWriter | WithDeleter(d: nat)

  ghost predicate At(s: State, ptr: nat, place: Place) {
    match place
    case InPool(i) => i < |s.pool| && s.pool[i] == Some(ptr)
    case InUse => Referenced(s, ptr)
    case WithWriter => (s.writer.Owning? || s.writer.Filled?) && s.writer.ptr == ptr
    case WithDeleter(d) => d in s.deleters && s.deleters[d].ptr == ptr
  }

  ghost predicate OnePlaceEach(s: State) {
    && (forall ptr, place :: At(s, ptr, place) ==> ptr in s.heap)
    && (forall ptr, p, q :: At(s, ptr, p) && At(s, ptr, q) ==> p == q)
    && (forall ptr :: ptr in s.heap ==> exists place :: At(s, ptr, place))
  }

  ghost predicate LastCommitPublished(s: State) {
    && (s.published.Initial? <==> s.commits == [])
    && (s.published.Managed? ==> s.published.ptr in s.heap && s.heap[s.published.ptr] == s.commits[|s.commits| - 1])
  }

  ghost predicate Inv(s: State) {
    |s.pool| == POOL_SIZE && OnePlaceEach(s) && LastCommitPublished(s)
  }

  /** Moving one map from one place to another, or none at all, keeps every map in one place. */
  lemma Relocate(s: State, s': State, ptr: nat, to: Place)
    requires OnePlaceEach(s) && ptr in s.heap && s'.heap.Keys == s.heap.Keys
    requires forall q, place :: At(s', q, place) <==> if q == ptr then place == to else At(s, q, place)
    ensures OnePlaceEach(s')
  {
    assert At(s', ptr, to);
    forall q | q in s'.heap
      ensures exists place :: At(s', q, place)
    {
      var place :| At(s, q, place);
      if q != ptr {
        assert At(s', q, place);
      }
    }
  }

  lemma Stay(s: State, s': State)
    requires OnePlaceEach(s) && s'.heap.Keys == s.heap.Keys
    requires forall q, place :: At(s', q, place) <==> At(s, q, place)
    ensures OnePlaceEach(s')
  {
    forall q | q in s'.heap
      ensures exists place :: At(s', q, place)
    {
      var place :| At(s, q, place);
      assert At(s', q, place);
    }
  }

  /** What it means, field by field, that a map is here and nowhere else. */
  lemma Exclusive(s: State, ptr: nat, here: Place)
    requires OnePlaceEach(s) && At(s, ptr, here)
    ensures ptr in s.heap
    ensures Referenced(s, ptr) ==> here == InUse
    ensures (s.writer.Owning? || s.writer.Filled?) && s.writer.ptr == ptr ==> here == WithWriter
    ensures forall i :: 0 <= i < |s.pool| && s.pool[i] == Some(ptr) ==> here == InPool(i)
    ensures forall d :: d in s.deleters && s.deleters[d].ptr == ptr ==> here == WithDeleter(d)
  {
    assert At(s, ptr, InUse) ==> here == InUse;
    assert At(s, ptr, WithWriter) ==> here == WithWriter;
    forall i | 0 <= i < |s.pool| && s.pool[i] == Some(ptr)
      ensures here == InPool(i)
    {
      assert At(s, ptr, InPool(i));
    }
    forall d | d in s.deleters && s.deleters[d].ptr == ptr
      ensures here == WithDeleter(d)
    {
      assert At(s, ptr, WithDeleter(d));
    }
  }

  lemma SameRefs(s: State, s': State)
    requires s'.handles == s.handles && s'.published == s.published
    ensures forall q :: Referenced(s', q) <==> Referenced(s, q)
  {
    forall q
      ensures Referenced(s', q) <==> Referenced(s, q)
    {
      assert forall h :: Holds(s', h, q) <==> Holds(s, h, q);
    }
  }

  lemma TakePoolSlotStep(s: State, a: Action, s': State)
    requires Inv(s) && a.TakePoolSlot? && Step(s, a, s')
    ensures OnePlaceEach(s')
  {
    SameRefs(s, s');
    var i, ptr := s.writer.i, s.writer.expected;
    if s.pool[i] == Some(ptr) && !a.spurious {
      Exclusive(s, ptr, InPool(i));
      Relocate(s, s', ptr, WithWriter);
    } else {
      Stay(s, s');
    }
  }

  lemma AllocateStep(s: State, a: Action, s': State)
    requires Inv(s) && a.Allocate? && Step(s, a, s')
    ensures OnePlaceEach(s')
  {
    SameRefs(s, s');
    assert !At(s, a.ptr, InUse);
    assert forall i: nat :: i < |s.pool| ==> !At(s, a.ptr, InPool(i));
    assert forall d :: d in s.deleters ==> !At(s, a.ptr, WithDeleter(d));
    assert forall place :: At(s', a.ptr, place) ==> place == WithWriter;
    assert forall q, place :: q != a.ptr ==> (At(s', q, place) <==> At(s, q, place));
    forall q | q in s'.heap
      ensures exists place :: At(s', q, place)
    {
      if q == a.ptr {
        assert At(s', q, WithWriter);
      } else {
        var place :| At(s, q, place);
        assert At(s', q, place);
      }
    }
  }

  lemma FreeStep(s: State, a: Action, s': State)
    requires Inv(s) && a.Free? && Step(s, a, s')
    ensures OnePlaceEach(s')
  {
    SameRefs(s, s');
    var ptr := s.deleters[a.d].ptr;
    assert At(s, ptr, WithDeleter(a.d));
    Exclusive(s, ptr, WithDeleter(a.d));
    assert forall q, place :: At(s', q, place) <==> q != ptr && At(s, q, place);
    forall q | q in s'.heap
      ensures exists place :: At(s', q, place)
    {
      var place :| At(s, q, place);
      assert At(s', q, place);
    }
  }

  lemma DeleterStep(s: State, a: Action, s': State)
    requires Inv(s) && (a.ClearMap? || a.PutPoolSlot?) && Step(s, a, s')
    ensures OnePlaceEach(s')
  {
    SameRefs(s, s');
    var ptr := s.deleters[a.d].ptr;
    assert At(s, ptr, WithDeleter(a.d));
    Exclusive(s, ptr, WithDeleter(a.d));
    if a.PutPoolSlot? && s.pool[s.deleters[a.d].i] == None && !a.spurious {
      Relocate(s, s', ptr, InPool(s.deleters[a.d].i));
    } else {
      Stay(s, s');
    }
  }

  /** Adding a handle to something already referenced, and replacing the published pointer by a handle. */
  lemma HandleAdded(s: State, s': State, h: nat, q: nat)
    requires h !in s.handles && (forall k :: k in s.handles ==> k in s'.handles && s'.handles[k] == s.handles[k])
    requires s'.handles.Keys == s.handles.Keys + {h}
    requires s'.handles[h].Managed? ==> Referenced(s, s'.handles[h].ptr)
    requires s'.published == s.published || (s'.handles[h] == s.published && s'.published != Managed(q))
    ensures Referenced(s', q) <==> Referenced(s, q)
  {
    if s.published == Managed(q) {
      assert s'.published == Managed(q) || Holds(s', h, q);
    } else if k :| Holds(s, k, q) {
      assert Holds(s', k, q);
    } else {
      assert forall k :: Holds(s', k, q) ==> k == h || Holds(s, k, q);
    }
  }

  lemma HandleDropped(s: State, h: nat, q: nat)
    requires h in s.handles
    requires s.handles[h] != Managed(q) || Referenced(s.(handles := s.handles - {h}), q)
    ensures Referenced(s.(handles := s.handles - {h}), q) <==> Referenced(s, q)
  {
    var s' := s.(handles := s.handles - {h});
    if k :| Holds(s', k, q) {
      assert Holds(s, k, q);
    } else if k :| Holds(s, k, q) && k != h {
      assert Holds(s', k, q);
    }
  }

  lemma DropStep(s: State, a: Action, s': State)
    requires Inv(s) && a.Drop? && Step(s, a, s')
    ensures OnePlaceEach(s')
  {
    var ref := s.handles[a.h];
    var dropped := s.(handles := s.handles - {a.h});
    SameRefs(dropped, s');
    assert ref.Managed? ==> Holds(s, a.h, ref.ptr);
    if ref.Managed? && !Referenced(dropped, ref.ptr) {
      Exclusive(s, ref.ptr, InUse);
      forall q | q != ref.ptr
        ensures Referenced(s', q) <==> Referenced(s, q)
      {
        HandleDropped(s, a.h, q);
      }
      Relocate(s, s', ref.ptr, WithDeleter(a.deleter));
    } else {
      forall q
        ensures Referenced(s', q) <==> Referenced(s, q)
      {
        HandleDropped(s, a.h, q);
      }
      Stay(s, s');
    }
  }

  lemma PublishStep(s: State, a: Action, s': State)
    requires Inv(s) && a.Publish? && Step(s, a, s')
    ensures OnePlaceEach(s')
  {
    var ptr := s.writer.ptr;
    Exclusive(s, ptr, WithWriter);
    forall q | q != ptr
      ensures Referenced(s', q) <==> Referenced(s, q)
    {
      HandleAdded(s, s', a.replaced, q);
    }
    Relocate(s, s', ptr, InUse);
  }

  lemma HandleStep(s: State, a: Action, s': State)
    requires Inv(s) && (a.Read? || a.Copy?) && Step(s, a, s')
    ensures OnePlaceEach(s')
  {
    var h := if a.Read? then a.h else a.copy;
    assert s'.handles[h].Managed? ==> Referenced(s, s'.handles[h].ptr) by {
      if a.Copy? && s'.handles[h].Managed? {
        assert Holds(s, a.h, s'.handles[h].ptr);
      }
    }
    forall q
      ensures Referenced(s', q) <==> Referenced(s, q)
    {
      HandleAdded(s, s', h, q);
    }
    Stay(s, s');
  }

  lemma PlacesStep(s: State, a: Action, s': State)
    requires Inv(s) && Step(s, a, s')
    ensures OnePlaceEach(s')
  {
    match a
    case TakePoolSlot(_) => TakePoolSlotStep(s, a, s');
    case Allocate(_) => AllocateStep(s, a, s');
    case Publish(_) => PublishStep(s, a, s');
    case Drop(_, _) => DropStep(s, a, s');
    case ClearMap(_) | PutPoolSlot(_, _) => DeleterStep(s, a, s');
    case Free(_) => FreeStep(s, a, s');
    case MoveIn(_) =>
      assert At(s, s.writer.ptr, WithWriter);
      SameRefs(s, s');
      Stay(s, s');
    case Read(_) | Copy(_, _) => HandleStep(s, a, s');
    case _ =>
      SameRefs(s, s');
      Stay(s, s');
  }

  /** No step writes to a map that some reader or the published pointer refers to. */
  lemma InUseUnchanged(s: State, a: Action, s': State, ptr: nat)
    requires Inv(s) && Step(s, a, s') && Referenced(s, ptr)
    ensures ptr in s.heap && ptr in s'.heap && s'.heap[ptr] == s.heap[ptr]
  {
    assert At(s, ptr, InUse);
    assert !At(s, ptr, WithWriter);
    if a.ClearMap? || a.Free? {
      assert !At(s, ptr, WithDeleter(a.d));
    }
  }

  lemma InvStep(s: State, a: Action, s': State)
    requires Inv(s) && Step(s, a, s')
    ensures Inv(s')
  {
    PlacesStep(s, a, s');
    if s.published.Managed? {
      InUseUnchanged(s, a, s', s.published.ptr);
    }
  }

  // ---- Runs ----

  ghost predicate Init(s: State) {
    && |s.pool| == POOL_SIZE
    && (forall i :: 0 <= i < POOL_SIZE ==>
          s.pool[i].Some? && s.pool[i].value in s.heap && s.heap[s.pool[i].value] == map[])
    && (forall i, j :: 0 <= i < j < POOL_SIZE ==> s.pool[i] != s.pool[j])
    && (forall ptr :: ptr in s.heap ==> Some(ptr) in s.pool)
    && s.writeBuffer == map[] && s.writer == Idle && s.published == Initial
    && s.handles == map[] && s.deleters == map[] && s.commits == []
  }

  ghost predicate Run(states: seq<State>, acts: seq<Action>) {
    && |states| == |acts| + 1
    && Init(states[0])
    && (forall i :: 0 <= i < |acts| ==> Step(states[i], acts[i], states[i + 1]))
  }

  /** The constructor's five empty maps at addresses 0 to 4. */
  lemma InitExists() returns (s: State)
    ensures Init(s) && s.heap.Keys == {0, 1, 2, 3, 4} && Run([s], [])
  {
    s := State(map[0 := map[], 1 := map[], 2 := map[], 3 := map[], 4 := map[]],
               [Some(0), Some(1), Some(2), Some(3), Some(4)], map[], Idle, Initial, map[], map[], []);
    assert s.pool[0] == Some(0) && s.pool[1] == Some(1) && s.pool[2] == Some(2);
    assert s.pool[3] == Some(3) && s.pool[4] == Some(4);
  }

  lemma InitPlace(s: State, ptr: nat, place: Place)
    requires Init(s) && At(s, ptr, place)
    ensures place.InPool? && place.i < POOL_SIZE && s.pool[place.i] == Some(ptr) && ptr in s.heap
  {
  }

  lemma InitInv(s: State)
    requires Init(s)
    ensures Inv(s)
  {
    forall ptr, p, q | At(s, ptr, p) && At(s, ptr, q) ensures p == q && ptr in s.heap {
      InitPlace(s, ptr, p);
      InitPlace(s, ptr, q);
    }
    forall ptr | ptr in s.heap
      ensures exists place :: At(s, ptr, place)
    {
      var i :| 0 <= i < |s.pool| && s.pool[i] == Some(ptr);
      assert At(s, ptr, InPool(i));
    }
  }

  lemma {:induction false} RunInv(states: seq<State>, acts: seq<Action>, i: nat)
    requires Run(states, acts) && i < |states|
    ensures Inv(states[i])
  {
    if i == 0 {
      InitInv(states[0]);
    } else {
      RunInv(states, acts, i - 1);
      InvStep(states[i - 1], acts[i - 1], states[i]);
    }
  }

  /** In every state of every run each allocated map is in exactly one place and nothing else is anywhere:
      no map leaks, and none is in use and in the pool, or in two threads' hands, at once. */
  lemma ExactlyOnePlace(states: seq<State>, acts: seq<Action>, i: nat, ptr: nat)
    requires Run(states, acts) && i < |states|
    ensures ptr in states[i].heap <==> exists place :: At(states[i], ptr, place)
    ensures forall p, q :: At(states[i], ptr, p) && At(states[i], ptr, q) ==> p == q
  {
    RunInv(states, acts, i);
  }

  /** Every free hits an allocated map that nobody refers to, and the map is gone afterwards. */
  lemma NoDoubleFree(states: seq<State>, acts: seq<Action>, i: nat)
    requires Run(states, acts) && i < |acts| && acts[i].Free?
    ensures acts[i].d in states[i].deleters
    ensures var ptr := states[i].deleters[acts[i].d].ptr;
            ptr in states[i].heap && !Referenced(states[i], ptr) && ptr !in states[i + 1].heap
  {
    assert Step(states[i], acts[i], states[i + 1]);
    RunInv(states, acts, i);
    var ptr := states[i].deleters[acts[i].d].ptr;
    assert At(states[i], ptr, WithDeleter(acts[i].d));
    assert !At(states[i], ptr, InUse);
  }

  function View(s: State, ref: Ref): SnapshotMap {
    if ref.Managed? && ref.ptr in s.heap then s.heap[ref.ptr] else map[]
  }

  function LastCommit(s: State): SnapshotMap {
    if s.commits == [] then map[] else s.commits[|s.commits| - 1]
  }

  ghost predicate Sees(s: State, h: nat, snapshot: SnapshotMap) {
    && h in s.handles && View(s, s.handles[h]) == snapshot
    && (s.handles[h].Managed? ==> s.handles[h].ptr in s.heap)
  }

  lemma ReadSees(s: State, a: Action, s': State, h: nat)
    requires Inv(s) && Step(s, a, s') && a == Read(h) && h in s'.handles
    ensures Sees(s', h, LastCommit(s))
  {
    if s.published.Managed? {
      InUseUnchanged(s, a, s', s.published.ptr);
    }
  }

  lemma HandleStays(s: State, a: Action, s': State, h: nat, snapshot: SnapshotMap)
    requires Inv(s) && Step(s, a, s') && Sees(s, h, snapshot) && h in s'.handles
    ensures Sees(s', h, snapshot)
  {
    assert s'.handles[h] == s.handles[h];
    var ref := s.handles[h];
    if ref.Managed? {
      assert Holds(s, h, ref.ptr);
      InUseUnchanged(s, a, s', ref.ptr);
    }
  }

  lemma ReadSeesAt(states: seq<State>, acts: seq<Action>, i: nat, h: nat)
    requires Run(states, acts) && i < |acts| && acts[i] == Read(h) && h in states[i + 1].handles
    ensures Sees(states[i + 1], h, LastCommit(states[i]))
  {
    RunInv(states, acts, i);
    assert Step(states[i], acts[i], states[i + 1]);
    ReadSees(states[i], acts[i], states[i + 1], h);
  }

  lemma HandleStaysAt(states: seq<State>, acts: seq<Action>, i: nat, h: nat, snapshot: SnapshotMap)
    requires Run(states, acts) && i < |acts| && Sees(states[i], h, snapshot) && h in states[i + 1].handles
    ensures Sees(states[i + 1], h, snapshot)
  {
    RunInv(states, acts, i);
    assert Step(states[i], acts[i], states[i + 1]);
    HandleStays(states[i], acts[i], states[i + 1], h, snapshot);
  }

  /** A reader that keeps its handle sees one snapshot for as long as it keeps it: the one that was
      the latest when it called readAll. */
  lemma {:induction false} SnapshotStable(states: seq<State>, acts: seq<Action>, i: nat, j: nat, h: nat)
    requires Run(states, acts) && i < j < |states| && acts[i] == Read(h)
    requires forall k :: i < k <= j ==> h in states[k].handles
    ensures Sees(states[j], h, LastCommit(states[i]))
    decreases j
  {
    if j == i + 1 {
      ReadSeesAt(states, acts, i, h);
    } else {
      SnapshotStable(states, acts, i, j - 1, h);
      HandleStaysAt(states, acts, j - 1, h, LastCommit(states[i]));
    }
  }

  // ---- The k-th snapshot ----

  /** The writes applied in order. */
  function Overwrite(writes: seq<(nat, Snapshot)>): SnapshotMap {
    if writes == [] then map[] else Overwrite(writes[..|writes| - 1])[writes[|writes| - 1].0 := writes[|writes| - 1].1]
  }

  /** Each tag has the value of its last write, and there is no other tag. */
  lemma {:induction false} LastWriteWins(writes: seq<(nat, Snapshot)>, tagId: nat) returns (i: int)
    ensures -1 <= i < |writes| && (tagId in Overwrite(writes) <==> i >= 0)
    ensures i >= 0 ==> writes[i] == (tagId, Overwrite(writes)[tagId])
    ensures forall k :: i < k < |writes| ==> writes[k].0 != tagId
  {
    if writes == [] {
      i := -1;
    } else {
      var n := |writes| - 1;
      if writes[n].0 == tagId {
        i := n;
      } else {
        i := LastWriteWins(writes[..n], tagId);
        assert forall k :: 0 <= k < n ==> writes[k] == writes[..n][k];
      }
    }
  }

  /** The writes since the last publication, and the publications, read off the actions alone. */
  function PendingWrites(acts: seq<Action>): seq<(nat, Snapshot)> {
    if acts == [] then [] else
    var last, before := acts[|acts| - 1], acts[..|acts| - 1];
    match last
    case Write(tagId, snapshot) => PendingWrites(before) + [(tagId, snapshot)]
    case Publish(_) => []
    case _ => PendingWrites(before)
  }

  function Publications(acts: seq<Action>): seq<SnapshotMap> {
    if acts == [] then [] else
    var last, before := acts[|acts| - 1], acts[..|acts| - 1];
    if last.Publish? then Publications(before) + [Overwrite(PendingWrites(before))] else Publications(before)
  }

  ghost predicate WritesKept(s: State, writes: seq<(nat, Snapshot)>) {
    match s.writer
    case Filled(ptr) => ptr in s.heap && s.heap[ptr] == Overwrite(writes)
    case Swapped => writes == []
    case _ => s.writeBuffer == Overwrite(writes)
  }

  /** The k-th published snapshot is the last-write-wins map of the writes made since the one before it. */
  lemma {:induction false} CommitsAreLastWrites(states: seq<State>, acts: seq<Action>, i: nat)
    requires Run(states, acts) && i < |states|
    ensures states[i].commits == Publications(acts[..i])
    ensures WritesKept(states[i], PendingWrites(acts[..i]))
  {
    if i > 0 {
      CommitsAreLastWrites(states, acts, i - 1);
      RunInv(states, acts, i - 1);
      assert acts[..i][..i - 1] == acts[..i - 1];
      assert Step(states[i - 1], acts[i - 1], states[i]);
      FilledUntouched(states[i - 1], acts[i - 1], states[i]);
    }
  }

  lemma FilledUntouched(s: State, a: Action, s': State)
    requires Inv(s) && Step(s, a, s')
    ensures s.writer.Filled? && s'.writer == s.writer ==>
              s.writer.ptr in s.heap && s.writer.ptr in s'.heap && s'.heap[s.writer.ptr] == s.heap[s.writer.ptr]
  {
    if s.writer.Filled? {
      assert At(s, s.writer.ptr, WithWriter);
      if a.ClearMap? || a.Free? {
        assert !At(s, s.writer.ptr, WithDeleter(a.d));
      }
    }
  }

  // ---- The pool ----

  /** The deleter has come as far as slot i, or the writer has. */
  predicate ReturnedTo(s: State, d: nat, i: nat) {
    d in s.deleters && s.deleters[d].Returning? && s.deleters[d].i >= i
  }

  predicate ScannedTo(s: State, i: nat) {
    match s.writer
    case Scanning(k) => k >= i
    case SlotLoaded(k, _) => k >= i
    case _ => false
  }

  /** At this step the deleter found slot n taken, or its compare-exchange failed. */
  predicate SlotRefused(s: State, a: Action, d: nat, n: nat) {
    && a.PutPoolSlot? && a.d == d && d in s.deleters && s.deleters[d].Returning? && s.deleters[d].i == n < |s.pool|
    && (s.pool[n].Some? || a.spurious)
  }

  /** At this step the writer found slot n empty, or its compare-exchange failed or came too late. */
  predicate SlotMissed(s: State, a: Action, n: nat) {
    n < |s.pool| &&
    if a.LoadPoolSlot? then s.writer == Scanning(n) && s.pool[n].None?
    else a.TakePoolSlot? && s.writer.SlotLoaded? && s.writer.i == n &&
         (a.spurious || s.pool[n] != Some(s.writer.expected))
  }

  lemma ReturnStep(s: State, a: Action, s': State, d: nat, n: nat)
    requires Step(s, a, s') && ReturnedTo(s', d, n + 1) && !ReturnedTo(s, d, n + 1)
    ensures SlotRefused(s, a, d, n)
  {
  }

  lemma ScanStep(s: State, a: Action, s': State, n: nat)
    requires Step(s, a, s') && ScannedTo(s', n + 1) && !ScannedTo(s, n + 1)
    ensures SlotMissed(s, a, n)
  {
  }

  lemma {:induction false} SlotWasRefused(states: seq<State>, acts: seq<Action>, k: nat, d: nat, n: nat)
    returns (j: nat)
    requires Run(states, acts) && k <= |acts| && ReturnedTo(states[k], d, n + 1)
    ensures j < k && SlotRefused(states[j], acts[j], d, n)
    ensures forall i :: j < i <= k ==> ReturnedTo(states[i], d, n + 1)
  {
    assert k > 0;
    if ReturnedTo(states[k - 1], d, n + 1) {
      j := SlotWasRefused(states, acts, k - 1, d, n);
    } else {
      j := k - 1;
      ReturnStep(states[j], acts[j], states[k], d, n);
    }
  }

  lemma {:induction false} SlotWasMissed(states: seq<State>, acts: seq<Action>, k: nat, n: nat) returns (j: nat)
    requires Run(states, acts) && k <= |acts| && ScannedTo(states[k], n + 1)
    ensures j < k && SlotMissed(states[j], acts[j], n)
    ensures forall i :: j < i <= k ==> ScannedTo(states[i], n + 1)
  {
    assert k > 0;
    if ScannedTo(states[k - 1], n + 1) {
      j := SlotWasMissed(states, acts, k - 1, n);
    } else {
      j := k - 1;
      ScanStep(states[j], acts[j], states[k], n);
    }
  }

  /** A map is freed only after its deleter was refused by each of the five slots, in that one walk. */
  lemma FreedOnlyIfRefused(states: seq<State>, acts: seq<Action>, k: nat, n: nat) returns (j: nat)
    requires Run(states, acts) && k < |acts| && acts[k].Free? && n < POOL_SIZE
    ensures j < k && SlotRefused(states[j], acts[j], acts[k].d, n)
    ensures forall i :: j < i <= k ==> ReturnedTo(states[i], acts[k].d, n + 1)
  {
    RunInv(states, acts, k);
    assert Step(states[k], acts[k], states[k + 1]);
    j := SlotWasRefused(states, acts, k, acts[k].d, n);
  }

  /** A map is allocated only after the writer has missed each of the five slots, in that one scan. */
  lemma AllocatedOnlyIfMissed(states: seq<State>, acts: seq<Action>, k: nat, n: nat) returns (j: nat)
    requires Run(states, acts) && k < |acts| && acts[k].Allocate? && n < POOL_SIZE
    ensures j < k && SlotMissed(states[j], acts[j], n)
    ensures forall i :: j < i <= k ==> ScannedTo(states[i], n + 1)
  {
    RunInv(states, acts, k);
    assert Step(states[k], acts[k], states[k + 1]);
    j := SlotWasMissed(states, acts, k, n);
  }

  /** Whatever lies in the pool, is on its way there, or was just taken or allocated is empty. */
  ghost predicate SpareEmpty(s: State) {
    && (forall i: nat, ptr :: At(s, ptr, InPool(i)) && ptr in s.heap ==> s.heap[ptr] == map[])
    && (forall d :: d in s.deleters && s.deleters[d].Returning? && s.deleters[d].ptr in s.heap ==>
          s.heap[s.deleters[d].ptr] == map[])
    && (s.writer.Owning? && s.writer.ptr in s.heap ==> s.heap[s.writer.ptr] == map[])
  }

  lemma TakeKeepsEmpty(s: State, a: Action, s': State)
    requires Inv(s) && SpareEmpty(s) && Step(s, a, s') && a.TakePoolSlot?
    ensures SpareEmpty(s')
  {
    var i, expected := s.writer.i, s.writer.expected;
    if s.pool[i] == Some(expected) {
      assert At(s, expected, InPool(i));
    }
    PoolFrom(s, s');
  }

  lemma MoveInKeepsEmpty(s: State, a: Action, s': State)
    requires Inv(s) && SpareEmpty(s) && Step(s, a, s') && a.MoveIn?
    ensures SpareEmpty(s')
  {
    assert At(s, s.writer.ptr, WithWriter);
    forall d | d in s.deleters ensures s.deleters[d].ptr != s.writer.ptr {
      assert At(s, s.deleters[d].ptr, WithDeleter(d));
    }
    PoolFrom(s, s');
  }

  lemma PutKeepsEmpty(s: State, a: Action, s': State)
    requires Inv(s) && SpareEmpty(s) && Step(s, a, s') && a.PutPoolSlot?
    ensures SpareEmpty(s')
  {
    forall i: nat, ptr | At(s', ptr, InPool(i)) && ptr in s'.heap ensures s'.heap[ptr] == map[] {
      if s.pool[i] == s'.pool[i] {
        assert At(s, ptr, InPool(i));
      }
    }
  }

  lemma SpareEmptyStep(s: State, a: Action, s': State)
    requires Inv(s) && SpareEmpty(s) && Step(s, a, s')
    ensures SpareEmpty(s')
  {
    match a
    case TakePoolSlot(_) => TakeKeepsEmpty(s, a, s');
    case MoveIn(_) => MoveInKeepsEmpty(s, a, s');
    case PutPoolSlot(_, _) => PutKeepsEmpty(s, a, s');
    case _ => PoolFrom(s, s');
  }

  /** In every run the pooled maps, and the one the writer is about to fill, are empty: a commit never mixes with what a
      recycled map held before. */
  lemma {:induction false} SparesAreEmpty(states: seq<State>, acts: seq<Action>, i: nat)
    requires Run(states, acts) && i < |states|
    ensures SpareEmpty(states[i])
  {
    if i > 0 {
      SparesAreEmpty(states, acts, i - 1);
      RunInv(states, acts, i - 1);
      assert Step(states[i - 1], acts[i - 1], states[i]);
      SpareEmptyStep(states[i - 1], acts[i - 1], states[i]);
    }
  }

  /** A step that puts nothing into the pool leaves its maps empty. */
  lemma PoolFrom(s: State, s': State)
    requires forall i :: 0 <= i < |s'.pool| ==> i < |s.pool| && (s'.pool[i] == s.pool[i] || s'.pool[i] == None)
    requires SpareEmpty(s)
    requires forall ptr :: ptr in s.heap && ptr in s'.heap && s'.heap[ptr] != s.heap[ptr] && s'.heap[ptr] != map[] ==>
               forall i: nat :: !At(s, ptr, InPool(i))
    requires forall ptr :: ptr in s'.heap && ptr !in s.heap ==> s'.heap[ptr] == map[]
    ensures forall i: nat, ptr :: At(s', ptr, InPool(i)) && ptr in s'.heap ==> s'.heap[ptr] == map[]
  {
    forall i: nat, ptr | At(s', ptr, InPool(i)) && ptr in s'.heap ensures s'.heap[ptr] == map[] {
      assert At(s, ptr, InPool(i));
    }
  }

  // ---- Progress ----

  /** At most so many steps of its own a commit, and a deleter, still have to take. */
  function CommitStepsLeft(w: Writer): nat {
    match w
    case Idle => 0
    case Scanning(i) => if i < POOL_SIZE then 2 * (POOL_SIZE - i) + 5 else 4
    case SlotLoaded(i, _) => if i < POOL_SIZE then 2 * (POOL_SIZE - i) + 4 else 4
    case Owning(_) => 3
    case Filled(_) => 2
    case Swapped => 1
  }

  function DeleterStepsLeft(d: Deleter): nat {
    match d
    case Clearing(_) => POOL_SIZE + 2
    case Returning(_, i) => if i < POOL_SIZE then POOL_SIZE - i + 1 else 1
  }

  predicate ByCommit(a: Action) {
    a.LoadPoolSlot? || a.TakePoolSlot? || a.Allocate? || a.MoveIn? || a.Publish? || a.ClearWriteBuffer?
  }

  predicate ByDeleter(a: Action, d: nat) {
    (a.ClearMap? || a.PutPoolSlot? || a.Free?) && a.d == d
  }

  /** Every step of its own brings a commit, or a deleter, nearer to the end, and no other step moves it. */
  lemma CommitAdvances(s: State, a: Action, s': State)
    requires |s.pool| == POOL_SIZE && Step(s, a, s')
    ensures if s.writer == Idle then s'.writer != Idle <==> a.BeginCommit?
            else if ByCommit(a) then CommitStepsLeft(s'.writer) < CommitStepsLeft(s.writer)
            else s'.writer == s.writer
  {
  }

  lemma DeleterAdvances(s: State, a: Action, s': State, d: nat)
    requires |s.pool| == POOL_SIZE && Step(s, a, s') && d in s.deleters
    ensures ByDeleter(a, d) && d in s'.deleters ==> DeleterStepsLeft(s'.deleters[d]) < DeleterStepsLeft(s.deleters[d])
    ensures !ByDeleter(a, d) ==> d in s'.deleters && s'.deleters[d] == s.deleters[d]
  {
  }

  lemma {:induction false} Fresh(used: set<nat>) returns (n: nat)
    ensures forall u :: u in used ==> u < n
  {
    if used == {} {
      n := 0;
    } else {
      var u :| u in used;
      var m := Fresh(used - {u});
      n := if m <= u then u + 1 else m;
      forall v | v in used ensures v < n {
        assert v == u || v in used - {u};
      }
    }
  }

  lemma {:induction false} ScansThePool(states: seq<State>, acts: seq<Action>, i: nat)
    requires Run(states, acts) && i < |states|
    ensures states[i].writer.SlotLoaded? ==> states[i].writer.i < POOL_SIZE
  {
    if i > 0 {
      ScansThePool(states, acts, i - 1);
      RunInv(states, acts, i - 1);
      assert Step(states[i - 1], acts[i - 1], states[i]);
    }
  }

  /** And in every run it can take one: neither a commit nor a deleter ever waits. */
  lemma CommitNeverWaits(states: seq<State>, acts: seq<Action>, i: nat) returns (a: Action, s': State)
    requires Run(states, acts) && i < |states| && states[i].writer != Idle
    ensures ByCommit(a) && Step(states[i], a, s')
  {
    RunInv(states, acts, i);
    ScansThePool(states, acts, i);
    a, s' := CommitCanStep(states[i]);
  }

  lemma DeleterNeverWaits(s: State, d: nat) returns (a: Action, s': State)
    requires d in s.deleters
    ensures ByDeleter(a, d) && Step(s, a, s')
  {
    match s.deleters[d]
    case Clearing(ptr) =>
      a, s' := ClearMap(d), s.(heap := s.heap[ptr := map[]], deleters := s.deleters[d := Returning(ptr, 0)]);
    case Returning(ptr, i) =>
      if i < |s.pool| {
        a, s' := PutPoolSlot(d, true), s.(deleters := s.deleters[d := Returning(ptr, i + 1)]);
      } else {
        a, s' := Free(d), s.(heap := s.heap - {ptr}, deleters := s.deleters - {d});
      }
  }

  lemma CommitCanStep(s: State) returns (a: Action, s': State)
    requires Inv(s) && s.writer != Idle && (s.writer.SlotLoaded? ==> s.writer.i < POOL_SIZE)
    ensures ByCommit(a) && Step(s, a, s')
  {
    match s.writer
    case Scanning(i) =>
      if i < POOL_SIZE {
        a := LoadPoolSlot;
        s' := s.(writer := if s.pool[i] == None then Scanning(i + 1) else SlotLoaded(i, s.pool[i].value));
      } else {
        var ptr := Fresh(s.heap.Keys);
        a, s' := Allocate(ptr), s.(heap := s.heap[ptr := map[]], writer := Owning(ptr));
      }
    case SlotLoaded(i, expected) =>
      a := TakePoolSlot(true);
      s' := s.(writer := Scanning(i + 1));
    case Owning(ptr) =>
      a, s' := MoveIn(map[]), s.(heap := s.heap[ptr := s.writeBuffer], writeBuffer := map[], writer := Filled(ptr));
    case Filled(ptr) =>
      assert At(s, ptr, WithWriter);
      var h := Fresh(s.handles.Keys);
      a := Publish(h);
      s' := s.(handles := s.handles[h := s.published], published := Managed(ptr), writer := Swapped,
               commits := s.commits + [s.heap[ptr]]);
    case Swapped =>
      a, s' := ClearWriteBuffer, s.(writeBuffer := map[], writer := Idle);
  }
}

/** The class run without interference, and its two pool scans over a real array. */
module SnapshotBuffer {
  import opened Wrappers
  import opened DoubleBuffer

  class Buffer {
    var writeBuffer: SnapshotMap
    var readOnly: SnapshotMap
    ghost var writes: seq<(nat, Snapshot)>    // since the last commit

    ghost predicate Valid()
      reads this
    {
      writeBuffer == Overwrite(writes)
    }

    constructor ()
      ensures Valid() && writes == [] && readOnly == map[]
    {
      writeBuffer, readOnly, writes := map[], map[], [];
    }

    method WriteTag(tagId: nat, snapshot: Snapshot)
      requires Valid()
      modifies this`writeBuffer, this`writes
      ensures Valid() && writes == old(writes) + [(tagId, snapshot)]
    {
      writeBuffer := writeBuffer[tagId := snapshot];
      writes := writes + [(tagId, snapshot)];
    }

    method WriteBatch(snapshots: seq<Snapshot>)
      requires Valid()
      modifies this`writeBuffer, this`writes
      ensures Valid() && |writes| == |old(writes)| + |snapshots| && old(writes) <= writes
      ensures forall i :: 0 <= i < |snapshots| ==> writes[|old(writes)| + i] == (snapshots[i].tagId, snapshots[i])
    {
      for i := 0 to |snapshots|
        invariant Valid() && |writes| == |old(writes)| + i && old(writes) <= writes
        invariant forall k :: 0 <= k < i ==> writes[|old(writes)| + k] == (snapshots[k].tagId, snapshots[k])
      {
        WriteTag(snapshots[i].tagId, snapshots[i]);
      }
    }

    /** Readers see exactly the writes since the previous commit: older tags disappear. */
    method Commit()
      requires Valid()
      modifies this
      ensures Valid() && writes == [] && readOnly == Overwrite(old(writes))
    {
      readOnly := writeBuffer;
      writeBuffer, writes := map[], [];
    }

    method ReadTag(tagId: nat, default: Snapshot) returns (snapshot: Snapshot)
      ensures tagId in readOnly ==> snapshot == readOnly[tagId]
      ensures tagId !in readOnly ==> snapshot == default
    {
      snapshot := if tagId in readOnly then readOnly[tagId] else default;
    }
  }

  /** Takes the first pooled map whose compare-exchange does not fail spuriously; None means a new map is made. */
  method AcquireFromPool(pool: array<Option<nat>>, spurious: seq<bool>) returns (taken: Option<nat>)
    requires |spurious| == pool.Length
    modifies pool
    ensures taken == None ==>
              pool[..] == old(pool[..]) && forall i :: 0 <= i < pool.Length ==> pool[i] == None || spurious[i]
    ensures taken.Some? ==>
              exists i :: 0 <= i < pool.Length && old(pool[i]) == taken && !spurious[i] &&
                pool[..] == old(pool[..])[i := None] &&
                forall k :: 0 <= k < i ==> old(pool[k]) == None || spurious[k]
  {
    for i := 0 to pool.Length
      invariant pool[..] == old(pool[..])
      invariant forall k :: 0 <= k < i ==> old(pool[k]) == None || spurious[k]
    {
      var expected := pool[i];
      if expected.Some? && !spurious[i] {
        pool[i] := None;
        return expected;
      }
    }
    return None;
  }

  /** Puts the map into the first free slot whose compare-exchange does not fail spuriously. */
  method ReturnToPool(pool: array<Option<nat>>, ptr: nat, spurious: seq<bool>) returns (pooled: bool)
    requires |spurious| == pool.Length
    modifies pool
    ensures !pooled ==>
              pool[..] == old(pool[..]) && forall i :: 0 <= i < pool.Length ==> pool[i].Some? || spurious[i]
    ensures pooled ==>
              exists i :: 0 <= i < pool.Length && old(pool[i]) == None && !spurious[i] &&
                pool[..] == old(pool[..])[i := Some(ptr)] &&
                forall k :: 0 <= k < i ==> old(pool[k]).Some? || spurious[k]
  {
    for i := 0 to pool.Length
      invariant pool[..] == old(pool[..])
      invariant forall k :: 0 <= k < i ==> old(pool[k]).Some? || spurious[k]
    {
      if pool[i] == None && !spurious[i] {
        pool[i] := Some(ptr);
        return true;
      }
    }
    return false;
  }
}
