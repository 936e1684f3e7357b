/** The two caches of HistorySampler.cpp: a ring of 1800 records per tag for recent queries, and the buffer that
    is archived in batches. Both are proved against one append-only log of everything sampled. The clock, the
    snapshot and the outcome of the repository calls are arguments. */
module HistorySampling {
  import opened Wrappers

  const MAX_RECORDS := 1800

  datatype Record = Record(tagId: nat, value: real, quality: int, timestamp: int)

  /** One tag of a snapshot. */
  datatype Entry = Entry(tagId: nat, value: real, quality: int)

  /** One archived batch and whether the repository took it. */
  datatype Batch = Batch(records: seq<Record>, stored: bool)

  // ---- The log ----

  /** The records of one tag, in the order in which they were sampled. */
  function OfTag(log: seq<Record>, tagId: nat): seq<Record> {
    if log == [] then []
    else
      var last := log[|log| - 1];
      OfTag(log[..|log| - 1], tagId) + if last.tagId == tagId then [last] else []
  }

  lemma OfTagAppend(log: seq<Record>, r: Record, tagId: nat)
    ensures OfTag(log + [r], tagId) == OfTag(log, tagId) + if r.tagId == tagId then [r] else []
  {
    assert (log + [r])[..|log|] == log;
  }

  predicate InRange(r: Record, start: int, end: int) {
    start <= r.timestamp <= end
  }

  function Select(log: seq<Record>, start: int, end: int): seq<Record> {
    if log == [] then []
    else (if InRange(log[0], start, end) then [log[0]] else []) + Select(log[1..], start, end)
  }

  function Kept(n: nat): nat {
    if n < MAX_RECORDS then n else MAX_RECORDS
  }

  /** The last 1800 records, or all of them. */
  function Recent(log: seq<Record>): seq<Record> {
    log[|log| - Kept(|log|)..]
  }

  // ---- The ring ----

  datatype Ring = Ring(records: seq<Record>, head: nat, count: nat)

  /** Slots of the fixed-size array that were never written hold a default record. */
  const Blank := Record(0, 0.0, 0, 0)
  const EmptyRing := Ring([], 0, 0)

  /** Writing one record: the first one allocates the slots, later ones overwrite the oldest once all are used. */
  function Write(ring: Ring, r: Record): Ring
    requires ring.head < MAX_RECORDS && |ring.records| in {0, MAX_RECORDS}
  {
    var records := if ring.records == [] then seq(MAX_RECORDS, _ => Blank) else ring.records;
    Ring(records[ring.head := r], (ring.head + 1) % MAX_RECORDS,
         if ring.count < MAX_RECORDS then ring.count + 1 else ring.count)
  }

  /** The newest records sit at their positions modulo the ring's size. */
  ghost predicate Represents(ring: Ring, log: seq<Record>) {
    && |ring.records| == (if log == [] then 0 else MAX_RECORDS)
    && ring.count == Kept(|log|)
    && ring.head == |log| % MAX_RECORDS
    && (forall i :: |log| - ring.count <= i < |log| ==> ring.records[i % MAX_RECORDS] == log[i])
  }

  lemma SlotsDiffer(i: nat, n: nat)
    requires i < n < i + MAX_RECORDS
    ensures i % MAX_RECORDS != n % MAX_RECORDS
  {
  }

  lemma NextHead(n: nat)
    ensures (n % MAX_RECORDS + 1) % MAX_RECORDS == (n + 1) % MAX_RECORDS
  {
  }

  lemma WriteRepresents(ring: Ring, log: seq<Record>, r: Record)
    requires Represents(ring, log)
    ensures Represents(Write(ring, r), log + [r])
  {
    var n := |log|;
    NextHead(n);
    forall i | n + 1 - Kept(n + 1) <= i < n ensures i % MAX_RECORDS != n % MAX_RECORDS {
      SlotsDiffer(i, n);
    }
  }

  /** The ring of a tag; one that was never written is empty. */
  function RingIn(recent: map<nat, Ring>, tagId: nat): Ring {
    if tagId in recent then recent[tagId] else EmptyRing
  }

  /** Every tag's ring holds the last 1800 of its records, each at its place. */
  ghost predicate RingsRepresent(recent: map<nat, Ring>, log: seq<Record>) {
    forall t: nat :: Represents(RingIn(recent, t), OfTag(log, t))
  }

  lemma WriteToRing(recent: map<nat, Ring>, log: seq<Record>, r: Record)
    requires RingsRepresent(recent, log)
    ensures var ring := RingIn(recent, r.tagId);
            && ring.head < MAX_RECORDS && |ring.records| in {0, MAX_RECORDS}
            && RingsRepresent(recent[r.tagId := Write(ring, r)], log + [r])
  {
    var ring := RingIn(recent, r.tagId);
    assert Represents(ring, OfTag(log, r.tagId));
    WriteRepresents(ring, OfTag(log, r.tagId), r);
    var next := recent[r.tagId := Write(ring, r)];
    forall t: nat ensures Represents(RingIn(next, t), OfTag(log + [r], t)) {
      OfTagAppend(log, r, t);
      if t != r.tagId {
        assert RingIn(next, t) == RingIn(recent, t);
      }
    }
  }

  lemma NewestFirst(n: nat, i: nat)
    requires i < Kept(n)
    ensures (n % MAX_RECORDS - 1 - i + MAX_RECORDS) % MAX_RECORDS == (n - 1 - i) % MAX_RECORDS
  {
  }

  /** The record the query looks at in its i-th round is the i-th newest. */
  lemma NewestAt(ring: Ring, log: seq<Record>, i: nat)
    requires Represents(ring, log) && i < ring.count
    ensures var idx := (ring.head - 1 - i + MAX_RECORDS) % MAX_RECORDS;
            0 <= idx < |ring.records| && ring.records[idx] == log[|log| - 1 - i]
  {
    NewestFirst(|log|, i);
  }

  lemma SelectOneMore(log: seq<Record>, i: nat, start: int, end: int)
    requires i < |log|
    ensures var r := log[|log| - 1 - i];
            Select(log[|log| - 1 - i..], start, end) ==
              (if InRange(r, start, end) then [r] else []) + Select(log[|log| - i..], start, end)
  {
    assert log[|log| - 1 - i..][1..] == log[|log| - i..];
  }

  // ---- Archiving ----

  function Flatten(batches: seq<Batch>): seq<Record> {
    if batches == [] then [] else Flatten(batches[..|batches| - 1]) + batches[|batches| - 1].records
  }

  /** How many records are in the batches with the given outcome. */
  function Volume(batches: seq<Batch>, stored: bool): nat {
    if batches == [] then 0
    else
      var last := batches[|batches| - 1];
      Volume(batches[..|batches| - 1], stored) + if last.stored == stored then |last.records| else 0
  }

  lemma BatchAppend(batches: seq<Batch>, b: Batch)
    ensures Flatten(batches + [b]) == Flatten(batches) + b.records
    ensures Volume(batches + [b], b.stored) == Volume(batches, b.stored) + |b.records|
    ensures Volume(batches + [b], !b.stored) == Volume(batches, !b.stored)
  {
    assert (batches + [b])[..|batches|] == batches;
  }

  /** Nothing sampled is lost, duplicated or reordered on its way to the repository. */
  ghost predicate Books(log: seq<Record>, batches: seq<Batch>, inFlight: seq<Record>, cache: seq<Record>,
                        archived: nat, failed: nat) {
    && log == Flatten(batches) + inFlight + cache
    && archived == Volume(batches, true)
    && failed == Volume(batches, false)
  }

  /** Moving the records in flight to the finished batches keeps the books. */
  lemma BatchEnds(log: seq<Record>, batches: seq<Batch>, inFlight: seq<Record>, cache: seq<Record>, archived: nat,
                  failed: nat, inserted: bool)
    requires Books(log, batches, inFlight, cache, archived, failed)
    ensures Books(log, batches + [Batch(inFlight, inserted)], [], cache,
                  if inserted then archived + |inFlight| else archived,
                  if inserted then failed else failed + |inFlight|)
  {
    BatchAppend(batches, Batch(inFlight, inserted));
    var done := Flatten(batches) + inFlight;
    assert done + [] == done;
  }

  lemma {:induction false} EveryRecordCounted(batches: seq<Batch>)
    ensures |Flatten(batches)| == Volume(batches, true) + Volume(batches, false)
  {
    if batches != [] {
      EveryRecordCounted(batches[..|batches| - 1]);
    }
  }

  // ---- What one pass over a snapshot samples ----

  function Stamped(entries: seq<Entry>, now: int): (records: seq<Record>)
    ensures |records| == |entries|
  {
    seq(|entries|, i requires 0 <= i < |entries| => Record(entries[i].tagId, entries[i].value, entries[i].quality, now))
  }

  /** A record holds its entry's tag, value and quality, and the time of the pass. */
  predicate RecordOf(r: Record, entry: Entry, now: int) {
    r.tagId == entry.tagId && r.value == entry.value && r.quality == entry.quality && r.timestamp == now
  }

  // ---- The sampler ----

  class HistorySampler {
    var cache: seq<Record>
    var recent: map<nat, Ring>
    var firstRecordTime: int
    var archiveIntervalSec: int
    var totalArchived: nat
    var totalFailed: nat
    /** The records taken out for the insertion that is under way. */
    var inFlight: seq<Record>
    /** Everything ever sampled, and every batch whose insertion ended, oldest first. */
    ghost var log: seq<Record>
    ghost var batches: seq<Batch>

    ghost predicate Conserved()
      reads this`log, this`batches, this`inFlight, this`cache, this`totalArchived, this`totalFailed
    {
      Books(log, batches, inFlight, cache, totalArchived, totalFailed)
    }

    /** The archiving period counts from the oldest record that still waits. */
    ghost predicate Timed()
      reads this`cache, this`firstRecordTime
    {
      if cache == [] then firstRecordTime == 0 else firstRecordTime == cache[0].timestamp && firstRecordTime > 0
    }

    ghost predicate Valid()
      reads this
    {
      RingsRepresent(recent, log) && Conserved() && Timed()
    }

    constructor ()
      ensures Valid() && log == [] && cache == [] && inFlight == [] && archiveIntervalSec == 300
    {
      cache, recent, firstRecordTime, archiveIntervalSec := [], map[], 0, 300;
      totalArchived, totalFailed, inFlight, log, batches := 0, 0, [], [], [];
    }

    /** Appends to one tag's ring; every other ring stays. */
    method WriteToRecentCache(r: Record)
      requires RingsRepresent(recent, log)
      modifies this`recent, this`log
      ensures log == old(log) + [r] && RingsRepresent(recent, log)
    {
      WriteToRing(recent, log, r);
      var ring := if r.tagId in recent then recent[r.tagId] else EmptyRing;
      ghost var before := ring;
      if ring.records == [] {
        ring := ring.(records := seq(MAX_RECORDS, _ => Blank));
      }
      ring := ring.(records := ring.records[ring.head := r]);
      ring := ring.(head := (ring.head + 1) % MAX_RECORDS);
      if ring.count < MAX_RECORDS {
        ring := ring.(count := ring.count + 1);
      }
      assert ring == Write(before, r);
      recent := recent[r.tagId := ring];
      log := log + [r];
    }

    /** One pass: every entry of the snapshot gets the same time stamp and goes to both caches. No double buffer
        and an empty snapshot leave everything as it was. */
    method SampleData(snapshot: Option<seq<Entry>>, now: int)
      requires Valid() && now > 0
      modifies this
      ensures Valid()
      ensures log == if snapshot.Some? then old(log) + Stamped(snapshot.value, now) else old(log)
      ensures cache == if snapshot.Some? then old(cache) + Stamped(snapshot.value, now) else old(cache)
      ensures snapshot.Some? ==>
                |log| == |old(log)| + |snapshot.value| &&
                forall i :: 0 <= i < |snapshot.value| ==> RecordOf(log[|old(log)| + i], snapshot.value[i], now)
      ensures batches == old(batches) && inFlight == old(inFlight) && archiveIntervalSec == old(archiveIntervalSec)
      ensures totalArchived == old(totalArchived) && totalFailed == old(totalFailed)
    {
      if snapshot.None? || snapshot.value == [] {
        return;
      }
      var entries := snapshot.value;
      var i := 0;
      while i < |entries|
        invariant 0 <= i <= |entries| && RingsRepresent(recent, log)
        invariant log == old(log) + Stamped(entries, now)[..i]
        invariant cache == old(cache) + Stamped(entries, now)[..i]
        invariant batches == old(batches) && inFlight == old(inFlight) && firstRecordTime == old(firstRecordTime)
        invariant archiveIntervalSec == old(archiveIntervalSec)
        invariant totalArchived == old(totalArchived) && totalFailed == old(totalFailed)
      {
        var r := Record(entries[i].tagId, entries[i].value, entries[i].quality, now);
        cache := cache + [r];
        WriteToRecentCache(r);
        i := i + 1;
      }
      if firstRecordTime == 0 && cache != [] {
        firstRecordTime := now;
      }
    }

    /** First half of doArchive: without a repository the records stay cached; otherwise they are all taken out. */
    method TakeBatch(hasRepo: bool) returns (taken: bool)
      requires Conserved() && inFlight == []
      modifies this`cache, this`firstRecordTime, this`inFlight
      ensures Conserved() && taken == hasRepo
      ensures hasRepo ==> cache == [] && inFlight == old(cache) && firstRecordTime == 0
      ensures !hasRepo ==> cache == old(cache) && inFlight == [] && firstRecordTime == old(firstRecordTime)
    {
      if !hasRepo {
        return false;
      }
      inFlight, cache, firstRecordTime := cache, [], 0;
      return true;
    }

    /** Second half: the batch counts as archived or, when the insertion threw, as failed. Nothing is inserted for
        an empty batch. */
    method FinishBatch(inserted: bool) returns (ok: bool)
      requires Conserved()
      modifies this`inFlight, this`totalArchived, this`totalFailed, this`batches
      ensures Conserved() && inFlight == []
      ensures ok == (old(inFlight) == [] || inserted)
      ensures batches == if old(inFlight) == [] then old(batches) else old(batches) + [Batch(old(inFlight), inserted)]
    {
      if inFlight == [] {
        return true;
      }
      BatchEnds(log, batches, inFlight, cache, totalArchived, totalFailed, inserted);
      ghost var all, after, waiting := log, batches + [Batch(inFlight, inserted)], cache;
      ghost var archived := if inserted then totalArchived + |inFlight| else totalArchived;
      ghost var failed := if inserted then totalFailed else totalFailed + |inFlight|;
      assert Books(all, after, [], waiting, archived, failed);
      if inserted {
        totalArchived := totalArchived + |inFlight|;
      } else {
        totalFailed := totalFailed + |inFlight|;
      }
      batches, inFlight := after, [];
      assert log == all && cache == waiting && totalArchived == archived && totalFailed == failed;
      return inserted;
    }

    method DoArchive(hasRepo: bool, inserted: bool) returns (ok: bool)
      requires Conserved() && Timed() && inFlight == []
      modifies this`cache, this`firstRecordTime, this`inFlight, this`totalArchived, this`totalFailed, this`batches
      ensures Conserved() && Timed() && inFlight == []
      ensures ok == (hasRepo && (old(cache) == [] || inserted))
      ensures hasRepo ==>
                cache == [] &&
                batches == if old(cache) == [] then old(batches) else old(batches) + [Batch(old(cache), inserted)]
      ensures !hasRepo ==> cache == old(cache) && batches == old(batches) && firstRecordTime == old(firstRecordTime)
    {
      ok := TakeBatch(hasRepo);
      if ok {
        ok := FinishBatch(inserted);
      }
    }

    /** One round of the thread's loop, with its two clock readings. With a repository no record is left waiting
        for longer than the archiving interval, and nothing is archived earlier. */
    method Round(snapshot: Option<seq<Entry>>, sampled: int, checked: int, hasRepo: bool, inserted: bool)
      requires Valid() && inFlight == [] && 0 < sampled <= checked
      modifies this
      ensures Valid() && inFlight == [] && archiveIntervalSec == old(archiveIntervalSec)
      ensures log == if snapshot.Some? then old(log) + Stamped(snapshot.value, sampled) else old(log)
      ensures hasRepo && cache != [] ==> checked - cache[0].timestamp < archiveIntervalSec * 1000
      ensures var waiting := if snapshot.Some? then old(cache) + Stamped(snapshot.value, sampled) else old(cache);
              if waiting == [] || checked - waiting[0].timestamp < archiveIntervalSec * 1000 || !hasRepo
              then cache == waiting && batches == old(batches)
              else cache == [] && batches == old(batches) + [Batch(waiting, inserted)]
    {
      SampleData(snapshot, sampled);
      ghost var waiting := cache;
      assert waiting != [] ==> firstRecordTime == waiting[0].timestamp;
      if firstRecordTime > 0 {
        if checked - firstRecordTime >= archiveIntervalSec * 1000 {
          var _ := DoArchive(hasRepo, inserted);
        }
      }
    }

    /** Walks the ring from the newest record and puts each match in front: the result is what the log's last 1800
        records of the tag hold in the range, in the order in which they were sampled. */
    method QueryFromCache(tagId: nat, start: int, end: int) returns (result: seq<Record>)
      requires Valid()
      ensures result == Select(Recent(OfTag(log, tagId)), start, end)
    {
      result := [];
      ghost var mine := OfTag(log, tagId);
      assert Represents(RingIn(recent, tagId), mine);
      if tagId !in recent {
        return;
      }
      var ring := recent[tagId];
      var i := 0;
      while i < ring.count
        invariant 0 <= i <= ring.count
        invariant result == Select(mine[|mine| - i..], start, end)
      {
        NewestAt(ring, mine, i);
        SelectOneMore(mine, i, start, end);
        var idx := (ring.head - 1 - i + MAX_RECORDS) % MAX_RECORDS;
        var r := ring.records[idx];
        if r.timestamp >= start && r.timestamp <= end {
          result := [r] + result;
        }
        i := i + 1;
      }
    }

    /** The cache answers when it has anything, cut to its oldest `maxPoints` records unless that is negative;
        otherwise the repository does. */
    method QueryTrend(tagId: nat, start: int, end: int, maxPoints: int, stored: Option<seq<Record>>)
      returns (result: seq<Record>)
      requires Valid()
      ensures var cached := Select(Recent(OfTag(log, tagId)), start, end);
              result == if cached != [] then cached[..if 0 <= maxPoints < |cached| then maxPoints else |cached|]
                        else if stored.Some? then stored.value else []
    {
      var cached := QueryFromCache(tagId, start, end);
      if cached != [] {
        return cached[..if 0 <= maxPoints < |cached| then maxPoints else |cached|];
      }
      return if stored.Some? then stored.value else [];
    }

    /** sampled = cached + in flight + archived + failed, at every moment. */
    lemma SampledAreAccountedFor()
      requires Valid()
      ensures |log| == |cache| + |inFlight| + totalArchived + totalFailed
    {
      EveryRecordCounted(batches);
    }
  }

  // ---- What a query from the cache means ----

  lemma SelectFirst(r: Record, rest: seq<Record>, start: int, end: int)
    ensures Select([r] + rest, start, end) == (if InRange(r, start, end) then [r] else []) + Select(rest, start, end)
  {
    assert ([r] + rest)[1..] == rest;
  }

  lemma {:induction false} SelectConcat(a: seq<Record>, b: seq<Record>, start: int, end: int)
    ensures Select(a + b, start, end) == Select(a, start, end) + Select(b, start, end)
  {
    if a == [] {
      assert a + b == b;
    } else {
      SelectConcat(a[1..], b, start, end);
      assert a + b == [a[0]] + (a[1..] + b);
      SelectFirst(a[0], a[1..] + b, start, end);
      var first := if InRange(a[0], start, end) then [a[0]] else [];
      var x, y := Select(a[1..], start, end), Select(b, start, end);
      assert first + (x + y) == (first + x) + y;
    }
  }

  lemma {:induction false} SelectPicks(log: seq<Record>, start: int, end: int)
    ensures forall r :: r in Select(log, start, end) <==> r in log && InRange(r, start, end)
  {
    if log != [] {
      SelectPicks(log[1..], start, end);
      assert log == [log[0]] + log[1..];
    }
  }

  lemma {:induction false} SelectNothing(log: seq<Record>, start: int, end: int)
    ensures Select(log, start, end) == [] <==> forall i :: 0 <= i < |log| ==> !InRange(log[i], start, end)
  {
    if log != [] {
      SelectNothing(log[1..], start, end);
      assert forall i :: 1 <= i < |log| ==> log[i] == log[1..][i - 1];
    }
  }

  /** The cache gives the whole history of the range exactly when no older record of the tag lies in the range. */
  lemma CacheIsComplete(log: seq<Record>, start: int, end: int)
    ensures Select(Recent(log), start, end) == Select(log, start, end) <==>
              forall i :: 0 <= i < |log| - MAX_RECORDS ==> !InRange(log[i], start, end)
  {
    var cut := |log| - Kept(|log|);
    assert log == log[..cut] + log[cut..];
    SelectConcat(log[..cut], log[cut..], start, end);
    SelectNothing(log[..cut], start, end);
  }

  ghost predicate Ascending(log: seq<Record>) {
    forall i, j :: 0 <= i < j < |log| ==> log[i].timestamp <= log[j].timestamp
  }

  /** A clock that does not run backwards gives results ascending in time. */
  lemma {:induction false} SelectAscending(log: seq<Record>, start: int, end: int)
    requires Ascending(log)
    ensures Ascending(Select(log, start, end))
  {
    if log != [] {
      var rest := Select(log[1..], start, end);
      SelectAscending(log[1..], start, end);
      SelectPicks(log[1..], start, end);
      forall i | 0 <= i < |rest| ensures log[0].timestamp <= rest[i].timestamp {
        assert rest[i] in log[1..];
      }
    }
  }

  lemma {:induction false} OfTagAscending(log: seq<Record>, tagId: nat)
    requires Ascending(log)
    ensures forall r :: r in OfTag(log, tagId) ==> r in log && r.tagId == tagId
    ensures Ascending(OfTag(log, tagId))
  {
    if log != [] {
      OfTagAscending(log[..|log| - 1], tagId);
    }
  }

  /** A query returns the kept records of the tag from start to end, both included, ascending in time. */
  lemma QueryAscends(log: seq<Record>, tagId: nat, start: int, end: int)
    requires Ascending(log)
    ensures var kept := Recent(OfTag(log, tagId));
            && Ascending(Select(kept, start, end))
            && (forall r :: r in kept ==> r in log && r.tagId == tagId)
            && (forall r :: r in Select(kept, start, end) <==> r in kept && start <= r.timestamp <= end)
  {
    OfTagAscending(log, tagId);
    SelectPicks(Recent(OfTag(log, tagId)), start, end);
    SelectAscending(Recent(OfTag(log, tagId)), start, end);
  }
}
