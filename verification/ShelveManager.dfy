/** The shelving deadlines of ShelveManager.h. The clock is an argument; texts are not kept. */
module Shelving {

  const MAX_AUTO_SHELVE_COUNT := 3
  const RESHELVE_WINDOW_MS := 60000
  const AUTO_EXTENSION_MS := 600000
  const MAX_HISTORY := 200

  datatype ShelveRecord = ShelveRecord(tagId: nat, shelveTime: int, unshelveTime: int, durationSec: int, isAuto: bool)

  datatype Shelves = Shelves(
    deadlines: map<nat, int>,
    isAuto: map<nat, bool>,
    counts: map<nat, nat>,
    lastUnshelve: map<nat, int>,
    history: seq<ShelveRecord>)

  const NoShelves := Shelves(map[], map[], map[], map[], [])

  function Lookup<V>(m: map<nat, V>, k: nat, default: V): V {
    if k in m then m[k] else default
  }

  /** The unset unshelve time is 0. */
  predicate RecentlyUnshelved(s: Shelves, tagId: nat, now: int) {
    Lookup(s.lastUnshelve, tagId, 0) > 0 && now - Lookup(s.lastUnshelve, tagId, 0) < RESHELVE_WINDOW_MS
  }

  /** The history drops its oldest record when it is too long. */
  function Bounded(history: seq<ShelveRecord>): seq<ShelveRecord> {
    if |history| > MAX_HISTORY then history[..|history| - 1] else history
  }

  function Shelve(s: Shelves, now: int, tagId: nat, durationSec: int, auto: bool): Shelves {
    var counts := if !auto then s.counts
                  else if RecentlyUnshelved(s, tagId, now) then s.counts[tagId := Lookup(s.counts, tagId, 0) + 1]
                  else s.counts[tagId := 1];
    var t := s.(counts := counts, history := Bounded([ShelveRecord(tagId, now, 0, durationSec, auto)] + s.history));
    if durationSec > 0 then
      t.(deadlines := s.deadlines[tagId := now + durationSec * 1000], isAuto := s.isAuto[tagId := auto])
    else if durationSec < 0 then
      t.(deadlines := s.deadlines[tagId := 1], isAuto := s.isAuto[tagId := auto])
    else
      t.(deadlines := s.deadlines - {tagId}, isAuto := s.isAuto - {tagId})
  }

  /** Stamps the newest record of the tag that is still open. */
  function CloseNewest(history: seq<ShelveRecord>, tagId: nat, now: int): seq<ShelveRecord> {
    if history == [] then []
    else if history[0].tagId == tagId && history[0].unshelveTime == 0
    then [history[0].(unshelveTime := now)] + history[1..]
    else [history[0]] + CloseNewest(history[1..], tagId, now)
  }

  function Unshelve(s: Shelves, now: int, tagId: nat): Shelves {
    s.(deadlines := s.deadlines - {tagId}, isAuto := s.isAuto - {tagId},
       lastUnshelve := s.lastUnshelve[tagId := now], history := CloseNewest(s.history, tagId, now))
  }

  predicate Due(s: Shelves, now: int, tagId: nat) {
    tagId in s.deadlines && 0 < s.deadlines[tagId] <= now
  }

  predicate Extends(s: Shelves, now: int, tagId: nat) {
    Due(s, now, tagId) && Lookup(s.isAuto, tagId, false) && Lookup(s.counts, tagId, 0) >= MAX_AUTO_SHELVE_COUNT
  }

  predicate Expires(s: Shelves, now: int, tagId: nat) {
    Due(s, now, tagId) && !Extends(s, now, tagId)
  }

  /** The due tags among `seen` dropped or extended. */
  function ExpireAmong(s: Shelves, now: int, seen: set<nat>): Shelves {
    s.(deadlines := map t | t in s.deadlines && !(t in seen && Expires(s, now, t)) ::
                      if t in seen && Extends(s, now, t) then now + AUTO_EXTENSION_MS else s.deadlines[t],
       isAuto := map t | t in s.isAuto && !(t in seen && Expires(s, now, t)) :: s.isAuto[t],
       counts := map t | t in s.counts :: if t in seen && Extends(s, now, t) then s.counts[t] + 1 else s.counts[t])
  }

  function Expire(s: Shelves, now: int): Shelves {
    ExpireAmong(s, now, s.deadlines.Keys)
  }

  function Expired(s: Shelves, now: int, seen: set<nat>): set<nat> { set t | t in seen && Expires(s, now, t) }
  function Extended(s: Shelves, now: int, seen: set<nat>): set<nat> { set t | t in seen && Extends(s, now, t) }

  /** The list names each tag of the set exactly once. */
  ghost predicate Lists(list: seq<nat>, tags: set<nat>) {
    && (forall i, j :: 0 <= i < j < |list| ==> list[i] != list[j])
    && (forall t :: t in list <==> t in tags)
  }

  /** What the loop of checkExpired has done once it has visited the tags in `seen`. */
  ghost predicate Visited(s: Shelves, now: int, seen: set<nat>, t: Shelves, normal: seq<nat>, auto: seq<nat>) {
    t == ExpireAmong(s, now, seen) && Lists(normal, Expired(s, now, seen)) && Lists(auto, Extended(s, now, seen))
  }

  lemma ListsAppend(list: seq<nat>, tags: set<nat>, t: nat)
    requires Lists(list, tags) && t !in tags
    ensures Lists(list + [t], tags + {t})
  {
  }

  lemma ExpireAmongStep(s: Shelves, now: int, seen: set<nat>, t: nat)
    requires t in s.deadlines && t !in seen
    ensures var u, v := ExpireAmong(s, now, seen), ExpireAmong(s, now, seen + {t});
            && t in u.deadlines
            && (Extends(u, now, t) <==> Extends(s, now, t)) && (Due(u, now, t) <==> Due(s, now, t))
            && v == if Extends(u, now, t) then u.(deadlines := u.deadlines[t := now + AUTO_EXTENSION_MS],
                                                  counts := u.counts[t := Lookup(u.counts, t, 0) + 1])
                    else if Due(u, now, t) then u.(deadlines := u.deadlines - {t}, isAuto := u.isAuto - {t})
                    else u
  {
  }

  lemma VisitExtends(s: Shelves, now: int, seen: set<nat>, t: nat, u: Shelves, normal: seq<nat>, auto: seq<nat>)
    requires Visited(s, now, seen, u, normal, auto) && t in s.deadlines && t !in seen && Extends(u, now, t)
    ensures Visited(s, now, seen + {t},
                    u.(deadlines := u.deadlines[t := now + AUTO_EXTENSION_MS],
                       counts := u.counts[t := Lookup(u.counts, t, 0) + 1]), normal, auto + [t])
  {
    ExpireAmongStep(s, now, seen, t);
    ListsAppend(auto, Extended(s, now, seen), t);
    assert Extended(s, now, seen + {t}) == Extended(s, now, seen) + {t};
    assert Expired(s, now, seen + {t}) == Expired(s, now, seen);
  }

  lemma VisitExpires(s: Shelves, now: int, seen: set<nat>, t: nat, u: Shelves, normal: seq<nat>, auto: seq<nat>)
    requires Visited(s, now, seen, u, normal, auto) && t in s.deadlines && t !in seen && Expires(u, now, t)
    ensures Visited(s, now, seen + {t},
                    u.(deadlines := u.deadlines - {t}, isAuto := u.isAuto - {t}), normal + [t], auto)
  {
    ExpireAmongStep(s, now, seen, t);
    ListsAppend(normal, Expired(s, now, seen), t);
    assert Expired(s, now, seen + {t}) == Expired(s, now, seen) + {t};
    assert Extended(s, now, seen + {t}) == Extended(s, now, seen);
  }

  lemma VisitLeaves(s: Shelves, now: int, seen: set<nat>, t: nat, u: Shelves, normal: seq<nat>, auto: seq<nat>)
    requires Visited(s, now, seen, u, normal, auto) && t in s.deadlines && t !in seen && !Due(u, now, t)
    ensures Visited(s, now, seen + {t}, u, normal, auto)
  {
    ExpireAmongStep(s, now, seen, t);
    assert Expired(s, now, seen + {t}) == Expired(s, now, seen);
    assert Extended(s, now, seen + {t}) == Extended(s, now, seen);
  }

  lemma {:induction false} ClosesAt(history: seq<ShelveRecord>, i: nat, tagId: nat, now: int)
    requires i <= |history|
    requires forall k :: 0 <= k < i ==> history[k].tagId != tagId || history[k].unshelveTime != 0
    requires i < |history| ==> history[i].tagId == tagId && history[i].unshelveTime == 0
    ensures CloseNewest(history, tagId, now) ==
              if i < |history| then history[i := history[i].(unshelveTime := now)] else history
  {
    if i > 0 {
      ClosesAt(history[1..], i - 1, tagId, now);
    }
  }

  // ---- The class ----

  class ShelveManager {
    var deadlines: map<nat, int>
    var isAuto: map<nat, bool>
    var shelveCount: map<nat, nat>
    var lastUnshelve: map<nat, int>
    var history: seq<ShelveRecord>

    ghost function State(): Shelves
      reads this
    {
      Shelves(deadlines, isAuto, shelveCount, lastUnshelve, history)
    }

    constructor ()
      ensures State() == NoShelves
    {
      deadlines, isAuto, shelveCount, lastUnshelve, history := map[], map[], map[], map[], [];
    }

    method ShelveTag(now: int, tagId: nat, durationSec: int, auto: bool)
      modifies this
      ensures State() == Shelve(old(State()), now, tagId, durationSec, auto)
    {
      if auto {
        var last := Lookup(lastUnshelve, tagId, 0);
        if last > 0 && now - last < RESHELVE_WINDOW_MS {
          shelveCount := shelveCount[tagId := Lookup(shelveCount, tagId, 0) + 1];
        } else {
          shelveCount := shelveCount[tagId := 1];
        }
      }
      history := [ShelveRecord(tagId, now, 0, durationSec, auto)] + history;
      if |history| > MAX_HISTORY {
        history := history[..|history| - 1];
      }
      if durationSec > 0 {
        deadlines := deadlines[tagId := now + durationSec * 1000];
        isAuto := isAuto[tagId := auto];
      } else if durationSec < 0 {
        deadlines := deadlines[tagId := 1];
        isAuto := isAuto[tagId := auto];
      } else {
        deadlines := deadlines - {tagId};
        isAuto := isAuto - {tagId};
      }
    }

    method UnshelveTag(now: int, tagId: nat)
      modifies this
      ensures State() == Unshelve(old(State()), now, tagId)
    {
      deadlines := deadlines - {tagId};
      isAuto := isAuto - {tagId};
      lastUnshelve := lastUnshelve[tagId := now];
      var i := 0;
      while i < |history|
        invariant 0 <= i <= |history| && history == old(history)
        invariant forall k :: 0 <= k < i ==> history[k].tagId != tagId || history[k].unshelveTime != 0
      {
        if history[i].tagId == tagId && history[i].unshelveTime == 0 {
          ClosesAt(history, i, tagId, now);
          history := history[i := history[i].(unshelveTime := now)];
          return;
        }
        i := i + 1;
      }
      ClosesAt(history, i, tagId, now);
    }

    method CheckExpired(now: int) returns (normalExpired: seq<nat>, autoExtend: seq<nat>)
      modifies this
      ensures State() == Expire(old(State()), now)
      ensures Lists(normalExpired, Expired(old(State()), now, old(deadlines).Keys))
      ensures Lists(autoExtend, Extended(old(State()), now, old(deadlines).Keys))
    {
      normalExpired, autoExtend := [], [];
      ghost var s := State();
      ghost var seen: set<nat> := {};
      var todo := deadlines.Keys;
      while todo != {}
        invariant todo !! seen && todo + seen == s.deadlines.Keys && todo <= deadlines.Keys
        invariant Visited(s, now, seen, State(), normalExpired, autoExtend)
        decreases todo
      {
        var t :| t in todo;
        ghost var u := State();
        if deadlines[t] > 0 && now >= deadlines[t] {
          if Lookup(isAuto, t, false) && Lookup(shelveCount, t, 0) >= MAX_AUTO_SHELVE_COUNT {
            VisitExtends(s, now, seen, t, u, normalExpired, autoExtend);
            autoExtend := autoExtend + [t];
            deadlines := deadlines[t := now + AUTO_EXTENSION_MS];
            shelveCount := shelveCount[t := Lookup(shelveCount, t, 0) + 1];
          } else {
            VisitExpires(s, now, seen, t, u, normalExpired, autoExtend);
            normalExpired := normalExpired + [t];
            deadlines := deadlines - {t};
            isAuto := isAuto - {t};
          }
        } else {
          VisitLeaves(s, now, seen, t, u, normalExpired, autoExtend);
        }
        todo, seen := todo - {t}, seen + {t};
      }
      assert seen == s.deadlines.Keys;
    }
  }

  // ---- Runs ----

  datatype Op =
    | OpShelve(time: int, tagId: nat, durationSec: int, auto: bool)
    | OpUnshelve(time: int, tagId: nat)
    | OpCheck(time: int)

  function Apply(s: Shelves, op: Op): Shelves {
    match op
    case OpShelve(time, tagId, durationSec, auto) => Shelve(s, time, tagId, durationSec, auto)
    case OpUnshelve(time, tagId) => Unshelve(s, time, tagId)
    case OpCheck(time) => Expire(s, time)
  }

  ghost predicate Run(states: seq<Shelves>, ops: seq<Op>) {
    && |states| == |ops| + 1 && states[0] == NoShelves
    && (forall k :: 0 <= k < |ops| ==> states[k + 1] == Apply(states[k], ops[k]))
    && (forall k :: 0 <= k < |ops| ==> 0 < ops[k].time)
    && (forall i, j :: 0 <= i <= j < |ops| ==> ops[i].time <= ops[j].time)
  }

  function TimeBefore(ops: seq<Op>, k: nat): int
    requires k <= |ops|
  {
    if k == 0 then 0 else ops[k - 1].time
  }

  ghost predicate HistoryInv(history: seq<ShelveRecord>, now: int) {
    && |history| <= MAX_HISTORY
    && (forall i, j :: 0 <= i < j < |history| ==> history[i].shelveTime >= history[j].shelveTime)
    && (forall i :: 0 <= i < |history| ==> history[i].shelveTime <= now)
    && (forall i :: 0 <= i < |history| && history[i].unshelveTime != 0 ==>
          history[i].shelveTime <= history[i].unshelveTime <= now)
  }

  ghost predicate Inv(s: Shelves, now: int) {
    && s.deadlines.Keys == s.isAuto.Keys
    && (forall t :: t in s.deadlines ==> s.deadlines[t] > 0)
    && HistoryInv(s.history, now)
  }

  lemma {:induction false} CloseNewestKeeps(history: seq<ShelveRecord>, tagId: nat, now: int)
    ensures |CloseNewest(history, tagId, now)| == |history|
    ensures forall i :: 0 <= i < |history| ==>
              var r, r' := history[i], CloseNewest(history, tagId, now)[i];
              r' == r || (r.unshelveTime == 0 && r.tagId == tagId && r' == r.(unshelveTime := now))
  {
    if history != [] {
      CloseNewestKeeps(history[1..], tagId, now);
    }
  }

  lemma HistoryGrows(history: seq<ShelveRecord>, then': int, r: ShelveRecord)
    requires HistoryInv(history, then') && then' <= r.shelveTime && r.unshelveTime == 0
    ensures HistoryInv(Bounded([r] + history), r.shelveTime)
  {
  }

  lemma HistoryCloses(history: seq<ShelveRecord>, then': int, tagId: nat, now: int)
    requires HistoryInv(history, then') && then' <= now && 0 < now
    ensures HistoryInv(CloseNewest(history, tagId, now), now)
  {
    CloseNewestKeeps(history, tagId, now);
  }

  lemma HistoryStep(s: Shelves, then': int, op: Op)
    requires HistoryInv(s.history, then') && 0 <= then' <= op.time && 0 < op.time
    ensures HistoryInv(Apply(s, op).history, op.time)
  {
    match op
    case OpShelve(time, tagId, durationSec, auto) =>
      var r := ShelveRecord(tagId, time, 0, durationSec, auto);
      HistoryGrows(s.history, then', r);
      assert Apply(s, op).history == Bounded([r] + s.history);
    case OpUnshelve(time, tagId) =>
      HistoryCloses(s.history, then', tagId, time);
    case OpCheck(_) =>
  }

  lemma ApplyInv(s: Shelves, then': int, op: Op)
    requires Inv(s, then') && 0 <= then' <= op.time && 0 < op.time
    ensures Inv(Apply(s, op), op.time)
  {
    HistoryStep(s, then', op);
    var t := Apply(s, op);
    assert t.deadlines.Keys == t.isAuto.Keys;
  }

  /** Deadlines and automatic marks always cover the same tags; the history stays newest first and bounded. */
  lemma {:induction false} RunInv(states: seq<Shelves>, ops: seq<Op>, k: nat)
    requires Run(states, ops) && k <= |ops|
    ensures states[k].deadlines.Keys == states[k].isAuto.Keys && HistoryInv(states[k].history, TimeBefore(ops, k))
    ensures Inv(states[k], TimeBefore(ops, k))
  {
    if k > 0 {
      RunInv(states, ops, k - 1);
      ApplyInv(states[k - 1], TimeBefore(ops, k - 1), ops[k - 1]);
    }
  }

  /** The records after one more operation, without the bound. */
  function Logged(all: seq<ShelveRecord>, op: Op): seq<ShelveRecord> {
    match op
    case OpShelve(time, tagId, durationSec, auto) => [ShelveRecord(tagId, time, 0, durationSec, auto)] + all
    case OpUnshelve(time, tagId) => CloseNewest(all, tagId, time)
    case OpCheck(_) => all
  }

  function Log(ops: seq<Op>, k: nat): seq<ShelveRecord>
    requires k <= |ops|
  {
    if k == 0 then [] else Logged(Log(ops, k - 1), ops[k - 1])
  }

  function Newest(all: seq<ShelveRecord>): seq<ShelveRecord> {
    if |all| > 200 then all[..200] else all
  }

  lemma {:induction false} ClosesAlike(all: seq<ShelveRecord>, n: nat, tagId: nat, now: int)
    requires n <= |all|
    ensures |CloseNewest(all, tagId, now)| == |all|
    ensures CloseNewest(all[..n], tagId, now) == CloseNewest(all, tagId, now)[..n]
  {
    if all != [] {
      assert all == [all[0]] + all[1..];
      if n > 0 {
        assert all[..n][1..] == all[1..][..n - 1];
        ClosesAlike(all[1..], n - 1, tagId, now);
      } else {
        ClosesAlike(all[1..], 0, tagId, now);
      }
    }
  }

  lemma ClosesNewest(all: seq<ShelveRecord>, tagId: nat, now: int)
    ensures CloseNewest(Newest(all), tagId, now) == Newest(CloseNewest(all, tagId, now))
  {
    ClosesAlike(all, if |all| > 200 then 200 else |all|, tagId, now);
    assert all[..|all|] == all;
  }

  lemma NewestStays(r: ShelveRecord, all: seq<ShelveRecord>)
    ensures Bounded([r] + Newest(all)) == Newest([r] + all)
  {
  }

  lemma LoggedStep(s: Shelves, op: Op, all: seq<ShelveRecord>)
    requires s.history == Newest(all)
    ensures Apply(s, op).history == Newest(Logged(all, op))
  {
    match op
    case OpShelve(time, tagId, durationSec, auto) =>
      var r := ShelveRecord(tagId, time, 0, durationSec, auto);
      NewestStays(r, all);
      assert Apply(s, op).history == Bounded([r] + s.history);
    case OpUnshelve(time, tagId) => ClosesNewest(all, tagId, time);
    case OpCheck(_) =>
  }

  /** The history has the newest two hundred of all records. */
  lemma {:induction false} HistoryIsNewest(states: seq<Shelves>, ops: seq<Op>, k: nat)
    requires Run(states, ops) && k <= |ops|
    ensures states[k].history == Newest(Log(ops, k))
  {
    if k > 0 {
      HistoryIsNewest(states, ops, k - 1);
      LoggedStep(states[k - 1], ops[k - 1], Log(ops, k - 1));
    }
  }

  /** After checkExpired every remaining deadline lies in the future, each due tag was either dropped or
      extended, and nothing else changed its deadline. */
  lemma CheckLeavesFuture(states: seq<Shelves>, ops: seq<Op>, k: nat, tagId: nat)
    requires Run(states, ops) && k < |ops| && ops[k].OpCheck?
    ensures var s, t, now := states[k], states[k + 1], ops[k].time;
            && (tagId in t.deadlines ==> t.deadlines[tagId] > now)
            && (tagId in s.deadlines && s.deadlines[tagId] <= now ==>
                  if Lookup(s.isAuto, tagId, false) && Lookup(s.counts, tagId, 0) >= 3
                  then tagId in t.deadlines && t.deadlines[tagId] == now + 600000
                    && Lookup(t.counts, tagId, 0) == Lookup(s.counts, tagId, 0) + 1
                  else tagId !in t.deadlines)
            && (tagId in s.deadlines && s.deadlines[tagId] > now ==>
                  tagId in t.deadlines && t.deadlines[tagId] == s.deadlines[tagId])
  {
    RunInv(states, ops, k);
  }

  /** The tag was last unshelved at step u, or never. */
  ghost predicate LastUnshelved(ops: seq<Op>, tagId: nat, u: int, k: nat)
    requires k <= |ops|
  {
    && -1 <= u < k && (u >= 0 ==> ops[u].OpUnshelve? && ops[u].tagId == tagId)
    && forall i :: u < i < k ==> !(ops[i].OpUnshelve? && ops[i].tagId == tagId)
  }

  lemma {:induction false} LastUnshelveIs(states: seq<Shelves>, ops: seq<Op>, tagId: nat, u: int, k: nat)
    requires Run(states, ops) && k <= |ops| && LastUnshelved(ops, tagId, u, k)
    ensures Lookup(states[k].lastUnshelve, tagId, 0) == if u >= 0 then ops[u].time else 0
  {
    if k > 0 && u < k - 1 {
      LastUnshelveIs(states, ops, tagId, u, k - 1);
    }
  }

  /** An automatic shelve adds to the count if the tag was unshelved less than 60 s before, and starts at one otherwise;
      a shelve by hand does not count. */
  lemma ShelveCounts(states: seq<Shelves>, ops: seq<Op>, k: nat, u: int)
    requires Run(states, ops) && k < |ops| && ops[k].OpShelve? && LastUnshelved(ops, ops[k].tagId, u, k)
    ensures var t := ops[k].tagId;
            Lookup(states[k + 1].counts, t, 0) ==
              if !ops[k].auto then Lookup(states[k].counts, t, 0)
              else if u >= 0 && ops[k].time - ops[u].time < 60000 then Lookup(states[k].counts, t, 0) + 1
              else 1
    ensures forall t :: t != ops[k].tagId ==> Lookup(states[k + 1].counts, t, 0) == Lookup(states[k].counts, t, 0)
  {
    LastUnshelveIs(states, ops, ops[k].tagId, u, k);
  }

  /** The shelve that brought a tag's count to n. */
  lemma {:induction false} StrikeAt(states: seq<Shelves>, ops: seq<Op>, k: nat, tagId: nat, n: nat) returns (i: nat)
    requires Run(states, ops) && k <= |ops| && 1 <= n <= MAX_AUTO_SHELVE_COUNT
    requires Lookup(states[k].counts, tagId, 0) >= n
    ensures i < k && ops[i].OpShelve? && ops[i].auto && ops[i].tagId == tagId
    ensures n >= 2 ==> Lookup(states[i].counts, tagId, 0) >= n - 1 && RecentlyUnshelved(states[i], tagId, ops[i].time)
  {
    assert k > 0;
    if Lookup(states[k - 1].counts, tagId, 0) >= n {
      i := StrikeAt(states, ops, k - 1, tagId, n);
    } else {
      i := k - 1;
    }
  }

  lemma {:induction false} UnshelveOf(states: seq<Shelves>, ops: seq<Op>, k: nat, tagId: nat) returns (u: nat)
    requires Run(states, ops) && k <= |ops| && Lookup(states[k].lastUnshelve, tagId, 0) > 0
    ensures u < k && ops[u].OpUnshelve? && ops[u].tagId == tagId && ops[u].time == states[k].lastUnshelve[tagId]
  {
    assert k > 0;
    if ops[k - 1].OpUnshelve? && ops[k - 1].tagId == tagId {
      u := k - 1;
    } else {
      u := UnshelveOf(states, ops, k - 1, tagId);
    }
  }

  /** checkExpired extends a tag only after three automatic shelves of it, the second and the third of which
      came less than 60 s after it had been unshelved. */
  lemma ExtensionNeedsThreeShelves(states: seq<Shelves>, ops: seq<Op>, k: nat, tagId: nat)
    returns (a: nat, b: nat, c: nat, u: nat, v: nat)
    requires Run(states, ops) && k < |ops| && ops[k].OpCheck? && Extends(states[k], ops[k].time, tagId)
    ensures a < b < c < k && u < b && v < c
    ensures forall i :: i in [a, b, c] ==> ops[i].OpShelve? && ops[i].auto && ops[i].tagId == tagId
    ensures ops[u] == OpUnshelve(ops[u].time, tagId) && ops[b].time - ops[u].time < RESHELVE_WINDOW_MS
    ensures ops[v] == OpUnshelve(ops[v].time, tagId) && ops[c].time - ops[v].time < RESHELVE_WINDOW_MS
  {
    c := StrikeAt(states, ops, k, tagId, 3);
    b := StrikeAt(states, ops, c, tagId, 2);
    a := StrikeAt(states, ops, b, tagId, 1);
    u := UnshelveOf(states, ops, b, tagId);
    v := UnshelveOf(states, ops, c, tagId);
  }
}
