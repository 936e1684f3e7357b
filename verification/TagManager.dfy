/** The tag table of tagmanager.cpp and its three indexes. A tag is found by name, by Modbus address and by
    device; texts other than the name are not kept. */
module TagManagement {
  import opened Wrappers
  import opened Bits

  /** Ids and address keys are unsigned 32-bit integers; the address fields of a tag are ints. */
  type Id = x: int | 0 <= x < 0x1_0000_0000

  datatype Tag = Tag(
    tagId: Id, tagName: string, server: int, register: int,
    highHigh: real, high: real, low: real, lowLow: real, deadband: real,
    engLow: real, engHigh: real)

  datatype AlarmLimits = AlarmLimits(highHigh: real, high: real, low: real, lowLow: real, deadband: real)

  datatype Table = Table(
    tags: map<Id, Tag>,
    names: map<string, Id>,
    addresses: map<nat, Id>,
    devices: map<int, seq<Id>>)

  const EmptyTable := Table(map[], map[], map[], map[])

  const HALF := 16

  /** Both fields cast to 32 bits, the server shifted up by 16 and combined with the register bit by bit: the low
      halves stay apart, the server's low half meets the register's high half. */
  function Key(server: int, register: int): nat {
    var r := register % 0x1_0000_0000;
    Or(server % 0x1_0000, r / 0x1_0000, HALF) * 0x1_0000 + r % 0x1_0000
  }

  function KeyOf(tag: Tag): nat {
    Key(tag.server, tag.register)
  }

  /** The top eight bits of an id. */
  function DeviceOf(id: Id): int {
    id / 0x100_0000
  }

  lemma OrZeroHalf(a: nat)
    requires a < 0x1_0000
    ensures Or(a, 0, HALF) == a
  {
    assert Power(8) == 0x100 && Power(12) == 0x1000 && Power(16) == 0x1_0000;
    OrZero(a, HALF);
  }

  lemma SmallHalves(server: nat, register: nat)
    requires server < 0x1_0000 && register < 0x1_0000
    ensures server % 0x1_0000 == server
    ensures register % 0x1_0000_0000 == register && register / 0x1_0000 == 0 && register % 0x1_0000 == register
  {
  }

  lemma SmallKey(server: nat, register: nat)
    requires server < 0x1_0000 && register < 0x1_0000
    ensures Key(server, register) == server * 0x1_0000 + register
  {
    SmallHalves(server, register);
    OrZeroHalf(server);
    calc {
      Key(server, register);
    ==
      Or(server, 0, HALF) * 0x1_0000 + register;
    ==
      server * 0x1_0000 + register;
    }
  }

  /** Two addresses of 16 bits each share a key only if they are the same address. */
  lemma KeyDistinguishes(server: nat, register: nat, server': nat, register': nat)
    requires server < 0x1_0000 && server' < 0x1_0000 && register < 0x1_0000 && register' < 0x1_0000
    requires Key(server, register) == Key(server', register')
    ensures server == server' && register == register'
  {
    SmallKey(server, register);
    SmallKey(server', register');
  }

  function RemoveOne(ids: seq<Id>, id: Id): seq<Id> {
    if ids == [] then []
    else if ids[0] == id then ids[1..]
    else [ids[0]] + RemoveOne(ids[1..], id)
  }

  // ---- The operations ----

  function Add(t: Table, tag: Tag): Table {
    if tag.tagId in t.tags then t
    else
      var d := DeviceOf(tag.tagId);
      Table(t.tags[tag.tagId := tag], t.names[tag.tagName := tag.tagId], t.addresses[KeyOf(tag) := tag.tagId],
            t.devices[d := (if d in t.devices then t.devices[d] else []) + [tag.tagId]])
  }

  function Remove(t: Table, id: Id): Table {
    if id !in t.tags then t
    else
      var tag, d := t.tags[id], DeviceOf(id);
      Table(t.tags - {id}, t.names - {tag.tagName}, t.addresses - {KeyOf(tag)}, WithoutDevice(t.devices, d, id))
  }

  function WithoutDevice(devices: map<int, seq<Id>>, d: int, id: Id): map<int, seq<Id>> {
    if d !in devices then devices
    else
      var left := RemoveOne(devices[d], id);
      if left == [] then devices - {d} else devices[d := left]
  }

  function Update(t: Table, id: Id, tag: Tag): Table {
    if id !in t.tags then t
    else
      var was := t.tags[id];
      Table(t.tags[id := tag],
            if was.tagName != tag.tagName then (t.names - {was.tagName})[tag.tagName := id] else t.names,
            if KeyOf(was) != KeyOf(tag) then (t.addresses - {KeyOf(was)})[KeyOf(tag) := id] else t.addresses,
            t.devices)
  }

  function SetLimits(t: Table, id: Id, l: AlarmLimits): Table {
    if id !in t.tags then t
    else t.(tags := t.tags[id := t.tags[id].(highHigh := l.highHigh, high := l.high, low := l.low, lowLow := l.lowLow,
                                            deadband := l.deadband)])
  }

  function SetRange(t: Table, id: Id, engLow: real, engHigh: real): Table {
    if id !in t.tags then t else t.(tags := t.tags[id := t.tags[id].(engLow := engLow, engHigh := engHigh)])
  }

  function AddAll(t: Table, tags: seq<Tag>): Table {
    if tags == [] then t else Add(AddAll(t, tags[..|tags| - 1]), tags[|tags| - 1])
  }

  // ---- The class ----

  class TagManager {
    var tags: map<Id, Tag>
    var nameIndex: map<string, Id>
    var modbusAddrIndex: map<nat, Id>
    var deviceIndex: map<int, seq<Id>>

    ghost function State(): Table
      reads this
    {
      Table(tags, nameIndex, modbusAddrIndex, deviceIndex)
    }

    constructor ()
      ensures State() == EmptyTable
    {
      tags, nameIndex, modbusAddrIndex, deviceIndex := map[], map[], map[], map[];
    }

    method AddTag(tag: Tag) returns (added: bool)
      modifies this
      ensures State() == Add(old(State()), tag) && added == (tag.tagId !in old(tags))
    {
      if tag.tagId in tags {
        return false;
      }
      tags := tags[tag.tagId := tag];
      nameIndex := nameIndex[tag.tagName := tag.tagId];
      modbusAddrIndex := modbusAddrIndex[KeyOf(tag) := tag.tagId];
      var d := DeviceOf(tag.tagId);
      if d !in deviceIndex {
        deviceIndex := deviceIndex[d := []];
      }
      deviceIndex := deviceIndex[d := deviceIndex[d] + [tag.tagId]];
      return true;
    }

    method RemoveTag(id: Id) returns (removed: bool)
      modifies this
      ensures State() == Remove(old(State()), id) && removed == (id in old(tags))
    {
      if id !in tags {
        return false;
      }
      nameIndex := nameIndex - {tags[id].tagName};
      modbusAddrIndex := modbusAddrIndex - {KeyOf(tags[id])};
      var d := DeviceOf(id);
      if d in deviceIndex {
        deviceIndex := deviceIndex[d := RemoveOne(deviceIndex[d], id)];
        if deviceIndex[d] == [] {
          deviceIndex := deviceIndex - {d};
        }
      }
      tags := tags - {id};
      return true;
    }

    method UpdateTag(id: Id, tag: Tag) returns (updated: bool)
      modifies this
      ensures State() == Update(old(State()), id, tag) && updated == (id in old(tags))
    {
      if id !in tags {
        return false;
      }
      var was := tags[id];
      if was.tagName != tag.tagName {
        nameIndex := nameIndex - {was.tagName};
        nameIndex := nameIndex[tag.tagName := id];
      }
      if KeyOf(was) != KeyOf(tag) {
        modbusAddrIndex := modbusAddrIndex - {KeyOf(was)};
        modbusAddrIndex := modbusAddrIndex[KeyOf(tag) := id];
      }
      tags := tags[id := tag];
      return true;
    }

    method UpdateAlarmLimits(id: Id, limits: AlarmLimits) returns (updated: bool)
      modifies this
      ensures State() == SetLimits(old(State()), id, limits) && updated == (id in old(tags))
    {
      if id !in tags {
        return false;
      }
      tags := tags[id := tags[id].(highHigh := limits.highHigh, high := limits.high, low := limits.low,
                                   lowLow := limits.lowLow, deadband := limits.deadband)];
      return true;
    }

    method UpdateRange(id: Id, engLow: real, engHigh: real) returns (updated: bool)
      modifies this
      ensures State() == SetRange(old(State()), id, engLow, engHigh) && updated == (id in old(tags))
    {
      if id !in tags {
        return false;
      }
      tags := tags[id := tags[id].(engLow := engLow, engHigh := engHigh)];
      return true;
    }

    method AddTags(list: seq<Tag>)
      modifies this
      ensures State() == AddAll(old(State()), list)
    {
      var i := 0;
      while i < |list|
        invariant 0 <= i <= |list|
        invariant State() == AddAll(old(State()), list[..i])
      {
        assert list[..i + 1][..i] == list[..i];
        var _ := AddTag(list[i]);
        i := i + 1;
      }
      assert list[..i] == list;
    }

    method Clear()
      modifies this
      ensures State() == EmptyTable
    {
      tags, nameIndex, modbusAddrIndex, deviceIndex := map[], map[], map[], map[];
    }

    /** The tag of an id; none stands for the default tag the source hands out. */
    method GetTag(id: Id) returns (tag: Option<Tag>)
      ensures tag == FindById(State(), id)
    {
      return if id in tags then Some(tags[id]) else None;
    }

    /** A missing name reads as id 0. */
    method GetTagByName(name: string) returns (tag: Option<Tag>)
      ensures tag == FindByName(State(), name)
    {
      var id := if name in nameIndex then nameIndex[name] else 0;
      tag := GetTag(id);
    }

    /** The id at an address, or 0. */
    method FindTagByModbusAddr(server: int, register: int) returns (id: Id)
      ensures id == FindByAddress(State(), server, register)
    {
      var key := Key(server, register);
      return if key in modbusAddrIndex then modbusAddrIndex[key] else 0;
    }

    /** The limits of a tag, or the defaults. */
    method GetAlarmLimits(id: Id) returns (limits: AlarmLimits)
      ensures limits == LimitsOf(State(), id)
    {
      if id in tags {
        var tag := tags[id];
        return AlarmLimits(tag.highHigh, tag.high, tag.low, tag.lowLow, tag.deadband);
      }
      return AlarmLimits(90.0, 80.0, 10.0, 5.0, 1.0);
    }

    method GetTagsByDevice(d: int) returns (ids: seq<Id>)
      ensures ids == ListOf(State(), d)
    {
      return if d in deviceIndex then deviceIndex[d] else [];
    }
  }

  function FindById(t: Table, id: Id): Option<Tag> {
    if id in t.tags then Some(t.tags[id]) else None
  }

  function FindByName(t: Table, name: string): Option<Tag> {
    FindById(t, if name in t.names then t.names[name] else 0)
  }

  function FindByAddress(t: Table, server: int, register: int): Id {
    var key := Key(server, register);
    if key in t.addresses then t.addresses[key] else 0
  }

  function LimitsOf(t: Table, id: Id): AlarmLimits {
    if id in t.tags then
      var tag := t.tags[id];
      AlarmLimits(tag.highHigh, tag.high, tag.low, tag.lowLow, tag.deadband)
    else AlarmLimits(90.0, 80.0, 10.0, 5.0, 1.0)
  }

  function ListOf(t: Table, d: int): seq<Id> {
    if d in t.devices then t.devices[d] else []
  }

  // ---- Runs ----

  datatype Op =
    | OpAdd(tag: Tag)
    | OpRemove(id: Id)
    | OpUpdate(id: Id, tag: Tag)
    | OpSetLimits(id: Id, limits: AlarmLimits)
    | OpSetRange(id: Id, engLow: real, engHigh: real)
    | OpClear

  function Apply(t: Table, op: Op): Table {
    match op
    case OpAdd(tag) => Add(t, tag)
    case OpRemove(id) => Remove(t, id)
    case OpUpdate(id, tag) => Update(t, id, tag)
    case OpSetLimits(id, limits) => SetLimits(t, id, limits)
    case OpSetRange(id, engLow, engHigh) => SetRange(t, id, engLow, engHigh)
    case OpClear => EmptyTable
  }

  ghost predicate Run(tables: seq<Table>, ops: seq<Op>) {
    && |tables| == |ops| + 1 && tables[0] == EmptyTable
    && (forall k :: 0 <= k < |ops| ==> tables[k + 1] == Apply(tables[k], ops[k]))
  }

  // ---- One index: labels of live ids, and the index from a label to an id ----

  /** An indexed label leads to a live id that carries it. */
  ghost predicate Sound<K>(labels: map<Id, K>, index: map<K, Id>) {
    forall k :: k in index ==> index[k] in labels && labels[index[k]] == k
  }

  /** Every live id is found under its label. */
  ghost predicate Complete<K>(labels: map<Id, K>, index: map<K, Id>) {
    forall id :: id in labels ==> labels[id] in index && index[labels[id]] == id
  }

  ghost predicate Unique<K>(labels: map<Id, K>) {
    forall i, j :: i in labels && j in labels && labels[i] == labels[j] ==> i == j
  }

  lemma PutKeeps<K>(labels: map<Id, K>, index: map<K, Id>, id: Id, k: K)
    requires Sound(labels, index) && id !in labels
    ensures Sound(labels[id := k], index[k := id])
    ensures Complete(labels, index) && Unique(labels[id := k]) ==> Complete(labels[id := k], index[k := id])
  {
    var after := labels[id := k];
    if Complete(labels, index) && Unique(after) {
      forall j | j in labels ensures labels[j] != k {
        assert after[j] == labels[j] && after[id] == k;
      }
    }
  }

  lemma DropKeeps<K>(labels: map<Id, K>, index: map<K, Id>, id: Id)
    requires Sound(labels, index) && id in labels
    ensures Sound(labels - {id}, index - {labels[id]})
    ensures Complete(labels, index) ==> Complete(labels - {id}, index - {labels[id]})
  {
  }

  lemma RelabelKeeps<K>(labels: map<Id, K>, index: map<K, Id>, id: Id, k: K)
    requires Sound(labels, index) && id in labels && labels[id] != k
    ensures Sound(labels[id := k], (index - {labels[id]})[k := id])
    ensures Complete(labels, index) && Unique(labels[id := k]) ==>
              Complete(labels[id := k], (index - {labels[id]})[k := id])
  {
    var after := labels[id := k];
    if Complete(labels, index) && Unique(after) {
      forall j | j in labels && j != id ensures labels[j] != k && labels[j] != labels[id] {
        assert after[j] == labels[j] && after[id] == k;
        assert index[labels[j]] == j && index[labels[id]] == id;
      }
    }
  }

  // ---- The name and the address index ----

  function Names(t: Table): map<Id, string> {
    map id | id in t.tags :: t.tags[id].tagName
  }

  function Addresses(t: Table): map<Id, nat> {
    map id | id in t.tags :: KeyOf(t.tags[id])
  }

  ghost predicate NamesKept(t: Table, u: Table) {
    && Sound(Names(u), u.names)
    && (Complete(Names(t), t.names) && Unique(Names(u)) ==> Complete(Names(u), u.names))
  }

  ghost predicate AddressesKept(t: Table, u: Table) {
    && Sound(Addresses(u), u.addresses)
    && (Complete(Addresses(t), t.addresses) && Unique(Addresses(u)) ==> Complete(Addresses(u), u.addresses))
  }

  lemma AddNames(t: Table, tag: Tag)
    requires Sound(Names(t), t.names)
    ensures NamesKept(t, Add(t, tag))
  {
    if tag.tagId !in t.tags {
      PutKeeps(Names(t), t.names, tag.tagId, tag.tagName);
      assert Names(Add(t, tag)) == Names(t)[tag.tagId := tag.tagName];
    }
  }

  lemma RemoveNames(t: Table, id: Id)
    requires Sound(Names(t), t.names)
    ensures NamesKept(t, Remove(t, id))
  {
    if id in t.tags {
      DropKeeps(Names(t), t.names, id);
      assert Names(Remove(t, id)) == Names(t) - {id};
    }
  }

  lemma UpdateNames(t: Table, id: Id, tag: Tag)
    requires Sound(Names(t), t.names)
    ensures NamesKept(t, Update(t, id, tag))
  {
    if id in t.tags {
      assert Names(Update(t, id, tag)) == Names(t)[id := tag.tagName];
      if Names(t)[id] != tag.tagName {
        RelabelKeeps(Names(t), t.names, id, tag.tagName);
      } else {
        assert Names(t)[id := tag.tagName] == Names(t);
      }
    }
  }

  lemma ApplyNames(t: Table, op: Op)
    requires Sound(Names(t), t.names)
    ensures NamesKept(t, Apply(t, op))
  {
    match op
    case OpAdd(tag) => AddNames(t, tag);
    case OpRemove(id) => RemoveNames(t, id);
    case OpUpdate(id, tag) => UpdateNames(t, id, tag);
    case OpSetLimits(id, limits) => assert Names(SetLimits(t, id, limits)) == Names(t);
    case OpSetRange(id, engLow, engHigh) => assert Names(SetRange(t, id, engLow, engHigh)) == Names(t);
    case OpClear =>
  }

  lemma AddAddresses(t: Table, tag: Tag)
    requires Sound(Addresses(t), t.addresses)
    ensures AddressesKept(t, Add(t, tag))
  {
    if tag.tagId !in t.tags {
      PutKeeps(Addresses(t), t.addresses, tag.tagId, KeyOf(tag));
      assert Addresses(Add(t, tag)) == Addresses(t)[tag.tagId := KeyOf(tag)];
    }
  }

  lemma RemoveAddresses(t: Table, id: Id)
    requires Sound(Addresses(t), t.addresses)
    ensures AddressesKept(t, Remove(t, id))
  {
    if id in t.tags {
      DropKeeps(Addresses(t), t.addresses, id);
      assert Addresses(Remove(t, id)) == Addresses(t) - {id};
    }
  }

  lemma UpdateAddresses(t: Table, id: Id, tag: Tag)
    requires Sound(Addresses(t), t.addresses)
    ensures AddressesKept(t, Update(t, id, tag))
  {
    if id in t.tags {
      assert Addresses(Update(t, id, tag)) == Addresses(t)[id := KeyOf(tag)];
      if Addresses(t)[id] != KeyOf(tag) {
        RelabelKeeps(Addresses(t), t.addresses, id, KeyOf(tag));
      } else {
        assert Addresses(t)[id := KeyOf(tag)] == Addresses(t);
      }
    }
  }

  lemma ApplyAddresses(t: Table, op: Op)
    requires Sound(Addresses(t), t.addresses)
    ensures AddressesKept(t, Apply(t, op))
  {
    match op
    case OpAdd(tag) => AddAddresses(t, tag);
    case OpRemove(id) => RemoveAddresses(t, id);
    case OpUpdate(id, tag) => UpdateAddresses(t, id, tag);
    case OpSetLimits(id, limits) => assert Addresses(SetLimits(t, id, limits)) == Addresses(t);
    case OpSetRange(id, engLow, engHigh) => assert Addresses(SetRange(t, id, engLow, engHigh)) == Addresses(t);
    case OpClear =>
  }

  // ---- The device index ----

  ghost predicate NoRepeats(ids: seq<Id>) {
    forall i, j :: 0 <= i < j < |ids| ==> ids[i] != ids[j]
  }

  /** The lists partition the ids: each once, under its own device, and no list is empty. */
  ghost predicate Partition(ids: set<Id>, devices: map<int, seq<Id>>) {
    && (forall d :: d in devices ==> devices[d] != [] && NoRepeats(devices[d]))
    && (forall d, id :: d in devices && id in devices[d] ==> id in ids && DeviceOf(id) == d)
    && (forall id :: id in ids ==> DeviceOf(id) in devices && id in devices[DeviceOf(id)])
  }

  lemma {:induction false} RemoveOneRemoves(ids: seq<Id>, id: Id)
    requires NoRepeats(ids)
    ensures NoRepeats(RemoveOne(ids, id))
    ensures forall x :: x in RemoveOne(ids, id) <==> x in ids && x != id
  {
    if ids != [] && ids[0] != id {
      RemoveOneRemoves(ids[1..], id);
      var rest := RemoveOne(ids[1..], id);
      assert RemoveOne(ids, id) == [ids[0]] + rest;
      forall j | 0 <= j < |rest| ensures rest[j] != ids[0] {
        assert rest[j] in ids[1..];
      }
    }
  }

  lemma PutPartitions(ids: set<Id>, devices: map<int, seq<Id>>, d: int, id: Id)
    requires Partition(ids, devices) && id !in ids && d == DeviceOf(id)
    ensures Partition(ids + {id}, devices[d := (if d in devices then devices[d] else []) + [id]])
  {
  }

  lemma DropPartitions(ids: set<Id>, devices: map<int, seq<Id>>, d: int, id: Id)
    requires Partition(ids, devices) && id in ids && d == DeviceOf(id)
    ensures Partition(ids - {id}, WithoutDevice(devices, d, id))
  {
    RemoveOneRemoves(devices[d], id);
    var left := RemoveOne(devices[d], id);
    if left == [] {
      assert forall x :: x in devices[d] ==> x == id;
    }
  }

  lemma ApplyDevices(t: Table, op: Op)
    requires Partition(t.tags.Keys, t.devices)
    ensures Partition(Apply(t, op).tags.Keys, Apply(t, op).devices)
  {
    var u := Apply(t, op);
    match op
    case OpAdd(tag) =>
      if tag.tagId !in t.tags {
        PutPartitions(t.tags.Keys, t.devices, DeviceOf(tag.tagId), tag.tagId);
        assert u.tags.Keys == t.tags.Keys + {tag.tagId};
      }
    case OpRemove(id) =>
      if id in t.tags {
        DropPartitions(t.tags.Keys, t.devices, DeviceOf(id), id);
        assert u.tags.Keys == t.tags.Keys - {id};
      }
    case OpClear =>
    case _ =>
      assert u.tags.Keys == t.tags.Keys;
  }

  // ---- Over whole runs ----

  /** After any operations, duplicates or not: what the indexes say is right, and the device index has every
      live tag exactly once. */
  lemma {:induction false} RunInv(tables: seq<Table>, ops: seq<Op>, k: nat)
    requires Run(tables, ops) && k <= |ops|
    ensures Sound(Names(tables[k]), tables[k].names) && Sound(Addresses(tables[k]), tables[k].addresses)
    ensures Partition(tables[k].tags.Keys, tables[k].devices)
  {
    if k > 0 {
      RunInv(tables, ops, k - 1);
      ApplyNames(tables[k - 1], ops[k - 1]);
      ApplyAddresses(tables[k - 1], ops[k - 1]);
      ApplyDevices(tables[k - 1], ops[k - 1]);
    }
  }

  ghost predicate NamesFound(t: Table) { Complete(Names(t), t.names) }
  ghost predicate NamesDiffer(t: Table) { Unique(Names(t)) }
  ghost predicate AddressesFound(t: Table) { Complete(Addresses(t), t.addresses) }
  ghost predicate AddressesDiffer(t: Table) { Unique(Addresses(t)) }

  lemma {:induction false} DifferentNamesAreFound(tables: seq<Table>, ops: seq<Op>, k: nat)
    requires Run(tables, ops) && k <= |ops|
    requires forall j :: 0 <= j <= k ==> NamesDiffer(tables[j])
    ensures NamesFound(tables[k])
  {
    if k > 0 {
      DifferentNamesAreFound(tables, ops, k - 1);
      RunInv(tables, ops, k - 1);
      ApplyNames(tables[k - 1], ops[k - 1]);
      assert NamesDiffer(tables[k]);
    }
  }

  lemma {:induction false} DifferentAddressesAreFound(tables: seq<Table>, ops: seq<Op>, k: nat)
    requires Run(tables, ops) && k <= |ops|
    requires forall j :: 0 <= j <= k ==> AddressesDiffer(tables[j])
    ensures AddressesFound(tables[k])
  {
    if k > 0 {
      DifferentAddressesAreFound(tables, ops, k - 1);
      RunInv(tables, ops, k - 1);
      ApplyAddresses(tables[k - 1], ops[k - 1]);
      assert AddressesDiffer(tables[k]);
    }
  }

  lemma FoundAreDifferent<K>(labels: map<Id, K>, index: map<K, Id>)
    requires Complete(labels, index)
    ensures Unique(labels)
  {
  }

  /** Over a whole run the name index finds every tag at every moment exactly when no two tags ever share a name. */
  lemma NamesFoundIffDifferent(tables: seq<Table>, ops: seq<Op>)
    requires Run(tables, ops)
    ensures (forall k :: 0 <= k < |tables| ==> NamesFound(tables[k])) <==>
            (forall k :: 0 <= k < |tables| ==> NamesDiffer(tables[k]))
  {
    forall k | 0 <= k < |tables| ensures NamesFound(tables[k]) ==> NamesDiffer(tables[k]) {
      if NamesFound(tables[k]) {
        FoundAreDifferent(Names(tables[k]), tables[k].names);
      }
    }
    if forall k :: 0 <= k < |tables| ==> NamesDiffer(tables[k]) {
      forall k | 0 <= k < |tables| ensures NamesFound(tables[k]) {
        DifferentNamesAreFound(tables, ops, k);
      }
    }
  }

  /** The same for the address index and the keys computed from the addresses. */
  lemma AddressesFoundIffDifferent(tables: seq<Table>, ops: seq<Op>)
    requires Run(tables, ops)
    ensures (forall k :: 0 <= k < |tables| ==> AddressesFound(tables[k])) <==>
            (forall k :: 0 <= k < |tables| ==> AddressesDiffer(tables[k]))
  {
    forall k | 0 <= k < |tables| ensures AddressesFound(tables[k]) ==> AddressesDiffer(tables[k]) {
      if AddressesFound(tables[k]) {
        FoundAreDifferent(Addresses(tables[k]), tables[k].addresses);
      }
    }
    if forall k :: 0 <= k < |tables| ==> AddressesDiffer(tables[k]) {
      forall k | 0 <= k < |tables| ensures AddressesFound(tables[k]) {
        DifferentAddressesAreFound(tables, ops, k);
      }
    }
  }

  /** Being unique now is not enough: of two tags that share a name, removing either hides the other from the name
      index, although it stays in the table and no other tag has its name any more. */
  lemma SurvivorHidden(a: Tag, b: Tag, first: bool) returns (tables: seq<Table>, ops: seq<Op>)
    requires a.tagId != b.tagId && a.tagName == b.tagName
    ensures Run(tables, ops)
    ensures var t, left := tables[|ops|], if first then b else a;
            t.tags.Keys == {left.tagId} && NamesDiffer(t) && FindById(t, left.tagId) == Some(left)
            && left.tagName !in t.names
  {
    var gone := if first then a.tagId else b.tagId;
    ops := [OpAdd(a), OpAdd(b), OpRemove(gone)];
    var one := Add(EmptyTable, a);
    var two := Add(one, b);
    tables := [EmptyTable, one, two, Remove(two, gone)];
    assert Remove(two, gone).tags.Keys == two.tags.Keys - {gone};
  }

  /** Looking up a name gives a tag with another name in exactly one case: the name is not indexed and a
      differently named tag has id 0. */
  lemma WrongTagByName(tables: seq<Table>, ops: seq<Op>, k: nat, name: string)
    requires Run(tables, ops) && k <= |ops|
    ensures var t := tables[k];
            (FindByName(t, name).Some? && FindByName(t, name).value.tagName != name) <==>
            (name !in t.names && 0 in t.tags && t.tags[0].tagName != name)
  {
    RunInv(tables, ops, k);
  }

  /** Looking a tag up by its id gives what was last stored for it; no operation on one tag shows at another. */
  lemma StoredIsFound(t: Table, id: Id, tag: Tag, engLow: real, engHigh: real, other: Id)
    ensures FindById(Add(t, tag), other) ==
              if other == tag.tagId && other !in t.tags then Some(tag) else FindById(t, other)
    ensures FindById(Remove(t, id), other) == if other == id then None else FindById(t, other)
    ensures FindById(Update(t, id, tag), other) == if other == id && id in t.tags then Some(tag) else FindById(t, other)
    ensures var found := FindById(SetRange(t, id, engLow, engHigh), other);
            if other == id && id in t.tags
            then found.Some? && found.value.engLow == engLow && found.value.engHigh == engHigh &&
                 found.value.(engLow := t.tags[id].engLow, engHigh := t.tags[id].engHigh) == t.tags[id]
            else found == FindById(t, other)
  {
  }

  /** An update changes an index only if it changes the name or the address, even where the index leads elsewhere. */
  lemma UpdateOfSameName(t: Table, id: Id, tag: Tag)
    ensures var u := Update(t, id, tag);
            && (id !in t.tags ==> u == t)
            && (id in t.tags && tag.tagName == t.tags[id].tagName ==> u.names == t.names)
            && (id in t.tags && KeyOf(tag) == KeyOf(t.tags[id]) ==> u.addresses == t.addresses)
            && u.devices == t.devices
  {
  }

  /** Of several tags with one id, the table keeps the one it had, or else the first. */
  lemma {:induction false} AddAllFinds(t: Table, list: seq<Tag>, id: Id)
    ensures var found := FindById(AddAll(t, list), id);
            && (id in t.tags ==> found == Some(t.tags[id]))
            && (id !in t.tags && found.None? ==> forall i :: 0 <= i < |list| ==> list[i].tagId != id)
            && (id !in t.tags && found.Some? ==>
                  exists i :: 0 <= i < |list| && list[i] == found.value && list[i].tagId == id &&
                    forall j :: 0 <= j < i ==> list[j].tagId != id)
  {
    if list != [] {
      var before, n := list[..|list| - 1], |list| - 1;
      AddAllFinds(t, before, id);
      StoredIsFound(AddAll(t, before), id, list[n], 0.0, 0.0, id);
      assert forall i :: 0 <= i < n ==> before[i] == list[i];
      assert list[n] == list[|list| - 1];
    }
  }

  /** An address gives 0 or a tag with that address; where the index is complete each tag's address gives the tag. */
  lemma AddressLookup(tables: seq<Table>, ops: seq<Op>, k: nat, server: int, register: int, id: Id)
    requires Run(tables, ops) && k <= |ops|
    ensures var t, found := tables[k], FindByAddress(tables[k], server, register);
            && (found != 0 ==> found in t.tags && KeyOf(t.tags[found]) == Key(server, register))
            && (AddressesFound(t) && id in t.tags && t.tags[id].server == server && t.tags[id].register == register ==>
                  found == id)
  {
    RunInv(tables, ops, k);
    var t := tables[k];
    if id in t.tags && t.tags[id].server == server && t.tags[id].register == register {
      assert id in Addresses(t) && Addresses(t)[id] == Key(server, register);
    }
  }

  /** After any operations the list of a device has exactly its live tags, each once. */
  lemma DeviceLists(tables: seq<Table>, ops: seq<Op>, k: nat, d: int, id: Id)
    requires Run(tables, ops) && k <= |ops|
    ensures id in ListOf(tables[k], d) <==> id in tables[k].tags && id / 0x100_0000 == d
    ensures NoRepeats(ListOf(tables[k], d))
  {
    RunInv(tables, ops, k);
  }

  /** Limits that were set are read back, for that tag only; no other field and no index changes. An unknown id gives
      the defaults. */
  lemma LimitsReadBack(t: Table, id: Id, limits: AlarmLimits, other: Id)
    ensures var u := SetLimits(t, id, limits);
            && LimitsOf(u, other) == (if other == id && id in t.tags then limits else LimitsOf(t, other))
            && (other !in t.tags ==> LimitsOf(t, other) == AlarmLimits(90.0, 80.0, 10.0, 5.0, 1.0))
            && (id in t.tags ==>
                  var tag := u.tags[id];
                  AlarmLimits(tag.highHigh, tag.high, tag.low, tag.lowLow, tag.deadband) == limits)
            && Names(u) == Names(t) && Addresses(u) == Addresses(t)
            && SetLimits(u, id, LimitsOf(t, id)) == t
  {
    var u := SetLimits(t, id, limits);
    if id in t.tags {
      assert u.tags[id].tagName == t.tags[id].tagName && KeyOf(u.tags[id]) == KeyOf(t.tags[id]);
      assert SetLimits(u, id, LimitsOf(t, id)).tags == t.tags;
    }
  }

  /** Removing what was added restores the table exactly when its name and its address were not indexed before. */
  lemma AddThenRemove(tables: seq<Table>, ops: seq<Op>, k: nat, tag: Tag)
    requires Run(tables, ops) && k <= |ops| && tag.tagId !in tables[k].tags
    ensures Remove(Add(tables[k], tag), tag.tagId) == tables[k] <==>
              tag.tagName !in tables[k].names && KeyOf(tag) !in tables[k].addresses
  {
    var t, d := tables[k], DeviceOf(tag.tagId);
    RunInv(tables, ops, k);
    RestoresDevices(t.tags.Keys, t.devices, d, tag.tagId);
    PutAndDrop(t.tags, tag.tagId, tag);
    PutAndDrop(t.names, tag.tagName, tag.tagId);
    PutAndDrop(t.addresses, KeyOf(tag), tag.tagId);
    AddRemove(t, tag);
  }

  lemma PutAndDrop<K, V>(m: map<K, V>, k: K, v: V)
    ensures m[k := v] - {k} == m <==> k !in m
  {
    assert k !in m[k := v] - {k};
  }

  lemma AddRemove(t: Table, tag: Tag)
    requires tag.tagId !in t.tags
    ensures var d := DeviceOf(tag.tagId);
            Remove(Add(t, tag), tag.tagId) ==
              Table(t.tags[tag.tagId := tag] - {tag.tagId}, t.names[tag.tagName := tag.tagId] - {tag.tagName},
                    t.addresses[KeyOf(tag) := tag.tagId] - {KeyOf(tag)},
                    WithoutDevice(t.devices[d := (if d in t.devices then t.devices[d] else []) + [tag.tagId]],
                                  d, tag.tagId))
  {
  }

  lemma RestoresDevices(ids: set<Id>, devices: map<int, seq<Id>>, d: int, id: Id)
    requires Partition(ids, devices) && id !in ids && d == DeviceOf(id)
    ensures WithoutDevice(devices[d := (if d in devices then devices[d] else []) + [id]], d, id) == devices
  {
    var list := if d in devices then devices[d] else [];
    RemoveLast(list, id);
    if d !in devices {
      assert devices[d := list + [id]] - {d} == devices;
    } else {
      assert devices[d := list + [id]][d := list] == devices;
    }
  }

  lemma {:induction false} RemoveLast(ids: seq<Id>, id: Id)
    requires id !in ids
    ensures RemoveOne(ids + [id], id) == ids
  {
    if ids != [] {
      RemoveLast(ids[1..], id);
      assert (ids + [id])[1..] == ids[1..] + [id];
    }
  }
}
