/** The two in-memory groups as objects: membership, the write loops, the repository, and the per-connection
    `HubGroupRepository`. Each method is tied to the functions of GroupRegistry and GroupWrites. */
module GroupObjects {
  import opened Prelude
  import opened GroupWrites
  import opened GroupRegistry

  /** `QueueResponseStreamWrite` of every connection. */
  class Connections {
    var queues: Queues

    constructor ()
      ensures queues == map[]
    {
      queues := map[];
    }

    method QueueResponseStreamWrite(c: Guid, message: bytes)
      modifies this
      ensures queues == Push(old(queues), c, message)
    {
      queues := queues[c := QueueOf(queues, c) + [message]];
    }

    /** One message to each of `targets`. */
    method QueueToEach(targets: seq<Guid>, message: bytes)
      modifies this
      ensures queues == Deliver(old(queues), targets, message)
    {
      for i := 0 to |targets|
        invariant queues == Deliver(old(queues), targets[..i], message)
      {
        assert targets[..i + 1][..i] == targets[..i];
        QueueResponseStreamWrite(targets[i], message);
      }
      assert targets[..|targets|] == targets;
    }
  }

  /** The writes reported to the logger, if any; a write that is not fire-and-forget is refused. */
  datatype WriteResult = NotSupported | Silent | Reported(writeCount: nat)

  /** `dictionary` of either repository: the group object registered under each name. */
  class GroupRepository<G> {
    var dictionary: map<string, G>

    constructor ()
      ensures dictionary == map[]
    {
      dictionary := map[];
    }

    method TryRemove(groupName: string) returns (removed: bool)
      modifies this
      ensures removed == (groupName in old(dictionary)) && dictionary == old(dictionary) - {groupName}
    {
      removed := groupName in dictionary;
      dictionary := dictionary - {groupName};
    }
  }

  method Contains(ids: seq<Guid>, c: Guid) returns (found: bool)
    ensures found == (c in ids)
  {
    found := false;
    for i := 0 to |ids|
      invariant found == (c in ids[..i])
    {
      if ids[i] == c { found := true; }
    }
  }

  lemma DeliverNext(q: Queues, members: seq<Guid>, i: nat, p: Guid -> bool, message: bytes)
    requires i < |members|
    ensures var soFar := Keep(members[..i], p);
            && Deliver(q, Keep(members[..i + 1], p), message)
               == (if p(members[i]) then Push(Deliver(q, soFar, message), members[i], message) else Deliver(q, soFar, message))
            && |Keep(members[..i + 1], p)| == |soFar| + (if p(members[i]) then 1 else 0)
  {
    KeepNext(members, i, p);
    DeliverOneMore(q, Keep(members[..i], p), members[i], message);
    assert Keep(members[..i], p) + [] == Keep(members[..i], p);
  }

  lemma DeliverOneMore(q: Queues, targets: seq<Guid>, c: Guid, message: bytes)
    ensures Deliver(q, targets + [c], message) == Push(Deliver(q, targets, message), c, message)
  {
    assert (targets + [c])[..|targets|] == targets;
  }

  class ImmutableArrayGroup {
    const groupName: string
    const parent: GroupRepository<ImmutableArrayGroup>
    const connections: Connections
    var members: seq<Guid>
    var storage: set<Guid>

    ghost function View(): Group
      reads this
    {
      Group(groupName, members, storage)
    }

    constructor (groupName: string, parent: GroupRepository<ImmutableArrayGroup>, connections: Connections)
      ensures View() == Group(groupName, [], {}) && this.parent == parent && this.connections == connections
    {
      this.groupName, this.parent, this.connections := groupName, parent, connections;
      members, storage := [], {};
    }

    method GetMemberCount() returns (n: nat)
      ensures n == |members|
    {
      n := |members|;
    }

    method AddAsync(c: Guid)
      modifies this
      ensures View() == Add(ArrayKind, old(View()), c)
    {
      members := members + [c];
    }

    method SetStorage(c: Guid)
      modifies this
      ensures View() == old(View()).(storage := old(storage) + {c})
    {
      storage := storage + {c};
    }

    /** True when the group was taken out of its repository. */
    method RemoveAsync(c: Guid) returns (removed: bool)
      modifies this, parent
      ensures View() == Remove(ArrayKind, old(View()), c)
      ensures parent.dictionary == if Unregisters(ArrayKind, old(View()), c) then old(parent.dictionary) - {groupName} else old(parent.dictionary)
      ensures removed == (Unregisters(ArrayKind, old(View()), c) && groupName in old(parent.dictionary))
    {
      if members != [] {
        members := RemoveFirst(members, c);
        storage := storage - {c};
        if |members| == 0 {
          removed := parent.TryRemove(groupName);
          return;
        }
      }
      removed := false;
    }

    method WriteAll(message: bytes, fireAndForget: bool) returns (r: WriteResult)
      modifies connections
      ensures !fireAndForget ==> r == NotSupported && connections.queues == old(connections.queues)
      ensures fireAndForget ==>
                && connections.queues == Deliver(old(connections.queues), ArrayTargets(members, All), message)
                && r == Reported(|ArrayTargets(members, All)|)
    {
      if !fireAndForget { return NotSupported; }
      connections.QueueToEach(members, message);
      return Reported(|members|);
    }

    method WriteExceptOne(id: Guid, message: bytes, fireAndForget: bool) returns (r: WriteResult)
      modifies connections
      ensures !fireAndForget ==> r == NotSupported && connections.queues == old(connections.queues)
      ensures fireAndForget ==>
                && connections.queues == Deliver(old(connections.queues), ArrayTargets(members, ExceptOne(id)), message)
                && r == Reported(|ArrayTargets(members, ExceptOne(id))|)
    {
      if !fireAndForget { return NotSupported; }
      var writeCount: nat := 0;
      for i := 0 to |members|
        invariant connections.queues == Deliver(old(connections.queues), Keep(members[..i], IsNot(id)), message)
        invariant writeCount == |Keep(members[..i], IsNot(id))|
      {
        DeliverNext(old(connections.queues), members, i, IsNot(id), message);
        if members[i] != id {
          connections.QueueResponseStreamWrite(members[i], message);
          writeCount := writeCount + 1;
        }
      }
      assert members[..|members|] == members;
      return Reported(writeCount);
    }

    /** The loop whose inner search skips listed members. */
    method QueueExcept(ids: seq<Guid>, message: bytes) returns (writeCount: nat)
      modifies connections
      ensures connections.queues == Deliver(old(connections.queues), ArrayTargets(members, Except(ids)), message)
      ensures writeCount == |ArrayTargets(members, Except(ids))|
    {
      writeCount := 0;
      for i := 0 to |members|
        invariant connections.queues == Deliver(old(connections.queues), Keep(members[..i], NotIn(ids)), message)
        invariant writeCount == |Keep(members[..i], NotIn(ids))|
      {
        DeliverNext(old(connections.queues), members, i, NotIn(ids), message);
        var found := Contains(ids, members[i]);
        if !found {
          connections.QueueResponseStreamWrite(members[i], message);
          writeCount := writeCount + 1;
        }
      }
      assert members[..|members|] == members;
    }

    method WriteExcept(ids: seq<Guid>, message: bytes, fireAndForget: bool) returns (r: WriteResult)
      modifies connections
      ensures !fireAndForget ==> r == NotSupported && connections.queues == old(connections.queues)
      ensures fireAndForget ==>
                && connections.queues == Deliver(old(connections.queues), ArrayTargets(members, Except(ids)), message)
                && r == Reported(|ArrayTargets(members, Except(ids))|)
    {
      if !fireAndForget { return NotSupported; }
      var n := QueueExcept(ids, message);
      return Reported(n);
    }

    /** The search for one id stops at the first member that has it. */
    method WriteToOne(id: Guid, message: bytes, fireAndForget: bool) returns (r: WriteResult)
      modifies connections
      ensures !fireAndForget ==> r == NotSupported && connections.queues == old(connections.queues)
      ensures fireAndForget ==>
                && connections.queues == Deliver(old(connections.queues), ArrayTargets(members, ToOne(id)), message)
                && r == Reported(|ArrayTargets(members, ToOne(id))|)
    {
      if !fireAndForget { return NotSupported; }
      DeliverOneMore(connections.queues, [], id, message);
      assert [] + [id] == [id];
      for i := 0 to |members|
        invariant id !in members[..i] && connections.queues == old(connections.queues)
      {
        if members[i] == id {
          connections.QueueResponseStreamWrite(id, message);
          return Reported(1);
        }
      }
      return Reported(0);
    }

    method WriteTo(ids: seq<Guid>, message: bytes, fireAndForget: bool) returns (r: WriteResult)
      modifies connections
      ensures !fireAndForget ==> r == NotSupported && connections.queues == old(connections.queues)
      ensures fireAndForget ==>
                && connections.queues == Deliver(old(connections.queues), ArrayTargets(members, To(ids)), message)
                && r == Reported(|ArrayTargets(members, To(ids))|)
    {
      if !fireAndForget { return NotSupported; }
      var writeCount: nat := 0;
      for i := 0 to |members|
        invariant connections.queues == Deliver(old(connections.queues), Keep(members[..i], In(ids)), message)
        invariant writeCount == |Keep(members[..i], In(ids))|
      {
        DeliverNext(old(connections.queues), members, i, In(ids), message);
        var found := Contains(ids, members[i]);
        if found {
          connections.QueueResponseStreamWrite(members[i], message);
          writeCount := writeCount + 1;
        }
      }
      assert members[..|members|] == members;
      return Reported(writeCount);
    }

    method WriteExceptRaw(except: Option<seq<Guid>>, message: bytes, fireAndForget: bool) returns (r: WriteResult)
      modifies connections
      ensures !fireAndForget ==> r == NotSupported && connections.queues == old(connections.queues)
      ensures fireAndForget ==>
                && connections.queues == Deliver(old(connections.queues), ArrayTargets(members, ExceptRaw(except)), message)
                && r == Reported(|ArrayTargets(members, ExceptRaw(except))|)
    {
      if !fireAndForget { return NotSupported; }
      if except.None? {
        connections.QueueToEach(members, message);
        return Reported(|members|);
      }
      var n := QueueExcept(except.value, message);
      return Reported(n);
    }

    /** The raw write: a member is skipped at the first listed id that is not its own. */
    method WriteToRaw(to: Option<seq<Guid>>, message: bytes, fireAndForget: bool) returns (r: WriteResult)
      modifies connections
      ensures !fireAndForget ==> r == NotSupported && connections.queues == old(connections.queues)
      ensures fireAndForget ==>
                && connections.queues == Deliver(old(connections.queues), ArrayTargets(members, ToRaw(to)), message)
                && r == if to.None? then Silent else Reported(|ArrayTargets(members, ToRaw(to))|)
    {
      if !fireAndForget { return NotSupported; }
      if to.None? { return Silent; }
      var writeCount: nat := 0;
      for i := 0 to |members|
        invariant connections.queues == Deliver(old(connections.queues), Keep(members[..i], EveryIs(to.value)), message)
        invariant writeCount == |Keep(members[..i], EveryIs(to.value))|
      {
        DeliverNext(old(connections.queues), members, i, EveryIs(to.value), message);
        var skip := SomeDiffers(to.value, members[i]);
        if !skip {
          connections.QueueResponseStreamWrite(members[i], message);
          writeCount := writeCount + 1;
        }
      }
      assert members[..|members|] == members;
      return Reported(writeCount);
    }
  }

  method SomeDiffers(ids: seq<Guid>, c: Guid) returns (skip: bool)
    ensures skip == !EveryIs(ids)(c)
  {
    skip := false;
    for j := 0 to |ids|
      invariant !skip ==> forall k | 0 <= k < j :: ids[k] == c
      invariant skip ==> exists id :: id in ids && id != c
    {
      if c != ids[j] {
        assert ids[j] in ids;
        skip := true;
      }
    }
  }

  /** The dictionary group. A `foreach` over the dictionary sees its keys in an order nothing is known about. */
  class ConcurrentDictionaryGroup {
    const groupName: string
    const parent: GroupRepository<ConcurrentDictionaryGroup>
    const connections: Connections
    /** The keys, without repetition. */
    var members: seq<Guid>
    var storage: set<Guid>
    var approximatelyLength: int

    ghost function View(): Group
      reads this
    {
      Group(groupName, members, storage)
    }

    ghost function Keys(): set<Guid>
      reads this
    {
      set c | c in members
    }

    /** The external counter is exact whenever no add or remove is half done. */
    ghost predicate Valid()
      reads this
    {
      NoDuplicates(members) && approximatelyLength == |members|
    }

    constructor (groupName: string, parent: GroupRepository<ConcurrentDictionaryGroup>, connections: Connections)
      ensures Valid() && View() == Group(groupName, [], {}) && this.parent == parent && this.connections == connections
    {
      this.groupName, this.parent, this.connections := groupName, parent, connections;
      members, storage, approximatelyLength := [], {}, 0;
    }

    method AddAsync(c: Guid)
      requires Valid()
      modifies this
      ensures Valid() && View() == Add(DictionaryKind, old(View()), c)
    {
      if c !in members {
        members := members + [c];
        approximatelyLength := approximatelyLength + 1;
      }
    }

    method RemoveAsync(c: Guid) returns (removed: bool)
      requires Valid()
      modifies this, parent
      ensures Valid() && View() == Remove(DictionaryKind, old(View()), c)
      ensures parent.dictionary == if Unregisters(DictionaryKind, old(View()), c) then old(parent.dictionary) - {groupName} else old(parent.dictionary)
      ensures removed == (Unregisters(DictionaryKind, old(View()), c) && groupName in old(parent.dictionary))
    {
      RemoveFirstNoDuplicates(members, c);
      RemoveFirstCount(members, c);
      if c in members {
        members := RemoveFirst(members, c);
        approximatelyLength := approximatelyLength - 1;
        storage := storage - {c};
      }
      removed := false;
      if |members| == 0 {
        removed := parent.TryRemove(groupName);
      }
    }

    method Enumerate() returns (order: seq<Guid>)
      requires Valid()
      ensures Enumerates(order, Keys())
    {
      order := members;
    }

    /** The ids are looked up one after the other, as often as they are listed. */
    method QueueTo(ids: seq<Guid>, message: bytes, ghost order: seq<Guid>) returns (writeCount: nat)
      requires Valid() && Enumerates(order, Keys())
      modifies connections
      ensures connections.queues == Deliver(old(connections.queues), DictionaryTargets(order, To(ids)), message)
      ensures writeCount == |DictionaryTargets(order, To(ids))|
    {
      writeCount := 0;
      for i := 0 to |ids|
        invariant connections.queues == Deliver(old(connections.queues), Keep(ids[..i], In(order)), message)
        invariant writeCount == |Keep(ids[..i], In(order))|
      {
        DeliverNext(old(connections.queues), ids, i, In(order), message);
        assert ids[i] in order <==> ids[i] in Keys();
        if ids[i] in members {
          connections.QueueResponseStreamWrite(ids[i], message);
          writeCount := writeCount + 1;
        }
      }
      assert ids[..|ids|] == ids;
    }

    method QueueExcept(ids: seq<Guid>, message: bytes, order: seq<Guid>) returns (writeCount: nat)
      modifies connections
      ensures connections.queues == Deliver(old(connections.queues), DictionaryTargets(order, Except(ids)), message)
      ensures writeCount == |DictionaryTargets(order, Except(ids))|
    {
      writeCount := 0;
      for i := 0 to |order|
        invariant connections.queues == Deliver(old(connections.queues), Keep(order[..i], NotIn(ids)), message)
        invariant writeCount == |Keep(order[..i], NotIn(ids))|
      {
        DeliverNext(old(connections.queues), order, i, NotIn(ids), message);
        var found := Contains(ids, order[i]);
        if !found {
          connections.QueueResponseStreamWrite(order[i], message);
          writeCount := writeCount + 1;
        }
      }
      assert order[..|order|] == order;
    }

    method QueueExceptOne(id: Guid, message: bytes, order: seq<Guid>) returns (writeCount: nat)
      modifies connections
      ensures connections.queues == Deliver(old(connections.queues), DictionaryTargets(order, ExceptOne(id)), message)
      ensures writeCount == |DictionaryTargets(order, ExceptOne(id))|
    {
      writeCount := 0;
      for i := 0 to |order|
        invariant connections.queues == Deliver(old(connections.queues), Keep(order[..i], IsNot(id)), message)
        invariant writeCount == |Keep(order[..i], IsNot(id))|
      {
        DeliverNext(old(connections.queues), order, i, IsNot(id), message);
        if order[i] != id {
          connections.QueueResponseStreamWrite(order[i], message);
          writeCount := writeCount + 1;
        }
      }
      assert order[..|order|] == order;
    }

    /** The seven write members. `order` is the enumeration of the keys that the write happened to see. */
    method Send(w: Write, message: bytes, fireAndForget: bool) returns (r: WriteResult, order: seq<Guid>)
      requires Valid()
      modifies connections
      ensures Enumerates(order, Keys())
      ensures !fireAndForget ==> r == NotSupported && connections.queues == old(connections.queues)
      ensures fireAndForget ==>
                && connections.queues == Deliver(old(connections.queues), DictionaryTargets(order, w), message)
                && r == (if (w.ToOne? && w.id !in members) || (w.ToRaw? && w.to.None?) then Silent
                         else Reported(|DictionaryTargets(order, w)|))
    {
      order := Enumerate();
      if !fireAndForget { return NotSupported, order; }
      var n: nat;
      match w {
        case All =>
          connections.QueueToEach(order, message);
          n := |order|;
        case ExceptOne(id) =>
          n := QueueExceptOne(id, message, order);
        case Except(ids) =>
          n := QueueExcept(ids, message, order);
        case ToOne(id) =>
          assert id in order <==> id in Keys();
          if id !in members { return Silent, order; }
          DeliverOneMore(connections.queues, [], id, message);
          assert [] + [id] == [id];
          connections.QueueResponseStreamWrite(id, message);
          n := 1;
        case To(ids) =>
          n := QueueTo(ids, message, order);
        case ExceptRaw(except) =>
          if except.None? {
            connections.QueueToEach(order, message);
            n := |order|;
          } else {
            n := QueueExcept(except.value, message, order);
          }
        case ToRaw(to) =>
          if to.None? { return Silent, order; }
          n := QueueTo(to.value, message, order);
      }
      return Reported(n), order;
    }
  }

  // ----- the repository over the array group, and one connection's view of it

  class ImmutableArrayGroupRepository {
    const table: GroupRepository<ImmutableArrayGroup>
    const connections: Connections

    /** Every registered group is registered under its own name and hands its removals to this repository. */
    ghost predicate Valid()
      reads this, table
    {
      forall name | name in table.dictionary ::
        var g := table.dictionary[name];
        g.groupName == name && g.parent == table && g.connections == connections
    }

    constructor ()
      ensures Valid() && table.dictionary == map[]
    {
      table := new GroupRepository<ImmutableArrayGroup>();
      connections := new Connections();
    }

    method GetOrAdd(groupName: string) returns (g: ImmutableArrayGroup)
      requires Valid()
      modifies table
      ensures Valid() && groupName in table.dictionary && table.dictionary[groupName] == g
      ensures g.groupName == groupName && g.parent == table && g.connections == connections
      ensures if groupName in old(table.dictionary) then table.dictionary == old(table.dictionary)
              else fresh(g) && g.View() == Group(groupName, [], {}) && table.dictionary == old(table.dictionary)[groupName := g]
    {
      if groupName !in table.dictionary {
        var created := new ImmutableArrayGroup(groupName, table, connections);
        table.dictionary := table.dictionary[groupName := created];
      }
      g := table.dictionary[groupName];
    }
  }

  class HubGroupRepository {
    const connectionId: Guid
    const repository: ImmutableArrayGroupRepository
    var addedGroups: seq<ImmutableArrayGroup>

    /** The connection occurs in no group object more often than that object occurs among the added groups. */
    ghost predicate Remembers(g: ImmutableArrayGroup)
      reads this, g
    {
      multiset(g.members)[connectionId] <= multiset(addedGroups)[g]
    }

    /** The same for every group there is for this connection, registered or joined. */
    ghost predicate Valid()
      reads this, repository, repository.table, repository.table.dictionary.Values, set g | g in addedGroups
    {
      && repository.Valid()
      && (forall g | g in repository.table.dictionary.Values :: Remembers(g))
      && (forall g | g in addedGroups :: Remembers(g) && g.parent == repository.table)
    }

    /** The connection is a member of every group it joined. */
    predicate InAll()
      reads this, set g | g in addedGroups
    {
      forall g | g in addedGroups :: connectionId in g.members
    }

    constructor (connectionId: Guid, repository: ImmutableArrayGroupRepository)
      requires repository.Valid() && forall g | g in repository.table.dictionary.Values :: connectionId !in g.members
      ensures Valid()
      ensures this.connectionId == connectionId && this.repository == repository && addedGroups == []
    {
      this.connectionId, this.repository, addedGroups := connectionId, repository, [];
    }

    method AddAsync(groupName: string) returns (g: ImmutableArrayGroup)
      requires repository.Valid()
      modifies this, repository.table, repository.table.dictionary.Values
      ensures repository.Valid() && g.groupName == groupName
      ensures if groupName in old(repository.table.dictionary) then g == old(repository.table.dictionary[groupName]) else fresh(g)
      ensures g.View() == Add(ArrayKind, if groupName in old(repository.table.dictionary)
                                         then old(repository.table.dictionary[groupName].View()) else Group(groupName, [], {}), connectionId)
      ensures addedGroups == old(addedGroups) + [g]
      ensures groupName in repository.table.dictionary && repository.table.dictionary[groupName] == g
      ensures old(groupName in repository.table.dictionary ==> Remembers(repository.table.dictionary[groupName])) ==> Remembers(g)
      ensures repository.table.dictionary == old(repository.table.dictionary)[groupName := g]
      ensures forall h | h in old(repository.table.dictionary.Values) && h != g :: h.members == old(h.members)
    {
      g := repository.GetOrAdd(groupName);
      ghost var before := g.members;
      g.AddAsync(connectionId);
      assert g.members == before + [connectionId];
      assert multiset(addedGroups + [g]) == multiset(addedGroups) + multiset{g};
      addedGroups := addedGroups + [g];
    }

    /** Joining keeps the record, and creates at most one group. */
    method Join(groupName: string) returns (g: ImmutableArrayGroup)
      requires Valid()
      modifies this, repository.table, repository.table.dictionary.Values
      ensures Valid() && addedGroups == old(addedGroups) + [g]
      ensures g in old(repository.table.dictionary.Values) || fresh(g)
      ensures repository.table.dictionary.Values <= old(repository.table.dictionary.Values) + {g}
      ensures old(InAll()) ==> InAll()
    {
      ghost var values := repository.table.dictionary.Values;
      g := AddAsync(groupName);
      assert forall h :: multiset(addedGroups)[h] >= multiset(old(addedGroups))[h] by {
        assert multiset(addedGroups) == multiset(old(addedGroups)) + multiset{g};
      }
      forall h | h in repository.table.dictionary.Values ensures h in values + {g} && Remembers(h) {
        var name :| name in repository.table.dictionary && repository.table.dictionary[name] == h;
        assert h == g || old(repository.table.dictionary)[name] == h;
      }
    }

    /** An explicit leave of the k-th group joined keeps it, too. */
    method Leave(k: nat)
      requires Valid() && k < |addedGroups|
      modifies addedGroups[k], repository.table
      ensures Valid() && addedGroups == old(addedGroups)
      ensures repository.table.dictionary.Values <= old(repository.table.dictionary.Values)
    {
      var g := addedGroups[k];
      ghost var values := repository.table.dictionary.Values;
      RemoveOccurrences(ArrayKind, g.View(), connectionId, connectionId);
      var _ := g.RemoveAsync(connectionId);
      forall h | h in repository.table.dictionary.Values ensures h in values && Remembers(h) {
        var name :| name in repository.table.dictionary && repository.table.dictionary[name] == h;
        assert old(repository.table.dictionary)[name] == h;
      }
    }

    /** The overload that puts data into the group's storage. */
    method AddWithData(groupName: string) returns (g: ImmutableArrayGroup)
      requires repository.Valid()
      modifies this, repository.table, repository.table.dictionary.Values
      ensures repository.Valid() && g.groupName == groupName
      ensures var was := if groupName in old(repository.table.dictionary)
                         then old(repository.table.dictionary[groupName].View()) else Group(groupName, [], {});
              g.View() == Add(ArrayKind, was, connectionId).(storage := was.storage + {connectionId})
      ensures addedGroups == old(addedGroups) + [g]
      ensures groupName in repository.table.dictionary && repository.table.dictionary[groupName] == g
    {
      g := AddAsync(groupName);
      g.SetStorage(connectionId);
    }

    /** Refuses a group that has `limit` members, and a missing one unless it is to be created. */
    method TryAddAsync(groupName: string, limit: int, createIfEmpty: bool) returns (g: ImmutableArrayGroup?)
      requires repository.Valid()
      modifies this, repository.table, repository.table.dictionary.Values
      ensures repository.Valid()
      ensures g == null <==> if groupName in old(repository.table.dictionary)
                             then old(|repository.table.dictionary[groupName].members|) >= limit else !createIfEmpty
      ensures g == null ==> addedGroups == old(addedGroups) && repository.table.dictionary == old(repository.table.dictionary)
      ensures g == null ==> forall h | h in repository.table.dictionary.Values :: h.View() == old(h.View())
      ensures g != null ==>
                && g.View() == Add(ArrayKind, if groupName in old(repository.table.dictionary)
                                              then old(repository.table.dictionary[groupName].View()) else Group(groupName, [], {}), connectionId)
                && addedGroups == old(addedGroups) + [g]
                && groupName in repository.table.dictionary && repository.table.dictionary[groupName] == g
                && (groupName in old(repository.table.dictionary) ==> |g.members| <= limit)
    {
      if groupName in repository.table.dictionary {
        var memberCount := repository.table.dictionary[groupName].GetMemberCount();
        if memberCount >= limit { return null; }
        g := AddAsync(groupName);
      } else if createIfEmpty {
        g := AddAsync(groupName);
      } else {
        g := null;
      }
    }

    /** `addedGroups` is a bag: a `foreach` sees its elements in an order nothing is known about. */
    method Enumerate() returns (order: seq<ImmutableArrayGroup>)
      ensures multiset(order) == multiset(addedGroups)
    {
      order := addedGroups;
    }

    /** The disconnect loop, over the order in which the bag is seen. */
    method LeaveEach(order: seq<ImmutableArrayGroup>)
      requires forall g | g in order :: multiset(g.members)[connectionId] <= multiset(order)[g] && g.parent == repository.table
      modifies set g | g in order
      modifies repository.table
      ensures repository.table.dictionary.Values <= old(repository.table.dictionary.Values)
      ensures forall g | g in order :: connectionId !in g.members
    {
      var i := 0;
      assert order[i..] == order;
      while i < |order|
        invariant 0 <= i <= |order|
        invariant repository.table.dictionary.Values <= old(repository.table.dictionary.Values)
        invariant forall g | g in order :: multiset(g.members)[connectionId] <= multiset(order[i..])[g]
      {
        var item := order[i];
        TakeOne(order, i);
        RemoveOccurrences(ArrayKind, item.View(), connectionId, connectionId);
        var _ := item.RemoveAsync(connectionId);
        i := i + 1;
      }
      assert order[i..] == [];
      forall g | g in order ensures connectionId !in g.members {
        assert multiset(g.members)[connectionId] == 0;
      }
    }

    method DisposeAsync()
      requires Valid()
      modifies set g | g in addedGroups
      modifies repository.table
      ensures addedGroups == old(addedGroups)
      ensures repository.table.dictionary.Values <= old(repository.table.dictionary.Values)
      ensures forall g | g in addedGroups || g in repository.table.dictionary.Values :: connectionId !in g.members
    {
      var order := Enumerate();
      InBag(order, addedGroups);
      LeaveEach(order);
      forall g | g in repository.table.dictionary.Values && g !in order ensures connectionId !in g.members {
        assert g in old(repository.table.dictionary.Values) && g !in addedGroups;
        assert multiset(g.members)[connectionId] == 0;
      }
    }
  }

  lemma TakeOne(order: seq<ImmutableArrayGroup>, i: nat)
    requires i < |order|
    ensures multiset(order[i..]) == multiset{order[i]} + multiset(order[i + 1..])
  {
    assert order[i..] == [order[i]] + order[i + 1..];
  }

  lemma InBag(order: seq<ImmutableArrayGroup>, bag: seq<ImmutableArrayGroup>)
    requires multiset(order) == multiset(bag)
    ensures forall g :: g in order <==> g in bag
  {
    assert forall g :: g in order <==> g in multiset(order);
    assert forall g :: g in bag <==> g in multiset(bag);
  }
}
