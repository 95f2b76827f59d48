/** The write loops of the two in-memory groups (Group.ImmutableArray.cs, Group.ConcurrentDictionary.cs) and how
    they compare. A frame is queued to a connection by its id. */
module GroupWrites {
  import opened Prelude

  // ----- per-connection queues

  type Queues = map<Guid, seq<bytes>>

  function QueueOf(q: Queues, c: Guid): seq<bytes> {
    if c in q then q[c] else []
  }

  function Push(q: Queues, c: Guid, message: bytes): Queues {
    q[c := QueueOf(q, c) + [message]]
  }

  /** The message queued to each of `targets` in turn. */
  function Deliver(q: Queues, targets: seq<Guid>, message: bytes): Queues {
    if targets == [] then q
    else Push(Deliver(q, targets[..|targets| - 1], message), targets[|targets| - 1], message)
  }

  function Copies(message: bytes, n: nat): seq<bytes> {
    seq(n, i => message)
  }

  lemma FrontAndLast(targets: seq<Guid>, c: Guid)
    requires targets != []
    ensures multiset(targets)[c] == multiset(targets[..|targets| - 1])[c] + (if targets[|targets| - 1] == c then 1 else 0)
  {
    assert targets == targets[..|targets| - 1] + [targets[|targets| - 1]];
  }

  /** What a delivery means for one connection: as many copies as it occurs among the targets, order between
      connections being immaterial. */
  lemma {:induction false} DeliveredTo(q: Queues, targets: seq<Guid>, message: bytes, c: Guid)
    ensures QueueOf(Deliver(q, targets, message), c) == QueueOf(q, c) + Copies(message, multiset(targets)[c])
  {
    if targets != [] {
      var front, last := targets[..|targets| - 1], targets[|targets| - 1];
      DeliveredTo(q, front, message, c);
      FrontAndLast(targets, c);
    }
  }

  // ----- which connections a write addresses

  datatype Write =
    | All
    | ExceptOne(id: Guid)
    | Except(ids: seq<Guid>)
    | ToOne(id: Guid)
    | To(ids: seq<Guid>)
    | ExceptRaw(except: Option<seq<Guid>>)
    | ToRaw(to: Option<seq<Guid>>)

  /** The members kept by a filter, in order. */
  function Keep(members: seq<Guid>, p: Guid -> bool): seq<Guid> {
    if members == [] then []
    else
      var last := members[|members| - 1];
      Keep(members[..|members| - 1], p) + (if p(last) then [last] else [])
  }

  function IsNot(id: Guid): Guid -> bool {
    m => m != id
  }

  function In(ids: seq<Guid>): Guid -> bool {
    m => m in ids
  }

  function NotIn(ids: seq<Guid>): Guid -> bool {
    m => m !in ids
  }

  /** No listed id differs. */
  function EveryIs(ids: seq<Guid>): Guid -> bool {
    m => forall id | id in ids :: id == m
  }

  lemma KeepNext(members: seq<Guid>, i: nat, p: Guid -> bool)
    requires i < |members|
    ensures Keep(members[..i + 1], p) == Keep(members[..i], p) + (if p(members[i]) then [members[i]] else [])
  {
    assert members[..i + 1][..i] == members[..i];
  }

  lemma {:induction false} KeepCount(members: seq<Guid>, p: Guid -> bool, c: Guid)
    ensures multiset(Keep(members, p))[c] == if p(c) then multiset(members)[c] else 0
  {
    if members != [] {
      var front, last := members[..|members| - 1], members[|members| - 1];
      KeepCount(front, p, c);
      FrontAndLast(members, c);
    }
  }

  /** The array group: `members` may hold a connection more than once. `WriteToRawAsync` skips a member as soon as
      one listed id differs from its own. */
  function ArrayTargets(members: seq<Guid>, w: Write): seq<Guid> {
    match w
    case All => members
    case ExceptOne(id) => Keep(members, IsNot(id))
    case Except(ids) => Keep(members, NotIn(ids))
    case ToOne(id) => if id in members then [id] else []
    case To(ids) => Keep(members, In(ids))
    case ExceptRaw(except) => if except.None? then members else Keep(members, NotIn(except.value))
    case ToRaw(to) => if to.None? then [] else Keep(members, EveryIs(to.value))
  }

  /** `order` lists the keys of the dictionary in whatever order it is enumerated. */
  ghost predicate Enumerates(order: seq<Guid>, members: set<Guid>) {
    && (forall c :: c in order <==> c in members)
    && (forall i, j | 0 <= i < j < |order| :: order[i] != order[j])
  }

  /** The dictionary group: ids are looked up one by one, as often as they are listed. */
  function DictionaryTargets(order: seq<Guid>, w: Write): seq<Guid> {
    match w
    case All => order
    case ExceptOne(id) => Keep(order, IsNot(id))
    case Except(ids) => Keep(order, NotIn(ids))
    case ToOne(id) => if id in order then [id] else []
    case To(ids) => Keep(ids, In(order))
    case ExceptRaw(except) => if except.None? then order else Keep(order, NotIn(except.value))
    case ToRaw(to) => if to.None? then [] else Keep(to.value, In(order))
  }

  predicate NoDuplicates(s: seq<Guid>) {
    forall i, j | 0 <= i < j < |s| :: s[i] != s[j]
  }

  lemma CountNoDuplicates(s: seq<Guid>, c: Guid)
    requires NoDuplicates(s)
    ensures multiset(s)[c] == if c in s then 1 else 0
  {
    if c in s {
      var i :| 0 <= i < |s| && s[i] == c;
      assert s == s[..i] + [c] + s[i + 1..];
      assert c !in s[..i] && c !in s[i + 1..];
      assert multiset(s[..i])[c] == 0 && multiset(s[i + 1..])[c] == 0;
    }
  }

  /** How many copies a connection gets from each group, counted from the members alone. */
  function ArrayCopies(members: seq<Guid>, w: Write, c: Guid): nat {
    var n := multiset(members)[c];
    match w
    case All => n
    case ExceptOne(id) => if c == id then 0 else n
    case Except(ids) => if c in ids then 0 else n
    case ToOne(id) => if c == id && n > 0 then 1 else 0
    case To(ids) => if c in ids then n else 0
    case ExceptRaw(except) => if except.Some? && c in except.value then 0 else n
    case ToRaw(to) => if to.Some? && (forall id | id in to.value :: id == c) then n else 0
  }

  function DictionaryCopies(members: set<Guid>, w: Write, c: Guid): nat {
    var n := if c in members then 1 else 0;
    match w
    case All => n
    case ExceptOne(id) => if c == id then 0 else n
    case Except(ids) => if c in ids then 0 else n
    case ToOne(id) => if c == id then n else 0
    case To(ids) => n * multiset(ids)[c]
    case ExceptRaw(except) => if except.Some? && c in except.value then 0 else n
    case ToRaw(to) => if to.Some? then n * multiset(to.value)[c] else 0
  }

  lemma ArrayTargetsCount(members: seq<Guid>, w: Write, c: Guid)
    ensures multiset(ArrayTargets(members, w))[c] == ArrayCopies(members, w, c)
  {
    match w
    case ExceptOne(id) => KeepCount(members, IsNot(id), c);
    case Except(ids) => KeepCount(members, NotIn(ids), c);
    case To(ids) => KeepCount(members, In(ids), c);
    case ExceptRaw(except) => if except.Some? { KeepCount(members, NotIn(except.value), c); }
    case ToRaw(to) => if to.Some? { KeepCount(members, EveryIs(to.value), c); }
    case _ =>
  }

  lemma DictionaryTargetsCount(order: seq<Guid>, members: set<Guid>, w: Write, c: Guid)
    requires Enumerates(order, members)
    ensures multiset(DictionaryTargets(order, w))[c] == DictionaryCopies(members, w, c)
  {
    CountNoDuplicates(order, c);
    match w
    case ExceptOne(id) => KeepCount(order, IsNot(id), c);
    case Except(ids) => KeepCount(order, NotIn(ids), c);
    case To(ids) => KeepCount(ids, In(order), c);
    case ExceptRaw(except) => if except.Some? { KeepCount(order, NotIn(except.value), c); }
    case ToRaw(to) => if to.Some? { KeepCount(to.value, In(order), c); }
    case _ =>
  }

  // ----- partition, and where the array group's raw write is right

  /** For every list of ids, repeated or not, and every array of members, repeated or not: each copy that WriteAll
      queues is queued by exactly one of WriteTo and WriteExcept. */
  lemma ToAndExceptPartition(members: seq<Guid>, ids: seq<Guid>)
    ensures multiset(ArrayTargets(members, To(ids))) + multiset(ArrayTargets(members, Except(ids))) == multiset(members)
    ensures |ArrayTargets(members, To(ids))| + |ArrayTargets(members, Except(ids))| == |members|
  {
    var to, except := ArrayTargets(members, To(ids)), ArrayTargets(members, Except(ids));
    forall c ensures multiset(to + except)[c] == multiset(members)[c] {
      ArrayTargetsCount(members, To(ids), c);
      ArrayTargetsCount(members, Except(ids), c);
    }
    assert multiset(to + except) == multiset(members);
    assert |multiset(to + except)| == |to + except| && |multiset(members)| == |members|;
  }

  /** The dictionary group's WriteTo and WriteExcept partition its WriteAll exactly when no member is listed twice. */
  lemma DictionaryPartitionIff(members: set<Guid>, ids: seq<Guid>)
    ensures (forall c :: DictionaryCopies(members, To(ids), c) + DictionaryCopies(members, Except(ids), c) == DictionaryCopies(members, All, c))
       <==> (forall c | c in members :: multiset(ids)[c] <= 1)
  {
    forall c ensures DictionaryCopies(members, To(ids), c) + DictionaryCopies(members, Except(ids), c) == DictionaryCopies(members, All, c)
                <==> (c in members ==> multiset(ids)[c] <= 1) {
      assert c in ids <==> multiset(ids)[c] > 0;
    }
  }

  /** The array group's raw write reaches the listed members, whatever the members are, exactly when the list names
      one connection. An empty list goes to everybody, a list of two connections to nobody. */
  lemma RawWriteIff(ids: seq<Guid>)
    ensures (forall members: seq<Guid>, c :: ArrayCopies(members, ToRaw(Some(ids)), c) == ArrayCopies(members, To(ids), c))
       <==> (ids != [] && forall id | id in ids :: id == ids[0])
  {
    var zero: Guid := seq(16, i => 0);
    var some: Guid := if ids == [] then zero else ids[0];
    if ids != [] && forall id | id in ids :: id == ids[0] {
      assert ids[0] in ids;
    } else {
      assert ids != [] ==> ids[0] in ids;
      assert ArrayCopies([some], ToRaw(Some(ids)), some) != ArrayCopies([some], To(ids), some);
    }
  }

  // ----- runs of joins, leaves and writes on one group object

  /** `ImmutableArray.Remove`: the first occurrence. */
  function RemoveFirst(members: seq<Guid>, c: Guid): seq<Guid> {
    if members == [] then [] else if members[0] == c then members[1..] else [members[0]] + RemoveFirst(members[1..], c)
  }

  lemma HeadAndTail(members: seq<Guid>)
    requires members != []
    ensures multiset(members) == multiset{members[0]} + multiset(members[1..])
    ensures forall x :: x in members <==> x == members[0] || x in members[1..]
  {
    assert members == [members[0]] + members[1..];
  }

  lemma RemoveLater(head: Guid, tail: multiset<Guid>, c: Guid)
    requires head != c
    ensures multiset{head} + (tail - multiset{c}) == multiset{head} + tail - multiset{c}
  {
  }

  lemma {:induction false} RemoveFirstMultiset(members: seq<Guid>, c: Guid)
    ensures multiset(RemoveFirst(members, c)) == multiset(members) - multiset{c}
  {
    if members != [] {
      HeadAndTail(members);
      if members[0] != c {
        RemoveFirstMultiset(members[1..], c);
        RemoveLater(members[0], multiset(members[1..]), c);
        HeadAndTail([members[0]] + RemoveFirst(members[1..], c));
        assert ([members[0]] + RemoveFirst(members[1..], c))[1..] == RemoveFirst(members[1..], c);
      }
    }
  }

  lemma {:induction false} RemoveFirstLength(members: seq<Guid>, c: Guid)
    ensures |RemoveFirst(members, c)| == |members| - (if c in members then 1 else 0)
  {
    if members != [] {
      HeadAndTail(members);
      RemoveFirstLength(members[1..], c);
    }
  }

  lemma RemoveFirstCount(members: seq<Guid>, c: Guid)
    ensures multiset(RemoveFirst(members, c)) == multiset(members) - multiset{c}
    ensures |RemoveFirst(members, c)| == |members| - (if c in members then 1 else 0)
  {
    RemoveFirstMultiset(members, c);
    RemoveFirstLength(members, c);
  }

  lemma {:induction false} RemoveFirstMembers(members: seq<Guid>, c: Guid)
    requires NoDuplicates(members)
    ensures forall x :: x in RemoveFirst(members, c) <==> x in members && x != c
  {
    if members != [] {
      HeadAndTail(members);
      assert NoDuplicates(members[1..]) && members[0] !in members[1..];
      if members[0] != c {
        RemoveFirstMembers(members[1..], c);
        HeadAndTail(RemoveFirst(members, c));
        assert RemoveFirst(members, c)[1..] == RemoveFirst(members[1..], c);
      }
    }
  }

  lemma {:induction false} RemoveFirstNoDuplicates(members: seq<Guid>, c: Guid)
    requires NoDuplicates(members)
    ensures NoDuplicates(RemoveFirst(members, c)) && (forall x :: x in RemoveFirst(members, c) <==> x in members && x != c)
  {
    RemoveFirstMembers(members, c);
    if members != [] && members[0] != c {
      var rest := RemoveFirst(members[1..], c);
      assert NoDuplicates(members[1..]) && members[0] !in members[1..];
      RemoveFirstNoDuplicates(members[1..], c);
      assert forall i | 0 <= i < |rest| :: rest[i] in rest;
      assert members[0] !in rest;
    }
  }

  datatype Op = Join(c: Guid) | Leave(c: Guid) | Send(w: Write, message: bytes)

  function ArrayMembers(ops: seq<Op>): seq<Guid> {
    if ops == [] then []
    else
      var before := ArrayMembers(ops[..|ops| - 1]);
      match ops[|ops| - 1]
      case Join(c) => before + [c]
      case Leave(c) => RemoveFirst(before, c)
      case Send(_, _) => before
  }

  function DictionaryMembers(ops: seq<Op>): set<Guid> {
    if ops == [] then {}
    else
      var before := DictionaryMembers(ops[..|ops| - 1]);
      match ops[|ops| - 1]
      case Join(c) => before + {c}
      case Leave(c) => before - {c}
      case Send(_, _) => before
  }

  /** Everything that was queued to one connection during a run. */
  function ArrayReceived(ops: seq<Op>, c: Guid): seq<bytes> {
    if ops == [] then []
    else
      var before := ops[..|ops| - 1];
      ArrayReceived(before, c)
      + match ops[|ops| - 1]
        case Send(w, message) => Copies(message, ArrayCopies(ArrayMembers(before), w, c))
        case _ => []
  }

  function DictionaryReceived(ops: seq<Op>, c: Guid): seq<bytes> {
    if ops == [] then []
    else
      var before := ops[..|ops| - 1];
      DictionaryReceived(before, c)
      + match ops[|ops| - 1]
        case Send(w, message) => Copies(message, DictionaryCopies(DictionaryMembers(before), w, c))
        case _ => []
  }

  /** A caller's conditions: no id is listed twice, and a raw write to listed ids names one connection. */
  predicate PlainWrite(w: Write) {
    match w
    case Except(ids) => NoDuplicates(ids)
    case To(ids) => NoDuplicates(ids)
    case ExceptRaw(except) => except.Some? ==> NoDuplicates(except.value)
    case ToRaw(to) => to.Some? ==> |to.value| == 1
    case _ => true
  }

  predicate PlainRun(ops: seq<Op>) {
    ops == [] ||
    (PlainRun(ops[..|ops| - 1]) &&
     match ops[|ops| - 1]
     case Join(c) => c !in ArrayMembers(ops[..|ops| - 1])
     case Leave(_) => true
     case Send(w, _) => PlainWrite(w))
  }

  lemma {:induction false} SameMembers(ops: seq<Op>)
    requires PlainRun(ops)
    ensures NoDuplicates(ArrayMembers(ops)) && forall c :: c in ArrayMembers(ops) <==> c in DictionaryMembers(ops)
  {
    if ops != [] {
      SameMembers(ops[..|ops| - 1]);
      if ops[|ops| - 1].Leave? { RemoveFirstNoDuplicates(ArrayMembers(ops[..|ops| - 1]), ops[|ops| - 1].c); }
    }
  }

  lemma SameCopies(members: seq<Guid>, dictionary: set<Guid>, w: Write, c: Guid)
    requires NoDuplicates(members) && (forall x :: x in members <==> x in dictionary) && PlainWrite(w)
    ensures ArrayCopies(members, w, c) == DictionaryCopies(dictionary, w, c)
  {
    CountNoDuplicates(members, c);
    match w
    case To(ids) => CountNoDuplicates(ids, c);
    case ToRaw(to) =>
      if to.Some? {
        assert to.value == [to.value[0]] && to.value[0] in to.value;
        CountNoDuplicates(to.value, c);
      }
    case _ =>
  }

  /** Over every run with no double join and no repeated id, raw writes to several ids excepted, the two groups queue
      the same frames to every connection, in the same order. */
  lemma {:induction false} GroupsEquivalent(ops: seq<Op>, c: Guid)
    requires PlainRun(ops)
    ensures ArrayReceived(ops, c) == DictionaryReceived(ops, c)
  {
    if ops != [] {
      var before := ops[..|ops| - 1];
      GroupsEquivalent(before, c);
      SameMembers(before);
      match ops[|ops| - 1]
      case Send(w, _) => SameCopies(ArrayMembers(before), DictionaryMembers(before), w, c);
      case _ =>
    }
  }

  /** And they report the same number of writes. */
  lemma SameWriteCount(ops: seq<Op>, order: seq<Guid>, w: Write)
    requires PlainRun(ops) && PlainWrite(w) && Enumerates(order, DictionaryMembers(ops))
    ensures |ArrayTargets(ArrayMembers(ops), w)| == |DictionaryTargets(order, w)|
  {
    SameMembers(ops);
    var a, d := ArrayTargets(ArrayMembers(ops), w), DictionaryTargets(order, w);
    forall c ensures multiset(a)[c] == multiset(d)[c] {
      ArrayTargetsCount(ArrayMembers(ops), w, c);
      DictionaryTargetsCount(order, DictionaryMembers(ops), w, c);
      SameCopies(ArrayMembers(ops), DictionaryMembers(ops), w, c);
    }
    assert multiset(a) == multiset(d);
  }
}
