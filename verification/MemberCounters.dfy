/** The two counters that are kept beside a membership: `approximatelyLength` of the dictionary group
    (Group.ConcurrentDictionary.cs) and the Redis member count (RedisGroup.cs). Counter and membership are changed
    in separate steps, and threads and servers interleave. */
module MemberCounters {
  import opened Prelude

  // ----- approximatelyLength

  /** `increments` and `decrements` are owed by threads that have changed the members already. */
  datatype Counted = Counted(members: set<Guid>, length: int, increments: nat, decrements: nat)

  datatype CountStep = TryAdd(c: Guid) | Increment | TryRemove(c: Guid) | Decrement

  predicate CountEnabled(s: Counted, step: CountStep) {
    match step
    case Increment => s.increments > 0
    case Decrement => s.decrements > 0
    case _ => true
  }

  function Count(s: Counted, step: CountStep): Counted
    requires CountEnabled(s, step)
  {
    match step
    case TryAdd(c) => if c in s.members then s else s.(members := s.members + {c}, increments := s.increments + 1)
    case Increment => s.(length := s.length + 1, increments := s.increments - 1)
    case TryRemove(c) => if c in s.members then s.(members := s.members - {c}, decrements := s.decrements + 1) else s
    case Decrement => s.(length := s.length - 1, decrements := s.decrements - 1)
  }

  function CountRun(steps: seq<CountStep>): Counted {
    if steps == [] then Counted({}, 0, 0, 0)
    else
      var p := CountRun(steps[..|steps| - 1]);
      if CountEnabled(p, steps[|steps| - 1]) then Count(p, steps[|steps| - 1]) else p
  }

  /** Every interleaving: the counter and what is still owed to it make the member count. */
  lemma {:induction false} LengthConserved(steps: seq<CountStep>)
    ensures var s := CountRun(steps); s.length + s.increments - s.decrements == |s.members|
  {
    if steps != [] {
      LengthConserved(steps[..|steps| - 1]);
      var p := CountRun(steps[..|steps| - 1]);
      match steps[|steps| - 1]
      case TryAdd(c) => assert c !in p.members ==> |p.members + {c}| == |p.members| + 1;
      case TryRemove(c) => assert c in p.members ==> |p.members - {c}| == |p.members| - 1;
      case _ =>
    }
  }

  /** In between, the reported count can even be negative. */
  lemma LengthCanBeNegative(c: Guid)
    ensures CountRun([TryAdd(c), TryRemove(c), Decrement]).length == -1
  {
    assert [TryAdd(c), TryRemove(c), Decrement][..2] == [TryAdd(c), TryRemove(c)];
    assert [TryAdd(c), TryRemove(c)][..1] == [TryAdd(c)] && [TryAdd(c)][..0] == [];
    assert CountRun([TryAdd(c)]) == Counted({c}, 0, 1, 0);
    assert {c} - {c} == {};
    assert CountRun([TryAdd(c), TryRemove(c)]) == Counted({}, 0, 1, 1);
  }

  // ----- the Redis counter

  /** The local members of each server and the shared counter. `adding`: joins that have incremented the counter and
      not yet added; `decrements`: leaves that have not yet decremented; `lastDecrements`: the same for leaves that took
      the local group out of its repository, and so will delete the key when they bring the counter to zero;
      `deletes`: key deletions still to come. `rejoined` and `releft` count calls that changed no membership. */
  datatype Cluster = Cluster(
    servers: seq<set<Guid>>, counter: int,
    adding: seq<(nat, Guid)>, decrements: nat, lastDecrements: nat, deletes: nat,
    rejoined: nat, releft: nat)

  datatype Step =
    | IncrementCounter(server: nat, c: Guid)
    | AddLocally(i: nat)
    | RemoveLocally(server: nat, c: Guid, unregistered: bool)
    | DecrementCounter
    | DecrementLast
    | DeleteKey

  predicate Enabled(k: Cluster, s: Step) {
    match s
    case IncrementCounter(server, _) => server < |k.servers|
    case AddLocally(i) => i < |k.adding| && k.adding[i].0 < |k.servers|
    case RemoveLocally(server, c, unregistered) => server < |k.servers| && (unregistered ==> k.servers[server] <= {c})
    case DecrementCounter => k.decrements > 0
    case DecrementLast => k.lastDecrements > 0
    case DeleteKey => k.deletes > 0
  }

  function Apply(k: Cluster, s: Step): Cluster
    requires Enabled(k, s)
  {
    match s
    case IncrementCounter(server, c) => k.(counter := k.counter + 1, adding := k.adding + [(server, c)])
    case AddLocally(i) =>
      var (server, c) := k.adding[i];
      var k' := k.(adding := k.adding[..i] + k.adding[i + 1..]);
      if c in k.servers[server] then k'.(rejoined := k.rejoined + 1)
      else k'.(servers := k.servers[server := k.servers[server] + {c}])
    case RemoveLocally(server, c, unregistered) =>
      var k' := if unregistered then k.(lastDecrements := k.lastDecrements + 1) else k.(decrements := k.decrements + 1);
      if c in k.servers[server] then k'.(servers := k.servers[server := k.servers[server] - {c}])
      else k'.(releft := k.releft + 1)
    case DecrementCounter => k.(counter := k.counter - 1, decrements := k.decrements - 1)
    case DecrementLast =>
      var deletes := if k.counter == 1 then k.deletes + 1 else k.deletes;
      k.(counter := k.counter - 1, lastDecrements := k.lastDecrements - 1, deletes := deletes)
    case DeleteKey => k.(counter := 0, deletes := k.deletes - 1)
  }

  function Total(servers: seq<set<Guid>>): nat {
    if servers == [] then 0 else Total(servers[..|servers| - 1]) + |servers[|servers| - 1]|
  }

  lemma {:induction false} TotalUpdate(servers: seq<set<Guid>>, i: nat, members: set<Guid>)
    requires i < |servers|
    ensures Total(servers[i := members]) == Total(servers) - |servers[i]| + |members|
  {
    var last := |servers| - 1;
    if i == last {
      assert servers[i := members][..last] == servers[..last];
    } else {
      TotalUpdate(servers[..last], i, members);
      assert servers[i := members][..last] == servers[..last][i := members];
    }
  }

  predicate Conserved(k: Cluster) {
    k.counter == Total(k.servers) + k.rejoined - k.releft + |k.adding| + k.decrements + k.lastDecrements
  }

  /** Every step but a key deletion conserves the count; a deletion does exactly when the counter is still zero. */
  lemma StepConserved(k: Cluster, s: Step)
    requires Conserved(k) && Enabled(k, s)
    ensures Conserved(Apply(k, s)) <==> (s.DeleteKey? ==> k.counter == 0)
  {
    match s
    case AddLocally(i) =>
      var (server, c) := k.adding[i];
      TotalUpdate(k.servers, server, k.servers[server] + {c});
    case RemoveLocally(server, c, _) =>
      TotalUpdate(k.servers, server, k.servers[server] - {c});
    case _ =>
  }

  function Run(k: Cluster, steps: seq<Step>): Cluster {
    if steps == [] then k
    else
      var p := Run(k, steps[..|steps| - 1]);
      if Enabled(p, steps[|steps| - 1]) then Apply(p, steps[|steps| - 1]) else p
  }

  /** No deletion finds that the key has been counted up again. */
  predicate DeletesAtZero(k: Cluster, steps: seq<Step>) {
    steps == [] ||
    (DeletesAtZero(k, steps[..|steps| - 1]) &&
     var p := Run(k, steps[..|steps| - 1]);
     (steps[|steps| - 1].DeleteKey? && p.deletes > 0 ==> p.counter == 0))
  }

  function Idle(servers: nat): Cluster {
    Cluster(seq(servers, i => {}), 0, [], 0, 0, 0, 0, 0)
  }

  lemma {:induction false} IdleTotal(n: nat)
    ensures Total(seq(n, i => {})) == 0
  {
    if n > 0 {
      IdleTotal(n - 1);
      var none: seq<set<Guid>> := seq(n, i => {});
      assert none[..n - 1] == seq(n - 1, i => {});
    }
  }

  /** Every interleaving over every number of servers: counter, members, calls without effect and work in progress balance. */
  lemma {:induction false} CounterConserved(n: nat, steps: seq<Step>)
    requires DeletesAtZero(Idle(n), steps)
    ensures Conserved(Run(Idle(n), steps))
  {
    if steps == [] {
      IdleTotal(n);
    } else {
      CounterConserved(n, steps[..|steps| - 1]);
      var p := Run(Idle(n), steps[..|steps| - 1]);
      if Enabled(p, steps[|steps| - 1]) { StepConserved(p, steps[|steps| - 1]); }
    }
  }

  /** No call is in progress. */
  predicate Settled(k: Cluster) {
    k.adding == [] && k.decrements == 0 && k.lastDecrements == 0
  }

  /** So when nothing is in progress, the counter is the number of members over all servers exactly when joins by
      members and leaves by non-members balance; in particular when there are neither. */
  lemma CounterExactIff(n: nat, steps: seq<Step>)
    requires DeletesAtZero(Idle(n), steps)
    requires Settled(Run(Idle(n), steps))
    ensures var k := Run(Idle(n), steps); k.counter == Total(k.servers) <==> k.rejoined == k.releft
  {
    CounterConserved(n, steps);
  }

  /** A decrement that owes a deletion is directly followed by it: the two are one step. */
  predicate DeletesAtOnce(k: Cluster, steps: seq<Step>) {
    steps == [] ||
    (DeletesAtOnce(k, steps[..|steps| - 1]) &&
     (Run(k, steps[..|steps| - 1]).deletes > 0 ==> steps[|steps| - 1].DeleteKey?))
  }

  lemma {:induction false} AtOnceIsAtZero(n: nat, steps: seq<Step>)
    requires DeletesAtOnce(Idle(n), steps)
    ensures DeletesAtZero(Idle(n), steps)
    ensures var k := Run(Idle(n), steps); k.deletes == 0 || (k.deletes == 1 && k.counter == 0)
  {
    if steps != [] { AtOnceIsAtZero(n, steps[..|steps| - 1]); }
  }

  /** With decrement and deletion as one step, every join by a non-member and every leave by a member: the counter is
      the member count over all servers whenever no call is in progress. */
  lemma CounterExact(n: nat, steps: seq<Step>)
    requires DeletesAtOnce(Idle(n), steps)
    requires var k := Run(Idle(n), steps); Settled(k) && k.rejoined == 0 && k.releft == 0
    ensures var k := Run(Idle(n), steps); k.counter == Total(k.servers)
  {
    AtOnceIsAtZero(n, steps);
    CounterExactIff(n, steps);
  }

  /** The steps of a run in which the deletion comes late: c joins and leaves, d joins elsewhere before the key goes. */
  function LateDelete(c: Guid, d: Guid): seq<Step> {
    JoinThenLeave(c) + [DecrementLast] + [IncrementCounter(1, d)] + [AddLocally(0)] + [DeleteKey]
  }

  function JoinThenLeave(c: Guid): seq<Step> {
    [] + [IncrementCounter(0, c)] + [AddLocally(0)] + [RemoveLocally(0, c, true)]
  }

  lemma JoinedAndLeft(c: Guid)
    ensures Run(Idle(2), JoinThenLeave(c)) == Cluster([{}, {}], 1, [], 0, 1, 0, 0, 0)
  {
    var k0 := Cluster([{}, {}], 0, [], 0, 0, 0, 0, 0);
    var k1 := Cluster([{}, {}], 1, [(0, c)], 0, 0, 0, 0, 0);
    var k2 := Cluster([{c}, {}], 1, [], 0, 0, 0, 0, 0);
    assert Idle(2).servers == [{}, {}];
    assert k0.adding + [(0, c)] == [(0, c)];
    RunNext(Idle(2), [], IncrementCounter(0, c), k1);
    assert k1.servers[0] + {c} == {c} && c !in k1.servers[0];
    assert k1.servers[0 := {c}] == k2.servers;
    assert k1.adding[..0] + k1.adding[1..] == [];
    RunNext(Idle(2), [] + [IncrementCounter(0, c)], AddLocally(0), k2);
    assert {c} - {c} == {};
    assert k2.servers[0 := {}] == [{}, {}];
    RunNext(Idle(2), [] + [IncrementCounter(0, c)] + [AddLocally(0)], RemoveLocally(0, c, true),
            Cluster([{}, {}], 1, [], 0, 1, 0, 0, 0));
  }

  /** When the deletion comes late, a join in between is forgotten: from the idle cluster to one member, counter zero,
      nothing in progress, and no call without effect. */
  lemma LateDeleteForgets(c: Guid, d: Guid)
    ensures Run(Idle(2), LateDelete(c, d)) == Cluster([{}, {d}], 0, [], 0, 0, 0, 0, 0)
  {
    var k1 := Cluster([{}, {}], 1, [], 0, 1, 0, 0, 0);
    var k2 := Cluster([{}, {}], 0, [], 0, 0, 1, 0, 0);
    var k3 := Cluster([{}, {}], 1, [(1, d)], 0, 0, 1, 0, 0);
    var k4 := Cluster([{}, {d}], 1, [], 0, 0, 1, 0, 0);
    var s1 := JoinThenLeave(c);
    JoinedAndLeft(c);
    RunNext(Idle(2), s1, DecrementLast, k2);
    assert k2.adding + [(1, d)] == [(1, d)];
    RunNext(Idle(2), s1 + [DecrementLast], IncrementCounter(1, d), k3);
    assert k3.servers[1] + {d} == {d} && d !in k3.servers[1];
    assert k3.servers[1 := {d}] == k4.servers;
    assert k3.adding[..0] + k3.adding[1..] == [];
    RunNext(Idle(2), s1 + [DecrementLast] + [IncrementCounter(1, d)], AddLocally(0), k4);
    RunNext(Idle(2), s1 + [DecrementLast] + [IncrementCounter(1, d)] + [AddLocally(0)], DeleteKey, Apply(k4, DeleteKey));
  }

  lemma RunNext(k: Cluster, steps: seq<Step>, s: Step, k': Cluster)
    requires Enabled(Run(k, steps), s) && Apply(Run(k, steps), s) == k'
    ensures Run(k, steps + [s]) == k'
  {
    assert (steps + [s])[..|steps|] == steps;
  }
}
