/** `HubGroupRepository.TryAddAsync` with its look-up, its creation of a missing group and its add as separate steps
    (Group.cs), on both groups: how far a limit can be exceeded. One group name; a join is named by its connection. The
    array group reports its members; the dictionary group reports a counter that it changes after them. */
module JoinLimit {
  import opened Prelude
  import GroupRegistry

  /** A join between its steps: it found no group, it may add to the group object `g`, or it has added and not yet
      counted. */
  datatype Stage = Missed | Passed(g: nat) | Counting(g: nat)

  /** `owed`: removals that the counter does not show yet. */
  datatype Object = Object(size: nat, counter: int, owed: nat)

  /** All group objects ever created under the name, and which of them is registered. */
  datatype Room = Room(objects: seq<Object>, registered: Option<nat>, joins: map<nat, Stage>)

  /** The limit and the number of joins that may be under way at once. */
  datatype Limits = Limits(kind: GroupRegistry.Kind, limit: nat, concurrent: nat)

  /** `AddMember` of a connection that is a member already is not `isNew`; only the dictionary group tells. It also counts,
      and gives its name up when it finds itself empty, in steps of their own. */
  datatype Step =
    | TryGet(c: nat, createIfEmpty: bool)
    | GetOrAdd(c: nat)
    | AddMember(c: nat, isNew: bool)
    | CountUp(c: nat)
    | RemoveMember(g: nat)
    | CountDown(g: nat)
    | TestEmpty(g: nat)

  predicate Enabled(l: Limits, r: Room, s: Step) {
    match s
    case TryGet(c, _) => c !in r.joins && |r.joins| < l.concurrent && (r.registered.Some? ==> r.registered.value < |r.objects|)
    case GetOrAdd(c) => c in r.joins && r.joins[c].Missed?
    case AddMember(c, isNew) => c in r.joins && r.joins[c].Passed? && r.joins[c].g < |r.objects| && (l.kind.ArrayKind? ==> isNew)
    case CountUp(c) => c in r.joins && r.joins[c].Counting? && r.joins[c].g < |r.objects|
    case RemoveMember(g) => g < |r.objects| && r.objects[g].size > 0
    case CountDown(g) => g < |r.objects| && r.objects[g].owed > 0
    case TestEmpty(g) => g < |r.objects| && l.kind.DictionaryKind?
  }

  /** In the array group members and count are one. */
  function AddTo(l: Limits, o: Object): Object {
    if l.kind.ArrayKind? then o.(size := o.size + 1, counter := o.counter + 1) else o.(size := o.size + 1)
  }

  function RemoveFrom(l: Limits, o: Object): Object
    requires o.size > 0
  {
    if l.kind.ArrayKind? then o.(size := o.size - 1, counter := o.counter - 1) else o.(size := o.size - 1, owed := o.owed + 1)
  }

  function Apply(l: Limits, r: Room, s: Step): Room
    requires Enabled(l, r, s)
  {
    match s
    case TryGet(c, createIfEmpty) =>
      if r.registered.Some? then
        if r.objects[r.registered.value].counter >= l.limit then r else r.(joins := r.joins[c := Passed(r.registered.value)])
      else if createIfEmpty then r.(joins := r.joins[c := Missed])
      else r
    case GetOrAdd(c) =>
      if r.registered.Some? then r.(joins := r.joins[c := Passed(r.registered.value)])
      else Room(r.objects + [Object(0, 0, 0)], Some(|r.objects|), r.joins[c := Passed(|r.objects|)])
    case AddMember(c, isNew) =>
      var g := r.joins[c].g;
      if !isNew then r.(joins := r.joins - {c})
      else r.(objects := r.objects[g := AddTo(l, r.objects[g])],
              joins := if l.kind.ArrayKind? then r.joins - {c} else r.joins[c := Counting(g)])
    case CountUp(c) =>
      var g := r.joins[c].g;
      r.(objects := r.objects[g := r.objects[g].(counter := r.objects[g].counter + 1)], joins := r.joins - {c})
    case RemoveMember(g) =>
      Room(r.objects[g := RemoveFrom(l, r.objects[g])],
           if l.kind.ArrayKind? && r.objects[g].size == 1 then None else r.registered, r.joins)
    case CountDown(g) =>
      var o := r.objects[g];
      r.(objects := r.objects[g := o.(counter := o.counter - 1, owed := o.owed - 1)])
    case TestEmpty(g) => if r.objects[g].size == 0 then r.(registered := None) else r
  }

  function Run(l: Limits, steps: seq<Step>): Room {
    if steps == [] then Room([], None, map[])
    else
      var p := Run(l, steps[..|steps| - 1]);
      var s := steps[|steps| - 1];
      if Enabled(l, p, s) then Apply(l, p, s) else p
  }

  /** Members of the registered group object; no group has none. */
  function Size(r: Room): nat {
    if r.registered.Some? && r.registered.value < |r.objects| then r.objects[r.registered.value].size else 0
  }

  // ----- the bound

  function CountingAt(joins: map<nat, Stage>, g: nat): set<nat> {
    set c | c in joins && joins[c] == Counting(g)
  }

  /** Joins that have not added yet. */
  function Before(joins: map<nat, Stage>): set<nat> {
    set c | c in joins && !joins[c].Counting?
  }

  lemma BothParts(joins: map<nat, Stage>, g: nat)
    ensures |CountingAt(joins, g)| + |Before(joins)| <= |joins|
  {
    assert CountingAt(joins, g) !! Before(joins);
    SubsetSize(CountingAt(joins, g) + Before(joins), joins.Keys);
    assert |joins| == |joins.Keys|;
  }

  lemma SubsetSize(a: set<nat>, b: set<nat>)
    requires a <= b
    ensures |a| <= |b|
  {
    assert b == a + (b - a);
  }

  /** A group's counter is its size, but for what is still to be counted. */
  predicate CounterOk(r: Room, g: nat)
    requires g < |r.objects|
  {
    r.objects[g].counter + |CountingAt(r.joins, g)| == r.objects[g].size + r.objects[g].owed
  }

  predicate CountersOk(l: Limits, r: Room) {
    && (forall c | c in r.joins :: !r.joins[c].Missed? ==> r.joins[c].g < |r.objects|)
    && (l.kind.ArrayKind? ==> forall c | c in r.joins :: !r.joins[c].Counting?)
    && (forall g: nat | g < |r.objects| :: CounterOk(r, g))
  }

  predicate WithinBound(l: Limits, r: Room) {
    && (r.registered.Some? ==> r.registered.value < |r.objects|)
    && |r.joins| <= l.concurrent
    && Size(r) + |Before(r.joins)| <= l.limit - 1 + l.concurrent
  }

  lemma DropSize(joins: map<nat, Stage>, c: nat)
    requires c in joins
    ensures |joins - {c}| == |joins| - 1
  {
    assert (joins - {c}).Keys == joins.Keys - {c};
    assert |joins.Keys - {c}| == |joins.Keys| - 1;
  }

  lemma DropCounting(joins: map<nat, Stage>, c: nat, g: nat)
    requires c in joins
    ensures |CountingAt(joins - {c}, g)| == if joins[c] == Counting(g) then |CountingAt(joins, g)| - 1 else |CountingAt(joins, g)|
  {
    assert CountingAt(joins - {c}, g) == CountingAt(joins, g) - {c};
  }

  lemma DropBefore(joins: map<nat, Stage>, c: nat)
    requires c in joins
    ensures |Before(joins - {c})| == if joins[c].Counting? then |Before(joins)| else |Before(joins)| - 1
  {
    assert Before(joins - {c}) == Before(joins) - {c};
  }

  lemma PutSize(joins: map<nat, Stage>, c: nat, stage: Stage)
    ensures |joins[c := stage]| == if c in joins then |joins| else |joins| + 1
  {
    assert joins[c := stage].Keys == joins.Keys + {c};
    assert c in joins.Keys ==> joins.Keys + {c} == joins.Keys;
  }

  /** A join that is not counting goes to another stage. */
  lemma PutCounting(joins: map<nat, Stage>, c: nat, stage: Stage, g: nat)
    requires c in joins ==> !joins[c].Counting?
    ensures |CountingAt(joins[c := stage], g)| == if stage == Counting(g) then |CountingAt(joins, g)| + 1 else |CountingAt(joins, g)|
  {
    assert c !in CountingAt(joins, g);
    assert CountingAt(joins[c := stage], g) == if stage == Counting(g) then CountingAt(joins, g) + {c} else CountingAt(joins, g);
  }

  lemma PutBefore(joins: map<nat, Stage>, c: nat, stage: Stage)
    requires c in joins ==> !joins[c].Counting?
    ensures |Before(joins[c := stage])|
         == |Before(joins)| + (if c in joins then 0 else 1) - (if stage.Counting? then 1 else 0)
  {
    var before := Before(joins);
    assert c in before <==> c in joins;
    if stage.Counting? {
      assert Before(joins[c := stage]) == before - {c};
    } else {
      assert Before(joins[c := stage]) == before + {c};
      if c in joins { assert before + {c} == before; }
    }
  }

  lemma CountersStep(l: Limits, r: Room, s: Step)
    requires CountersOk(l, r) && Enabled(l, r, s) && (r.registered.Some? ==> r.registered.value < |r.objects|)
    ensures CountersOk(l, Apply(l, r, s))
  {
    var r' := Apply(l, r, s);
    forall g: nat | g < |r'.objects| ensures CounterOk(r', g) {
      CounterStep(l, r, s, g);
    }
  }

  lemma CounterStep(l: Limits, r: Room, s: Step, g: nat)
    requires CountersOk(l, r) && Enabled(l, r, s) && g < |Apply(l, r, s).objects|
    ensures CounterOk(Apply(l, r, s), g)
  {
    assert g < |r.objects| ==> CounterOk(r, g);
    match s
    case TryGet(c, _) =>
      PutCounting(r.joins, c, Missed, g);
      if r.registered.Some? { PutCounting(r.joins, c, Passed(r.registered.value), g); }
    case GetOrAdd(c) =>
      if g == |r.objects| { assert CountingAt(r.joins, g) == {}; }
      PutCounting(r.joins, c, Passed(if r.registered.Some? then r.registered.value else |r.objects|), g);
    case AddMember(c, _) =>
      DropCounting(r.joins, c, g);
      PutCounting(r.joins, c, Counting(r.joins[c].g), g);
    case CountUp(c) => DropCounting(r.joins, c, g);
    case RemoveMember(_) =>
    case CountDown(_) =>
    case TestEmpty(_) =>
  }

  lemma LookUpBound(l: Limits, r: Room, c: nat, createIfEmpty: bool)
    requires l.limit >= 1 && WithinBound(l, r) && CountersOk(l, r) && Enabled(l, r, TryGet(c, createIfEmpty))
    ensures WithinBound(l, Apply(l, r, TryGet(c, createIfEmpty)))
  {
    if r.registered.Some? {
      var g := r.registered.value;
      PutSize(r.joins, c, Passed(g));
      PutBefore(r.joins, c, Passed(g));
      BothParts(r.joins, g);
      assert CounterOk(r, g);
    } else {
      PutSize(r.joins, c, Missed);
      PutBefore(r.joins, c, Missed);
      BothParts(r.joins, 0);
    }
  }

  lemma StepBound(l: Limits, r: Room, s: Step)
    requires l.limit >= 1 && WithinBound(l, r) && CountersOk(l, r) && Enabled(l, r, s)
    ensures WithinBound(l, Apply(l, r, s))
  {
    match s
    case TryGet(c, createIfEmpty) => LookUpBound(l, r, c, createIfEmpty);
    case GetOrAdd(c) =>
      var stage := Passed(if r.registered.Some? then r.registered.value else |r.objects|);
      PutSize(r.joins, c, stage);
      PutBefore(r.joins, c, stage);
      BothParts(r.joins, 0);
    case AddMember(c, _) =>
      DropSize(r.joins, c);
      DropBefore(r.joins, c);
      PutSize(r.joins, c, Counting(r.joins[c].g));
      PutBefore(r.joins, c, Counting(r.joins[c].g));
    case CountUp(c) =>
      DropSize(r.joins, c);
      DropBefore(r.joins, c);
    case RemoveMember(_) => BothParts(r.joins, 0);
    case CountDown(_) =>
    case TestEmpty(_) => BothParts(r.joins, 0);
  }

  /** Every run, both groups: the registered group's members plus the joins that have yet to add are at most limit - 1 + k,
      when at most k joins are under way at once, each until it is counted. With k = 1, that is, one join at a time, the
      limit is never exceeded. */
  lemma {:induction false} JoinsWithinLimit(l: Limits, steps: seq<Step>)
    requires l.limit >= 1
    ensures WithinBound(l, Run(l, steps)) && CountersOk(l, Run(l, steps))
    ensures l.concurrent <= 1 ==> Size(Run(l, steps)) <= l.limit
  {
    if steps != [] {
      JoinsWithinLimit(l, steps[..|steps| - 1]);
      var p := Run(l, steps[..|steps| - 1]);
      if Enabled(l, p, steps[|steps| - 1]) {
        StepBound(l, p, steps[|steps| - 1]);
        CountersStep(l, p, steps[|steps| - 1]);
      }
    }
  }

  // ----- a join on its own

  /** A step that is skipped when it is not enabled. */
  function Try(l: Limits, r: Room, s: Step): Room {
    if Enabled(l, r, s) then Apply(l, r, s) else r
  }

  /** The steps of one join by a connection that is no member. */
  function WholeJoin(l: Limits, r: Room, c: nat, createIfEmpty: bool): Room {
    Try(l, Try(l, Try(l, Try(l, r, TryGet(c, createIfEmpty)), GetOrAdd(c)), AddMember(c, true)), CountUp(c))
  }

  /** No join is under way, and no removal is still to be counted. */
  predicate Quiet(l: Limits, r: Room) {
    && CountersOk(l, r) && r.joins == map[] && (r.registered.Some? ==> r.registered.value < |r.objects|)
    && forall g: nat | g < |r.objects| :: r.objects[g].owed == 0
  }

  /** With nothing else under way a join adds one member exactly when the group has fewer than the limit, or there is none
      and it may be created; otherwise it changes nothing. */
  lemma JoinAloneIff(l: Limits, r: Room, c: nat, createIfEmpty: bool)
    requires l.concurrent >= 1 && Quiet(l, r)
    ensures var r' := WholeJoin(l, r, c, createIfEmpty);
            && r'.joins == map[]
            && if (if r.registered.Some? then Size(r) < l.limit else createIfEmpty) then Size(r') == Size(r) + 1 && r'.registered.Some?
               else r' == r
  {
    if r.registered.Some? {
      var g := r.registered.value;
      assert CounterOk(r, g) && CountingAt(r.joins, g) == {};
      AddAlone(l, r.(joins := map[c := Passed(g)]), c, g);
    } else if createIfEmpty {
      var r1 := Room(r.objects + [Object(0, 0, 0)], Some(|r.objects|), map[c := Passed(|r.objects|)]);
      assert Try(l, Try(l, r, TryGet(c, true)), GetOrAdd(c)) == r1;
      AddAlone(l, r1, c, |r.objects|);
    }
  }

  lemma AddAlone(l: Limits, r: Room, c: nat, g: nat)
    requires g < |r.objects| && r.registered == Some(g) && r.joins == map[c := Passed(g)]
    ensures var r' := Try(l, Try(l, r, AddMember(c, true)), CountUp(c));
            r'.joins == map[] && r'.registered == Some(g) && Size(r') == Size(r) + 1
  {
    var r1 := Try(l, r, AddMember(c, true));
    if l.kind.DictionaryKind? {
      assert r1.joins == map[c := Counting(g)];
      assert map[c := Counting(g)] - {c} == map[];
    } else {
      assert map[c := Passed(g)] - {c} == map[];
    }
  }

  // ----- the bound is reached

  lemma RunNext(l: Limits, steps: seq<Step>, s: Step, r: Room)
    requires Enabled(l, Run(l, steps), s) && Apply(l, Run(l, steps), s) == r
    ensures Run(l, steps + [s]) == r
  {
    assert (steps + [s])[..|steps|] == steps;
  }

  function Counted(n: nat): Object {
    Object(n, n, 0)
  }

  /** A join that may add does so and is counted. */
  lemma AddAndCount(l: Limits, steps: seq<Step>, n: nat, joins: map<nat, Stage>, c: nat) returns (more: seq<Step>)
    requires Run(l, steps) == Room([Counted(n)], Some(0), joins) && c in joins && joins[c] == Passed(0)
    ensures Run(l, more) == Room([Counted(n + 1)], Some(0), joins - {c})
  {
    more := steps + [AddMember(c, true)];
    if l.kind.ArrayKind? {
      assert [Counted(n)][0 := Counted(n + 1)] == [Counted(n + 1)];
      RunNext(l, steps, AddMember(c, true), Room([Counted(n + 1)], Some(0), joins - {c}));
    } else {
      var o := Object(n + 1, n, 0);
      assert [Counted(n)][0 := o] == [o] && [o][0 := Counted(n + 1)] == [Counted(n + 1)];
      RunNext(l, steps, AddMember(c, true), Room([o], Some(0), joins[c := Counting(0)]));
      assert joins[c := Counting(0)] - {c} == joins - {c};
      RunNext(l, more, CountUp(c), Room([Counted(n + 1)], Some(0), joins - {c}));
      more := more + [CountUp(c)];
    }
  }

  /** One whole join while no other is under way and the room has fewer members than the limit. */
  lemma JoinOnce(l: Limits, steps: seq<Step>, n: nat) returns (more: seq<Step>)
    requires Run(l, steps) == Room([Counted(n)], Some(0), map[]) && n < l.limit && l.concurrent >= 1
    ensures Run(l, more) == Room([Counted(n + 1)], Some(0), map[])
  {
    RunNext(l, steps, TryGet(0, true), Room([Counted(n)], Some(0), map[0 := Passed(0)]));
    more := AddAndCount(l, steps + [TryGet(0, true)], n, map[0 := Passed(0)], 0);
    assert map[0 := Passed(0)] - {0} == map[];
  }

  /** The first join creates the group. */
  lemma Creates(l: Limits) returns (steps: seq<Step>)
    requires l.concurrent >= 1
    ensures Run(l, steps) == Room([Counted(0)], Some(0), map[0 := Passed(0)])
  {
    RunNext(l, [], TryGet(0, true), Room([], None, map[0 := Missed]));
    assert [] + [Counted(0)] == [Counted(0)] && map[0 := Missed][0 := Passed(0)] == map[0 := Passed(0)];
    RunNext(l, [] + [TryGet(0, true)], GetOrAdd(0), Room([Counted(0)], Some(0), map[0 := Passed(0)]));
    steps := [] + [TryGet(0, true)] + [GetOrAdd(0)];
  }

  /** n joins, one after the other. */
  lemma {:induction false} FillTo(l: Limits, n: nat) returns (steps: seq<Step>)
    requires 1 <= n <= l.limit && l.concurrent >= 1
    ensures Run(l, steps) == Room([Counted(n)], Some(0), map[])
  {
    if n == 1 {
      steps := Creates(l);
      steps := AddAndCount(l, steps, 0, map[0 := Passed(0)], 0);
      assert map[0 := Passed(0)] - {0} == map[];
    } else {
      var m: nat := n - 1;
      var before := FillTo(l, m);
      steps := JoinOnce(l, before, m);
    }
  }

  function PassedBy(n: nat): (joins: map<nat, Stage>)
    ensures forall c: nat :: c in joins <==> c < n
  {
    if n == 0 then map[] else PassedBy(n - 1)[n - 1 := Passed(0)]
  }

  lemma {:induction false} PassedBySize(n: nat)
    ensures |PassedBy(n)| == n
    ensures PassedBy(n + 1) - {n} == PassedBy(n)
  {
    if n > 0 { PassedBySize(n - 1); }
  }

  /** The first of them; for limit one it is the join that creates the group, and the group is still empty. */
  lemma FirstPasses(l: Limits) returns (steps: seq<Step>)
    requires l.limit >= 1 && l.concurrent >= 1
    ensures Run(l, steps) == Room([Counted(l.limit - 1)], Some(0), PassedBy(1))
  {
    assert PassedBy(1) == map[0 := Passed(0)] by { assert PassedBy(0) == map[]; }
    if l.limit == 1 {
      steps := Creates(l);
    } else {
      var before := FillTo(l, l.limit - 1);
      RunNext(l, before, TryGet(0, true), Room([Counted(l.limit - 1)], Some(0), map[0 := Passed(0)]));
      steps := before + [TryGet(0, true)];
    }
  }

  /** n joins look the room up while it has one member less than the limit, */
  lemma {:induction false} AllPass(l: Limits, n: nat) returns (steps: seq<Step>)
    requires l.limit >= 1 && 1 <= n <= l.concurrent
    ensures Run(l, steps) == Room([Counted(l.limit - 1)], Some(0), PassedBy(n))
  {
    if n == 1 {
      steps := FirstPasses(l);
    } else {
      steps := AllPass(l, n - 1);
      PassedBySize(n - 1);
      RunNext(l, steps, TryGet(n - 1, true), Room([Counted(l.limit - 1)], Some(0), PassedBy(n)));
      steps := steps + [TryGet(n - 1, true)];
    }
  }

  lemma LastAdds(l: Limits, steps: seq<Step>, n: nat, left: nat) returns (more: seq<Step>)
    requires Run(l, steps) == Room([Counted(n)], Some(0), PassedBy(left + 1))
    ensures Run(l, more) == Room([Counted(n + 1)], Some(0), PassedBy(left))
  {
    var joins := PassedBy(left + 1);
    PassedBySize(left);
    more := AddAndCount(l, steps, n, joins, left);
  }

  /** and then all of them add: the bound of `JoinsWithinLimit` is reached. */
  lemma {:induction false} LimitExceeded(l: Limits, left: nat) returns (steps: seq<Step>)
    requires l.limit >= 1 && l.concurrent >= 1 && left <= l.concurrent
    ensures Run(l, steps) == Room([Counted(l.limit - 1 + l.concurrent - left)], Some(0), PassedBy(left))
    decreases l.concurrent - left
  {
    if left == l.concurrent {
      steps := AllPass(l, left);
    } else {
      steps := LimitExceeded(l, left + 1);
      steps := LastAdds(l, steps, l.limit - 1 + l.concurrent - (left + 1), left);
    }
  }

  /** Whatever the group and the limit, it can be exceeded exactly when two joins can be under way at once. */
  lemma ExceededIff(l: Limits)
    requires l.limit >= 1
    ensures (exists steps :: Size(Run(l, steps)) > l.limit) <==> l.concurrent >= 2
  {
    if l.concurrent >= 2 {
      var steps := LimitExceeded(l, 0);
      assert Size(Run(l, steps)) == l.limit - 1 + l.concurrent;
    } else {
      forall steps ensures Size(Run(l, steps)) <= l.limit {
        JoinsWithinLimit(l, steps);
      }
    }
  }
}
