/** Group objects, the repository that names them, and what each connection remembers of its joins
    (Group.cs and the add and remove members of both groups), as a machine over atomic joins, leaves and the
    steps of a disconnect. A group object is named by its position in `groups`. */
module GroupRegistry {
  import opened Prelude
  import opened GroupWrites

  datatype Kind = ArrayKind | DictionaryKind

  /** `storage`: the keys of the in-memory storage. */
  datatype Group = Group(name: string, members: seq<Guid>, storage: set<Guid>)

  /** `found`: the objects that a connection's joins have looked up and not yet added it to. `added` is its `addedGroups`,
      `leaving` what its disconnect has still to remove: `addedGroups` is a bag, and the loop takes the elements it had at
      the start in any order. `late`: what was added to the bag after that; nobody awaits the handlers of void requests. */
  datatype World = World(
    kind: Kind,
    groups: seq<Group>,
    registered: map<string, nat>,
    found: map<Guid, seq<nat>>,
    added: map<Guid, seq<nat>>,
    leaving: map<Guid, seq<nat>>,
    late: map<Guid, seq<nat>>)

  function Start(kind: Kind): World {
    World(kind, [], map[], map[], map[], map[], map[])
  }

  function Of(m: map<Guid, seq<nat>>, c: Guid): seq<nat> {
    if c in m then m[c] else []
  }

  function Without(s: seq<nat>, i: nat): seq<nat>
    requires i < |s|
  {
    s[..i] + s[i + 1..]
  }

  // ----- one group object

  function Add(kind: Kind, g: Group, c: Guid): Group {
    if kind.DictionaryKind? && c in g.members then g else g.(members := g.members + [c])
  }

  /** The object after `RemoveAsync`. */
  function Remove(kind: Kind, g: Group, c: Guid): Group {
    if kind.ArrayKind? then
      if g.members == [] then g else g.(members := RemoveFirst(g.members, c), storage := g.storage - {c})
    else
      if c in g.members then g.(members := RemoveFirst(g.members, c), storage := g.storage - {c}) else g
  }

  /** Whether `RemoveAsync` goes on to take the group's name out of the repository: the dictionary group asks only
      whether it is empty now, the array group also whether it was not empty before. */
  predicate Unregisters(kind: Kind, g: Group, c: Guid) {
    Remove(kind, g, c).members == [] && (kind.ArrayKind? ==> g.members != [])
  }

  // ----- the repository

  function GetOrAdd(w: World, name: string): World {
    if name in w.registered then w
    else w.(groups := w.groups + [Group(name, [], {})], registered := w.registered[name := |w.groups|])
  }

  /** `JoinRoom` is a join with nothing in between; one that is overtaken is `FindRoom`, `EnterRoom` and, for data,
      `StoreData`. */
  datatype Step =
    | JoinRoom(c: Guid, name: string, withData: bool)
    | FindRoom(c: Guid, name: string)
    | EnterRoom(c: Guid, i: nat)
    | StoreData(c: Guid, g: nat)
    | LeaveRoom(c: Guid, g: nat)
    | BeginDisconnect(c: Guid)
    | DisconnectNext(c: Guid, i: nat)

  predicate Enabled(w: World, s: Step) {
    match s
    case JoinRoom(_, name, _) => name in w.registered ==> w.registered[name] < |w.groups|
    case FindRoom(_, name) => name in w.registered ==> w.registered[name] < |w.groups|
    case EnterRoom(c, i) => i < |Of(w.found, c)| && Of(w.found, c)[i] < |w.groups|
    case StoreData(_, g) => g < |w.groups|
    case LeaveRoom(_, g) => g < |w.groups|
    case BeginDisconnect(c) => c !in w.leaving
    case DisconnectNext(c, i) => c in w.leaving && i < |w.leaving[c]| && w.leaving[c][i] < |w.groups|
  }

  /** `IGroup.AddAsync` on an object that was looked up, and `addedGroups.Add`. */
  function EnterGroup(w: World, c: Guid, g: nat, withData: bool): World
    requires g < |w.groups|
  {
    var joined := Add(w.kind, w.groups[g], c);
    var stored := if withData then joined.(storage := joined.storage + {c}) else joined;
    w.(groups := w.groups[g := stored],
       added := w.added[c := Of(w.added, c) + [g]],
       late := if c in w.leaving then w.late[c := Of(w.late, c) + [g]] else w.late)
  }

  /** `HubGroupRepository.AddAsync`, with or without data for the storage. */
  function JoinGroup(w: World, c: Guid, name: string, withData: bool): World
    requires Enabled(w, JoinRoom(c, name, withData))
  {
    var w' := GetOrAdd(w, name);
    EnterGroup(w', c, w'.registered[name], withData)
  }

  /** `RemoveAsync` on one group object, current or stale. */
  function LeaveGroup(w: World, c: Guid, g: nat): World
    requires g < |w.groups|
  {
    var was := w.groups[g];
    w.(groups := w.groups[g := Remove(w.kind, was, c)],
       registered := if Unregisters(w.kind, was, c) then w.registered - {was.name} else w.registered)
  }

  function Apply(w: World, s: Step): World
    requires Enabled(w, s)
  {
    match s
    case JoinRoom(c, name, withData) => JoinGroup(w, c, name, withData)
    case FindRoom(c, name) =>
      var w' := GetOrAdd(w, name);
      w'.(found := w.found[c := Of(w.found, c) + [w'.registered[name]]])
    case EnterRoom(c, i) =>
      EnterGroup(w.(found := w.found[c := Without(Of(w.found, c), i)]), c, Of(w.found, c)[i], false)
    case StoreData(c, g) => w.(groups := w.groups[g := w.groups[g].(storage := w.groups[g].storage + {c})])
    case LeaveRoom(c, g) => LeaveGroup(w, c, g)
    case BeginDisconnect(c) => w.(leaving := w.leaving[c := Of(w.added, c)], late := w.late[c := []])
    case DisconnectNext(c, i) =>
      var w' := LeaveGroup(w, c, w.leaving[c][i]);
      w'.(leaving := w.leaving[c := Without(w.leaving[c], i)])
  }

  function Run(w: World, steps: seq<Step>): World {
    if steps == [] then w
    else
      var p := Run(w, steps[..|steps| - 1]);
      var s := steps[|steps| - 1];
      if Enabled(p, s) then Apply(p, s) else p
  }

  // ----- registered when not empty

  predicate Registered(w: World, g: nat)
    requires g < |w.groups|
  {
    w.groups[g].name in w.registered && w.registered[w.groups[g].name] == g
  }

  /** Some join has looked the object up and not yet added its connection. */
  ghost predicate Awaited(found: map<Guid, seq<nat>>, g: nat) {
    exists c :: g in Of(found, c)
  }

  predicate NamesOk(w: World) {
    forall name | name in w.registered :: w.registered[name] < |w.groups| && w.groups[w.registered[name]].name == name
  }

  /** An object that is not empty is registered, and a registered one is empty only while a join is about to add to it. */
  ghost predicate EntryOk(w: World, g: nat)
    requires g < |w.groups|
  {
    (w.groups[g].members != [] ==> Registered(w, g)) && (Registered(w, g) ==> w.groups[g].members != [] || Awaited(w.found, g))
  }

  ghost predicate RegistryOk(w: World) {
    NamesOk(w) && forall g: nat | g < |w.groups| :: EntryOk(w, g)
  }

  predicate KeysOk(g: Group) {
    forall c | c in g.storage :: c in g.members
  }

  predicate StorageOk(w: World) {
    forall g: nat | g < |w.groups| :: KeysOk(w.groups[g])
  }

  /** So members of one group name share one group object. */
  lemma OneObjectPerName(w: World, g: nat, h: nat)
    requires RegistryOk(w) && g < |w.groups| && h < |w.groups| && w.groups[g].name == w.groups[h].name
    requires w.groups[g].members != [] && w.groups[h].members != []
    ensures g == h
  {
    assert EntryOk(w, g) && EntryOk(w, h);
  }

  /** A look-up finds or registers an object that the join is about to add to. */
  lemma FindRegistry(w: World, c: Guid, name: string)
    requires RegistryOk(w) && StorageOk(w)
    ensures RegistryOk(Apply(w, FindRoom(c, name))) && StorageOk(Apply(w, FindRoom(c, name)))
  {
    var w' := Apply(w, FindRoom(c, name));
    var j := GetOrAdd(w, name).registered[name];
    assert j in Of(w'.found, c);
    forall g: nat | g < |w'.groups| ensures EntryOk(w', g) && KeysOk(w'.groups[g]) {
      if g < |w.groups| {
        assert EntryOk(w, g) && w'.groups[g] == w.groups[g] && KeysOk(w.groups[g]);
        if Awaited(w.found, g) { StillAwaited(w.found, c, j, g); }
      }
    }
  }

  lemma StillAwaited(found: map<Guid, seq<nat>>, c: Guid, j: nat, g: nat)
    requires Awaited(found, g)
    ensures Awaited(found[c := Of(found, c) + [j]], g)
  {
    var x :| g in Of(found, x);
    assert g in Of(found[c := Of(found, c) + [j]], x);
  }

  /** Adding to an object that was looked up before keeps the registry exactly when the object still has its name. */
  lemma EnterRegistryIff(w: World, c: Guid, i: nat)
    requires RegistryOk(w) && StorageOk(w) && Enabled(w, EnterRoom(c, i))
    ensures RegistryOk(Apply(w, EnterRoom(c, i))) <==> Registered(w, Of(w.found, c)[i])
    ensures StorageOk(Apply(w, EnterRoom(c, i)))
  {
    var w', j := Apply(w, EnterRoom(c, i)), Of(w.found, c)[i];
    assert w'.groups[j].members != [] && w'.registered == w.registered;
    assert KeysOk(w.groups[j]);
    if Registered(w, j) {
      forall g: nat | g < |w'.groups| ensures EntryOk(w', g) {
        assert EntryOk(w, g);
        if g != j && Awaited(w.found, g) {
          var x :| g in Of(w.found, x);
          OthersStay(Of(w.found, c), i, g);
          assert g in Of(w'.found, x);
        }
      }
    } else {
      assert !EntryOk(w', j);
    }
  }

  lemma OthersStay(s: seq<nat>, i: nat, g: nat)
    requires i < |s| && s[i] != g
    ensures g in s ==> g in Without(s, i)
  {
    if g in s {
      var k :| 0 <= k < |s| && s[k] == g;
      assert Without(s, i)[if k < i then k else k - 1] == g;
    }
  }

  lemma JoinRegistry(w: World, c: Guid, name: string, withData: bool)
    requires RegistryOk(w) && StorageOk(w) && Enabled(w, JoinRoom(c, name, withData))
    ensures RegistryOk(JoinGroup(w, c, name, withData)) && StorageOk(JoinGroup(w, c, name, withData))
  {
    var w' := JoinGroup(w, c, name, withData);
    var j := GetOrAdd(w, name).registered[name];
    forall g: nat | g < |w'.groups| ensures EntryOk(w', g) {
      if g == j { JoinedEntry(w, c, name, withData); } else { OtherEntry(w, c, name, withData, g); }
    }
    JoinStorage(w, c, name, withData);
  }

  lemma JoinStorage(w: World, c: Guid, name: string, withData: bool)
    requires StorageOk(w) && Enabled(w, JoinRoom(c, name, withData))
    ensures StorageOk(JoinGroup(w, c, name, withData))
  {
    var w' := JoinGroup(w, c, name, withData);
    forall g: nat | g < |w'.groups| ensures KeysOk(w'.groups[g]) {
      if g < |w.groups| { assert KeysOk(w.groups[g]); }
    }
  }

  lemma JoinedEntry(w: World, c: Guid, name: string, withData: bool)
    requires NamesOk(w) && Enabled(w, JoinRoom(c, name, withData))
    ensures var w', j := JoinGroup(w, c, name, withData), GetOrAdd(w, name).registered[name]; j < |w'.groups| && EntryOk(w', j)
  {
    var w', j := JoinGroup(w, c, name, withData), GetOrAdd(w, name).registered[name];
    assert w'.groups[j].members != [] && w'.groups[j].name == name;
  }

  lemma OtherEntry(w: World, c: Guid, name: string, withData: bool, g: nat)
    requires NamesOk(w) && Enabled(w, JoinRoom(c, name, withData)) && g < |w.groups| && EntryOk(w, g)
    requires g != GetOrAdd(w, name).registered[name]
    ensures EntryOk(JoinGroup(w, c, name, withData), g)
  {
    GetOrAddEntry(w, name, g);
    EnterEntry(GetOrAdd(w, name), c, GetOrAdd(w, name).registered[name], withData, g);
  }

  lemma GetOrAddEntry(w: World, name: string, g: nat)
    requires NamesOk(w) && g < |w.groups| && EntryOk(w, g)
    ensures EntryOk(GetOrAdd(w, name), g)
  {
  }

  lemma EnterEntry(w: World, c: Guid, j: nat, withData: bool, g: nat)
    requires j < |w.groups| && g < |w.groups| && g != j && EntryOk(w, g)
    ensures EntryOk(EnterGroup(w, c, j, withData), g)
  {
  }

  lemma RemoveStorage(kind: Kind, g: Group, c: Guid)
    requires KeysOk(g)
    ensures KeysOk(Remove(kind, g, c))
  {
    RemoveFirstCount(g.members, c);
    forall x | x in Remove(kind, g, c).storage ensures x in Remove(kind, g, c).members {
      assert x in multiset(g.members);
      assert x != c ==> multiset(RemoveFirst(g.members, c))[x] == multiset(g.members)[x];
    }
  }

  /** A leave takes the connection's own storage key when it takes a member, or finds one in an array, and no other key. */
  lemma RemoveKeys(kind: Kind, g: Group, c: Guid, x: Guid)
    ensures x in Remove(kind, g, c).storage
       <==> x in g.storage && !(x == c && (if kind.ArrayKind? then g.members != [] else c in g.members))
  {
  }

  /** Storage keys of other connections survive every step; a connection's own come with its joins and data and go with its
      leaves. */
  lemma KeysOfOthers(w: World, s: Step, g: nat, x: Guid)
    requires Enabled(w, s) && g < |w.groups|
    ensures g < |Apply(w, s).groups|
    ensures x != s.c ==> (x in Apply(w, s).groups[g].storage <==> x in w.groups[g].storage)
    ensures x in Apply(w, s).groups[g].storage && x !in w.groups[g].storage ==> x == s.c && (s.JoinRoom? || s.StoreData?)
    ensures x !in Apply(w, s).groups[g].storage && x in w.groups[g].storage ==> x == s.c && (s.LeaveRoom? || s.DisconnectNext?)
  {
    match s
    case LeaveRoom(c, h) => RemoveKeys(w.kind, w.groups[h], c, x);
    case DisconnectNext(c, i) => RemoveKeys(w.kind, w.groups[w.leaving[c][i]], c, x);
    case _ =>
  }

  /** A join finds the object registered under the name, or registers a new one, and puts the connection into it, with a
      storage key if it has data; the repository remembers the join last. */
  lemma JoinEnters(w: World, c: Guid, name: string, withData: bool)
    requires NamesOk(w) && Enabled(w, JoinRoom(c, name, withData))
    ensures var w' := Apply(w, JoinRoom(c, name, withData));
            && name in w'.registered
            && var g := w'.registered[name];
               && g == (if name in w.registered then w.registered[name] else |w.groups|)
               && g < |w'.groups| && w'.groups[g].name == name
               && c in w'.groups[g].members && (withData ==> c in w'.groups[g].storage)
               && Of(w'.added, c) == Of(w.added, c) + [g]
  {
    JoinedEntry(w, c, name, withData);
  }

  lemma RemoveEmpty(kind: Kind, g: Group, c: Guid)
    ensures g.members == [] ==> Remove(kind, g, c).members == []
    ensures Remove(kind, g, c).name == g.name
  {
    RemoveFirstCount(g.members, c);
  }

  /** What a leave from an object must find. */
  predicate MayLeave(w: World, g: nat)
    requires g < |w.groups|
  {
    var name := w.groups[g].name;
    || w.kind.ArrayKind? || w.groups[g].members != [] || name !in w.registered
    || (w.registered[name] < |w.groups| && w.groups[w.registered[name]].members == [])
  }

  /** A leave keeps the registry, unless it is made on an empty dictionary group whose name a newer group with members has
      taken: exactly then it takes the newer group's name away. */
  lemma LeaveRegistryIff(w: World, c: Guid, g: nat)
    requires RegistryOk(w) && g < |w.groups|
    ensures RegistryOk(LeaveGroup(w, c, g)) <==> MayLeave(w, g)
  {
    var w' := LeaveGroup(w, c, g);
    var was := w.groups[g];
    RemoveEmpty(w.kind, was, c);
    assert EntryOk(w, g);
    if MayLeave(w, g) {
      forall h: nat | h < |w'.groups| ensures EntryOk(w', h) {
        assert EntryOk(w, h);
      }
    } else {
      var h := w.registered[was.name];
      assert h < |w'.groups| && !EntryOk(w', h);
    }
  }

  /** The guard of one step. */
  predicate Safe(w: World, s: Step)
    requires Enabled(w, s)
  {
    match s
    case EnterRoom(c, i) => Registered(w, Of(w.found, c)[i])
    case StoreData(c, g) => c in w.groups[g].members
    case LeaveRoom(_, g) => MayLeave(w, g)
    case DisconnectNext(c, i) => MayLeave(w, w.leaving[c][i])
    case _ => true
  }

  lemma SameRegistry(w: World, w': World)
    requires w'.registered == w.registered && w'.found == w.found && |w'.groups| == |w.groups|
    requires forall g: nat | g < |w.groups| :: w'.groups[g].name == w.groups[g].name && w'.groups[g].members == w.groups[g].members
    ensures RegistryOk(w) ==> RegistryOk(w')
  {
    forall g: nat | g < |w.groups| ensures EntryOk(w, g) ==> EntryOk(w', g) { }
  }

  lemma StoreDataIff(w: World, c: Guid, g: nat)
    requires StorageOk(w) && Enabled(w, StoreData(c, g))
    ensures StorageOk(Apply(w, StoreData(c, g))) <==> c in w.groups[g].members
  {
    var w' := Apply(w, StoreData(c, g));
    assert KeysOk(w.groups[g]);
    assert c in w'.groups[g].storage;
    if c in w.groups[g].members {
      forall h: nat | h < |w'.groups| ensures KeysOk(w'.groups[h]) { assert KeysOk(w.groups[h]); }
    } else {
      assert !KeysOk(w'.groups[g]);
    }
  }

  lemma LeaveStorage(w: World, c: Guid, g: nat)
    requires StorageOk(w) && g < |w.groups|
    ensures StorageOk(LeaveGroup(w, c, g))
  {
    assert KeysOk(w.groups[g]);
    RemoveStorage(w.kind, w.groups[g], c);
  }

  /** Each step keeps both exactly when its guard holds. */
  lemma StepRegistry(w: World, s: Step)
    requires RegistryOk(w) && StorageOk(w) && Enabled(w, s)
    ensures RegistryOk(Apply(w, s)) && StorageOk(Apply(w, s)) <==> Safe(w, s)
  {
    match s
    case JoinRoom(c, name, withData) => JoinRegistry(w, c, name, withData);
    case FindRoom(c, name) => FindRegistry(w, c, name);
    case EnterRoom(c, i) => EnterRegistryIff(w, c, i);
    case StoreData(c, g) =>
      SameRegistry(w, Apply(w, s));
      StoreDataIff(w, c, g);
    case LeaveRoom(c, g) =>
      LeaveRegistryIff(w, c, g);
      LeaveStorage(w, c, g);
    case DisconnectNext(c, i) =>
      var w' := LeaveGroup(w, c, w.leaving[c][i]);
      LeaveRegistryIff(w, c, w.leaving[c][i]);
      LeaveStorage(w, c, w.leaving[c][i]);
      SameRegistry(w', Apply(w, s));
      SameRegistry(Apply(w, s), w');
    case BeginDisconnect(_) => SameRegistry(w, Apply(w, s));
  }

  predicate SafeRun(w: World, steps: seq<Step>) {
    steps == [] ||
    (SafeRun(w, steps[..|steps| - 1]) &&
     var p := Run(w, steps[..|steps| - 1]);
     Enabled(p, steps[|steps| - 1]) ==> Safe(p, steps[|steps| - 1]))
  }

  /** Every run, both groups, in which no step breaks its guard. */
  lemma {:induction false} SafeRegistry(kind: Kind, steps: seq<Step>)
    requires SafeRun(Start(kind), steps)
    ensures Run(Start(kind), steps).kind == kind
    ensures RegistryOk(Run(Start(kind), steps)) && StorageOk(Run(Start(kind), steps))
  {
    if steps != [] {
      SafeRegistry(kind, steps[..|steps| - 1]);
      var p := Run(Start(kind), steps[..|steps| - 1]);
      if Enabled(p, steps[|steps| - 1]) { StepRegistry(p, steps[|steps| - 1]); }
    }
  }

  /** No join is overtaken. */
  predicate WholeJoins(steps: seq<Step>) {
    forall s | s in steps :: !s.FindRoom? && !s.StoreData?
  }

  lemma {:induction false} WholeJoinsAreSafe(steps: seq<Step>)
    requires WholeJoins(steps)
    ensures Run(Start(ArrayKind), steps).found == map[] && Run(Start(ArrayKind), steps).kind == ArrayKind
    ensures SafeRun(Start(ArrayKind), steps)
  {
    if steps != [] {
      WholeJoinsAreSafe(steps[..|steps| - 1]);
      assert steps[|steps| - 1] in steps;
    }
  }

  /** Every run of the array group in which no join is overtaken, redundant and stale leaves and late joins included. */
  lemma ArrayRegistry(steps: seq<Step>)
    requires WholeJoins(steps)
    ensures RegistryOk(Run(Start(ArrayKind), steps)) && StorageOk(Run(Start(ArrayKind), steps))
  {
    WholeJoinsAreSafe(steps);
    SafeRegistry(ArrayKind, steps);
  }

  /** The step, if it removes a connection from a group object, finds it among the members. */
  predicate ByMember(w: World, s: Step)
    requires Enabled(w, s)
  {
    match s
    case LeaveRoom(c, g) => c in w.groups[g].members
    case DisconnectNext(c, i) => c in w.groups[w.leaving[c][i]].members
    case _ => true
  }

  predicate MembersLeave(w: World, steps: seq<Step>) {
    steps == [] ||
    (MembersLeave(w, steps[..|steps| - 1]) &&
     var p := Run(w, steps[..|steps| - 1]);
     Enabled(p, steps[|steps| - 1]) ==> ByMember(p, steps[|steps| - 1]))
  }

  lemma {:induction false} MembersLeaveSafely(kind: Kind, steps: seq<Step>)
    requires MembersLeave(Start(kind), steps) && WholeJoins(steps)
    ensures Run(Start(kind), steps).found == map[] && SafeRun(Start(kind), steps)
  {
    if steps != [] {
      MembersLeaveSafely(kind, steps[..|steps| - 1]);
      assert steps[|steps| - 1] in steps;
    }
  }

  /** In particular, every run of the dictionary group in which only current members leave and no join is overtaken. */
  lemma DictionaryRegistryOfMembers(steps: seq<Step>)
    requires MembersLeave(Start(DictionaryKind), steps) && WholeJoins(steps)
    ensures RegistryOk(Run(Start(DictionaryKind), steps)) && StorageOk(Run(Start(DictionaryKind), steps))
  {
    MembersLeaveSafely(DictionaryKind, steps);
    SafeRegistry(DictionaryKind, steps);
  }

  // ----- the runs that break it

  /** c joins and leaves, d joins the room anew, and c's disconnect removes it from the stale object: d's group loses
      its name, so that when e joins, d and e are in different objects of the same name. */
  lemma StaleLeaveSplitsRoom(c: Guid, d: Guid, e: Guid)
    requires c != d && c != e && d != e
    ensures var w := Run(Start(DictionaryKind), StaleLeave(c, d, e));
            && |w.groups| == 3
            && w.groups[1] == Group("room", [d], {}) && w.groups[2] == Group("room", [e], {})
            && w.registered == map["room" := 2]
  {
    var rejoined := Rejoined(c, d);
    var w3 := World(DictionaryKind, [Group("room", [], {}), Group("room", [d], {})], map["room" := 1], map[], map[c := [0], d := [1]],
                    map[], map[]);
    var w4 := w3.(leaving := map[c := [0]], late := map[c := []]);
    var w5 := w4.(registered := map[], leaving := map[c := []]);
    RejoinedRoom(c, d, w3);
    RunNext(Start(DictionaryKind), rejoined, BeginDisconnect(c), w4);
    StaleRemoval(w4, c, w5);
    RunNext(Start(DictionaryKind), rejoined + [BeginDisconnect(c)], DisconnectNext(c, 0), w5);
    RunNext(Start(DictionaryKind), rejoined + [BeginDisconnect(c)] + [DisconnectNext(c, 0)],
            JoinRoom(e, "room", false), Apply(w5, JoinRoom(e, "room", false)));
    NewRoom(w5, e);
  }

  /** A join when the name is free. */
  lemma NewRoom(w: World, e: Guid)
    requires w.registered == map[]
    ensures var r := Apply(w, JoinRoom(e, "room", false));
            r.groups == w.groups + [Group("room", [e], {})] && r.registered == map["room" := |w.groups|]
  {
    assert [] + [e] == [e];
  }

  function Rejoined(c: Guid, d: Guid): seq<Step> {
    [] + [JoinRoom(c, "room", false)] + [LeaveRoom(c, 0)] + [JoinRoom(d, "room", false)]
  }

  lemma RejoinedRoom(c: Guid, d: Guid, w3: World)
    requires c != d
    requires w3 == World(DictionaryKind, [Group("room", [], {}), Group("room", [d], {})], map["room" := 1], map[],
                         map[c := [0], d := [1]], map[], map[])
    ensures Run(Start(DictionaryKind), Rejoined(c, d)) == w3
  {
    var w0 := Start(DictionaryKind);
    var w1 := World(DictionaryKind, [Group("room", [c], {})], map["room" := 0], map[], map[c := [0]], map[], map[]);
    var w2 := w1.(groups := [Group("room", [], {})], registered := map[]);
    FirstJoin(DictionaryKind, c, w1);
    RunNext(w0, [], JoinRoom(c, "room", false), w1);
    OnlyMemberLeaves(w1, c, w2);
    RunNext(w0, [] + [JoinRoom(c, "room", false)], LeaveRoom(c, 0), w2);
    SecondJoin(w2, c, d, w3);
    RunNext(w0, [] + [JoinRoom(c, "room", false)] + [LeaveRoom(c, 0)], JoinRoom(d, "room", false), w3);
  }

  lemma FirstJoin(kind: Kind, c: Guid, w': World)
    requires w' == World(kind, [Group("room", [c], {})], map["room" := 0], map[], map[c := [0]], map[], map[])
    ensures Apply(Start(kind), JoinRoom(c, "room", false)) == w'
  {
    NewRoom(Start(kind), c);
    var r := Apply(Start(kind), JoinRoom(c, "room", false));
    assert Of(map[], c) + [0] == [0];
    assert r.groups == w'.groups;
    assert r.added == w'.added;
  }

  /** The room loses its name with its last member, whatever joins have looked it up. */
  lemma OnlyMemberLeaves(w: World, c: Guid, w': World)
    requires w.groups == [Group("room", [c], {})] && w.registered == map["room" := 0]
    requires w' == w.(groups := [Group("room", [], {})], registered := map[])
    ensures Enabled(w, LeaveRoom(c, 0)) && Apply(w, LeaveRoom(c, 0)) == w'
  {
    assert RemoveFirst([c], c) == [] && w.groups[0].storage - {c} == {};
    var r := Apply(w, LeaveRoom(c, 0));
    assert r.groups == w'.groups;
    assert r.registered == w'.registered;
  }

  lemma SecondJoin(w: World, c: Guid, d: Guid, w': World)
    requires c != d && w == World(DictionaryKind, [Group("room", [], {})], map[], map[], map[c := [0]], map[], map[])
    requires w' == w.(groups := [Group("room", [], {}), Group("room", [d], {})], registered := map["room" := 1], added := map[c := [0], d := [1]])
    ensures Apply(w, JoinRoom(d, "room", false)) == w'
  {
    NewRoom(w, d);
    var r := Apply(w, JoinRoom(d, "room", false));
    assert Of(w.added, d) + [1] == [1];
    assert r.groups == w'.groups;
    assert r.added == w'.added;
  }

  lemma StaleRemoval(w: World, c: Guid, w': World)
    requires |w.groups| == 2 && w.kind == DictionaryKind && w.groups[0] == Group("room", [], {})
    requires w.registered == map["room" := 1] && w.leaving == map[c := [0]]
    requires w' == w.(registered := map[], leaving := map[c := []])
    ensures Apply(w, DisconnectNext(c, 0)) == w'
  {
    var r := Apply(w, DisconnectNext(c, 0));
    assert r.groups == w'.groups;
    assert r.registered == w'.registered;
    assert r.leaving == w'.leaving;
  }

  function StaleLeave(c: Guid, d: Guid, e: Guid): seq<Step> {
    Rejoined(c, d) + [BeginDisconnect(c)] + [DisconnectNext(c, 0)] + [JoinRoom(e, "room", false)]
  }

  lemma RunNext(w: World, steps: seq<Step>, s: Step, w': World)
    requires Enabled(Run(w, steps), s) && Apply(Run(w, steps), s) == w'
    ensures Run(w, steps + [s]) == w'
  {
    assert (steps + [s])[..|steps|] == steps;
  }

  function Overtaken(c: Guid, d: Guid, e: Guid): seq<Step> {
    [] + [JoinRoom(c, "room", false)] + [FindRoom(d, "room")] + [LeaveRoom(c, 0)] + [EnterRoom(d, 0)] + [JoinRoom(e, "room", false)]
  }

  /** In either kind of group: between d's look-up and its add the last member leaves, and when e joins, d and e are in
      different objects of the same name. */
  lemma OvertakenJoinSplitsRoom(kind: Kind, c: Guid, d: Guid, e: Guid)
    requires c != d
    ensures var w := Run(Start(kind), Overtaken(c, d, e));
            w.groups == [Group("room", [d], {}), Group("room", [e], {})] && w.registered == map["room" := 1]
  {
    var w0 := Start(kind);
    var w1 := World(kind, [Group("room", [c], {})], map["room" := 0], map[], map[c := [0]], map[], map[]);
    var w2 := w1.(found := map[d := [0]]);
    var w3 := w2.(groups := [Group("room", [], {})], registered := map[]);
    FirstJoin(kind, c, w1);
    RunNext(w0, [], JoinRoom(c, "room", false), w1);
    assert Of(map[], d) + [0] == [0];
    RunNext(w0, [] + [JoinRoom(c, "room", false)], FindRoom(d, "room"), w2);
    OnlyMemberLeaves(w2, c, w3);
    RunNext(w0, [] + [JoinRoom(c, "room", false)] + [FindRoom(d, "room")], LeaveRoom(c, 0), w3);
    var w4 := Apply(w3, EnterRoom(d, 0));
    EnterStale(w3, d);
    RunNext(w0, [] + [JoinRoom(c, "room", false)] + [FindRoom(d, "room")] + [LeaveRoom(c, 0)], EnterRoom(d, 0), w4);
    NewRoom(w4, e);
    RunNext(w0, [] + [JoinRoom(c, "room", false)] + [FindRoom(d, "room")] + [LeaveRoom(c, 0)] + [EnterRoom(d, 0)],
            JoinRoom(e, "room", false), Apply(w4, JoinRoom(e, "room", false)));
  }

  lemma EnterStale(w: World, d: Guid)
    requires w.groups == [Group("room", [], {})] && w.registered == map[] && d in w.found && w.found[d] == [0]
    ensures Enabled(w, EnterRoom(d, 0))
    ensures Apply(w, EnterRoom(d, 0)).groups == [Group("room", [d], {})] && Apply(w, EnterRoom(d, 0)).registered == map[]
  {
    assert [] + [d] == [d];
  }

  // ----- what a connection remembers

  function Occurrences(w: World, g: nat, c: Guid): nat
    requires g < |w.groups|
  {
    multiset(w.groups[g].members)[c]
  }

  /** What a connection still remembers of its joins: while connected the bag, afterwards the rest of the loop and what
      came too late for it. */
  function Remembered(w: World, c: Guid): seq<nat> {
    if c in w.leaving then w.leaving[c] + Of(w.late, c) else Of(w.added, c)
  }

  predicate AllIn(s: seq<nat>, n: nat) {
    forall g | g in s :: g < n
  }

  /** For one connection; `RememberedOk` is this for every connection. */
  predicate ConnectionOk(w: World, c: Guid) {
    && AllIn(Remembered(w, c), |w.groups|) && AllIn(Of(w.found, c), |w.groups|)
    && (forall g: nat | g < |w.groups| :: Occurrences(w, g, c) <= multiset(Remembered(w, c))[g])
  }

  ghost predicate RememberedOk(w: World) {
    && (forall name | name in w.registered :: w.registered[name] < |w.groups|)
    && (forall c :: ConnectionOk(w, c))
  }

  lemma RemoveOccurrences(kind: Kind, g: Group, c: Guid, x: Guid)
    ensures multiset(Remove(kind, g, c).members)[x]
         == if x == c && multiset(g.members)[c] > 0 then multiset(g.members)[c] - 1 else multiset(g.members)[x]
  {
    RemoveFirstCount(g.members, c);
  }

  lemma AddOccurrences(kind: Kind, g: Group, c: Guid, x: Guid)
    ensures multiset(Add(kind, g, c).members)[x]
         == if x != c || (kind.DictionaryKind? && c in g.members) then multiset(g.members)[x] else multiset(g.members)[x] + 1
  {
  }

  lemma GetOrAddRemembers(w: World, name: string, x: Guid)
    requires ConnectionOk(w, x)
    ensures var w' := GetOrAdd(w, name);
            ConnectionOk(w', x) && Remembered(w', x) == Remembered(w, x) && forall g: nat | g < |w.groups| :: Occurrences(w', g, x) == Occurrences(w, g, x)
  {
    var w' := GetOrAdd(w, name);
    forall g: nat | g < |w'.groups| ensures Occurrences(w', g, x) <= multiset(Remembered(w', x))[g] {
      if g < |w.groups| { assert Occurrences(w', g, x) == Occurrences(w, g, x); }
    }
  }

  lemma EnterRemembers(w: World, c: Guid, g: nat, withData: bool, x: Guid)
    requires g < |w.groups|
    ensures Remembered(EnterGroup(w, c, g, withData), x) == if x == c then Remembered(w, c) + [g] else Remembered(w, x)
  {
    if x == c && c in w.leaving {
      assert w.leaving[c] + (Of(w.late, c) + [g]) == w.leaving[c] + Of(w.late, c) + [g];
    }
  }

  lemma EnterOccurrences(w: World, c: Guid, g: nat, withData: bool, x: Guid, h: nat)
    requires g < |w.groups| && h < |w.groups|
    ensures Occurrences(EnterGroup(w, c, g, withData), h, x)
         == if x != c || h != g || (w.kind.DictionaryKind? && c in w.groups[g].members) then Occurrences(w, h, x)
            else Occurrences(w, h, x) + 1
  {
    AddOccurrences(w.kind, w.groups[g], c, x);
  }

  lemma OneMore(s: seq<nat>, g: nat, h: nat)
    ensures multiset(s + [g])[h] == if h == g then multiset(s)[h] + 1 else multiset(s)[h]
  {
    assert multiset(s + [g]) == multiset(s) + multiset{g};
  }

  lemma EnterRemembered(w: World, c: Guid, g: nat, withData: bool, x: Guid)
    requires ConnectionOk(w, x) && g < |w.groups|
    ensures ConnectionOk(EnterGroup(w, c, g, withData), x)
  {
    var w' := EnterGroup(w, c, g, withData);
    EnterRemembers(w, c, g, withData, x);
    forall h: nat | h < |w'.groups| ensures Occurrences(w', h, x) <= multiset(Remembered(w', x))[h] {
      EnterOccurrences(w, c, g, withData, x, h);
      OneMore(Remembered(w, c), g, h);
      assert Occurrences(w, h, x) <= multiset(Remembered(w, x))[h];
    }
    forall h | h in Remembered(w', x) ensures h < |w'.groups| {
      assert h == g || h in Remembered(w, x);
    }
  }

  lemma LeaveOccurrences(w: World, c: Guid, g: nat, x: Guid, h: nat)
    requires g < |w.groups| && h < |w.groups|
    ensures Occurrences(LeaveGroup(w, c, g), h, x)
         == if h == g && x == c && Occurrences(w, h, x) > 0 then Occurrences(w, h, x) - 1 else Occurrences(w, h, x)
  {
    RemoveOccurrences(w.kind, w.groups[g], c, x);
  }

  lemma LeaveRemembered(w: World, c: Guid, g: nat, x: Guid)
    requires ConnectionOk(w, x) && g < |w.groups|
    ensures ConnectionOk(LeaveGroup(w, c, g), x)
  {
    var w' := LeaveGroup(w, c, g);
    forall h: nat | h < |w'.groups| ensures Occurrences(w', h, x) <= multiset(Remembered(w', x))[h] {
      LeaveOccurrences(w, c, g, x, h);
      assert Occurrences(w, h, x) <= multiset(Remembered(w, x))[h];
    }
  }

  lemma WithoutOne(todo: seq<nat>, i: nat, rest: seq<nat>, h: nat)
    requires i < |todo|
    ensures multiset(Without(todo, i) + rest)[h] == if h == todo[i] then multiset(todo + rest)[h] - 1 else multiset(todo + rest)[h]
  {
    assert todo == todo[..i] + [todo[i]] + todo[i + 1..];
    assert multiset(todo) == multiset{todo[i]} + multiset(Without(todo, i));
  }

  lemma DisconnectForgets(w: World, c: Guid, i: nat, x: Guid, h: nat)
    requires Enabled(w, DisconnectNext(c, i))
    ensures var w' := Apply(w, DisconnectNext(c, i));
            multiset(Remembered(w', x))[h]
            == if x == c && h == w.leaving[c][i] then multiset(Remembered(w, x))[h] - 1 else multiset(Remembered(w, x))[h]
  {
    WithoutOne(w.leaving[c], i, Of(w.late, c), h);
    DisconnectRemembers(w, c, i, x);
  }

  lemma DisconnectRemembers(w: World, c: Guid, i: nat, x: Guid)
    requires Enabled(w, DisconnectNext(c, i))
    ensures Remembered(Apply(w, DisconnectNext(c, i)), x)
         == if x == c then Without(w.leaving[c], i) + Of(w.late, c) else Remembered(w, x)
  {
    var w' := Apply(w, DisconnectNext(c, i));
    assert w'.leaving == w.leaving[c := Without(w.leaving[c], i)] && w'.late == w.late && w'.added == w.added;
  }

  lemma DisconnectOccurrences(w: World, c: Guid, i: nat, x: Guid, h: nat)
    requires Enabled(w, DisconnectNext(c, i)) && h < |w.groups|
    ensures var w' := Apply(w, DisconnectNext(c, i));
            && |w'.groups| == |w.groups|
            && Occurrences(w', h, x) == if x == c && h == w.leaving[c][i] && Occurrences(w, h, x) > 0 then Occurrences(w, h, x) - 1
                                        else Occurrences(w, h, x)
  {
    LeaveOccurrences(w, c, w.leaving[c][i], x, h);
    assert Apply(w, DisconnectNext(c, i)).groups == LeaveGroup(w, c, w.leaving[c][i]).groups;
  }

  lemma DisconnectRemembered(w: World, c: Guid, i: nat, x: Guid)
    requires ConnectionOk(w, x) && Enabled(w, DisconnectNext(c, i))
    ensures ConnectionOk(Apply(w, DisconnectNext(c, i)), x)
  {
    var w' := Apply(w, DisconnectNext(c, i));
    forall h: nat | h < |w'.groups| ensures Occurrences(w', h, x) <= multiset(Remembered(w', x))[h] {
      DisconnectForgets(w, c, i, x, h);
      DisconnectOccurrences(w, c, i, x, h);
      assert Occurrences(w, h, x) <= multiset(Remembered(w, x))[h];
    }
    forall h | h in Remembered(w', x) ensures h < |w'.groups| {
      assert h in Remembered(w, x);
    }
  }

  /** The steps that touch neither members nor what is remembered. */
  lemma SameRemembered(w: World, w': World, x: Guid)
    requires ConnectionOk(w, x) && |w'.groups| == |w.groups| && AllIn(Of(w'.found, x), |w.groups|)
    requires forall g: nat | g < |w.groups| :: w'.groups[g].members == w.groups[g].members
    requires Remembered(w', x) == Remembered(w, x)
    ensures ConnectionOk(w', x)
  {
    forall g: nat | g < |w'.groups| ensures Occurrences(w', g, x) <= multiset(Remembered(w', x))[g] {
      assert Occurrences(w, g, x) <= multiset(Remembered(w, x))[g];
    }
  }

  lemma FindRemembered(w: World, c: Guid, name: string, x: Guid)
    requires RememberedOk(w) && Enabled(w, FindRoom(c, name))
    ensures ConnectionOk(Apply(w, FindRoom(c, name)), x)
  {
    var w', mid := Apply(w, FindRoom(c, name)), GetOrAdd(w, name);
    assert ConnectionOk(w, x);
    GetOrAddRemembers(w, name, x);
    forall g | g in Of(w'.found, x) ensures g < |mid.groups| {
      assert g == mid.registered[name] || g in Of(w.found, x);
    }
    SameRemembered(mid, w', x);
  }

  lemma EnterFoundRemembered(w: World, c: Guid, i: nat, x: Guid)
    requires RememberedOk(w) && Enabled(w, EnterRoom(c, i))
    ensures ConnectionOk(Apply(w, EnterRoom(c, i)), x)
  {
    assert ConnectionOk(w, c) && ConnectionOk(w, x);
    var before := w.(found := w.found[c := Without(Of(w.found, c), i)]);
    forall g | g in Of(before.found, x) ensures g < |w.groups| {
      assert g in Of(w.found, x);
    }
    SameRemembered(w, before, x);
    EnterRemembered(before, c, Of(w.found, c)[i], false, x);
  }

  lemma BeginRemembers(w: World, c: Guid, x: Guid)
    requires Enabled(w, BeginDisconnect(c))
    ensures Remembered(Apply(w, BeginDisconnect(c)), x) == Remembered(w, x)
  {
    assert Of(w.added, c) + [] == Of(w.added, c);
  }

  lemma StepRemembered(w: World, s: Step, x: Guid)
    requires RememberedOk(w) && Enabled(w, s)
    ensures ConnectionOk(Apply(w, s), x)
  {
    assert ConnectionOk(w, x);
    match s
    case JoinRoom(c, name, withData) =>
      GetOrAddRemembers(w, name, x);
      EnterRemembered(GetOrAdd(w, name), c, GetOrAdd(w, name).registered[name], withData, x);
    case FindRoom(c, name) => FindRemembered(w, c, name, x);
    case EnterRoom(c, i) => EnterFoundRemembered(w, c, i, x);
    case StoreData(c, g) => SameRemembered(w, Apply(w, s), x);
    case LeaveRoom(c, g) => LeaveRemembered(w, c, g, x);
    case DisconnectNext(c, i) => DisconnectRemembered(w, c, i, x);
    case BeginDisconnect(c) =>
      BeginRemembers(w, c, x);
      SameRemembered(w, Apply(w, s), x);
  }

  lemma StepNames(w: World, s: Step)
    requires (forall name | name in w.registered :: w.registered[name] < |w.groups|) && Enabled(w, s)
    ensures forall name | name in Apply(w, s).registered :: Apply(w, s).registered[name] < |Apply(w, s).groups|
    ensures |w.groups| <= |Apply(w, s).groups|
  {
  }

  lemma {:induction false} RememberedRun(kind: Kind, steps: seq<Step>)
    ensures RememberedOk(Run(Start(kind), steps))
  {
    if steps != [] {
      RememberedRun(kind, steps[..|steps| - 1]);
      var p := Run(Start(kind), steps[..|steps| - 1]);
      var s := steps[|steps| - 1];
      if Enabled(p, s) {
        StepNames(p, s);
        forall x ensures ConnectionOk(Apply(p, s), x) { StepRemembered(p, s, x); }
      }
    }
  }

  // ----- a disconnected connection

  /** The disconnect loop has come to its end. */
  predicate Finished(w: World, c: Guid) {
    c in w.leaving && w.leaving[c] == []
  }

  /** Every run, both groups, any number of repeated and overtaken joins and explicit leaves: a connection's occurrences in
      a group object never outnumber what it remembers of that object. Once its disconnect loop has finished, only joins
      that came too late for the loop are left, and without such joins it is in no group. */
  lemma DisconnectedIsGone(kind: Kind, steps: seq<Step>, c: Guid)
    ensures var w := Run(Start(kind), steps);
            && (forall g: nat | g < |w.groups| :: Occurrences(w, g, c) <= multiset(Remembered(w, c))[g])
            && (Finished(w, c) ==> forall g: nat | g < |w.groups| :: Occurrences(w, g, c) <= multiset(Of(w.late, c))[g])
            && (Finished(w, c) && Of(w.late, c) == [] ==> forall g: nat | g < |w.groups| :: c !in w.groups[g].members)
  {
    var w := Run(Start(kind), steps);
    RememberedRun(kind, steps);
    assert ConnectionOk(w, c);
    if Finished(w, c) {
      assert Remembered(w, c) == Of(w.late, c);
      forall g: nat | g < |w.groups| ensures Of(w.late, c) == [] ==> c !in w.groups[g].members {
        assert Occurrences(w, g, c) <= multiset(Remembered(w, c))[g];
        assert c in w.groups[g].members <==> Occurrences(w, g, c) > 0;
      }
    }
  }

  predicate NeverLeaves(steps: seq<Step>, c: Guid) {
    forall s | s in steps :: !(s.LeaveRoom? && s.c == c)
  }

  /** In the array group an occurrence is lost only by a leave. */
  lemma StepExact(w: World, s: Step, c: Guid)
    requires RememberedOk(w) && w.kind.ArrayKind? && Enabled(w, s) && !(s.LeaveRoom? && s.c == c)
    requires forall g: nat | g < |w.groups| :: ExactIn(w, c, g)
    ensures var w' := Apply(w, s);
            w'.kind == w.kind && forall g: nat | g < |w'.groups| :: ExactIn(w', c, g)
  {
    var w' := Apply(w, s);
    assert ConnectionOk(w, c);
    forall g: nat | g < |w'.groups| ensures ExactIn(w', c, g) {
      ExactAt(w, s, c, g);
    }
  }

  predicate ExactIn(w: World, c: Guid, g: nat)
    requires g < |w.groups|
  {
    Occurrences(w, g, c) == multiset(Remembered(w, c))[g]
  }

  lemma ExactAt(w: World, s: Step, c: Guid, g: nat)
    requires ConnectionOk(w, c) && w.kind.ArrayKind? && Enabled(w, s) && !(s.LeaveRoom? && s.c == c)
    requires (g < |w.groups| ==> ExactIn(w, c, g)) && g < |Apply(w, s).groups|
    ensures ExactIn(Apply(w, s), c, g)
  {
    match s
    case JoinRoom(x, name, withData) => JoinExact(w, x, name, withData, c, g);
    case FindRoom(x, name) => GetOrAddExact(w, name, c, g);
    case EnterRoom(x, i) => EnterFoundExact(w, x, i, c, g);
    case LeaveRoom(x, h) => LeaveOccurrences(w, x, h, c, g);
    case DisconnectNext(x, i) => DisconnectExact(w, x, i, c, g);
    case BeginDisconnect(x) => BeginRemembers(w, x, c);
    case StoreData(_, _) =>
  }

  lemma JoinExact(w: World, x: Guid, name: string, withData: bool, c: Guid, g: nat)
    requires ConnectionOk(w, c) && w.kind.ArrayKind? && Enabled(w, JoinRoom(x, name, withData))
    requires (g < |w.groups| ==> ExactIn(w, c, g)) && g < |JoinGroup(w, x, name, withData).groups|
    ensures ExactIn(JoinGroup(w, x, name, withData), c, g)
  {
    GetOrAddExact(w, name, c, g);
    EnterExact(GetOrAdd(w, name), x, GetOrAdd(w, name).registered[name], withData, c, g);
  }

  lemma EnterFoundExact(w: World, x: Guid, i: nat, c: Guid, g: nat)
    requires w.kind.ArrayKind? && Enabled(w, EnterRoom(x, i)) && g < |w.groups| && ExactIn(w, c, g)
    ensures ExactIn(Apply(w, EnterRoom(x, i)), c, g)
  {
    var before := w.(found := w.found[x := Without(Of(w.found, x), i)]);
    assert ExactIn(before, c, g);
    EnterExact(before, x, Of(w.found, x)[i], false, c, g);
  }

  lemma GetOrAddExact(w: World, name: string, c: Guid, g: nat)
    requires ConnectionOk(w, c) && (g < |w.groups| ==> ExactIn(w, c, g)) && g < |GetOrAdd(w, name).groups|
    ensures ExactIn(GetOrAdd(w, name), c, g)
  {
    GetOrAddRemembers(w, name, c);
    assert g >= |w.groups| ==> g !in Remembered(w, c);
  }

  lemma DisconnectExact(w: World, x: Guid, i: nat, c: Guid, g: nat)
    requires Enabled(w, DisconnectNext(x, i)) && g < |w.groups| && ExactIn(w, c, g)
    ensures g < |Apply(w, DisconnectNext(x, i)).groups| && ExactIn(Apply(w, DisconnectNext(x, i)), c, g)
  {
    DisconnectForgets(w, x, i, c, g);
    DisconnectOccurrences(w, x, i, c, g);
  }

  lemma EnterExact(w: World, x: Guid, j: nat, withData: bool, c: Guid, g: nat)
    requires w.kind.ArrayKind? && j < |w.groups| && g < |w.groups| && ExactIn(w, c, g)
    ensures ExactIn(EnterGroup(w, x, j, withData), c, g)
  {
    EnterRemembers(w, x, j, withData, c);
    EnterOccurrences(w, x, j, withData, c, g);
    OneMore(Remembered(w, c), j, g);
  }

  lemma {:induction false} ExactRun(steps: seq<Step>, c: Guid)
    requires NeverLeaves(steps, c)
    ensures var w := Run(Start(ArrayKind), steps);
            w.kind == ArrayKind && forall g: nat | g < |w.groups| :: ExactIn(w, c, g)
  {
    if steps != [] {
      var front, s := steps[..|steps| - 1], steps[|steps| - 1];
      assert s in steps && NeverLeaves(front, c);
      ExactRun(front, c);
      RememberedRun(ArrayKind, front);
      if Enabled(Run(Start(ArrayKind), front), s) { StepExact(Run(Start(ArrayKind), front), s, c); }
    }
  }

  /** Every run of the array group in which the connection never leaves by itself: when its disconnect loop has finished,
      it is in just the groups that it joined too late for the loop. */
  lemma ArrayDisconnectIff(steps: seq<Step>, c: Guid, g: nat)
    requires NeverLeaves(steps, c)
    ensures var w := Run(Start(ArrayKind), steps);
            Finished(w, c) && g < |w.groups| ==> (c in w.groups[g].members <==> g in Of(w.late, c))
  {
    var w := Run(Start(ArrayKind), steps);
    ExactRun(steps, c);
    if Finished(w, c) && g < |w.groups| {
      assert Remembered(w, c) == Of(w.late, c);
      assert ExactIn(w, c, g);
      assert c in w.groups[g].members <==> Occurrences(w, g, c) > 0;
    }
  }

  /** The connection is in the object if it `was`, or joined it after its first n late joins. */
  predicate InSince(w: World, c: Guid, g: nat, was: bool, n: nat) {
    && Finished(w, c) && AllIn(Of(w.late, c), |w.groups|) && n <= |Of(w.late, c)|
    && (if g < |w.groups| then Occurrences(w, g, c) > 0 <==> was || g in Of(w.late, c)[n..] else !was)
  }

  lemma EnterSince(w: World, x: Guid, j: nat, withData: bool, c: Guid, g: nat, was: bool, n: nat)
    requires InSince(w, c, g, was, n) && j < |w.groups|
    ensures InSince(EnterGroup(w, x, j, withData), c, g, was, n)
  {
    var w' := EnterGroup(w, x, j, withData);
    if x == c { assert Of(w'.late, c)[n..] == Of(w.late, c)[n..] + [j]; }
    if g < |w.groups| { EnterOccurrences(w, x, j, withData, c, g); }
  }

  lemma GetOrAddSince(w: World, name: string, c: Guid, g: nat, was: bool, n: nat)
    requires InSince(w, c, g, was, n)
    ensures InSince(GetOrAdd(w, name), c, g, was, n)
  {
    if g in Of(w.late, c)[n..] { assert g in Of(w.late, c); }
  }

  lemma SameSince(w: World, w': World, c: Guid, g: nat, was: bool, n: nat)
    requires InSince(w, c, g, was, n) && |w'.groups| == |w.groups| && Finished(w', c) && Of(w'.late, c) == Of(w.late, c)
    requires g < |w.groups| ==> Occurrences(w', g, c) == Occurrences(w, g, c)
    ensures InSince(w', c, g, was, n)
  {
  }

  lemma StepSince(w: World, s: Step, c: Guid, g: nat, was: bool, n: nat)
    requires InSince(w, c, g, was, n) && Enabled(w, s) && s != LeaveRoom(c, g)
    ensures InSince(Apply(w, s), c, g, was, n)
  {
    match s
    case JoinRoom(x, name, withData) =>
      GetOrAddSince(w, name, c, g, was, n);
      EnterSince(GetOrAdd(w, name), x, GetOrAdd(w, name).registered[name], withData, c, g, was, n);
    case FindRoom(_, name) =>
      GetOrAddSince(w, name, c, g, was, n);
      SameSince(GetOrAdd(w, name), Apply(w, s), c, g, was, n);
    case EnterRoom(x, i) =>
      var before := w.(found := w.found[x := Without(Of(w.found, x), i)]);
      SameSince(w, before, c, g, was, n);
      EnterSince(before, x, Of(w.found, x)[i], false, c, g, was, n);
    case LeaveRoom(x, h) =>
      if g < |w.groups| { LeaveOccurrences(w, x, h, c, g); }
      SameSince(w, Apply(w, s), c, g, was, n);
    case DisconnectNext(x, i) =>
      if g < |w.groups| { DisconnectOccurrences(w, x, i, c, g); }
      SameSince(w, Apply(w, s), c, g, was, n);
    case BeginDisconnect(_) => SameSince(w, Apply(w, s), c, g, was, n);
    case StoreData(_, _) => SameSince(w, Apply(w, s), c, g, was, n);
  }

  lemma {:induction false} RunSince(w: World, more: seq<Step>, c: Guid, g: nat, was: bool, n: nat)
    requires InSince(w, c, g, was, n) && LeaveRoom(c, g) !in more
    ensures InSince(Run(w, more), c, g, was, n)
  {
    if more != [] {
      var front, s := more[..|more| - 1], more[|more| - 1];
      assert s in more && LeaveRoom(c, g) !in front;
      RunSince(w, front, c, g, was, n);
      if Enabled(Run(w, front), s) { StepSince(Run(w, front), s, c, g, was, n); }
    }
  }

  /** Whether the connection is a member of object `g`, if that is there. */
  predicate IsIn(w: World, g: nat, c: Guid) {
    g < |w.groups| && c in w.groups[g].members
  }

  /** Both groups: after the loop has finished, and unless a handler makes it leave an object itself, a connection stays in
      that object if it is in it, and comes into it exactly by joining again. So, gone from every group, it stays gone just
      as long as no handler joins. */
  lemma StaysGoneIff(kind: Kind, steps: seq<Step>, more: seq<Step>, c: Guid, g: nat)
    requires Finished(Run(Start(kind), steps), c) && LeaveRoom(c, g) !in more
    ensures var p := Run(Start(kind), steps);
            var w := Run(p, more);
            && Finished(w, c) && |Of(p.late, c)| <= |Of(w.late, c)|
            && (g < |w.groups| ==> (IsIn(w, g, c) <==> IsIn(p, g, c) || g in Of(w.late, c)[|Of(p.late, c)|..]))
  {
    var p := Run(Start(kind), steps);
    var w := Run(p, more);
    RememberedRun(kind, steps);
    assert ConnectionOk(p, c);
    assert p.leaving[c] + Of(p.late, c) == Of(p.late, c);
    assert g < |p.groups| ==> (Occurrences(p, g, c) > 0 <==> c in p.groups[g].members);
    RunSince(p, more, c, g, IsIn(p, g, c), |Of(p.late, c)|);
    assert g < |w.groups| ==> (Occurrences(w, g, c) > 0 <==> c in w.groups[g].members);
  }

  /** Such a join is two steps away. */
  lemma LateJoinStays(kind: Kind, c: Guid)
    ensures var w := Run(Start(kind), [] + [BeginDisconnect(c)] + [JoinRoom(c, "room", false)]);
            Finished(w, c) && Of(w.late, c) == [0] && w.groups == [Group("room", [c], {})] && w.registered == map["room" := 0]
  {
    var w1 := Start(kind).(leaving := map[c := []], late := map[c := []]);
    RunNext(Start(kind), [], BeginDisconnect(c), w1);
    NewRoom(w1, c);
    assert Of(w1.late, c) + [0] == [0];
    RunNext(Start(kind), [] + [BeginDisconnect(c)], JoinRoom(c, "room", false), Apply(w1, JoinRoom(c, "room", false)));
  }

  /** The loop can always go on to its end, whichever group comes next. */
  lemma DisconnectProceeds(kind: Kind, steps: seq<Step>, c: Guid, i: nat)
    ensures var w := Run(Start(kind), steps);
            c in w.leaving && i < |w.leaving[c]| ==>
              Enabled(w, DisconnectNext(c, i)) && |Apply(w, DisconnectNext(c, i)).leaving[c]| == |w.leaving[c]| - 1
  {
    var w := Run(Start(kind), steps);
    RememberedRun(kind, steps);
    assert ConnectionOk(w, c);
    if c in w.leaving && i < |w.leaving[c]| {
      assert w.leaving[c][i] in Remembered(w, c);
    }
  }

  /** And so can every join, before and after the disconnect. */
  lemma JoinProceeds(kind: Kind, steps: seq<Step>, c: Guid, name: string, withData: bool, i: nat)
    ensures var w := Run(Start(kind), steps);
            && Enabled(w, JoinRoom(c, name, withData)) && Enabled(w, FindRoom(c, name))
            && (i < |Of(w.found, c)| ==> Enabled(w, EnterRoom(c, i)))
  {
    var w := Run(Start(kind), steps);
    RememberedRun(kind, steps);
    assert ConnectionOk(w, c);
    if i < |Of(w.found, c)| {
      assert Of(w.found, c)[i] in Of(w.found, c);
    }
  }
}
