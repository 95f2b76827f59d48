/** Which formatters a generated client registers, and under which `#if` conditions
    (SerializationInfoCollector.cs, SerializationFormatterNameMapper.cs). */
module Collector {
  import opened Prelude
  import opened TypeInfo

  /** Which of the preprocessor's conditions hold. */
  type Symbols = string -> bool

  // ----- merging the conditions of one full name

  /** Something to register under a full name: unconditionally, or when one of its conditions holds. */
  datatype Info<+P> = Info(fullName: string, payload: P, conditions: seq<string>)

  ghost predicate Holds(conditions: seq<string>, on: Symbols) {
    conditions == [] || exists c | c in conditions :: on(c)
  }

  type Table<P> = t: map<string, Info<P>> | forall n | n in t :: t[n].fullName == n witness map[]

  function MergeInto<P>(t: Table<P>, x: Info<P>): Table<P> {
    if x.conditions != [] && x.fullName in t then
      var candidate := t[x.fullName];
      if candidate.conditions == [] then t
      else t[x.fullName := Info(x.fullName, x.payload, x.conditions + candidate.conditions)]
    else t[x.fullName := x]
  }

  function Merge<P>(xs: seq<Info<P>>): Table<P> {
    if xs == [] then map[] else MergeInto(Merge(xs[..|xs| - 1]), xs[|xs| - 1])
  }

  method MergeResolverRegisterInfo<P>(xs: seq<Info<P>>) returns (candidates: Table<P>)
    ensures candidates == Merge(xs)
  {
    candidates := map[];
    for i := 0 to |xs|
      invariant candidates == Merge(xs[..i])
    {
      assert xs[..i + 1][..i] == xs[..i];
      candidates := AddCandidate(candidates, xs[i]);
    }
    assert xs[..|xs|] == xs;
  }

  /** One turn of the loop. */
  method AddCandidate<P>(t: Table<P>, x: Info<P>) returns (candidates: Table<P>)
    ensures candidates == MergeInto(t, x)
  {
    candidates := t;
    if x.conditions != [] && x.fullName in candidates {
      var candidate := candidates[x.fullName];
      if candidate.conditions != [] {
        candidates := candidates[x.fullName := Info(x.fullName, x.payload, x.conditions + candidate.conditions)];
      }
    } else {
      candidates := candidates[x.fullName := x];
    }
  }

  /** All conditions given for a name. */
  function ConditionsOf<P>(xs: seq<Info<P>>, name: string): multiset<string> {
    if xs == [] then multiset{}
    else
      var last := xs[|xs| - 1];
      ConditionsOf(xs[..|xs| - 1], name) + if last.fullName == name then multiset(last.conditions) else multiset{}
  }

  predicate Occurs<P>(xs: seq<Info<P>>, name: string) {
    exists i | 0 <= i < |xs| :: xs[i].fullName == name
  }

  predicate OccursUnconditionally<P>(xs: seq<Info<P>>, name: string) {
    exists i | 0 <= i < |xs| :: xs[i].fullName == name && xs[i].conditions == []
  }

  lemma OccursSplit<P>(xs: seq<Info<P>>, name: string)
    requires xs != []
    ensures var front, last := xs[..|xs| - 1], xs[|xs| - 1];
            && (Occurs(xs, name) <==> Occurs(front, name) || last.fullName == name)
            && (OccursUnconditionally(xs, name) <==>
                OccursUnconditionally(front, name) || (last.fullName == name && last.conditions == []))
  {
    var front := xs[..|xs| - 1];
    assert forall i | 0 <= i < |front| :: front[i] == xs[i];
    if Occurs(xs, name) && xs[|xs| - 1].fullName != name {
      var i :| 0 <= i < |xs| && xs[i].fullName == name;
      assert front[i].fullName == name;
    }
    if OccursUnconditionally(xs, name) && !(xs[|xs| - 1].fullName == name && xs[|xs| - 1].conditions == []) {
      var i :| 0 <= i < |xs| && xs[i].fullName == name && xs[i].conditions == [];
      assert front[i].fullName == name && front[i].conditions == [];
    }
  }

  /** After merging, a name has an entry exactly when it occurs; the entry is unconditional exactly when some occurrence
      is, and otherwise carries the conditions of all occurrences. */
  lemma {:induction false} MergeMeaning<P>(xs: seq<Info<P>>, name: string)
    ensures name in Merge(xs) <==> Occurs(xs, name)
    ensures name in Merge(xs) ==> (Merge(xs)[name].conditions == [] <==> OccursUnconditionally(xs, name))
    ensures name in Merge(xs) && !OccursUnconditionally(xs, name) ==>
              multiset(Merge(xs)[name].conditions) == ConditionsOf(xs, name)
  {
    if xs != [] {
      MergeMeaning(xs[..|xs| - 1], name);
      OccursSplit(xs, name);
      if name !in Merge(xs[..|xs| - 1]) { NoConditions(xs[..|xs| - 1], name); }
    }
  }

  lemma {:induction false} NoConditions<P>(xs: seq<Info<P>>, name: string)
    requires !Occurs(xs, name)
    ensures ConditionsOf(xs, name) == multiset{}
  {
    if xs != [] {
      OccursSplit(xs, name);
      NoConditions(xs[..|xs| - 1], name);
    }
  }

  lemma {:induction false} ConditionsOfIff<P>(xs: seq<Info<P>>, name: string, c: string)
    ensures c in ConditionsOf(xs, name) <==> exists i | 0 <= i < |xs| :: xs[i].fullName == name && c in xs[i].conditions
  {
    if xs != [] {
      var front, last := xs[..|xs| - 1], xs[|xs| - 1];
      ConditionsOfIff(front, name, c);
      assert forall i | 0 <= i < |front| :: front[i] == xs[i];
      if exists i | 0 <= i < |xs| :: xs[i].fullName == name && c in xs[i].conditions {
        var i :| 0 <= i < |xs| && xs[i].fullName == name && c in xs[i].conditions;
        assert i < |front| ==> front[i].fullName == name && c in front[i].conditions;
        assert c in multiset(xs[i].conditions);
      }
    }
  }

  /** What merging means for a compilation: an entry is compiled in exactly when one of its occurrences would have been. */
  lemma EntryHoldsIff<P>(xs: seq<Info<P>>, name: string, on: Symbols)
    ensures name in Merge(xs) && Holds(Merge(xs)[name].conditions, on)
       <==> exists i | 0 <= i < |xs| :: xs[i].fullName == name && Holds(xs[i].conditions, on)
  {
    MergeMeaning(xs, name);
    if exists i | 0 <= i < |xs| :: xs[i].fullName == name && Holds(xs[i].conditions, on) {
      var i :| 0 <= i < |xs| && xs[i].fullName == name && Holds(xs[i].conditions, on);
      assert Occurs(xs, name);
      if xs[i].conditions != [] && !OccursUnconditionally(xs, name) {
        var c :| c in xs[i].conditions && on(c);
        ConditionsOfIff(xs, name, c);
        assert c in multiset(Merge(xs)[name].conditions);
      }
    }
    if name in Merge(xs) && Holds(Merge(xs)[name].conditions, on) && !OccursUnconditionally(xs, name) {
      var c :| c in Merge(xs)[name].conditions && on(c);
      assert c in multiset(Merge(xs)[name].conditions);
      ConditionsOfIff(xs, name, c);
    }
  }

  lemma RemovedFront<P>(xs: seq<Info<P>>, i: nat)
    requires i < |xs| - 1
    ensures var last, removed := |xs| - 1, xs[..i] + xs[i + 1..];
            && removed != [] && removed[|removed| - 1] == xs[last]
            && removed[..|removed| - 1] == xs[..last][..i] + xs[..last][i + 1..]
  {
  }

  lemma ConditionsOfLast<P>(xs: seq<Info<P>>, name: string)
    requires xs != []
    ensures var last := xs[|xs| - 1];
            ConditionsOf(xs, name)
            == ConditionsOf(xs[..|xs| - 1], name) + if last.fullName == name then multiset(last.conditions) else multiset{}
  {
  }

  lemma {:induction false} ConditionsOfRemoved<P>(xs: seq<Info<P>>, i: nat, name: string)
    requires i < |xs|
    ensures ConditionsOf(xs, name)
         == ConditionsOf(xs[..i] + xs[i + 1..], name) + if xs[i].fullName == name then multiset(xs[i].conditions) else multiset{}
  {
    var last := |xs| - 1;
    ConditionsOfLast(xs, name);
    if i == last {
      assert xs[..i] + xs[i + 1..] == xs[..last];
    } else {
      RemovedFront(xs, i);
      ConditionsOfLast(xs[..i] + xs[i + 1..], name);
      ConditionsOfRemoved(xs[..last], i, name);
      assert xs[..last][i] == xs[i];
    }
  }

  lemma RemovedMultiset<P>(xs: seq<Info<P>>, i: nat)
    requires i < |xs|
    ensures multiset(xs) == multiset(xs[..i] + xs[i + 1..]) + multiset{xs[i]}
  {
    assert xs == xs[..i] + [xs[i]] + xs[i + 1..];
  }

  lemma CancelMultiset<P>(a: multiset<Info<P>>, b: multiset<Info<P>>, x: Info<P>)
    requires a + multiset{x} == b + multiset{x}
    ensures a == b
  {
    assert a == a + multiset{x} - multiset{x};
    assert b == b + multiset{x} - multiset{x};
  }

  lemma {:induction false} ConditionsOfPermuted<P>(xs: seq<Info<P>>, ys: seq<Info<P>>, name: string)
    requires multiset(xs) == multiset(ys)
    ensures ConditionsOf(xs, name) == ConditionsOf(ys, name)
  {
    assert |multiset(xs)| == |multiset(ys)|;
    if xs != [] {
      var last := |xs| - 1;
      var x := xs[last];
      assert x in multiset(ys);
      var i :| 0 <= i < |ys| && ys[i] == x;
      var rest := ys[..i] + ys[i + 1..];
      assert multiset(xs) == multiset(xs[..last]) + multiset{x} by { assert xs == xs[..last] + [x]; }
      RemovedMultiset(ys, i);
      CancelMultiset(multiset(xs[..last]), multiset(rest), x);
      ConditionsOfPermuted(xs[..last], rest, name);
      ConditionsOfRemoved(ys, i, name);
    }
  }

  /** The order of the occurrences does not matter, up to the order of an entry's conditions. */
  lemma MergeOrderIndependent<P>(xs: seq<Info<P>>, ys: seq<Info<P>>, name: string)
    requires multiset(xs) == multiset(ys)
    ensures name in Merge(xs) <==> name in Merge(ys)
    ensures name in Merge(xs) ==>
              && (Merge(xs)[name].conditions == [] <==> Merge(ys)[name].conditions == [])
              && multiset(Merge(xs)[name].conditions) == multiset(Merge(ys)[name].conditions)
  {
    MergeMeaning(xs, name);
    MergeMeaning(ys, name);
    ConditionsOfPermuted(xs, ys, name);
    assert forall x :: x in xs <==> x in multiset(xs);
    assert forall x :: x in ys <==> x in multiset(ys);
    assert Occurs(xs, name) <==> exists x :: x in multiset(xs) && x.fullName == name;
    assert Occurs(ys, name) <==> exists x :: x in multiset(ys) && x.fullName == name;
    assert OccursUnconditionally(xs, name) <==> exists x :: x in multiset(xs) && x.fullName == name && x.conditions == [];
    assert OccursUnconditionally(ys, name) <==> exists x :: x in multiset(ys) && x.fullName == name && x.conditions == [];
  }

  // ----- what to register for one type

  /** The tables of a formatter name mapper. `userNamespace` is None for the mapper that knows no user-defined
      generic types (MemoryPack). */
  datatype Mapper = Mapper(
    builtIn: set<string>, builtInElements: set<string>, builtInNullables: set<string>,
    wellKnownGenerics: map<string, string>, tupleFormatter: string, tupleTakesDefaults: bool,
    arrayFormatters: string, userNamespace: Option<string>)

  datatype GenericPayload = GenericPayload(formatterName: string, constructorArgs: string)
  datatype EnumPayload = EnumPayload(ns: string, name: string, underlying: string)

  datatype Verdict = Skipped | RegisterEnum(e: EnumPayload) | RegisterGeneric(g: GenericPayload) | Throws

  function DefaultArgs(ts: seq<Type>): string {
    if ts == [] then ""
    else "default(" + FullName(ts[0]) + ")" + (if |ts| == 1 then "" else ", " + DefaultArgs(ts[1..]))
  }

  predicate IsArgumentTuple(ns: string, name: string) {
    ns == "MagicOnion" && name == "DynamicArgumentTuple"
  }

  /** `TryMapGeneric`. */
  function MapGeneric(m: Mapper, ns: string, name: string, args: seq<Type>): Option<GenericPayload> {
    var names := "<" + JoinNames(args) + ">";
    if IsArgumentTuple(ns, name) then
      Some(GenericPayload(m.tupleFormatter + names, "(" + (if m.tupleTakesDefaults then DefaultArgs(args) else "") + ")"))
    else if OpenName(ns, name, args) in m.wellKnownGenerics then
      Some(GenericPayload(m.wellKnownGenerics[OpenName(ns, name, args)] + names, "()"))
    else if m.userNamespace.Some? then
      var prefix := m.userNamespace.value;
      Some(GenericPayload(prefix + (if IsBlank(prefix) then "" else ".") + Qualified(ns, name) + "Formatter" + names, "()"))
    else None
  }

  /** `MapArray`; there are formatters up to rank four. */
  function MapArray(m: Mapper, element: Type, rank: nat): Verdict {
    var kind := if rank == 1 then "ArrayFormatter" else if rank == 2 then "TwoDimensionalArrayFormatter"
                else if rank == 3 then "ThreeDimensionalArrayFormatter" else "FourDimensionalArrayFormatter";
    if 1 <= rank <= 4 then RegisterGeneric(GenericPayload(m.arrayFormatters + kind + "<" + FullName(element) + ">", "()"))
    else Throws
  }

  function SimpleName(t: Type): string {
    match t
    case Array(element, _) => SimpleName(element)
    case Enum(_, name, _) => name
    case Named(_, name, _, _) => name
  }

  predicate IsBuiltInNullable(m: Mapper, ns: string, name: string, args: seq<Type>)
    requires args != []
  {
    OpenName(ns, name, args) == "global::System.Nullable<>" && FullName(args[0]) in m.builtInNullables
  }

  function Classify(m: Mapper, t: Type): Verdict {
    if FullName(t) in m.builtIn then Skipped
    else
      match t
      case Enum(ns, name, underlying) => RegisterEnum(EnumPayload(ns, name, SimpleName(underlying)))
      case Array(element, rank) => if FullName(element) in m.builtInElements then Skipped else MapArray(m, element, rank)
      case Named(ns, name, args, _) =>
        if args == [] || IsBuiltInNullable(m, ns, name, args) then Skipped
        else
          match MapGeneric(m, ns, name, args)
          case None => Skipped
          case Some(g) => RegisterGeneric(g)
  }

  /** A dotted name is split into namespace and type in one way: a class cannot be declared next to a namespace of its
      name. */
  predicate SplitAlike(t: Type, u: Type) {
    !t.Array? && !u.Array? && Qualified(t.ns, t.name) == Qualified(u.ns, u.name) ==> t.ns == u.ns && t.name == u.name
  }

  /** Names are known to be identifiers where the printed name has to be taken apart. */
  predicate Readable(t: Type) {
    Ordinary(t) && (HasArguments(t) ==> WellFormed(t))
  }

  lemma SameArguments(t: Type, u: Type)
    requires HasArguments(t) && HasArguments(u) && WellFormed(t) && WellFormed(u) && FullName(t) == FullName(u)
    ensures Qualified(t.ns, t.name) == Qualified(u.ns, u.name) && SameShapes(t.args, u.args) && |t.args| == |u.args|
    ensures FullName(t.args[0]) == FullName(u.args[0]) && JoinNames(t.args) == JoinNames(u.args)
  {
    FullNameIff(t, u);
    SameShapeSameName(t.args[0], u.args[0]);
    SameShapesSameNames(t.args, u.args);
  }

  lemma {:induction false} SameDefaults(ts: seq<Type>, us: seq<Type>)
    requires SameShapes(ts, us)
    ensures DefaultArgs(ts) == DefaultArgs(us)
  {
    if ts != [] {
      SameShapeSameName(ts[0], us[0]);
      SameDefaults(ts[1..], us[1..]);
    }
  }

  /** Generic types that print alike, and split their names alike, get the same verdict. */
  lemma SameGenericVerdict(m: Mapper, t: Type, u: Type)
    requires HasArguments(t) && HasArguments(u) && WellFormed(t) && WellFormed(u) && SplitAlike(t, u) && FullName(t) == FullName(u)
    ensures Classify(m, t) == Classify(m, u)
  {
    SameArguments(t, u);
    SameDefaults(t.args, u.args);
    SameMapping(m, t.ns, t.name, t.args, u.args);
  }

  lemma SameMapping(m: Mapper, ns: string, name: string, ts: seq<Type>, us: seq<Type>)
    requires ts != [] && |ts| == |us| && FullName(ts[0]) == FullName(us[0])
    requires JoinNames(ts) == JoinNames(us) && DefaultArgs(ts) == DefaultArgs(us)
    ensures IsBuiltInNullable(m, ns, name, ts) == IsBuiltInNullable(m, ns, name, us)
    ensures MapGeneric(m, ns, name, ts) == MapGeneric(m, ns, name, us)
  {
    assert OpenName(ns, name, ts) == OpenName(ns, name, us);
  }

  /** Types that compare equal get the same kind of verdict. */
  lemma SameVerdict(m: Mapper, t: Type, u: Type)
    requires Readable(t) && Readable(u) && SplitAlike(t, u) && TypeEquals(t, u)
    ensures Classify(m, t).RegisterEnum? <==> Classify(m, u).RegisterEnum?
    ensures Classify(m, t).RegisterGeneric? <==> Classify(m, u).RegisterGeneric?
    ensures Classify(m, t).Throws? <==> Classify(m, u).Throws?
  {
    match t
    case Array(element, rank) => SameRank(t, u);
    case Enum(_, _, _) =>
    case Named(_, _, _, _) =>
      if HasArguments(t) && HasArguments(u) {
        SameGenericVerdict(m, t, u);
      } else if HasArguments(t) {
        ArgumentsShow(t, u);
      } else if HasArguments(u) {
        ArgumentsShow(u, t);
      }
  }

  /** And types that merely print alike, if both get a formatter as generic types or arrays, get the same one. */
  lemma SamePayload(m: Mapper, t: Type, u: Type)
    requires WellFormed(t) && WellFormed(u) && SplitAlike(t, u) && FullName(t) == FullName(u)
    requires Classify(m, t).RegisterGeneric? && Classify(m, u).RegisterGeneric?
    ensures Classify(m, t) == Classify(m, u)
  {
    FullNameIff(t, u);
    if t.Array? && u.Array? {
      assert Dims(t)[|Dims(t)| - 1] == t.rank && Dims(u)[|Dims(u)| - 1] == u.rank;
      SameEnding(FullName(t.element), FullName(u.element), Dim(t.rank));
    } else if HasArguments(t) && HasArguments(u) {
      SameGenericVerdict(m, t, u);
    }
  }

  lemma SameEnding(a: string, b: string, end: string)
    requires a + end == b + end
    ensures a == b
  {
    assert |a| == |b|;
    assert a == (a + end)[..|a|] && b == (b + end)[..|b|];
  }

  // ----- collecting

  /** A type and the `#if` conditions of the member it was found at. */
  datatype Occurrence = Occurrence(t: Type, directives: seq<string>)

  predicate SameOccurrence(a: Occurrence, b: Occurrence) {
    TypeEquals(a.t, b.t) && a.directives == b.directives
  }

  predicate Seen(proceeded: seq<Occurrence>, o: Occurrence) {
    exists i | 0 <= i < |proceeded| :: SameOccurrence(proceeded[i], o)
  }

  datatype Collected = Collected(proceeded: seq<Occurrence>, enums: seq<Info<EnumPayload>>, generics: seq<Info<GenericPayload>>)

  /** One turn of the loop; None is the exception of `MapArray`. */
  function CollectOne(m: Mapper, s: Collected, o: Occurrence): Option<Collected> {
    if Seen(s.proceeded, o) then Some(s)
    else
      var s' := s.(proceeded := s.proceeded + [o]);
      match Classify(m, o.t)
      case Skipped => Some(s')
      case RegisterEnum(e) => Some(s'.(enums := s.enums + [Info(FullName(o.t), e, o.directives)]))
      case RegisterGeneric(g) => Some(s'.(generics := s.generics + [Info(FullName(o.t), g, o.directives)]))
      case Throws => None
  }

  function CollectAll(m: Mapper, os: seq<Occurrence>): Option<Collected> {
    if os == [] then Some(Collected([], [], []))
    else
      match CollectAll(m, os[..|os| - 1])
      case None => None
      case Some(s) => CollectOne(m, s, os[|os| - 1])
  }

  /** Enum formatters, other formatters, and the type hints of everything that was looked at. */
  datatype Registrations = Registrations(enums: Table<EnumPayload>, generics: Table<GenericPayload>, hints: Table<()>)

  function Hints(os: seq<Occurrence>): seq<Info<()>> {
    seq(|os|, i requires 0 <= i < |os| => Info(FullName(os[i].t), (), os[i].directives))
  }

  function CollectResult(m: Mapper, os: seq<Occurrence>): Option<Registrations> {
    match CollectAll(m, os)
    case None => None
    case Some(s) => Some(Registrations(Merge(s.enums), Merge(s.generics), Merge(Hints(s.proceeded))))
  }

  method IsProceeded(proceeded: seq<Occurrence>, o: Occurrence) returns (seen: bool)
    ensures seen == Seen(proceeded, o)
  {
    seen := false;
    for i := 0 to |proceeded|
      invariant seen <==> exists j | 0 <= j < i :: SameOccurrence(proceeded[j], o)
    {
      if SameOccurrence(proceeded[i], o) { seen := true; }
    }
  }

  method Collect(m: Mapper, os: seq<Occurrence>) returns (r: Option<Registrations>)
    ensures r == CollectResult(m, os)
  {
    var proceeded: seq<Occurrence> := [];
    var enums: seq<Info<EnumPayload>> := [];
    var generics: seq<Info<GenericPayload>> := [];
    for i := 0 to |os|
      invariant CollectAll(m, os[..i]) == Some(Collected(proceeded, enums, generics))
    {
      assert os[..i + 1][..i] == os[..i];
      var o := os[i];
      var seen := IsProceeded(proceeded, o);
      if seen { continue; }
      proceeded := proceeded + [o];
      match Classify(m, o.t) {
        case Skipped =>
        case RegisterEnum(e) => enums := enums + [Info(FullName(o.t), e, o.directives)];
        case RegisterGeneric(g) => generics := generics + [Info(FullName(o.t), g, o.directives)];
        case Throws =>
          FailureStays(m, os, i + 1);
          return None;
      }
    }
    assert os[..|os|] == os;
    var e := MergeResolverRegisterInfo(enums);
    var g := MergeResolverRegisterInfo(generics);
    var h := MergeResolverRegisterInfo(Hints(proceeded));
    return Some(Registrations(e, g, h));
  }

  lemma {:induction false} FailureStays(m: Mapper, os: seq<Occurrence>, i: nat)
    requires i <= |os| && CollectAll(m, os[..i]) == None
    ensures CollectAll(m, os) == None
  {
    if i < |os| {
      assert os[..|os| - 1][..i] == os[..i];
      FailureStays(m, os[..|os| - 1], i);
    } else {
      assert os[..i] == os;
    }
  }

  // ----- what the loop keeps

  predicate AllSplitAlike(os: seq<Occurrence>) {
    forall i, j | 0 <= i < |os| && 0 <= j < |os| :: SplitAlike(os[i].t, os[j].t)
  }

  predicate Plain(os: seq<Occurrence>) {
    AllSplitAlike(os) && forall i | 0 <= i < |os| :: Readable(os[i].t)
  }

  /** Names are identifiers everywhere. */
  predicate WellNamed(os: seq<Occurrence>) {
    AllSplitAlike(os) && forall i | 0 <= i < |os| :: WellFormed(os[i].t)
  }

  lemma WellNamedIsPlain(os: seq<Occurrence>)
    requires WellNamed(os)
    ensures Plain(os)
  {
    forall i | 0 <= i < |os| ensures Readable(os[i].t) { WellFormedIsOrdinary(os[i].t); }
  }

  /** An occurrence of a type that gets an enum, or another, formatter. */
  predicate Gives(m: Mapper, o: Occurrence, isEnum: bool) {
    if isEnum then Classify(m, o.t).RegisterEnum? else Classify(m, o.t).RegisterGeneric?
  }

  predicate Entered<P>(xs: seq<Info<P>>, o: Occurrence) {
    exists i | 0 <= i < |xs| :: xs[i].fullName == FullName(o.t) && xs[i].conditions == o.directives
  }

  /** What was looked at and gives a formatter is in the list. */
  predicate EnteredAll<P>(m: Mapper, ps: seq<Occurrence>, xs: seq<Info<P>>, isEnum: bool) {
    forall i | 0 <= i < |ps| :: Gives(m, ps[i], isEnum) ==> Entered(xs, ps[i])
  }

  /** And everything in the list comes from an occurrence. */
  ghost predicate FromAll<P>(m: Mapper, os: seq<Occurrence>, xs: seq<Info<P>>, isEnum: bool) {
    forall i | 0 <= i < |xs| :: From(m, os, xs[i], isEnum)
  }

  ghost predicate From<P>(m: Mapper, os: seq<Occurrence>, x: Info<P>, isEnum: bool) {
    exists o :: o in os && Gives(m, o, isEnum) && Describes(x, o)
  }

  predicate Describes<P>(x: Info<P>, o: Occurrence) {
    x.fullName == FullName(o.t) && x.conditions == o.directives
  }

  lemma {:induction false} TypeEqualsSelf(t: Type)
    ensures TypeEquals(t, t)
    decreases t
  {
    match t
    case Array(element, _) => TypeEqualsSelf(element);
    case Enum(_, _, underlying) => TypeEqualsSelf(underlying);
    case Named(_, _, _, _) =>
  }

  lemma EnteredLonger<P>(xs: seq<Info<P>>, x: Info<P>, o: Occurrence)
    ensures Entered(xs, o) ==> Entered(xs + [x], o)
    ensures Describes(x, o) ==> Entered(xs + [x], o)
  {
    if Entered(xs, o) {
      var i :| 0 <= i < |xs| && xs[i].fullName == FullName(o.t) && xs[i].conditions == o.directives;
      assert (xs + [x])[i] == xs[i];
    }
    assert (xs + [x])[|xs|] == x;
  }

  lemma SeenLonger(proceeded: seq<Occurrence>, p: Occurrence, o: Occurrence)
    ensures Seen(proceeded, o) ==> Seen(proceeded + [p], o)
    ensures Seen(proceeded + [o], o)
  {
    TypeEqualsSelf(o.t);
    if Seen(proceeded, o) {
      var i :| 0 <= i < |proceeded| && SameOccurrence(proceeded[i], o);
      assert SameOccurrence((proceeded + [p])[i], o);
    }
    assert SameOccurrence((proceeded + [o])[|proceeded|], o);
  }

  lemma EnteredAllMore<P>(m: Mapper, ps: seq<Occurrence>, xs: seq<Info<P>>, o: Occurrence, x: Info<P>, isEnum: bool)
    requires EnteredAll(m, ps, xs, isEnum) && Describes(x, o)
    ensures EnteredAll(m, ps + [o], xs + [x], isEnum)
  {
    EnteredLonger(xs, x, o);
    forall i | 0 <= i < |ps| && Gives(m, ps[i], isEnum) ensures Entered(xs + [x], ps[i]) {
      EnteredLonger(xs, x, ps[i]);
    }
  }

  lemma FromAllMore<P>(m: Mapper, os: seq<Occurrence>, xs: seq<Info<P>>, o: Occurrence, x: Info<P>, isEnum: bool)
    requires FromAll(m, os, xs, isEnum)
    ensures FromAll(m, os + [o], xs, isEnum)
    ensures Gives(m, o, isEnum) && Describes(x, o) ==> FromAll(m, os + [o], xs + [x], isEnum)
  {
    forall i | 0 <= i < |xs| ensures From(m, os + [o], xs[i], isEnum) {
      assert From(m, os, xs[i], isEnum);
      var p :| p in os && Gives(m, p, isEnum) && Describes(xs[i], p);
      assert p in os + [o];
    }
    assert o in os + [o];
  }

  lemma {:induction false} AllSeen(m: Mapper, os: seq<Occurrence>)
    requires CollectAll(m, os).Some?
    ensures forall i | 0 <= i < |os| :: Seen(CollectAll(m, os).value.proceeded, os[i])
    ensures forall i | 0 <= i < |CollectAll(m, os).value.proceeded| :: CollectAll(m, os).value.proceeded[i] in os
  {
    if os != [] {
      var front, o := os[..|os| - 1], os[|os| - 1];
      AllSeen(m, front);
      var ps, ps' := CollectAll(m, front).value.proceeded, CollectAll(m, os).value.proceeded;
      assert ps' == ps || ps' == ps + [o];
      SeenLonger(ps, o, o);
      forall i | 0 <= i < |os| ensures Seen(ps', os[i]) {
        if i < |os| - 1 {
          assert Seen(ps, front[i]);
          SeenLonger(ps, o, os[i]);
        }
      }
    }
  }

  lemma {:induction false} AllEntered(m: Mapper, os: seq<Occurrence>)
    requires CollectAll(m, os).Some?
    ensures var s := CollectAll(m, os).value;
            EnteredAll(m, s.proceeded, s.enums, true) && EnteredAll(m, s.proceeded, s.generics, false)
  {
    if os != [] {
      var front, o := os[..|os| - 1], os[|os| - 1];
      AllEntered(m, front);
      var s := CollectAll(m, front).value;
      if !Seen(s.proceeded, o) {
        match Classify(m, o.t)
        case RegisterEnum(e) => EnteredAllMore(m, s.proceeded, s.enums, o, Info(FullName(o.t), e, o.directives), true);
        case RegisterGeneric(g) => EnteredAllMore(m, s.proceeded, s.generics, o, Info(FullName(o.t), g, o.directives), false);
        case _ =>
      }
    }
  }

  lemma {:induction false} AllFrom(m: Mapper, os: seq<Occurrence>)
    requires CollectAll(m, os).Some?
    ensures var s := CollectAll(m, os).value; FromAll(m, os, s.enums, true) && FromAll(m, os, s.generics, false)
  {
    if os != [] {
      var front, o := os[..|os| - 1], os[|os| - 1];
      AllFrom(m, front);
      assert front + [o] == os;
      OneFrom(m, front, CollectAll(m, front).value, o);
    }
  }

  lemma OneFrom(m: Mapper, os: seq<Occurrence>, s: Collected, o: Occurrence)
    requires FromAll(m, os, s.enums, true) && FromAll(m, os, s.generics, false) && CollectOne(m, s, o).Some?
    ensures var s' := CollectOne(m, s, o).value; FromAll(m, os + [o], s'.enums, true) && FromAll(m, os + [o], s'.generics, false)
  {
    var none := EnumPayload("", "", "");
    FromAllMore(m, os, s.enums, o, Info(FullName(o.t), none, o.directives), true);
    FromAllMore(m, os, s.generics, o, Info(FullName(o.t), GenericPayload("", ""), o.directives), false);
    match Classify(m, o.t)
    case RegisterEnum(e) => FromAllMore(m, os, s.enums, o, Info(FullName(o.t), e, o.directives), true);
    case RegisterGeneric(g) => FromAllMore(m, os, s.generics, o, Info(FullName(o.t), g, o.directives), false);
    case _ =>
  }

  /** Whether the registrations compiled in under `on` include one for the name. */
  ghost predicate Registered(r: Registrations, isEnum: bool, name: string, on: Symbols) {
    if isEnum then name in r.enums && Holds(r.enums[name].conditions, on)
    else name in r.generics && Holds(r.generics[name].conditions, on)
  }

  lemma PlainPair(os: seq<Occurrence>, a: Occurrence, b: Occurrence)
    requires Plain(os) && a in os && b in os
    ensures Readable(a.t) && Readable(b.t) && SplitAlike(a.t, b.t)
  {
    var i :| 0 <= i < |os| && os[i] == a;
    var j :| 0 <= j < |os| && os[j] == b;
    assert SplitAlike(os[i].t, os[j].t);
  }

  /** An occurrence that was skipped as already seen has its twin's entry. */
  lemma TwinEntered<P>(m: Mapper, os: seq<Occurrence>, ps: seq<Occurrence>, xs: seq<Info<P>>, isEnum: bool, o: Occurrence)
    requires Plain(os) && o in os && Gives(m, o, isEnum) && Seen(ps, o) && EnteredAll(m, ps, xs, isEnum)
    requires forall i | 0 <= i < |ps| :: ps[i] in os
    ensures Entered(xs, o)
  {
    var j :| 0 <= j < |ps| && SameOccurrence(ps[j], o);
    PlainPair(os, ps[j], o);
    SameVerdict(m, ps[j].t, o.t);
    assert Entered(xs, ps[j]);
  }

  lemma AllTwinsEntered<P>(m: Mapper, os: seq<Occurrence>, ps: seq<Occurrence>, xs: seq<Info<P>>, isEnum: bool)
    requires Plain(os) && (forall i | 0 <= i < |os| :: Seen(ps, os[i])) && (forall i | 0 <= i < |ps| :: ps[i] in os)
    requires EnteredAll(m, ps, xs, isEnum)
    ensures EnteredAll(m, os, xs, isEnum)
  {
    forall i | 0 <= i < |os| && Gives(m, os[i], isEnum) ensures Entered(xs, os[i]) {
      TwinEntered(m, os, ps, xs, isEnum, os[i]);
    }
  }

  ghost predicate WantedBy(m: Mapper, os: seq<Occurrence>, isEnum: bool, name: string, on: Symbols) {
    exists o :: o in os && Gives(m, o, isEnum) && FullName(o.t) == name && Holds(o.directives, on)
  }

  lemma EntryOfWanted<P>(m: Mapper, os: seq<Occurrence>, xs: seq<Info<P>>, isEnum: bool, name: string, on: Symbols)
    requires EnteredAll(m, os, xs, isEnum) && WantedBy(m, os, isEnum, name, on)
    ensures name in Merge(xs) && Holds(Merge(xs)[name].conditions, on)
  {
    var o :| o in os && Gives(m, o, isEnum) && FullName(o.t) == name && Holds(o.directives, on);
    var k :| 0 <= k < |os| && os[k] == o;
    assert Entered(xs, os[k]);
    EntryOf(xs, o, on);
  }

  lemma EntryOf<P>(xs: seq<Info<P>>, o: Occurrence, on: Symbols)
    requires Entered(xs, o) && Holds(o.directives, on)
    ensures FullName(o.t) in Merge(xs) && Holds(Merge(xs)[FullName(o.t)].conditions, on)
  {
    var i :| 0 <= i < |xs| && xs[i].fullName == FullName(o.t) && xs[i].conditions == o.directives;
    EntryHoldsIff(xs, FullName(o.t), on);
  }

  lemma WantedOfEntry<P>(m: Mapper, os: seq<Occurrence>, xs: seq<Info<P>>, isEnum: bool, name: string, on: Symbols)
    requires FromAll(m, os, xs, isEnum)
    requires name in Merge(xs) && Holds(Merge(xs)[name].conditions, on)
    ensures WantedBy(m, os, isEnum, name, on)
  {
    EntryHoldsIff(xs, name, on);
    var i :| 0 <= i < |xs| && xs[i].fullName == name && Holds(xs[i].conditions, on);
    assert From(m, os, xs[i], isEnum);
    var o :| o in os && Gives(m, o, isEnum) && Describes(xs[i], o);
    assert FullName(o.t) == name && Holds(o.directives, on);
  }

  lemma RegisteredFromList<P>(m: Mapper, os: seq<Occurrence>, ps: seq<Occurrence>, xs: seq<Info<P>>, isEnum: bool,
                              name: string, on: Symbols)
    requires Plain(os) && (forall i | 0 <= i < |os| :: Seen(ps, os[i])) && (forall i | 0 <= i < |ps| :: ps[i] in os)
    requires EnteredAll(m, ps, xs, isEnum) && FromAll(m, os, xs, isEnum)
    ensures name in Merge(xs) && Holds(Merge(xs)[name].conditions, on) <==> WantedBy(m, os, isEnum, name, on)
  {
    if name in Merge(xs) && Holds(Merge(xs)[name].conditions, on) {
      WantedOfEntry(m, os, xs, isEnum, name, on);
    }
    if WantedBy(m, os, isEnum, name, on) {
      AllTwinsEntered(m, os, ps, xs, isEnum);
      EntryOfWanted(m, os, xs, isEnum, name, on);
    }
  }

  /** The formatters compiled in are exactly those of the occurrences whose member has no condition or one that holds,
      in whatever order the occurrences are enumerated. */
  lemma RegisteredIff(m: Mapper, os: seq<Occurrence>, isEnum: bool, name: string, on: Symbols)
    requires Plain(os) && CollectResult(m, os).Some?
    ensures Registered(CollectResult(m, os).value, isEnum, name, on)
       <==> WantedBy(m, os, isEnum, name, on)
  {
    var s := CollectAll(m, os).value;
    AllSeen(m, os);
    AllEntered(m, os);
    AllFrom(m, os);
    if isEnum {
      RegisteredFromList(m, os, s.proceeded, s.enums, true, name, on);
    } else {
      RegisteredFromList(m, os, s.proceeded, s.generics, false, name, on);
    }
  }

  ghost predicate Found(os: seq<Occurrence>, name: string, on: Symbols) {
    exists o :: o in os && FullName(o.t) == name && Holds(o.directives, on)
  }

  lemma HintsFound(ps: seq<Occurrence>, name: string, on: Symbols)
    ensures name in Merge(Hints(ps)) && Holds(Merge(Hints(ps))[name].conditions, on) <==> Found(ps, name, on)
  {
    var hints := Hints(ps);
    EntryHoldsIff(hints, name, on);
    if Found(ps, name, on) {
      var o :| o in ps && FullName(o.t) == name && Holds(o.directives, on);
      var j :| 0 <= j < |ps| && ps[j] == o;
      assert hints[j].fullName == name && hints[j].conditions == o.directives;
    }
  }

  lemma SeenFound(os: seq<Occurrence>, ps: seq<Occurrence>, name: string, on: Symbols)
    requires (forall i | 0 <= i < |os| :: Seen(ps, os[i])) && (forall i | 0 <= i < |ps| :: ps[i] in os)
    ensures Found(ps, name, on) <==> Found(os, name, on)
  {
    if Found(ps, name, on) {
      var p :| p in ps && FullName(p.t) == name && Holds(p.directives, on);
      assert p in os;
    }
    if Found(os, name, on) {
      var o :| o in os && FullName(o.t) == name && Holds(o.directives, on);
      var k :| 0 <= k < |os| && os[k] == o;
      assert Seen(ps, os[k]);
      var j :| 0 <= j < |ps| && SameOccurrence(ps[j], o);
      assert ps[j] in ps;
    }
  }

  /** The type hints compiled in are those of all types found, whether or not they get a formatter. */
  lemma HintsIff(m: Mapper, os: seq<Occurrence>, name: string, on: Symbols)
    requires CollectResult(m, os).Some?
    ensures var hints := CollectResult(m, os).value.hints; name in hints && Holds(hints[name].conditions, on) <==> Found(os, name, on)
  {
    var ps := CollectAll(m, os).value.proceeded;
    AllSeen(m, os);
    HintsFound(ps, name, on);
    SeenFound(os, ps, name, on);
  }

  predicate SomeThrows(m: Mapper, os: seq<Occurrence>) {
    exists i | 0 <= i < |os| :: Classify(m, os[i].t).Throws?
  }

  lemma SomeThrowsSplit(m: Mapper, front: seq<Occurrence>, o: Occurrence)
    ensures SomeThrows(m, front + [o]) <==> SomeThrows(m, front) || Classify(m, o.t).Throws?
  {
    var os := front + [o];
    if SomeThrows(m, front) {
      var i :| 0 <= i < |front| && Classify(m, front[i].t).Throws?;
      assert Classify(m, os[i].t).Throws?;
    }
    assert os[|front|] == o;
  }

  lemma TwinThrows(m: Mapper, os: seq<Occurrence>, ps: seq<Occurrence>, o: Occurrence)
    requires Plain(os + [o]) && Seen(ps, o) && Classify(m, o.t).Throws?
    requires forall i | 0 <= i < |ps| :: ps[i] in os
    ensures SomeThrows(m, os)
  {
    var j :| 0 <= j < |ps| && SameOccurrence(ps[j], o);
    assert ps[j] in os && ps[j] in os + [o] && o in os + [o];
    var l :| 0 <= l < |os| && os[l] == ps[j];
    PlainPair(os + [o], ps[j], o);
    SameVerdict(m, ps[j].t, o.t);
  }

  lemma PlainFront(os: seq<Occurrence>)
    requires Plain(os) && os != []
    ensures Plain(os[..|os| - 1]) && os[..|os| - 1] + [os[|os| - 1]] == os
  {
    var front := os[..|os| - 1];
    assert forall i | 0 <= i < |front| :: front[i] == os[i];
  }

  lemma EnumNamesDiffer(m: Mapper, e: Type, g: Type)
    requires WellFormed(e) && WellFormed(g) && Classify(m, e).RegisterEnum? && Classify(m, g).RegisterGeneric?
    ensures FullName(e) != FullName(g)
  {
    FullNameIff(e, g);
  }

  lemma WantedByType(m: Mapper, os: seq<Occurrence>, isEnum: bool, name: string, on: Symbols) returns (t: Type)
    requires WellNamed(os) && WantedBy(m, os, isEnum, name, on)
    ensures WellFormed(t) && FullName(t) == name
    ensures if isEnum then Classify(m, t).RegisterEnum? else Classify(m, t).RegisterGeneric?
  {
    var o :| o in os && Gives(m, o, isEnum) && FullName(o.t) == name && Holds(o.directives, on);
    var i :| 0 <= i < |os| && os[i] == o;
    t := os[i].t;
  }

  /** No name is registered both as an enum and otherwise: the two tables together have one entry per name. */
  lemma NamesDistinct(m: Mapper, os: seq<Occurrence>, name: string)
    requires WellNamed(os) && CollectResult(m, os).Some?
    ensures var r := CollectResult(m, os).value; !(name in r.enums && name in r.generics)
  {
    var r := CollectResult(m, os).value;
    WellNamedIsPlain(os);
    if name in r.enums && name in r.generics {
      AlwaysHolds(r.enums[name].conditions);
      AlwaysHolds(r.generics[name].conditions);
      RegisteredIff(m, os, true, name, Always);
      RegisteredIff(m, os, false, name, Always);
      var e := WantedByType(m, os, true, name, Always);
      var g := WantedByType(m, os, false, name, Always);
      EnumNamesDiffer(m, e, g);
    }
  }

  const Always: Symbols := c => true

  lemma AlwaysHolds(conditions: seq<string>)
    ensures Holds(conditions, Always)
  {
    if conditions != [] { assert conditions[0] in conditions && Always(conditions[0]); }
  }

  /** Collecting fails exactly when a found array has too many dimensions for a formatter. */
  lemma {:induction false} CollectFailsIff(m: Mapper, os: seq<Occurrence>)
    requires Plain(os)
    ensures CollectAll(m, os) == None <==> SomeThrows(m, os)
  {
    if os != [] {
      var front, o := os[..|os| - 1], os[|os| - 1];
      PlainFront(os);
      CollectFailsIff(m, front);
      SomeThrowsSplit(m, front, o);
      if CollectAll(m, front).Some? {
        var ps := CollectAll(m, front).value.proceeded;
        AllSeen(m, front);
        if Seen(ps, o) && Classify(m, o.t).Throws? { TwinThrows(m, front, ps, o); }
      }
    }
  }

  // ----- where types are found

  datatype Member = Member(request: Type, response: Type, condition: string)
  datatype Service = Service(condition: string, members: seq<Member>)
  datatype Hub = Hub(condition: string, receiver: seq<Member>, members: seq<Member>)

  /** `new[] { a, b }.Distinct().Where(not blank)`. */
  function Directives(a: string, b: string): seq<string> {
    (if IsBlank(a) then [] else [a]) + (if IsBlank(b) || a == b then [] else [b])
  }

  function EnumerateTypes(t: Type, directives: seq<string>): seq<Occurrence>
    decreases t
  {
    [Occurrence(t, directives)] + if t.Named? then EnumerateArgs(t.args, directives) else []
  }

  function EnumerateArgs(ts: seq<Type>, directives: seq<string>): seq<Occurrence>
    decreases ts
  {
    if ts == [] then [] else EnumerateTypes(ts[0], directives) + EnumerateArgs(ts[1..], directives)
  }

  function OfMembers(condition: string, members: seq<Member>): seq<Occurrence> {
    if members == [] then []
    else
      var d := Directives(condition, members[0].condition);
      EnumerateTypes(members[0].response, d) + EnumerateTypes(members[0].request, d) + OfMembers(condition, members[1..])
  }

  function OfServices(services: seq<Service>): seq<Occurrence> {
    if services == [] then [] else OfMembers(services[0].condition, services[0].members) + OfServices(services[1..])
  }

  function OfHubs(hubs: seq<Hub>): seq<Occurrence> {
    if hubs == [] then []
    else OfMembers(hubs[0].condition, hubs[0].receiver) + OfMembers(hubs[0].condition, hubs[0].members) + OfHubs(hubs[1..])
  }

  /** The list that `Collect` loops over: every found type followed by its parts. */
  function Flatten(os: seq<Occurrence>): seq<Occurrence> {
    if os == [] then [] else WithDirectives([os[0].t] + Dependents(os[0].t), os[0].directives) + Flatten(os[1..])
  }

  function WithDirectives(ts: seq<Type>, directives: seq<string>): seq<Occurrence> {
    seq(|ts|, i requires 0 <= i < |ts| => Occurrence(ts[i], directives))
  }

  function AllOccurrences(services: seq<Service>, hubs: seq<Hub>): seq<Occurrence> {
    Flatten(OfServices(services) + OfHubs(hubs))
  }

  lemma {:induction false} FlattenHas(os: seq<Occurrence>, o: Occurrence, t: Type)
    requires o in os && Subterm(t, o.t)
    ensures Occurrence(t, o.directives) in Flatten(os)
  {
    if os[0] == o {
      DependentsIff(t, o.t);
      var ts := [o.t] + Dependents(o.t);
      var i :| 0 <= i < |ts| && ts[i] == t;
      assert WithDirectives(ts, o.directives)[i] == Occurrence(t, o.directives);
    } else {
      FlattenHas(os[1..], o, t);
    }
  }

  lemma {:induction false} OfMembersHas(condition: string, members: seq<Member>, k: nat)
    requires k < |members|
    ensures var d := Directives(condition, members[k].condition);
            && Occurrence(members[k].response, d) in OfMembers(condition, members)
            && Occurrence(members[k].request, d) in OfMembers(condition, members)
  {
    if k > 0 {
      OfMembersHas(condition, members[1..], k - 1);
    } else {
      var d := Directives(condition, members[0].condition);
      assert EnumerateTypes(members[0].response, d)[0] == Occurrence(members[0].response, d);
      assert EnumerateTypes(members[0].request, d)[0] == Occurrence(members[0].request, d);
    }
  }

  lemma {:induction false} OfServicesHas(services: seq<Service>, k: nat, o: Occurrence)
    requires k < |services| && o in OfMembers(services[k].condition, services[k].members)
    ensures o in OfServices(services)
  {
    if k > 0 { OfServicesHas(services[1..], k - 1, o); }
  }

  lemma {:induction false} OfHubsHas(hubs: seq<Hub>, k: nat, o: Occurrence)
    requires k < |hubs|
    requires o in OfMembers(hubs[k].condition, hubs[k].receiver) || o in OfMembers(hubs[k].condition, hubs[k].members)
    ensures o in OfHubs(hubs)
  {
    if k > 0 { OfHubsHas(hubs[1..], k - 1, o); }
  }

  /** A member is compiled in when its own condition and that of its service or hub hold. */
  predicate CompiledIn(condition: string, member: Member, on: Symbols) {
    (IsBlank(condition) || on(condition)) && (IsBlank(member.condition) || on(member.condition))
  }

  /** The two conditions of a member are alternatives to the collector, so it registers for more compilations than the
      member needs: also when just one of two conditions holds. */
  lemma DirectivesHoldIff(a: string, b: string, on: Symbols)
    ensures Holds(Directives(a, b), on) <==> (IsBlank(a) && IsBlank(b)) || (!IsBlank(a) && on(a)) || (!IsBlank(b) && on(b))
  {
    var d := Directives(a, b);
    assert !IsBlank(a) ==> d[0] == a;
    assert !IsBlank(b) ==> b in d;
  }

  /** Where a member is declared. */
  datatype Place = InService(service: nat, member: nat) | InHub(hub: nat, member: nat) | InReceiver(hub: nat, member: nat)

  predicate Declared(services: seq<Service>, hubs: seq<Hub>, p: Place) {
    match p
    case InService(s, k) => s < |services| && k < |services[s].members|
    case InHub(h, k) => h < |hubs| && k < |hubs[h].members|
    case InReceiver(h, k) => h < |hubs| && k < |hubs[h].receiver|
  }

  function MemberAt(services: seq<Service>, hubs: seq<Hub>, p: Place): (string, Member)
    requires Declared(services, hubs, p)
  {
    match p
    case InService(s, k) => (services[s].condition, services[s].members[k])
    case InHub(h, k) => (hubs[h].condition, hubs[h].members[k])
    case InReceiver(h, k) => (hubs[h].condition, hubs[h].receiver[k])
  }

  lemma MemberTypesFound(services: seq<Service>, hubs: seq<Hub>, p: Place)
    requires Declared(services, hubs, p)
    ensures var (condition, member) := MemberAt(services, hubs, p);
            var d := Directives(condition, member.condition);
            && Occurrence(member.response, d) in OfServices(services) + OfHubs(hubs)
            && Occurrence(member.request, d) in OfServices(services) + OfHubs(hubs)
  {
    var (condition, member) := MemberAt(services, hubs, p);
    var d := Directives(condition, member.condition);
    match p
    case InService(s, k) =>
      OfMembersHas(services[s].condition, services[s].members, k);
      OfServicesHas(services, s, Occurrence(member.response, d));
      OfServicesHas(services, s, Occurrence(member.request, d));
    case InHub(h, k) =>
      OfMembersHas(hubs[h].condition, hubs[h].members, k);
      OfHubsHas(hubs, h, Occurrence(member.response, d));
      OfHubsHas(hubs, h, Occurrence(member.request, d));
    case InReceiver(h, k) =>
      OfMembersHas(hubs[h].condition, hubs[h].receiver, k);
      OfHubsHas(hubs, h, Occurrence(member.response, d));
      OfHubsHas(hubs, h, Occurrence(member.request, d));
  }

  /** Every part of a member's types is found, under the member's conditions. */
  lemma PartOccurs(services: seq<Service>, hubs: seq<Hub>, p: Place, t: Type)
    requires Declared(services, hubs, p)
    requires var (condition, member) := MemberAt(services, hubs, p); Subterm(t, member.request) || Subterm(t, member.response)
    ensures var (condition, member) := MemberAt(services, hubs, p);
            Occurrence(t, Directives(condition, member.condition)) in AllOccurrences(services, hubs)
  {
    var (condition, member) := MemberAt(services, hubs, p);
    var d := Directives(condition, member.condition);
    MemberTypesFound(services, hubs, p);
    if Subterm(t, member.request) {
      FlattenHas(OfServices(services) + OfHubs(hubs), Occurrence(member.request, d), t);
    } else {
      FlattenHas(OfServices(services) + OfHubs(hubs), Occurrence(member.response, d), t);
    }
  }

  /** No needed formatter is ever dropped: whenever a method is compiled in, every part of its request and response types
      that a formatter exists for has one registered. */
  lemma NothingDropped(m: Mapper, services: seq<Service>, hubs: seq<Hub>, p: Place, t: Type, isEnum: bool, on: Symbols)
    requires Plain(AllOccurrences(services, hubs)) && CollectResult(m, AllOccurrences(services, hubs)).Some?
    requires Declared(services, hubs, p)
    requires var (condition, member) := MemberAt(services, hubs, p);
             CompiledIn(condition, member, on) && (Subterm(t, member.request) || Subterm(t, member.response))
    requires if isEnum then Classify(m, t).RegisterEnum? else Classify(m, t).RegisterGeneric?
    ensures Registered(CollectResult(m, AllOccurrences(services, hubs)).value, isEnum, FullName(t), on)
  {
    var (condition, member) := MemberAt(services, hubs, p);
    var d := Directives(condition, member.condition);
    var os := AllOccurrences(services, hubs);
    PartOccurs(services, hubs, p, t);
    DirectivesHoldIff(condition, member.condition, on);
    var o := Occurrence(t, d);
    assert o in os && Gives(m, o, isEnum) && FullName(o.t) == FullName(t) && Holds(o.directives, on);
    RegisteredIff(m, os, isEnum, FullName(t), on);
  }

  // ----- nothing else is found

  lemma {:induction false} EnumerateOnly(t: Type, d: seq<string>, o: Occurrence)
    requires o in EnumerateTypes(t, d)
    ensures Subterm(o.t, t) && o.directives == d
    decreases t, 0
  {
    if o != Occurrence(t, d) { EnumerateArgsOnly(t.args, d, o); }
  }

  lemma {:induction false} EnumerateArgsOnly(ts: seq<Type>, d: seq<string>, o: Occurrence)
    requires o in EnumerateArgs(ts, d)
    ensures o.directives == d && exists i | 0 <= i < |ts| :: Subterm(o.t, ts[i])
    decreases ts
  {
    if o in EnumerateTypes(ts[0], d) {
      EnumerateOnly(ts[0], d, o);
    } else {
      EnumerateArgsOnly(ts[1..], d, o);
      var i :| 0 <= i < |ts[1..]| && Subterm(o.t, ts[1..][i]);
      assert Subterm(o.t, ts[i + 1]);
    }
  }

  /** A part of one of the member's types, under the member's conditions. */
  ghost predicate IsPartOf(o: Occurrence, condition: string, member: Member) {
    && o.directives == Directives(condition, member.condition)
    && (Subterm(o.t, member.request) || Subterm(o.t, member.response))
  }

  lemma {:induction false} OfMembersOnly(condition: string, members: seq<Member>, o: Occurrence) returns (k: nat)
    requires o in OfMembers(condition, members)
    ensures k < |members| && IsPartOf(o, condition, members[k])
  {
    var d := Directives(condition, members[0].condition);
    if o in EnumerateTypes(members[0].response, d) {
      EnumerateOnly(members[0].response, d, o);
      k := 0;
    } else if o in EnumerateTypes(members[0].request, d) {
      EnumerateOnly(members[0].request, d, o);
      k := 0;
    } else {
      k := OfMembersOnly(condition, members[1..], o);
      k := k + 1;
    }
  }

  lemma {:induction false} OfServicesOnly(services: seq<Service>, o: Occurrence) returns (s: nat, k: nat)
    requires o in OfServices(services)
    ensures s < |services| && k < |services[s].members| && IsPartOf(o, services[s].condition, services[s].members[k])
  {
    if o in OfMembers(services[0].condition, services[0].members) {
      s := 0;
      k := OfMembersOnly(services[0].condition, services[0].members, o);
    } else {
      s, k := OfServicesOnly(services[1..], o);
      s := s + 1;
    }
  }

  lemma {:induction false} OfHubsOnly(hubs: seq<Hub>, o: Occurrence) returns (p: Place)
    requires o in OfHubs(hubs)
    ensures !p.InService? && Declared([], hubs, p) && IsPartOf(o, MemberAt([], hubs, p).0, MemberAt([], hubs, p).1)
  {
    if o in OfMembers(hubs[0].condition, hubs[0].receiver) {
      var k := OfMembersOnly(hubs[0].condition, hubs[0].receiver, o);
      p := InReceiver(0, k);
    } else if o in OfMembers(hubs[0].condition, hubs[0].members) {
      var k := OfMembersOnly(hubs[0].condition, hubs[0].members, o);
      p := InHub(0, k);
    } else {
      var q := OfHubsOnly(hubs[1..], o);
      p := if q.InHub? then InHub(q.hub + 1, q.member) else InReceiver(q.hub + 1, q.member);
    }
  }

  lemma {:induction false} FlattenOnly(os: seq<Occurrence>, o: Occurrence) returns (x: Occurrence)
    requires o in Flatten(os)
    ensures x in os && Subterm(o.t, x.t) && o.directives == x.directives
  {
    var ts := [os[0].t] + Dependents(os[0].t);
    if o in WithDirectives(ts, os[0].directives) {
      x := os[0];
      var i :| 0 <= i < |ts| && WithDirectives(ts, os[0].directives)[i] == o;
      assert o.t in ts;
      DependentsIff(o.t, os[0].t);
    } else {
      x := FlattenOnly(os[1..], o);
    }
  }

  /** Every found type is a part of some declared member's types, under that member's own conditions. */
  lemma OccurrenceIsPart(services: seq<Service>, hubs: seq<Hub>, o: Occurrence) returns (p: Place)
    requires o in AllOccurrences(services, hubs)
    ensures Declared(services, hubs, p) && IsPartOf(o, MemberAt(services, hubs, p).0, MemberAt(services, hubs, p).1)
  {
    var x := FlattenOnly(OfServices(services) + OfHubs(hubs), o);
    if x in OfServices(services) {
      var s, k := OfServicesOnly(services, x);
      p := InService(s, k);
    } else {
      var q := OfHubsOnly(hubs, x);
      p := q;
      assert MemberAt(services, hubs, p) == MemberAt([], hubs, q);
    }
    var member := MemberAt(services, hubs, p).1;
    if Subterm(x.t, member.request) {
      SubtermTransitive(o.t, x.t, member.request);
    } else {
      SubtermTransitive(o.t, x.t, member.response);
    }
  }

  /** And nothing is registered beyond need: a formatter is compiled in only for a part of some member's types, when that
      member has no condition or one of its conditions holds. */
  lemma NothingExtra(m: Mapper, services: seq<Service>, hubs: seq<Hub>, isEnum: bool, name: string, on: Symbols)
    returns (p: Place, t: Type)
    requires Plain(AllOccurrences(services, hubs)) && CollectResult(m, AllOccurrences(services, hubs)).Some?
    requires Registered(CollectResult(m, AllOccurrences(services, hubs)).value, isEnum, name, on)
    ensures Declared(services, hubs, p) && FullName(t) == name
    ensures if isEnum then Classify(m, t).RegisterEnum? else Classify(m, t).RegisterGeneric?
    ensures var (condition, member) := MemberAt(services, hubs, p);
            && (Subterm(t, member.request) || Subterm(t, member.response))
            && (|| (IsBlank(condition) && IsBlank(member.condition)) || (!IsBlank(condition) && on(condition))
                || (!IsBlank(member.condition) && on(member.condition)))
  {
    var os := AllOccurrences(services, hubs);
    RegisteredIff(m, os, isEnum, name, on);
    var o :| o in os && Gives(m, o, isEnum) && FullName(o.t) == name && Holds(o.directives, on);
    t := o.t;
    p := OccurrenceIsPart(services, hubs, o);
    var (condition, member) := MemberAt(services, hubs, p);
    DirectivesHoldIff(condition, member.condition, on);
  }

  lemma MergedCondition<P>(xs: seq<Info<P>>, name: string, c: string) returns (i: nat)
    requires name in Merge(xs) && c in Merge(xs)[name].conditions
    ensures i < |xs| && xs[i].fullName == name && c in xs[i].conditions
  {
    MergeMeaning(xs, name);
    assert c in multiset(Merge(xs)[name].conditions);
    ConditionsOfIff(xs, name, c);
    i :| 0 <= i < |xs| && xs[i].fullName == name && c in xs[i].conditions;
  }

  /** Every condition of an entry is a condition of some member, or of its service or hub. */
  lemma EntryConditions<P>(m: Mapper, services: seq<Service>, hubs: seq<Hub>, xs: seq<Info<P>>, isEnum: bool, name: string, c: string)
    returns (p: Place)
    requires FromAll(m, AllOccurrences(services, hubs), xs, isEnum) && name in Merge(xs) && c in Merge(xs)[name].conditions
    ensures Declared(services, hubs, p)
    ensures var (condition, member) := MemberAt(services, hubs, p); !IsBlank(c) && (c == condition || c == member.condition)
  {
    var i := MergedCondition(xs, name, c);
    var o := Source(m, AllOccurrences(services, hubs), xs, i, isEnum);
    p := OccurrenceIsPart(services, hubs, o);
  }

  lemma Source<P>(m: Mapper, os: seq<Occurrence>, xs: seq<Info<P>>, i: nat, isEnum: bool) returns (o: Occurrence)
    requires FromAll(m, os, xs, isEnum) && i < |xs|
    ensures o in os && Describes(xs[i], o)
  {
    assert From(m, os, xs[i], isEnum);
    o :| o in os && Gives(m, o, isEnum) && Describes(xs[i], o);
  }

  // ----- which formatter an entry names

  /** An occurrence of the name whose verdict is the entry. */
  ghost predicate GivesGeneric(m: Mapper, os: seq<Occurrence>, x: Info<GenericPayload>) {
    exists i :: 0 <= i < |os| && FullName(os[i].t) == x.fullName && Classify(m, os[i].t) == RegisterGeneric(x.payload)
  }

  ghost predicate GivesEnum(m: Mapper, os: seq<Occurrence>, x: Info<EnumPayload>) {
    exists i :: 0 <= i < |os| && FullName(os[i].t) == x.fullName && Classify(m, os[i].t) == RegisterEnum(x.payload)
  }

  ghost predicate PayloadsGiven(m: Mapper, os: seq<Occurrence>, s: Collected) {
    && (forall i | 0 <= i < |s.generics| :: GivesGeneric(m, os, s.generics[i]))
    && (forall i | 0 <= i < |s.enums| :: GivesEnum(m, os, s.enums[i]))
  }

  lemma PayloadsGivenMore(m: Mapper, os: seq<Occurrence>, s: Collected, o: Occurrence)
    requires PayloadsGiven(m, os, s)
    ensures PayloadsGiven(m, os + [o], s)
  {
    forall i | 0 <= i < |s.generics| ensures GivesGeneric(m, os + [o], s.generics[i]) {
      assert GivesGeneric(m, os, s.generics[i]);
      var k :| 0 <= k < |os| && FullName(os[k].t) == s.generics[i].fullName && Classify(m, os[k].t) == RegisterGeneric(s.generics[i].payload);
      assert (os + [o])[k] == os[k];
    }
    forall i | 0 <= i < |s.enums| ensures GivesEnum(m, os + [o], s.enums[i]) {
      assert GivesEnum(m, os, s.enums[i]);
      var k :| 0 <= k < |os| && FullName(os[k].t) == s.enums[i].fullName && Classify(m, os[k].t) == RegisterEnum(s.enums[i].payload);
      assert (os + [o])[k] == os[k];
    }
  }

  lemma {:induction false} AllPayloads(m: Mapper, os: seq<Occurrence>)
    requires CollectAll(m, os).Some?
    ensures PayloadsGiven(m, os, CollectAll(m, os).value)
  {
    if os != [] {
      var front, o := os[..|os| - 1], os[|os| - 1];
      AllPayloads(m, front);
      PayloadsGivenMore(m, front, CollectAll(m, front).value, o);
      assert front + [o] == os && os[|os| - 1] == o;
    }
  }

  /** Merging keeps the payload of one of the occurrences. */
  lemma {:induction false} MergePayload<P>(xs: seq<Info<P>>, name: string) returns (i: nat)
    requires name in Merge(xs)
    ensures i < |xs| && xs[i].fullName == name && xs[i].payload == Merge(xs)[name].payload
  {
    var front := xs[..|xs| - 1];
    if name in Merge(front) && Merge(front)[name].payload == Merge(xs)[name].payload {
      i := MergePayload(front, name);
    } else {
      i := |xs| - 1;
    }
  }

  lemma GenericEntry(m: Mapper, os: seq<Occurrence>, t: Type)
    requires WellNamed(os) && CollectResult(m, os).Some? && (exists i :: 0 <= i < |os| && os[i].t == t)
    requires Classify(m, t).RegisterGeneric? && FullName(t) in CollectResult(m, os).value.generics
    ensures Classify(m, t) == RegisterGeneric(CollectResult(m, os).value.generics[FullName(t)].payload)
  {
    var s := CollectAll(m, os).value;
    WellNamedIsPlain(os);
    AllPayloads(m, os);
    var i := MergePayload(s.generics, FullName(t));
    assert GivesGeneric(m, os, s.generics[i]);
    var k :| 0 <= k < |os| && FullName(os[k].t) == FullName(t) && Classify(m, os[k].t) == RegisterGeneric(s.generics[i].payload);
    var j :| 0 <= j < |os| && os[j].t == t;
    PlainPair(os, os[k], os[j]);
    SamePayload(m, os[k].t, os[j].t);
  }

  lemma EnumEntry(m: Mapper, os: seq<Occurrence>, t: Type)
    requires WellNamed(os) && CollectResult(m, os).Some? && (exists i :: 0 <= i < |os| && os[i].t == t)
    requires Classify(m, t).RegisterEnum? && FullName(t) in CollectResult(m, os).value.enums
    ensures CollectResult(m, os).value.enums[FullName(t)].payload.name == t.name
  {
    var s := CollectAll(m, os).value;
    WellNamedIsPlain(os);
    AllPayloads(m, os);
    var i := MergePayload(s.enums, FullName(t));
    assert GivesEnum(m, os, s.enums[i]);
    var k :| 0 <= k < |os| && FullName(os[k].t) == FullName(t) && Classify(m, os[k].t) == RegisterEnum(s.enums[i].payload);
    var j :| 0 <= j < |os| && os[j].t == t;
    PlainPair(os, os[k], os[j]);
    SameEnumName(m, os[k].t, os[j].t);
  }

  lemma SameEnumName(m: Mapper, t: Type, u: Type)
    requires Classify(m, t).RegisterEnum? && Classify(m, u).RegisterEnum? && SplitAlike(t, u) && FullName(t) == FullName(u)
    ensures Classify(m, t).e.name == u.name
  {
    Cancel(GLOBAL, Qualified(t.ns, t.name), Qualified(u.ns, u.name));
  }
}
