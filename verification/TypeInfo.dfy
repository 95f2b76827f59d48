/** The generator's type terms (MagicOnionTypeInfo.cs): their printed names, their parts, and when two terms that
    print alike are the same type. */
module TypeInfo {
  /** `isValue` tells a struct from a class. An enum keeps its underlying type but is printed without it. */
  datatype Type =
    | Named(ns: string, name: string, args: seq<Type>, isValue: bool)
    | Enum(ns: string, name: string, underlying: Type)
    | Array(element: Type, rank: nat)

  // ----- printed names

  /** `char.IsWhiteSpace`. */
  predicate IsSpace(c: char) {
    var n := c as int;
    n == 0x20 || 0x09 <= n <= 0x0d || n == 0x85 || n == 0xa0 || n == 0x1680 || 0x2000 <= n <= 0x200a
    || n == 0x2028 || n == 0x2029 || n == 0x202f || n == 0x205f || n == 0x3000
  }

  /** `string.IsNullOrWhiteSpace`; null is "". */
  predicate IsBlank(s: string) {
    forall c | c in s :: IsSpace(c)
  }

  function Commas(n: nat): string {
    seq(n, i => ',')
  }

  function Qualified(ns: string, name: string): string {
    if IsBlank(ns) then name else ns + "." + name
  }

  function Dim(rank: nat): string {
    "[" + Commas(if rank > 1 then rank - 1 else 0) + "]"
  }

  const GLOBAL := "global::"

  /** `FullName`. */
  function FullName(t: Type): string
    decreases t
  {
    match t
    case Array(element, rank) => FullName(element) + Dim(rank)
    case Enum(ns, name, _) => GLOBAL + Qualified(ns, name)
    case Named(ns, name, args, _) =>
      GLOBAL + Qualified(ns, name) + if args == [] then "" else "<" + JoinNames(args) + ">"
  }

  function JoinNames(ts: seq<Type>): string
    decreases ts
  {
    if ts == [] then ""
    else if |ts| == 1 then FullName(ts[0])
    else FullName(ts[0]) + ", " + JoinNames(ts[1..])
  }

  /** `FullNameOpenType` of a type that is no array. */
  function OpenName(ns: string, name: string, args: seq<Type>): string {
    GLOBAL + Qualified(ns, name) + if args == [] then "" else "<" + Commas(|args| - 1) + ">"
  }

  // ----- parts

  /** `EnumerateDependentTypes`, without the type itself. */
  function Dependents(t: Type): seq<Type>
    decreases t
  {
    match t
    case Array(element, _) => [element] + Dependents(element)
    case Enum(_, _, _) => []
    case Named(_, _, args, _) => DependentsOfAll(args)
  }

  function DependentsOfAll(ts: seq<Type>): seq<Type>
    decreases ts
  {
    if ts == [] then [] else [ts[0]] + Dependents(ts[0]) + DependentsOfAll(ts[1..])
  }

  /** s is t, or a part of an element or a type argument of t. */
  ghost predicate Subterm(s: Type, t: Type)
    decreases t
  {
    s == t
    || match t
       case Array(element, _) => Subterm(s, element)
       case Enum(_, _, _) => false
       case Named(_, _, args, _) => exists i | 0 <= i < |args| :: Subterm(s, args[i])
  }

  /** The enumeration yields exactly the subterms. */
  lemma {:induction false} DependentsIff(s: Type, t: Type)
    ensures s in [t] + Dependents(t) <==> Subterm(s, t)
    decreases t, 0
  {
    match t
    case Array(element, _) =>
      DependentsIff(s, element);
      assert Dependents(t) == [element] + Dependents(element);
    case Enum(_, _, _) =>
    case Named(_, _, args, _) => DependentsOfAllIff(s, args);
  }

  lemma {:induction false} DependentsOfAllIff(s: Type, ts: seq<Type>)
    ensures s in DependentsOfAll(ts) <==> exists i | 0 <= i < |ts| :: Subterm(s, ts[i])
    decreases ts
  {
    if ts != [] {
      DependentsIff(s, ts[0]);
      DependentsOfAllIff(s, ts[1..]);
      assert DependentsOfAll(ts) == ([ts[0]] + Dependents(ts[0])) + DependentsOfAll(ts[1..]);
      if exists i | 0 <= i < |ts| :: Subterm(s, ts[i]) {
        var i :| 0 <= i < |ts| && Subterm(s, ts[i]);
        assert i > 0 ==> ts[1..][i - 1] == ts[i];
      }
    }
  }

  lemma {:induction false} SubtermTransitive(r: Type, s: Type, t: Type)
    requires Subterm(r, s) && Subterm(s, t)
    ensures Subterm(r, t)
    decreases t
  {
    if s != t {
      match t
      case Array(element, _) => SubtermTransitive(r, s, element);
      case Named(_, _, args, _) =>
        var i :| 0 <= i < |args| && Subterm(s, args[i]);
        SubtermTransitive(r, s, args[i]);
    }
  }

  // ----- the printed name determines the type

  predicate IsDelimiter(c: char) {
    c == '<' || c == '>' || c == ',' || c == '[' || c == ']'
  }

  predicate IsIdentifier(s: string) {
    forall i | 0 <= i < |s| :: !IsDelimiter(s[i])
  }

  /** How many pairs of brackets a name ends in: a jagged array of a symbol is named by its element and all but one of
      its pairs. */
  function Jagged(s: string): (k: nat)
    ensures 2 * k <= |s|
  {
    if |s| >= 2 && s[|s| - 2] == '[' && s[|s| - 1] == ']' then 1 + Jagged(s[..|s| - 2]) else 0
  }

  function Stem(s: string): string {
    s[..|s| - 2 * Jagged(s)]
  }

  /** Names are free of the characters that print structure, but for the brackets of jagged arrays; arrays have a rank. */
  predicate WellFormed(t: Type)
    decreases t
  {
    match t
    case Array(element, rank) => rank >= 1 && WellFormed(element)
    case Enum(ns, name, _) => IsIdentifier(Qualified(ns, name))
    case Named(ns, name, args, _) =>
      && IsIdentifier(if args == [] then Stem(Qualified(ns, name)) else Qualified(ns, name))
      && forall i | 0 <= i < |args| :: WellFormed(args[i])
  }

  /** A printed name is a name, the type arguments of the innermost element, and ranks, innermost first. */
  function BaseName(t: Type): string {
    match t
    case Array(element, _) => BaseName(element)
    case Enum(ns, name, _) => Qualified(ns, name)
    case Named(ns, name, args, _) => if args == [] then Stem(Qualified(ns, name)) else Qualified(ns, name)
  }

  function CoreArgs(t: Type): (args: seq<Type>)
    ensures Sizes(args) < Size(t)
  {
    match t
    case Array(element, _) => CoreArgs(element)
    case Enum(_, _, _) => []
    case Named(_, _, args, _) => args
  }

  function Ones(k: nat): seq<nat> {
    seq(k, i => 1)
  }

  function Dims(t: Type): seq<nat> {
    match t
    case Array(element, rank) => Dims(element) + [rank]
    case Enum(_, _, _) => []
    case Named(ns, name, args, _) => if args == [] then Ones(Jagged(Qualified(ns, name))) else []
  }

  function Size(t: Type): nat
    decreases t
  {
    match t
    case Array(element, _) => 1 + Size(element)
    case Enum(_, _, _) => 1
    case Named(_, _, args, _) => 1 + Sizes(args)
  }

  function Sizes(ts: seq<Type>): nat
    decreases ts
  {
    if ts == [] then 0 else Size(ts[0]) + Sizes(ts[1..])
  }

  /** Equal up to what is not printed: where a dotted name is split, struct or class or enum, the underlying type, and
      whether the pairs of brackets of a jagged array are in its element's name. */
  predicate SameShape(t: Type, u: Type)
    decreases Size(t), 1
  {
    BaseName(t) == BaseName(u) && Dims(t) == Dims(u) && SameShapes(CoreArgs(t), CoreArgs(u))
  }

  predicate SameShapes(ts: seq<Type>, us: seq<Type>)
    decreases Sizes(ts), 2, |ts|
  {
    && |ts| == |us|
    && (ts != [] ==> SameShape(ts[0], us[0]) && SameShapes(ts[1..], us[1..]))
  }

  function DimsText(dims: seq<nat>): string {
    if dims == [] then "" else Dim(dims[0]) + DimsText(dims[1..])
  }

  lemma {:induction false} DimsTextAppend(dims: seq<nat>, k: nat)
    ensures DimsText(dims + [k]) == DimsText(dims) + Dim(k)
  {
    if dims == [] {
      assert dims + [k] == [k] && [k][1..] == [];
    } else {
      DimsTextAppend(dims[1..], k);
      assert (dims + [k])[1..] == dims[1..] + [k];
    }
  }

  lemma {:induction false} StemAndBrackets(s: string)
    ensures s == Stem(s) + DimsText(Ones(Jagged(s)))
  {
    var k := Jagged(s);
    if k > 0 {
      var inner := s[..|s| - 2];
      StemAndBrackets(inner);
      assert Stem(s) == Stem(inner) && Ones(k) == Ones(k - 1) + [1];
      DimsTextAppend(Ones(k - 1), 1);
      assert Dim(1) == "[" + "" + "]" == ['[', ']'];
      assert s == inner + ['[', ']'];
    }
  }

  function ArgsText(args: seq<Type>): string {
    if args == [] then "" else "<" + JoinNames(args) + ">"
  }

  lemma {:induction false} FullNameOfSpine(t: Type)
    ensures FullName(t) == GLOBAL + BaseName(t) + ArgsText(CoreArgs(t)) + DimsText(Dims(t))
  {
    match t
    case Array(element, rank) =>
      FullNameOfSpine(element);
      DimsTextAppend(Dims(element), rank);
      Associate(GLOBAL + BaseName(t) + ArgsText(CoreArgs(t)), DimsText(Dims(element)), Dim(rank));
    case Enum(ns, name, _) => NothingAround(GLOBAL + Qualified(ns, name));
    case Named(ns, name, args, _) =>
      if args == [] {
        StemAndBrackets(Qualified(ns, name));
        NothingAround(GLOBAL + Stem(Qualified(ns, name)));
        Associate(GLOBAL, Stem(Qualified(ns, name)), DimsText(Dims(t)));
      } else {
        NothingAround(FullName(t));
      }
  }

  lemma NothingAround(s: string)
    ensures s + "" + DimsText([]) == s && s + "" == s && s + DimsText([]) == s
  {
  }

  /** Ends the text of a type within a list of arguments. */
  predicate Stops(r: string) {
    r == "" || r[0] == ',' || r[0] == '>'
  }

  predicate Delimited(r: string) {
    r == "" || IsDelimiter(r[0])
  }

  lemma Cancel(p: string, x: string, y: string)
    requires p + x == p + y
    ensures x == y
  {
    assert x == (p + x)[|p|..] && y == (p + y)[|p|..];
  }

  lemma Associate(a: string, b: string, c: string)
    ensures a + b + c == a + (b + c)
  {
  }

  lemma NameTooShort(p: string, x: string, q: string, y: string)
    requires IsIdentifier(q) && Delimited(x) && |p| < |q|
    ensures p + x != q + y
  {
    assert (q + y)[|p|] == q[|p|];
    if x != "" { assert (p + x)[|p|] == x[0]; }
  }

  lemma NameSplit(p: string, x: string, q: string, y: string)
    requires IsIdentifier(p) && IsIdentifier(q) && Delimited(x) && Delimited(y) && p + x == q + y
    ensures p == q && x == y
  {
    if |p| < |q| { NameTooShort(p, x, q, y); }
    if |q| < |p| { NameTooShort(q, y, p, x); }
    assert p == (p + x)[..|p|] && q == (q + y)[..|p|];
    Cancel(p, x, y);
  }

  lemma CommasTooShort(m: nat, x: string, n: nat, y: string)
    requires m < n
    ensures Commas(m) + ("]" + x) != Commas(n) + ("]" + y)
  {
    assert (Commas(m) + ("]" + x))[m] == ']';
    assert (Commas(n) + ("]" + y))[m] == ',';
  }

  lemma CommasSplit(m: nat, x: string, n: nat, y: string)
    requires Commas(m) + ("]" + x) == Commas(n) + ("]" + y)
    ensures m == n && x == y
  {
    if m < n { CommasTooShort(m, x, n, y); }
    if n < m { CommasTooShort(n, y, m, x); }
    Cancel(Commas(m), "]" + x, "]" + y);
    Cancel("]", x, y);
  }

  lemma NothingBefore(r: string)
    ensures DimsText([]) + r == r
  {
  }

  lemma DimsTextHead(d: seq<nat>, r: string)
    requires d != [] && d[0] >= 1
    ensures DimsText(d) + r == "[" + (Commas(d[0] - 1) + ("]" + (DimsText(d[1..]) + r)))
  {
    var rest := DimsText(d[1..]);
    assert Dim(d[0]) + rest + r == "[" + (Commas(d[0] - 1) + ("]" + (rest + r)));
  }

  lemma {:induction false} DimsSplit(d: seq<nat>, r: string, e: seq<nat>, s: string)
    requires (forall i | 0 <= i < |d| :: d[i] >= 1) && (forall i | 0 <= i < |e| :: e[i] >= 1)
    requires Stops(r) && Stops(s) && DimsText(d) + r == DimsText(e) + s
    ensures d == e && r == s
  {
    if d != [] { DimsTextHead(d, r); }
    if e != [] { DimsTextHead(e, s); }
    NothingBefore(r);
    NothingBefore(s);
    if d != [] && e != [] {
      var x, y := DimsText(d[1..]) + r, DimsText(e[1..]) + s;
      Cancel("[", Commas(d[0] - 1) + ("]" + x), Commas(e[0] - 1) + ("]" + y));
      CommasSplit(d[0] - 1, x, e[0] - 1, y);
      DimsSplit(d[1..], r, e[1..], s);
      assert d == [d[0]] + d[1..] && e == [e[0]] + e[1..];
    }
  }

  lemma {:induction false} SpineWellFormed(t: Type)
    requires WellFormed(t)
    ensures IsIdentifier(BaseName(t)) && (forall i | 0 <= i < |Dims(t)| :: Dims(t)[i] >= 1)
    ensures forall i | 0 <= i < |CoreArgs(t)| :: WellFormed(CoreArgs(t)[i])
  {
    if t.Array? { SpineWellFormed(t.element); }
  }

  predicate NoArgs(x: string) {
    x == "" || (IsDelimiter(x[0]) && x[0] != '<')
  }

  lemma DimsTextNoArgs(d: seq<nat>, r: string)
    requires Stops(r)
    ensures NoArgs(DimsText(d) + r)
  {
    if d == [] { assert DimsText(d) + r == r; } else { assert (DimsText(d) + r)[0] == '['; }
  }

  lemma SpineText(t: Type, r: string)
    ensures FullName(t) + r == GLOBAL + BaseName(t) + ArgsText(CoreArgs(t)) + (DimsText(Dims(t)) + r)
  {
    FullNameOfSpine(t);
    Associate(GLOBAL + BaseName(t) + ArgsText(CoreArgs(t)), DimsText(Dims(t)), r);
  }

  /** A type's text can be read in only one way, whatever follows it. */
  lemma {:induction false} Parse(t: Type, r: string, u: Type, s: string)
    requires WellFormed(t) && WellFormed(u) && Stops(r) && Stops(s) && FullName(t) + r == FullName(u) + s
    ensures SameShape(t, u) && r == s
    decreases Size(t), 1, 0
  {
    SpineText(t, r);
    SpineText(u, s);
    SpineWellFormed(t);
    SpineWellFormed(u);
    ParseSpine(BaseName(t), CoreArgs(t), Dims(t), r, BaseName(u), CoreArgs(u), Dims(u), s);
  }

  predicate IsSpine(p: string, ts: seq<Type>, d: seq<nat>) {
    IsIdentifier(p) && (forall i | 0 <= i < |ts| :: WellFormed(ts[i])) && (forall i | 0 <= i < |d| :: d[i] >= 1)
  }

  lemma {:induction false} ParseSpine(p: string, ts: seq<Type>, d: seq<nat>, r: string, q: string, us: seq<Type>, e: seq<nat>, s: string)
    requires IsSpine(p, ts, d) && IsSpine(q, us, e) && Stops(r) && Stops(s)
    requires GLOBAL + p + ArgsText(ts) + (DimsText(d) + r) == GLOBAL + q + ArgsText(us) + (DimsText(e) + s)
    ensures p == q && SameShapes(ts, us) && d == e && r == s
    decreases Sizes(ts), 4, |ts|
  {
    DimsTextNoArgs(d, r);
    DimsTextNoArgs(e, s);
    ParseCore(p, ts, DimsText(d) + r, q, us, DimsText(e) + s);
    DimsSplit(d, r, e, s);
  }

  lemma RegroupPlain(g: string, q: string, x: string)
    ensures g + q + "" + x == g + (q + x)
  {
    assert g + q + "" == g + q;
  }

  lemma RegroupWrapped(g: string, q: string, names: string, x: string)
    ensures g + q + ("<" + names + ">") + x == g + (q + ("<" + (names + (">" + x))))
  {
    Associate("<", names, ">");
    Associate("<", names + ">", x);
    Associate(names, ">", x);
    Associate(g + q, "<" + names + ">", x);
    Associate(g, q, "<" + names + ">" + x);
  }

  /** The text behind a name: type arguments, and what follows them. */
  function CoreRest(args: seq<Type>, x: string): string {
    if args == [] then x else "<" + (JoinNames(args) + (">" + x))
  }

  lemma CoreRestText(name: string, args: seq<Type>, x: string)
    requires NoArgs(x)
    ensures GLOBAL + name + ArgsText(args) + x == GLOBAL + (name + CoreRest(args, x))
    ensures Delimited(CoreRest(args, x)) && (args == [] <==> NoArgs(CoreRest(args, x)))
  {
    if args == [] {
      RegroupPlain(GLOBAL, name, x);
    } else {
      RegroupWrapped(GLOBAL, name, JoinNames(args), x);
    }
  }

  lemma {:induction false} ParseCore(p: string, ts: seq<Type>, x: string, q: string, us: seq<Type>, y: string)
    requires IsIdentifier(p) && IsIdentifier(q) && NoArgs(x) && NoArgs(y)
    requires (forall i | 0 <= i < |ts| :: WellFormed(ts[i])) && (forall i | 0 <= i < |us| :: WellFormed(us[i]))
    requires GLOBAL + p + ArgsText(ts) + x == GLOBAL + q + ArgsText(us) + y
    ensures p == q && SameShapes(ts, us) && x == y
    decreases Sizes(ts), 3, |ts|
  {
    var a, b := CoreRest(ts, x), CoreRest(us, y);
    CoreRestText(p, ts, x);
    CoreRestText(q, us, y);
    Cancel(GLOBAL, p + a, q + b);
    NameSplit(p, a, q, b);
    if ts != [] {
      Cancel("<", JoinNames(ts) + (">" + x), JoinNames(us) + (">" + y));
      ParseArgs(ts, x, us, y);
    }
  }

  /** What follows the first of some type arguments. */
  function AfterFirst(ts: seq<Type>, x: string): string
    requires ts != []
  {
    if |ts| == 1 then ">" + x else ", " + (JoinNames(ts[1..]) + (">" + x))
  }

  lemma ArgsHead(ts: seq<Type>, x: string)
    requires ts != []
    ensures JoinNames(ts) + (">" + x) == FullName(ts[0]) + AfterFirst(ts, x) && Stops(AfterFirst(ts, x))
    ensures Size(ts[0]) <= Sizes(ts)
  {
    if |ts| > 1 {
      var first, rest := FullName(ts[0]), JoinNames(ts[1..]);
      Associate(first + ", ", rest, ">" + x);
      Associate(first, ", ", rest + (">" + x));
    }
  }

  lemma {:induction false} ParseArgs(ts: seq<Type>, x: string, us: seq<Type>, y: string)
    requires ts != [] && us != []
    requires (forall i | 0 <= i < |ts| :: WellFormed(ts[i])) && (forall i | 0 <= i < |us| :: WellFormed(us[i]))
    requires JoinNames(ts) + (">" + x) == JoinNames(us) + (">" + y)
    ensures SameShapes(ts, us) && x == y
    decreases Sizes(ts), 2, |ts|
  {
    ArgsHead(ts, x);
    ArgsHead(us, y);
    Parse(ts[0], AfterFirst(ts, x), us[0], AfterFirst(us, y));
    assert AfterFirst(ts, x)[0] == AfterFirst(us, y)[0];
    if |ts| == 1 {
      Cancel(">", x, y);
      assert ts[1..] == [] && us[1..] == [];
    } else {
      Cancel(", ", JoinNames(ts[1..]) + (">" + x), JoinNames(us[1..]) + (">" + y));
      ParseArgs(ts[1..], x, us[1..], y);
    }
  }

  lemma {:induction false} SameShapeSameName(t: Type, u: Type)
    requires SameShape(t, u)
    ensures FullName(t) == FullName(u)
    decreases Size(t), 1
  {
    FullNameOfSpine(t);
    FullNameOfSpine(u);
    SameShapesSameNames(CoreArgs(t), CoreArgs(u));
  }

  lemma {:induction false} SameShapesSameNames(ts: seq<Type>, us: seq<Type>)
    requires SameShapes(ts, us)
    ensures JoinNames(ts) == JoinNames(us)
    decreases Sizes(ts), 2, |ts|
  {
    if ts != [] {
      SameShapeSameName(ts[0], us[0]);
      SameShapesSameNames(ts[1..], us[1..]);
    }
  }

  /** Two types print alike exactly when they have the same shape: one entry per full name is one per type. */
  lemma FullNameIff(t: Type, u: Type)
    requires WellFormed(t) && WellFormed(u)
    ensures FullName(t) == FullName(u) <==> SameShape(t, u)
  {
    if FullName(t) == FullName(u) {
      assert FullName(t) + "" == FullName(u) + "";
      Parse(t, "", u, "");
    } else if SameShape(t, u) {
      SameShapeSameName(t, u);
    }
  }

  /** `Equals` of the source. */
  predicate TypeEquals(t: Type, u: Type)
    decreases t
  {
    && FullName(t) == FullName(u)
    && (t.Enum? <==> u.Enum?) && (t.Array? <==> u.Array?) && (t.Named? && u.Named? ==> t.isValue == u.isValue)
    && (t.Array? && u.Array? ==> TypeEquals(t.element, u.element))
    && (t.Enum? && u.Enum? ==> TypeEquals(t.underlying, u.underlying))
  }

  // ----- types that compare equal

  predicate HasArguments(t: Type) {
    t.Named? && t.args != []
  }

  /** What every C# type meets that has no type arguments: an array has a rank, a name no angle bracket. */
  predicate Ordinary(t: Type) {
    match t
    case Array(_, rank) => rank >= 1
    case Enum(_, _, _) => true
    case Named(ns, name, args, _) => args == [] ==> '<' !in Qualified(ns, name)
  }

  lemma {:induction false} WellFormedIsOrdinary(t: Type)
    requires WellFormed(t)
    ensures Ordinary(t)
  {
    if t.Named? && t.args == [] {
      var q := Qualified(t.ns, t.name);
      StemAndBrackets(q);
      NoAngleInDims(Ones(Jagged(q)));
      assert '<' !in Stem(q);
    }
  }

  lemma {:induction false} NoAngleInDims(dims: seq<nat>)
    ensures '<' !in DimsText(dims)
  {
    if dims != [] { NoAngleInDims(dims[1..]); }
  }

  /** Arrays that print alike and whose elements do have one rank. */
  lemma SameRank(t: Type, u: Type)
    requires t.Array? && u.Array? && t.rank >= 1 && u.rank >= 1
    requires FullName(t.element) == FullName(u.element) && FullName(t) == FullName(u)
    ensures t.rank == u.rank
  {
    Cancel(FullName(t.element), Dim(t.rank), Dim(u.rank));
    var a, b := Commas(t.rank - 1) + ("]" + ""), Commas(u.rank - 1) + ("]" + "");
    assert Dim(t.rank) == "[" + a && Dim(u.rank) == "[" + b;
    Cancel("[", a, b);
    CommasSplit(t.rank - 1, "", u.rank - 1, "");
  }

  /** A type with arguments never prints like an ordinary one without. */
  lemma ArgumentsShow(t: Type, u: Type)
    requires t.Named? && u.Named? && HasArguments(t) && !HasArguments(u) && Ordinary(u)
    ensures FullName(t) != FullName(u)
  {
    var head := GLOBAL + Qualified(t.ns, t.name);
    assert FullName(t) == head + ("<" + JoinNames(t.args) + ">");
    assert FullName(t)[|head|] == '<';
    assert '<' !in GLOBAL;
    assert '<' !in FullName(u);
  }
}
