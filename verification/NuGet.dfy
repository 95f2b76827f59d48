/** The search for the assembly directories of a project's packages (PseudoCompilation.cs), over a file system that is
    given. A path is its segments. */
module NuGet {
  import opened Prelude

  type Path = seq<string>

  datatype Package = Package(id: string, version: string)

  /** A `PackageReference` of the project; the attribute values without surrounding blanks. */
  datatype Reference = Reference(id: Option<string>, version: string)

  /** A `group` of a package description: its target framework, if it names one, and the dependencies under it. */
  datatype Group = Group(framework: Option<string>, dependencies: seq<Package>)

  /** The groups of each `dependencies` element. */
  type Description = seq<seq<Group>>

  /** `described`: the description in a file, without elements when there is no such file. `root` is the packages
      directory. */
  datatype FileSystem = FileSystem(root: Path, directories: set<Path>, lower: string -> string, described: Path -> Description)

  function Lower(fs: FileSystem, path: Path): Path {
    seq(|path|, i requires 0 <= i < |path| => fs.lower(path[i]))
  }

  /** Lower case is idempotent, and what contains a directory is one. */
  ghost predicate FileSystemOk(fs: FileSystem) {
    && (forall s {:trigger fs.lower(s)} :: fs.lower(fs.lower(s)) == fs.lower(s))
    && (forall d, k | d in fs.directories && 0 <= k <= |d| :: d[..k] in fs.directories)
  }

  /** `NetstandardFallBack(original).Distinct()`. */
  function FallBack(original: string): seq<string> {
    [original] + (if original == "netstandard2.1" then [] else ["netstandard2.1"])
    + (if original == "netstandard2.0" then [] else ["netstandard2.0"])
  }

  // ----- resolving one package

  function PackagePath(fs: FileSystem, p: Package): Path {
    fs.root + [p.id, p.version]
  }

  function LibPath(fs: FileSystem, p: Package, framework: string): Path {
    fs.root + [p.id, p.version, "lib", framework]
  }

  /** A directory as spelled, or else all in lower case. */
  function AsSpelledOrLower(fs: FileSystem, path: Path): Path {
    if path in fs.directories then path else Lower(fs, path)
  }

  /** The directory for one framework. */
  function DirectoryFor(fs: FileSystem, p: Package, framework: string): Option<Path> {
    var path := AsSpelledOrLower(fs, LibPath(fs, p, framework));
    if path in fs.directories then Some(path) else None
  }

  datatype Resolved = Resolved(directory: Path, framework: string)

  function ResolveFrom(fs: FileSystem, p: Package, frameworks: seq<string>): (r: Option<Resolved>)
    ensures r.Some? ==> r.value.directory in fs.directories
    ensures r.Some? ==> r.value.directory == AsSpelledOrLower(fs, LibPath(fs, p, r.value.framework))
  {
    if frameworks == [] then None
    else
      match DirectoryFor(fs, p, frameworks[0])
      case Some(d) => Some(Resolved(d, frameworks[0]))
      case None => ResolveFrom(fs, p, frameworks[1..])
  }

  function Resolve(fs: FileSystem, original: string, p: Package): (r: Option<Resolved>)
    ensures r.Some? ==> r.value.directory in fs.directories
    ensures r.Some? ==> r.value.directory == AsSpelledOrLower(fs, LibPath(fs, p, r.value.framework))
  {
    ResolveFrom(fs, p, FallBack(original))
  }

  /** Framework k is the first with a directory. */
  predicate FirstAt(fs: FileSystem, p: Package, frameworks: seq<string>, k: nat) {
    k < |frameworks| && DirectoryFor(fs, p, frameworks[k]).Some? && forall j | 0 <= j < k :: DirectoryFor(fs, p, frameworks[j]) == None
  }

  lemma {:induction false} ResolvesFromFirst(fs: FileSystem, p: Package, frameworks: seq<string>)
    ensures match ResolveFrom(fs, p, frameworks)
            case None => forall k | 0 <= k < |frameworks| :: DirectoryFor(fs, p, frameworks[k]) == None
            case Some(r) => exists k: nat :: FirstAt(fs, p, frameworks, k) && r == Resolved(DirectoryFor(fs, p, frameworks[k]).value, frameworks[k])
  {
    if frameworks != [] {
      if DirectoryFor(fs, p, frameworks[0]).Some? {
        assert FirstAt(fs, p, frameworks, 0);
      } else {
        var rest := frameworks[1..];
        ResolvesFromFirst(fs, p, rest);
        if ResolveFrom(fs, p, frameworks).Some? {
          var k: nat :| FirstAt(fs, p, rest, k) && ResolveFrom(fs, p, rest) == Some(Resolved(DirectoryFor(fs, p, rest[k]).value, rest[k]));
          assert forall j | 0 < j <= k :: frameworks[j] == rest[j - 1];
          assert FirstAt(fs, p, frameworks, k + 1) && frameworks[k + 1] == rest[k];
        } else {
          assert forall j | 0 < j < |frameworks| :: frameworks[j] == rest[j - 1];
        }
      }
    }
  }

  /** There is a directory of the package for a framework: as spelled, or else in lower case. */
  predicate HasDirectory(fs: FileSystem, p: Package, framework: string, d: Path) {
    var spelled := fs.root + [p.id, p.version, "lib", framework];
    d in fs.directories && d == if spelled in fs.directories then spelled else Lower(fs, spelled)
  }

  ghost predicate HasNone(fs: FileSystem, p: Package, framework: string) {
    forall d :: !HasDirectory(fs, p, framework, d)
  }

  /** A package resolves to its directory for the project's framework, else to that for netstandard2.1, else to that for
      netstandard2.0, and to none only if there is none of these. */
  lemma ResolvesToFirst(fs: FileSystem, original: string, p: Package)
    ensures match Resolve(fs, original, p)
            case Some(r) =>
              && HasDirectory(fs, p, r.framework, r.directory)
              && (|| r.framework == original
                  || (HasNone(fs, p, original) && r.framework == "netstandard2.1")
                  || (HasNone(fs, p, original) && HasNone(fs, p, "netstandard2.1") && r.framework == "netstandard2.0"))
            case None => HasNone(fs, p, original) && HasNone(fs, p, "netstandard2.1") && HasNone(fs, p, "netstandard2.0")
  {
    ResolvesFromFirst(fs, p, FallBack(original));
    forall framework ensures DirectoryFor(fs, p, framework) == None <==> HasNone(fs, p, framework) {
      var d := AsSpelledOrLower(fs, LibPath(fs, p, framework));
      assert DirectoryFor(fs, p, framework).Some? ==> HasDirectory(fs, p, framework, d);
    }
    FallBackOrder(original);
  }

  lemma FallBackOrder(original: string)
    ensures var f := FallBack(original);
            && 2 <= |f| <= 3 && f[0] == original
            && (original != "netstandard2.1" ==> f[1] == "netstandard2.1")
            && (original == "netstandard2.1" ==> f[1] == "netstandard2.0")
            && (|f| == 3 ==> f[1] == "netstandard2.1" && f[2] == "netstandard2.0")
            && (|f| == 2 ==> original == "netstandard2.1" || original == "netstandard2.0")
  {
  }

  // ----- what a package description lists

  /** The description is looked for in the package's directory, as spelled or else in lower case, under a name that is
      always in lower case. */
  function DescriptionFile(fs: FileSystem, p: Package): Path {
    AsSpelledOrLower(fs, PackagePath(fs, p)) + [fs.lower(p.id) + ".nuspec"]
  }

  function TrimDots(s: string): (t: string)
    ensures t != "" ==> t[0] != '.' && t[|t| - 1] != '.'
  {
    if s == "" then s
    else if s[0] == '.' then TrimDots(s[1..])
    else if s[|s| - 1] == '.' then TrimDots(s[..|s| - 1])
    else s
  }

  /** Frameworks are compared without the dots around them, ignoring case. */
  predicate IsGroupOf(fs: FileSystem, g: Group, framework: string) {
    g.framework.Some? && fs.lower(TrimDots(g.framework.value)) == fs.lower(framework)
  }

  function GroupIn(fs: FileSystem, groups: seq<Group>, framework: string): Option<Group> {
    if groups == [] then None
    else if IsGroupOf(fs, groups[0], framework) then Some(groups[0])
    else GroupIn(fs, groups[1..], framework)
  }

  function GroupFor(fs: FileSystem, groups: seq<Group>, frameworks: seq<string>): Option<Group> {
    if frameworks == [] then None
    else
      var g := GroupIn(fs, groups, frameworks[0]);
      if g.Some? then g else GroupFor(fs, groups, frameworks[1..])
  }

  /** `ResolveNuGetDependency`: the first group found ends the search. */
  function Listed(fs: FileSystem, elements: Description, framework: string): seq<Package> {
    if elements == [] then []
    else
      match GroupFor(fs, elements[0], [framework, "netstandard2.1", "netstandard2.0"])
      case Some(g) => g.dependencies
      case None => Listed(fs, elements[1..], framework)
  }

  /** The i-th group is the first for the framework. */
  predicate FirstGroup(fs: FileSystem, groups: seq<Group>, framework: string, i: nat) {
    i < |groups| && IsGroupOf(fs, groups[i], framework) && forall j | 0 <= j < i :: !IsGroupOf(fs, groups[j], framework)
  }

  predicate NoGroup(fs: FileSystem, groups: seq<Group>, framework: string) {
    forall j | 0 <= j < |groups| :: !IsGroupOf(fs, groups[j], framework)
  }

  lemma {:induction false} GroupInIs(fs: FileSystem, groups: seq<Group>, framework: string)
    ensures match GroupIn(fs, groups, framework)
            case None => NoGroup(fs, groups, framework)
            case Some(g) => exists i: nat :: FirstGroup(fs, groups, framework, i) && groups[i] == g
  {
    if groups != [] {
      var rest := groups[1..];
      assert forall j | 0 < j < |groups| :: groups[j] == rest[j - 1];
      if IsGroupOf(fs, groups[0], framework) {
        assert FirstGroup(fs, groups, framework, 0);
      } else {
        GroupInIs(fs, rest, framework);
        if GroupIn(fs, rest, framework).Some? {
          var i: nat :| FirstGroup(fs, rest, framework, i) && rest[i] == GroupIn(fs, rest, framework).value;
          assert FirstGroup(fs, groups, framework, i + 1);
        }
      }
    }
  }

  /** The group that an element has for a framework: its own first one, else the first for netstandard2.1, else the first for
      netstandard2.0. */
  predicate Chosen(fs: FileSystem, groups: seq<Group>, framework: string, i: nat) {
    || FirstGroup(fs, groups, framework, i)
    || (NoGroup(fs, groups, framework) && FirstGroup(fs, groups, "netstandard2.1", i))
    || (NoGroup(fs, groups, framework) && NoGroup(fs, groups, "netstandard2.1") && FirstGroup(fs, groups, "netstandard2.0", i))
  }

  predicate NoneChosen(fs: FileSystem, groups: seq<Group>, framework: string) {
    NoGroup(fs, groups, framework) && NoGroup(fs, groups, "netstandard2.1") && NoGroup(fs, groups, "netstandard2.0")
  }

  /** What a description lists for a framework is what the chosen group lists in the first element that has one. */
  lemma {:induction false} ListedIs(fs: FileSystem, elements: Description, framework: string) returns (k: nat, i: nat)
    ensures k <= |elements| && forall l | 0 <= l < k :: NoneChosen(fs, elements[l], framework)
    ensures if k == |elements| then Listed(fs, elements, framework) == []
            else Chosen(fs, elements[k], framework, i) && Listed(fs, elements, framework) == elements[k][i].dependencies
  {
    k, i := 0, 0;
    if elements != [] {
      ChosenIs(fs, elements[0], framework);
      var g := GroupFor(fs, elements[0], [framework, "netstandard2.1", "netstandard2.0"]);
      if g.Some? {
        i :| Chosen(fs, elements[0], framework, i) && elements[0][i] == g.value;
      } else {
        var l: nat;
        l, i := ListedIs(fs, elements[1..], framework);
        k := l + 1;
        forall j | 0 <= j < k ensures NoneChosen(fs, elements[j], framework) {
          if j > 0 { assert elements[j] == elements[1..][j - 1]; }
        }
        if l < |elements| - 1 { assert elements[k] == elements[1..][l]; }
      }
    }
  }

  lemma ChosenIs(fs: FileSystem, groups: seq<Group>, framework: string)
    ensures match GroupFor(fs, groups, [framework, "netstandard2.1", "netstandard2.0"])
            case None => NoneChosen(fs, groups, framework)
            case Some(g) => exists i: nat :: Chosen(fs, groups, framework, i) && groups[i] == g
  {
    GroupInIs(fs, groups, framework);
    GroupInIs(fs, groups, "netstandard2.1");
    GroupInIs(fs, groups, "netstandard2.0");
    GroupForThree(fs, groups, framework, "netstandard2.1", "netstandard2.0");
    var g := GroupFor(fs, groups, [framework, "netstandard2.1", "netstandard2.0"]);
    if GroupIn(fs, groups, framework).Some? {
      var i: nat :| FirstGroup(fs, groups, framework, i) && groups[i] == g.value;
      assert Chosen(fs, groups, framework, i);
    } else if GroupIn(fs, groups, "netstandard2.1").Some? {
      var i: nat :| FirstGroup(fs, groups, "netstandard2.1", i) && groups[i] == g.value;
      assert Chosen(fs, groups, framework, i);
    } else if GroupIn(fs, groups, "netstandard2.0").Some? {
      var i: nat :| FirstGroup(fs, groups, "netstandard2.0", i) && groups[i] == g.value;
      assert Chosen(fs, groups, framework, i);
    }
  }

  lemma GroupForThree(fs: FileSystem, groups: seq<Group>, a: string, b: string, c: string)
    ensures GroupFor(fs, groups, [a, b, c])
         == if GroupIn(fs, groups, a).Some? then GroupIn(fs, groups, a)
            else if GroupIn(fs, groups, b).Some? then GroupIn(fs, groups, b) else GroupIn(fs, groups, c)
  {
    assert [a, b, c][1..] == [b, c] && [b, c][1..] == [c] && [c][1..] == [];
    assert GroupFor(fs, groups, [c]) == GroupIn(fs, groups, c);
    assert GroupFor(fs, groups, [b, c]) == if GroupIn(fs, groups, b).Some? then GroupIn(fs, groups, b) else GroupFor(fs, groups, [c]);
  }

  /** Only the framework's name in lower case matters. */
  lemma {:induction false} GroupInLower(fs: FileSystem, groups: seq<Group>, a: string, b: string)
    requires fs.lower(a) == fs.lower(b)
    ensures GroupIn(fs, groups, a) == GroupIn(fs, groups, b)
  {
    if groups != [] { GroupInLower(fs, groups[1..], a, b); }
  }

  lemma {:induction false} ListedLower(fs: FileSystem, elements: Description, a: string, b: string)
    requires fs.lower(a) == fs.lower(b)
    ensures Listed(fs, elements, a) == Listed(fs, elements, b)
  {
    if elements != [] {
      GroupInLower(fs, elements[0], a, b);
      GroupForThree(fs, elements[0], a, "netstandard2.1", "netstandard2.0");
      GroupForThree(fs, elements[0], b, "netstandard2.1", "netstandard2.0");
      ListedLower(fs, elements[1..], a, b);
    }
  }

  function DependenciesAt(fs: FileSystem, p: Package, framework: string): seq<Package> {
    Listed(fs, fs.described(DescriptionFile(fs, p)), framework)
  }

  /** The dependencies followed are what the description lists for the framework that was found: the description in the
      package's directory, as spelled or else in lower case, under its lower-case name. */
  lemma FollowsDescription(fs: FileSystem, original: string, p: Package)
    ensures match Resolve(fs, original, p)
            case None => DependenciesOf(fs, original, p) == []
            case Some(r) =>
              var spelled := fs.root + [p.id, p.version];
              var place := if spelled in fs.directories then spelled else Lower(fs, spelled);
              DependenciesOf(fs, original, p) == Listed(fs, fs.described(place + [fs.lower(p.id) + ".nuspec"]), r.framework)
  {
  }

  function DependenciesOf(fs: FileSystem, original: string, p: Package): seq<Package> {
    match Resolve(fs, original, p)
    case None => []
    case Some(r) => DependenciesAt(fs, p, r.framework)
  }

  // ----- the search

  lemma FewerLeft(fs: FileSystem, a: set<Path>, b: set<Path>)
    requires a <= b
    ensures |fs.directories - b| <= |fs.directories - a|
    ensures forall d | d in fs.directories && d in b && d !in a :: |fs.directories - b| < |fs.directories - a|
  {
    SubsetSize(fs.directories - b, fs.directories - a);
    forall d | d in fs.directories && d in b && d !in a ensures |fs.directories - b| < |fs.directories - a| {
      SubsetSize(fs.directories - b, fs.directories - a - {d});
    }
  }

  lemma SubsetSize(a: set<Path>, b: set<Path>)
    requires a <= b
    ensures |a| <= |b|
  {
    assert b == a + (b - a) && a * (b - a) == {};
    assert |a + (b - a)| == |a| + |b - a|;
  }

  function Collect(fs: FileSystem, original: string, p: Package, resolved: set<Path>): (r: set<Path>)
    ensures resolved <= r
    decreases |fs.directories - resolved|, 1, 0
  {
    match Resolve(fs, original, p)
    case None => resolved
    case Some(found) =>
      if found.directory in resolved then resolved
      else
        FewerLeft(fs, resolved, resolved + {found.directory});
        CollectAll(fs, original, DependenciesAt(fs, p, found.framework), resolved + {found.directory})
  }

  function CollectAll(fs: FileSystem, original: string, ps: seq<Package>, resolved: set<Path>): (r: set<Path>)
    ensures resolved <= r
    decreases |fs.directories - resolved|, 2, |ps|
  {
    if ps == [] then resolved
    else
      var next := Collect(fs, original, ps[0], resolved);
      FewerLeft(fs, resolved, next);
      CollectAll(fs, original, ps[1..], next)
  }

  /** The packages of the references that name one; their ids are taken in lower case. */
  function Roots(fs: FileSystem, references: seq<Reference>): seq<Package> {
    if references == [] then []
    else
      match references[0].id
      case None => Roots(fs, references[1..])
      case Some(id) => [Package(fs.lower(id), references[0].version)] + Roots(fs, references[1..])
  }

  lemma {:induction false} RootsIff(fs: FileSystem, references: seq<Reference>, p: Package)
    ensures p in Roots(fs, references)
       <==> exists r :: r in references && r.id.Some? && p.id == fs.lower(r.id.value) && p.version == r.version
  {
    if references != [] {
      RootsIff(fs, references[1..], p);
      assert forall r :: r in references <==> r == references[0] || r in references[1..];
    }
  }

  class PackageCollector {
    const fs: FileSystem
    const original: string
    var resolvedDllPaths: set<Path>
    /** How often a package description has been followed. */
    var expansions: nat

    constructor (fs: FileSystem, original: string)
      ensures this.fs == fs && this.original == original && resolvedDllPaths == {} && expansions == 0
    {
      this.fs, this.original := fs, original;
      resolvedDllPaths, expansions := {}, 0;
    }

    method CollectNugetPackages(p: Package)
      modifies this
      ensures resolvedDllPaths == Collect(fs, original, p, old(resolvedDllPaths))
      ensures expansions - old(expansions) == |resolvedDllPaths| - |old(resolvedDllPaths)|
      decreases |fs.directories - resolvedDllPaths|
    {
      var frameworks := FallBack(original);
      for i := 0 to |frameworks|
        invariant resolvedDllPaths == old(resolvedDllPaths) && expansions == old(expansions)
        invariant Resolve(fs, original, p) == ResolveFrom(fs, p, frameworks[i..])
      {
        assert frameworks[i..][1..] == frameworks[i + 1..];
        var directory := DirectoryFor(fs, p, frameworks[i]);
        if directory.Some? {
          assert Resolve(fs, original, p) == Some(Resolved(directory.value, frameworks[i]));
          if directory.value !in resolvedDllPaths { Expand(p, directory.value, frameworks[i]); }
          return;
        }
      }
      assert Resolve(fs, original, p) == None;
    }

    /** Adds the directory and collects the dependencies. */
    method Expand(p: Package, directory: Path, framework: string)
      requires directory in fs.directories && directory !in resolvedDllPaths
      modifies this
      ensures resolvedDllPaths == CollectAll(fs, original, DependenciesAt(fs, p, framework), old(resolvedDllPaths) + {directory})
      ensures expansions - old(expansions) == |resolvedDllPaths| - |old(resolvedDllPaths)|
      decreases |fs.directories - resolvedDllPaths|, 0
    {
      var dependencies := DependenciesAt(fs, p, framework);
      ghost var was := resolvedDllPaths;
      resolvedDllPaths := resolvedDllPaths + {directory};
      expansions := expansions + 1;
      for i := 0 to |dependencies|
        invariant was + {directory} <= resolvedDllPaths
        invariant CollectAll(fs, original, dependencies, was + {directory})
               == CollectAll(fs, original, dependencies[i..], resolvedDllPaths)
        invariant expansions - old(expansions) == |resolvedDllPaths| - |was|
      {
        FewerLeft(fs, was, resolvedDllPaths);
        assert dependencies[i..][1..] == dependencies[i + 1..];
        CollectNugetPackages(dependencies[i]);
      }
    }

    /** The loop over the project's package references. */
    method CollectReferences(references: seq<Reference>)
      modifies this
      ensures resolvedDllPaths == CollectAll(fs, original, Roots(fs, references), old(resolvedDllPaths))
      ensures expansions - old(expansions) == |resolvedDllPaths| - |old(resolvedDllPaths)|
    {
      for i := 0 to |references|
        invariant CollectAll(fs, original, Roots(fs, references), old(resolvedDllPaths))
               == CollectAll(fs, original, Roots(fs, references[i..]), resolvedDllPaths)
        invariant expansions - old(expansions) == |resolvedDllPaths| - |old(resolvedDllPaths)|
      {
        assert references[i..][1..] == references[i + 1..];
        var id := references[i].id;
        if id.None? { continue; }
        var rest := Roots(fs, references[i + 1..]);
        var p := Package(fs.lower(id.value), references[i].version);
        assert ([p] + rest)[1..] == rest;
        CollectNugetPackages(p);
      }
    }
  }

  // ----- reachable packages

  /** A chain from a root along listed dependencies. Only a resolvable package has any, so all but the last resolve. */
  ghost predicate Way(fs: FileSystem, original: string, roots: seq<Package>, path: seq<Package>) {
    && path != [] && path[0] in roots
    && forall i | 0 <= i < |path| - 1 :: path[i + 1] in DependenciesOf(fs, original, path[i])
  }

  ghost predicate Reached(fs: FileSystem, original: string, roots: seq<Package>, p: Package) {
    exists path: seq<Package> :: Way(fs, original, roots, path) && path[|path| - 1] == p
  }

  ghost predicate ReachedAll(fs: FileSystem, original: string, roots: seq<Package>, ps: seq<Package>) {
    forall i | 0 <= i < |ps| :: Reached(fs, original, roots, ps[i])
  }

  predicate ResolvesTo(fs: FileSystem, original: string, p: Package, d: Path) {
    Resolve(fs, original, p).Some? && Resolve(fs, original, p).value.directory == d
  }

  /** The directory is that of a package reachable from a root. */
  ghost predicate Reachable(fs: FileSystem, original: string, roots: seq<Package>, d: Path) {
    exists p :: Reached(fs, original, roots, p) && ResolvesTo(fs, original, p, d)
  }

  lemma RootsReached(fs: FileSystem, original: string, roots: seq<Package>)
    ensures ReachedAll(fs, original, roots, roots)
  {
    forall i | 0 <= i < |roots| ensures Reached(fs, original, roots, roots[i]) {
      var path := [roots[i]];
      assert Way(fs, original, roots, path) && path[|path| - 1] == roots[i];
    }
  }

  lemma WayLonger(fs: FileSystem, original: string, roots: seq<Package>, path: seq<Package>, ps: seq<Package>, next: Package)
    requires Way(fs, original, roots, path) && ps == DependenciesOf(fs, original, path[|path| - 1]) && next in ps
    ensures Reached(fs, original, roots, next)
  {
    var longer := path + [next];
    forall i | 0 <= i < |longer| - 1 ensures longer[i + 1] in DependenciesOf(fs, original, longer[i]) {
      if i < |path| - 1 { assert path[i + 1] in DependenciesOf(fs, original, path[i]); }
    }
    assert Way(fs, original, roots, longer) && longer[|longer| - 1] == next;
  }

  lemma DependenciesReached(fs: FileSystem, original: string, roots: seq<Package>, p: Package)
    requires Reached(fs, original, roots, p)
    ensures ReachedAll(fs, original, roots, DependenciesOf(fs, original, p))
  {
    var path :| Way(fs, original, roots, path) && path[|path| - 1] == p;
    var ps := DependenciesOf(fs, original, p);
    forall i | 0 <= i < |ps| ensures Reached(fs, original, roots, ps[i]) { WayLonger(fs, original, roots, path, ps, ps[i]); }
  }

  /** The package's directory, if it has one, is among the collected. */
  predicate IsIn(fs: FileSystem, original: string, p: Package, all: set<Path>) {
    Resolve(fs, original, p).Some? ==> Resolve(fs, original, p).value.directory in all
  }

  predicate AllIn(fs: FileSystem, original: string, ps: seq<Package>, all: set<Path>) {
    forall i | 0 <= i < |ps| :: IsIn(fs, original, ps[i], all)
  }

  /** The directory was entered for a reachable package, all of whose resolvable dependencies are among the collected. */
  ghost predicate Expanded(fs: FileSystem, original: string, roots: seq<Package>, all: set<Path>, d: Path) {
    exists p :: Reached(fs, original, roots, p) && ExpandedBy(fs, original, all, d, p)
  }

  predicate ExpandedBy(fs: FileSystem, original: string, all: set<Path>, d: Path, p: Package) {
    ResolvesTo(fs, original, p, d) && AllIn(fs, original, DependenciesOf(fs, original, p), all)
  }

  lemma ExpandedMore(fs: FileSystem, original: string, roots: seq<Package>, all: set<Path>, more: set<Path>, d: Path)
    requires all <= more && Expanded(fs, original, roots, all, d)
    ensures Expanded(fs, original, roots, more, d)
  {
    var p :| Reached(fs, original, roots, p) && ExpandedBy(fs, original, all, d, p);
    assert ExpandedBy(fs, original, more, d, p);
  }

  lemma {:induction false} CollectExpands(fs: FileSystem, original: string, roots: seq<Package>, p: Package, resolved: set<Path>)
    requires Reached(fs, original, roots, p)
    ensures var r := Collect(fs, original, p, resolved);
            && IsIn(fs, original, p, r)
            && (forall d | d in r && d !in resolved :: Expanded(fs, original, roots, r, d))
    decreases |fs.directories - resolved|, 1, 0
  {
    var r := Collect(fs, original, p, resolved);
    if Resolve(fs, original, p).Some? && Resolve(fs, original, p).value.directory !in resolved {
      var found := Resolve(fs, original, p).value;
      FewerLeft(fs, resolved, resolved + {found.directory});
      DependenciesReached(fs, original, roots, p);
      CollectAllExpands(fs, original, roots, DependenciesOf(fs, original, p), resolved + {found.directory});
      assert ExpandedBy(fs, original, r, found.directory, p);
    }
  }

  lemma {:induction false} CollectAllExpands(fs: FileSystem, original: string, roots: seq<Package>, ps: seq<Package>, resolved: set<Path>)
    requires ReachedAll(fs, original, roots, ps)
    ensures var r := CollectAll(fs, original, ps, resolved);
            AllIn(fs, original, ps, r) && (forall d | d in r && d !in resolved :: Expanded(fs, original, roots, r, d))
    decreases |fs.directories - resolved|, 2, |ps|
  {
    if ps != [] {
      var next, r := Collect(fs, original, ps[0], resolved), CollectAll(fs, original, ps, resolved);
      CollectExpands(fs, original, roots, ps[0], resolved);
      FewerLeft(fs, resolved, next);
      CollectAllExpands(fs, original, roots, ps[1..], next);
      forall i | 0 <= i < |ps| ensures IsIn(fs, original, ps[i], r) {
        if i > 0 { assert ps[i] == ps[1..][i - 1]; }
      }
      forall d | d in r && d !in resolved ensures Expanded(fs, original, roots, r, d) {
        if d in next { ExpandedMore(fs, original, roots, next, r, d); }
      }
    }
  }

  /** Sound, whatever the file system: only directories of reachable packages are collected. */
  lemma CollectsOnlyReachable(fs: FileSystem, original: string, references: seq<Reference>, d: Path)
    requires d in CollectAll(fs, original, Roots(fs, references), {})
    ensures Reachable(fs, original, Roots(fs, references), d)
  {
    var roots := Roots(fs, references);
    RootsReached(fs, original, roots);
    CollectAllExpands(fs, original, roots, roots, {});
    assert Expanded(fs, original, roots, CollectAll(fs, original, roots, {}), d);
  }

  // ----- packages that share a directory

  /** The package's assemblies are found only in lower case although its own directory exists as spelled: its description
      is then read in one place and its assemblies in another. */
  predicate IsSplit(fs: FileSystem, original: string, p: Package) {
    && Resolve(fs, original, p).Some?
    && Resolve(fs, original, p).value.directory != LibPath(fs, p, Resolve(fs, original, p).value.framework)
    && PackagePath(fs, p) in fs.directories && PackagePath(fs, p) != Lower(fs, PackagePath(fs, p))
  }

  lemma PathParts(fs: FileSystem, p: Package, framework: string)
    ensures var lib, n := LibPath(fs, p, framework), |fs.root|;
            && lib[..n + 2] == PackagePath(fs, p) && |lib| == n + 4
            && lib[n] == p.id && lib[n + 1] == p.version && lib[n + 3] == framework
            && Lower(fs, lib)[..n + 2] == Lower(fs, PackagePath(fs, p))
            && Lower(fs, lib)[n] == fs.lower(p.id) && Lower(fs, lib)[n + 3] == fs.lower(framework)
  {
  }

  /** Where a package that is not split has its description: in the directory that its assemblies' path begins with, up to
      case. */
  lemma DescriptionPlace(fs: FileSystem, original: string, p: Package)
    requires FileSystemOk(fs) && Resolve(fs, original, p).Some?
    ensures var r, n := Resolve(fs, original, p).value, |fs.root|;
            && |r.directory| == n + 4
            && fs.lower(r.directory[n]) == fs.lower(p.id) && fs.lower(r.directory[n + 3]) == fs.lower(r.framework)
            && (if IsSplit(fs, original, p) then AsSpelledOrLower(fs, PackagePath(fs, p)) == PackagePath(fs, p) != r.directory[..n + 2]
                else AsSpelledOrLower(fs, PackagePath(fs, p)) == r.directory[..n + 2])
  {
    var r, n := Resolve(fs, original, p).value, |fs.root|;
    PathParts(fs, p, r.framework);
    assert r.directory[..n + 2] in fs.directories;
  }

  lemma PackageOfPath(fs: FileSystem, p: Package, q: Package)
    requires PackagePath(fs, p) == PackagePath(fs, q)
    ensures p == q
  {
    var n := |fs.root|;
    assert PackagePath(fs, p)[n] == p.id && PackagePath(fs, p)[n + 1] == p.version;
    assert PackagePath(fs, q)[n] == q.id && PackagePath(fs, q)[n + 1] == q.version;
  }

  /** Two packages of one directory read one description, for one framework, exactly when neither is split. */
  lemma SameDescriptionIff(fs: FileSystem, original: string, p: Package, q: Package, d: Path)
    requires FileSystemOk(fs) && p != q && ResolvesTo(fs, original, p, d) && ResolvesTo(fs, original, q, d)
    ensures DescriptionFile(fs, p) == DescriptionFile(fs, q) <==> !IsSplit(fs, original, p) && !IsSplit(fs, original, q)
    ensures fs.lower(Resolve(fs, original, p).value.framework) == fs.lower(Resolve(fs, original, q).value.framework)
  {
    DescriptionPlace(fs, original, p);
    DescriptionPlace(fs, original, q);
    var a, b := AsSpelledOrLower(fs, PackagePath(fs, p)), AsSpelledOrLower(fs, PackagePath(fs, q));
    assert DescriptionFile(fs, p) == a + [fs.lower(p.id) + ".nuspec"] && DescriptionFile(fs, q) == b + [fs.lower(q.id) + ".nuspec"];
    if DescriptionFile(fs, p) == DescriptionFile(fs, q) {
      assert a == DescriptionFile(fs, p)[..|DescriptionFile(fs, p)| - 1] == b;
      if IsSplit(fs, original, p) && IsSplit(fs, original, q) { PackageOfPath(fs, p, q); }
    }
  }

  /** No reachable package is split. */
  ghost predicate NoneSplit(fs: FileSystem, original: string, roots: seq<Package>) {
    forall p | Reached(fs, original, roots, p) :: !IsSplit(fs, original, p)
  }

  lemma SameDependencies(fs: FileSystem, original: string, p: Package, q: Package, d: Path)
    requires FileSystemOk(fs) && !IsSplit(fs, original, p) && !IsSplit(fs, original, q)
    requires ResolvesTo(fs, original, p, d) && ResolvesTo(fs, original, q, d)
    ensures DependenciesOf(fs, original, p) == DependenciesOf(fs, original, q)
  {
    if p != q {
      SameDescriptionIff(fs, original, p, q, d);
      ListedLower(fs, fs.described(DescriptionFile(fs, p)), Resolve(fs, original, p).value.framework,
                  Resolve(fs, original, q).value.framework);
    }
  }

  lemma DependencyIn(fs: FileSystem, original: string, roots: seq<Package>, all: set<Path>, before: Package, last: Package)
    requires FileSystemOk(fs) && NoneSplit(fs, original, roots) && Reached(fs, original, roots, before)
    requires last in DependenciesOf(fs, original, before) && IsIn(fs, original, before, all)
    requires forall d | d in all :: Expanded(fs, original, roots, all, d)
    ensures IsIn(fs, original, last, all)
  {
    var d := Resolve(fs, original, before).value.directory;
    assert Expanded(fs, original, roots, all, d);
    var p :| Reached(fs, original, roots, p) && ExpandedBy(fs, original, all, d, p);
    SameDependencies(fs, original, p, before, d);
    var i :| 0 <= i < |DependenciesOf(fs, original, p)| && DependenciesOf(fs, original, p)[i] == last;
  }

  lemma WayFront(fs: FileSystem, original: string, roots: seq<Package>, path: seq<Package>)
    requires Way(fs, original, roots, path) && |path| > 1
    ensures Way(fs, original, roots, path[..|path| - 1]) && path[..|path| - 1][|path| - 2] == path[|path| - 2]
    ensures Reached(fs, original, roots, path[|path| - 2])
    ensures path[|path| - 1] in DependenciesOf(fs, original, path[|path| - 2])
  {
    var front := path[..|path| - 1];
    forall i | 0 <= i < |front| - 1 ensures front[i + 1] in DependenciesOf(fs, original, front[i]) {
      assert front[i + 1] == path[i + 1] && front[i] == path[i];
    }
    assert path[|path| - 2 + 1] in DependenciesOf(fs, original, path[|path| - 2]);
    assert Way(fs, original, roots, front) && front[|front| - 1] == path[|path| - 2];
  }

  lemma {:induction false} FollowsWay(fs: FileSystem, original: string, roots: seq<Package>, all: set<Path>, path: seq<Package>)
    requires FileSystemOk(fs) && NoneSplit(fs, original, roots) && Way(fs, original, roots, path)
    requires AllIn(fs, original, roots, all) && forall d | d in all :: Expanded(fs, original, roots, all, d)
    ensures IsIn(fs, original, path[|path| - 1], all)
  {
    if |path| == 1 {
      var i :| 0 <= i < |roots| && roots[i] == path[0];
    } else {
      WayFront(fs, original, roots, path);
      FollowsWay(fs, original, roots, all, path[..|path| - 1]);
      DependencyIn(fs, original, roots, all, path[|path| - 2], path[|path| - 1]);
    }
  }

  /** For any finite package graph, cycles included, in which no reachable package is split, the search collects exactly the
      directories of the packages reachable from the project's references. */
  lemma CollectIsReachable(fs: FileSystem, original: string, references: seq<Reference>, d: Path)
    requires FileSystemOk(fs) && NoneSplit(fs, original, Roots(fs, references))
    ensures d in CollectAll(fs, original, Roots(fs, references), {}) <==> Reachable(fs, original, Roots(fs, references), d)
  {
    var roots := Roots(fs, references);
    var all := CollectAll(fs, original, roots, {});
    RootsReached(fs, original, roots);
    CollectAllExpands(fs, original, roots, roots, {});
    if d in all { CollectsOnlyReachable(fs, original, references, d); }
    if Reachable(fs, original, roots, d) {
      var p :| Reached(fs, original, roots, p) && ResolvesTo(fs, original, p, d);
      var path :| Way(fs, original, roots, path) && path[|path| - 1] == p;
      FollowsWay(fs, original, roots, all, path);
    }
  }

  /** No two directories differ only in case. */
  ghost predicate CaseUnique(fs: FileSystem) {
    forall a, b | a in fs.directories && b in fs.directories && Lower(fs, a) == Lower(fs, b) :: a == b
  }

  lemma LowerTwice(fs: FileSystem, path: Path)
    requires FileSystemOk(fs)
    ensures Lower(fs, Lower(fs, path)) == Lower(fs, path)
  {
  }

  /** Then nothing is split, so this condition on the file system alone is enough. */
  lemma CaseUniqueIsEnough(fs: FileSystem, original: string, references: seq<Reference>, d: Path)
    requires FileSystemOk(fs) && CaseUnique(fs)
    ensures d in CollectAll(fs, original, Roots(fs, references), {}) <==> Reachable(fs, original, Roots(fs, references), d)
  {
    forall p ensures !IsSplit(fs, original, p) {
      if IsSplit(fs, original, p) {
        var n, spelled := |fs.root|, PackagePath(fs, p);
        DescriptionPlace(fs, original, p);
        PathParts(fs, p, Resolve(fs, original, p).value.framework);
        assert Resolve(fs, original, p).value.directory[..n + 2] == Lower(fs, spelled);
        assert Lower(fs, spelled) in fs.directories;
        LowerTwice(fs, spelled);
      }
    }
    CollectIsReachable(fs, original, references, d);
  }

  // ----- and only then

  /** Whatever the descriptions list and the project references, the search is complete on this layout of directories. */
  ghost predicate AlwaysComplete(fs: FileSystem, original: string) {
    forall described: Path -> Description, references: seq<Reference>, d: Path ::
      Finds(fs.(described := described), original, references, d)
  }

  ghost predicate Finds(fs: FileSystem, original: string, references: seq<Reference>, d: Path) {
    Reachable(fs, original, Roots(fs, references), d) ==> d in CollectAll(fs, original, Roots(fs, references), {})
  }

  /** The packages directory and the frameworks are spelled in lower case. */
  predicate LowerNames(fs: FileSystem, original: string) {
    Lower(fs, fs.root) == fs.root && fs.lower("lib") == "lib" && forall i | 0 <= i < |FallBack(original)| :: fs.lower(FallBack(original)[i]) == FallBack(original)[i]
  }

  /** All packages that resolve at all resolve to one directory. */
  ghost predicate OneDirectory(fs: FileSystem, original: string) {
    forall p, q | Resolve(fs, original, p).Some? && Resolve(fs, original, q).Some? ::
      Resolve(fs, original, p).value.directory == Resolve(fs, original, q).value.directory
  }

  lemma {:induction false} ResolveIgnoresDescriptions(fs: FileSystem, described: Path -> Description, p: Package, frameworks: seq<string>)
    ensures ResolveFrom(fs.(described := described), p, frameworks) == ResolveFrom(fs, p, frameworks)
  {
    if frameworks != [] { ResolveIgnoresDescriptions(fs, described, p, frameworks[1..]); }
  }

  function LowerPackage(fs: FileSystem, p: Package): Package {
    Package(fs.lower(p.id), fs.lower(p.version))
  }

  lemma LowerLib(fs: FileSystem, p: Package, framework: string)
    requires FileSystemOk(fs) && Lower(fs, fs.root) == fs.root && fs.lower("lib") == "lib" && fs.lower(framework) == framework
    ensures LibPath(fs, LowerPackage(fs, p), framework) == Lower(fs, LibPath(fs, p, framework))
    ensures Lower(fs, Lower(fs, LibPath(fs, p, framework))) == Lower(fs, LibPath(fs, p, framework))
  {
    LowerTwice(fs, LibPath(fs, p, framework));
  }

  /** The lower-case spelling of a package whose assemblies are found in lower case resolves to the same directory. */
  lemma {:induction false} LowerResolvesFrom(fs: FileSystem, p: Package, frameworks: seq<string>)
    requires FileSystemOk(fs) && Lower(fs, fs.root) == fs.root && fs.lower("lib") == "lib"
    requires forall i | 0 <= i < |frameworks| :: fs.lower(frameworks[i]) == frameworks[i]
    requires ResolveFrom(fs, p, frameworks).Some?
    requires var r := ResolveFrom(fs, p, frameworks).value; r.directory != LibPath(fs, p, r.framework)
    ensures ResolveFrom(fs, LowerPackage(fs, p), frameworks) == ResolveFrom(fs, p, frameworks)
  {
    LowerLib(fs, p, frameworks[0]);
    if DirectoryFor(fs, p, frameworks[0]) == None {
      LowerResolvesFrom(fs, p, frameworks[1..]);
    }
  }

  /** Descriptions under which a split package hides another: its lower-case spelling lists it, and it lists x. */
  function Hiding(fs: FileSystem, p: Package, x: Package): Path -> Description {
    (file: Path) =>
      if file == DescriptionFile(fs, LowerPackage(fs, p)) then Listing(p) else if file == DescriptionFile(fs, p) then Listing(x) else []
  }

  /** One dependency, for every framework. */
  function Listing(x: Package): Description {
    [[Group(Some("netstandard2.1"), [x])]]
  }

  lemma ListingLists(fs: FileSystem, x: Package, framework: string)
    ensures Listed(fs, Listing(x), framework) == [x]
  {
    var groups := Listing(x)[0];
    assert TrimDots("netstandard2.1") == "netstandard2.1";
    assert GroupIn(fs, groups, "netstandard2.1") == Some(groups[0]);
    assert groups[1..] == [];
    assert GroupIn(fs, groups, framework).Some? ==> GroupIn(fs, groups, framework) == Some(groups[0]);
    GroupForThree(fs, groups, framework, "netstandard2.1", "netstandard2.0");
  }

  /** A reference to the lower-case spelling of a split package, which lists the package as spelled, never leads to what
      that one lists. */
  lemma SplitHides(fs: FileSystem, original: string, p: Package, x: Package)
    requires FileSystemOk(fs) && LowerNames(fs, original) && IsSplit(fs, original, p)
    requires Resolve(fs, original, x).Some? && Resolve(fs, original, x).value.directory != Resolve(fs, original, p).value.directory
    ensures var hiding := fs.(described := Hiding(fs, p, x));
            !Finds(hiding, original, [Reference(Some(p.id), fs.lower(p.version))], Resolve(fs, original, x).value.directory)
  {
    var described := Hiding(fs, p, x);
    var hiding := fs.(described := described);
    var q := LowerPackage(fs, p);
    var r := Resolve(fs, original, p).value;
    var references := [Reference(Some(p.id), fs.lower(p.version))];
    assert references[1..] == [] && Roots(hiding, references) == [q] + [] == [q];
    LowerResolvesFrom(fs, p, FallBack(original));
    forall z ensures Resolve(hiding, original, z) == Resolve(fs, original, z) {
      ResolveIgnoresDescriptions(fs, described, z, FallBack(original));
    }
    HiddenDescriptions(fs, original, p);
    assert DescriptionFile(hiding, q) == DescriptionFile(fs, q) && DescriptionFile(hiding, p) == DescriptionFile(fs, p);
    ListingLists(hiding, p, r.framework);
    ListingLists(hiding, x, r.framework);
    assert DependenciesOf(hiding, original, q) == [p] && DependenciesOf(hiding, original, p) == [x];
    HiddenBehind(hiding, original, q, p, x, r.directory);
  }

  /** q, which leads to p of the same directory, which alone leads to x. */
  lemma HiddenBehind(fs: FileSystem, original: string, q: Package, p: Package, x: Package, d: Path)
    requires ResolvesTo(fs, original, q, d) && ResolvesTo(fs, original, p, d)
    requires DependenciesOf(fs, original, q) == [p] && DependenciesOf(fs, original, p) == [x]
    requires Resolve(fs, original, x).Some? && Resolve(fs, original, x).value.directory != d
    ensures var dx := Resolve(fs, original, x).value.directory;
            Reachable(fs, original, [q], dx) && dx !in CollectAll(fs, original, [q], {})
  {
    var path := [q, p, x];
    assert Way(fs, original, [q], path) && path[|path| - 1] == x;
    assert Reached(fs, original, [q], x) && ResolvesTo(fs, original, x, Resolve(fs, original, x).value.directory);
    assert [q][1..] == [] && [p][1..] == [];
    var none: set<Path> := {};
    assert none + {d} == {d};
    assert Collect(fs, original, p, {d}) == {d};
    assert CollectAll(fs, original, [p], {d}) == {d};
    assert Collect(fs, original, q, none) == {d};
    assert CollectAll(fs, original, [q], none) == {d};
  }

  lemma HiddenDescriptions(fs: FileSystem, original: string, p: Package)
    requires FileSystemOk(fs) && Lower(fs, fs.root) == fs.root && IsSplit(fs, original, p)
    requires Resolve(fs, original, LowerPackage(fs, p)) == Resolve(fs, original, p)
    ensures DescriptionFile(fs, p) != DescriptionFile(fs, LowerPackage(fs, p)) && p != LowerPackage(fs, p)
  {
    var q := LowerPackage(fs, p);
    assert PackagePath(fs, q) == Lower(fs, PackagePath(fs, p));
    SameDescriptionIff(fs, original, p, q, Resolve(fs, original, p).value.directory);
  }

  /** Exactly which layouts the search is safe on, however the packages depend on each other: those without a split
      package, and those with a single directory. */
  lemma AlwaysCompleteIff(fs: FileSystem, original: string)
    requires FileSystemOk(fs) && LowerNames(fs, original)
    ensures AlwaysComplete(fs, original) <==> (forall p :: !IsSplit(fs, original, p)) || OneDirectory(fs, original)
  {
    if (forall p :: !IsSplit(fs, original, p)) || OneDirectory(fs, original) {
      forall described: Path -> Description, references: seq<Reference>, d: Path
        ensures Finds(fs.(described := described), original, references, d)
      {
        SafeLayout(fs, original, described, references, d);
      }
    } else {
      UnsafeLayout(fs, original);
    }
  }

  lemma UnsafeLayout(fs: FileSystem, original: string)
    requires FileSystemOk(fs) && LowerNames(fs, original)
    requires (exists p :: IsSplit(fs, original, p)) && !OneDirectory(fs, original)
    ensures !AlwaysComplete(fs, original)
  {
    var p :| IsSplit(fs, original, p);
    var x := OtherDirectory(fs, original, p);
    SplitHides(fs, original, p, x);
  }

  lemma OtherDirectory(fs: FileSystem, original: string, p: Package) returns (x: Package)
    requires Resolve(fs, original, p).Some? && !OneDirectory(fs, original)
    ensures Resolve(fs, original, x).Some? && Resolve(fs, original, x).value.directory != Resolve(fs, original, p).value.directory
  {
    var y, z :| Resolve(fs, original, y).Some? && Resolve(fs, original, z).Some?
                && Resolve(fs, original, y).value.directory != Resolve(fs, original, z).value.directory;
    x := if Resolve(fs, original, y).value.directory == Resolve(fs, original, p).value.directory then z else y;
  }

  lemma SafeLayout(fs: FileSystem, original: string, described: Path -> Description, references: seq<Reference>, d: Path)
    requires FileSystemOk(fs) && ((forall p :: !IsSplit(fs, original, p)) || OneDirectory(fs, original))
    ensures Finds(fs.(described := described), original, references, d)
  {
    var fs' := fs.(described := described);
    forall z ensures Resolve(fs', original, z) == Resolve(fs, original, z) {
      ResolveIgnoresDescriptions(fs, described, z, FallBack(original));
    }
    if Reachable(fs', original, Roots(fs', references), d) {
      if forall p :: !IsSplit(fs, original, p) {
        assert forall p :: IsSplit(fs', original, p) == IsSplit(fs, original, p);
        CollectIsReachable(fs', original, references, d);
      } else {
        SingleDirectory(fs', original, references, d);
      }
    }
  }

  /** A way that ends in a resolvable package begins with one. */
  lemma FirstResolves(fs: FileSystem, original: string, roots: seq<Package>, path: seq<Package>)
    requires Way(fs, original, roots, path) && Resolve(fs, original, path[|path| - 1]).Some?
    ensures Resolve(fs, original, path[0]).Some?
  {
    if |path| > 1 { assert path[0 + 1] in DependenciesOf(fs, original, path[0]); }
  }

  lemma RootIn(fs: FileSystem, original: string, roots: seq<Package>, p: Package)
    requires p in roots
    ensures IsIn(fs, original, p, CollectAll(fs, original, roots, {}))
  {
    RootsReached(fs, original, roots);
    CollectAllExpands(fs, original, roots, roots, {});
    var i :| 0 <= i < |roots| && roots[i] == p;
  }

  lemma SingleDirectory(fs: FileSystem, original: string, references: seq<Reference>, d: Path)
    requires OneDirectory(fs, original) && Reachable(fs, original, Roots(fs, references), d)
    ensures d in CollectAll(fs, original, Roots(fs, references), {})
  {
    var roots := Roots(fs, references);
    var p :| Reached(fs, original, roots, p) && ResolvesTo(fs, original, p, d);
    var path :| Way(fs, original, roots, path) && path[|path| - 1] == p;
    FirstResolves(fs, original, roots, path);
    RootIn(fs, original, roots, path[0]);
    assert Resolve(fs, original, path[0]).value.directory == Resolve(fs, original, p).value.directory;
  }

  // ----- a layout with a split package

  /** Everything on the way to some directories. */
  function Prefixes(paths: set<Path>): set<Path> {
    set path, k | path in paths && 0 <= k <= |path| :: path[..k]
  }

  lemma PrefixesClosed(paths: set<Path>)
    ensures forall d, k | d in Prefixes(paths) && 0 <= k <= |d| :: d[..k] in Prefixes(paths)
  {
    forall d, k | d in Prefixes(paths) && 0 <= k <= |d| ensures d[..k] in Prefixes(paths) {
      var path, n :| path in paths && 0 <= n <= |path| && d == path[..n];
      assert d[..k] == path[..k];
    }
  }

  /** A package has a directory `upper`, without assemblies; they are under `low`, the same name in lower case. There is
      one other package. */
  function SplitLayout(upper: string, low: string, other: string, version: string, framework: string): FileSystem {
    FileSystem([], Prefixes({[low, version, "lib", framework], [upper, version], [other, version, "lib", framework]}),
               (s: string) => if s == upper then low else s, (file: Path) => [])
  }

  predicate NamesApart(upper: string, low: string, other: string, version: string, framework: string) {
    upper !in {low, other, version, framework, "lib", "netstandard2.1", "netstandard2.0"} && low != other
  }

  lemma SplitLayoutDirectories(upper: string, low: string, other: string, version: string, framework: string)
    requires NamesApart(upper, low, other, version, framework)
    ensures var fs := SplitLayout(upper, low, other, version, framework);
            && [low, version, "lib", framework] in fs.directories && [upper, version] in fs.directories
            && [other, version, "lib", framework] in fs.directories && [upper, version, "lib", framework] !in fs.directories
  {
    var fs := SplitLayout(upper, low, other, version, framework);
    var a, b, c: Path := [low, version, "lib", framework], [upper, version], [other, version, "lib", framework];
    var d := [upper, version, "lib", framework];
    assert a[..4] == a && b[..2] == b && c[..4] == c;
    forall path, k | path in {a, b, c} && 0 <= k <= |path| ensures path[..k] != d {
      if k == 4 { assert path[..k][0] == path[0]; }
    }
  }

  /** Such layouts exist, and the search is not safe on them. */
  lemma SplitLayoutUnsafe(upper: string, low: string, other: string, version: string, framework: string)
    requires NamesApart(upper, low, other, version, framework)
    ensures var fs := SplitLayout(upper, low, other, version, framework);
            && FileSystemOk(fs) && LowerNames(fs, framework) && IsSplit(fs, framework, Package(upper, version))
            && !AlwaysComplete(fs, framework)
  {
    var fs, p, x := SplitLayout(upper, low, other, version, framework), Package(upper, version), Package(other, version);
    PrefixesClosed({[low, version, "lib", framework], [upper, version], [other, version, "lib", framework]});
    SplitLayoutDirectories(upper, low, other, version, framework);
    assert FallBack(framework)[0] == framework;
    assert LibPath(fs, p, framework) == [upper, version, "lib", framework];
    assert Lower(fs, LibPath(fs, p, framework)) == [low, version, "lib", framework];
    assert LibPath(fs, x, framework) == [other, version, "lib", framework];
    assert PackagePath(fs, p) == [upper, version] && Lower(fs, [upper, version])[0] == low;
    var dp, dx := Resolve(fs, framework, p).value.directory, Resolve(fs, framework, x).value.directory;
    assert dp[0] == low && dx[0] == other;
    assert IsSplit(fs, framework, p) && dp != dx;
    UnsafeLayout(fs, framework);
  }
}
