/** The generated look-up of formatters (MessagePackFormatterResolverGenerator.cs): a table from types to indices and a
    switch over the indices, each line under the conditions of its registration. */
module ResolverGenerator {
  import opened Prelude
  import opened TypeInfo
  import opened Collector
  import opened CodeWriter
  import opened Conditions

  /** `formatter` is the expression that creates the formatter. */
  datatype Registration = Registration(fullName: string, formatter: string, conditions: seq<string>)

  datatype Code =
    | Fixed(text: string)
    | Close | CloseTable | DefaultNull
      /** `{typeof(FullName), index },` */
    | TableEntry(fullName: string, index: nat)
      /** `case index: return new formatter;` */
    | SwitchCase(index: nat, formatter: string)

  type Lines = seq<Line<Code>>

  /** The text before the table and before the switch. */
  datatype Template = Template(tableHead: seq<string>, switchHead: seq<string>)

  function Fixeds(texts: seq<string>): (codes: seq<Code>)
    ensures |codes| == |texts| && forall i | 0 <= i < |codes| :: codes[i].Fixed?
  {
    seq(|texts|, i requires 0 <= i < |texts| => Fixed(texts[i]))
  }

  // ----- conditions as text

  /** The conditions that hold when just these symbols are defined. */
  function Meaning(defined: Defined): Symbols {
    text => IsTrue(text, defined)
  }

  lemma EnabledIff(conditions: seq<string>, defined: Defined)
    requires forall c | c in conditions :: IsCondition(c, defined)
    ensures Enabled(AnyOf(conditions), Meaning(defined)) <==> Holds(conditions, Meaning(defined))
  {
    AnyOfBlankIff(conditions);
    if conditions != [] { AnyOfIsOr(conditions, defined); }
  }

  // ----- the text

  datatype Part = Table | Switch

  function CodeOf(part: Part, r: Registration, index: nat): Code {
    match part
    case Table => TableEntry(r.fullName, index)
    case Switch => SwitchCase(index, r.formatter)
  }

  function Loop(l: Lines, part: Part, rs: seq<Registration>, i: nat): Lines {
    if rs == [] then l
    else
      var k := |rs| - 1;
      var condition := AnyOf(rs[k].conditions);
      CloseIf(Write(OpenIf(Loop(l, part, rs[..k], i), condition), i, [CodeOf(part, rs[k], k)]), condition)
  }

  function TableText(l: Lines, t: Template, rs: seq<Registration>, i: nat): Lines {
    var begun := Write(l, i, Fixeds(t.tableHead));
    Write(Write(Loop(begun, Table, rs, i + 3), i + 2, [CloseTable]), i + 1, [Close])
  }

  function SwitchText(l: Lines, t: Template, rs: seq<Registration>, i: nat): Lines {
    var begun := Write(l, i + 1, Fixeds(t.switchHead));
    Write(Write(Write(Loop(begun, Switch, rs, i + 3), i + 3, [DefaultNull]), i + 2, [Close]), i + 1, [Close])
  }

  function Helper(l: Lines, t: Template, rs: seq<Registration>, i: nat): Lines {
    Write(SwitchText(TableText(l, t, rs, i), t, rs, i), i, [Close])
  }

  method EmitLoop(w: TextWriter<Code>, part: Part, rs: seq<Registration>)
    modifies w`lines
    ensures w.lines == Loop(old(w.lines), part, rs, w.indent)
  {
    for k := 0 to |rs|
      invariant w.lines == Loop(old(w.lines), part, rs[..k], w.indent)
    {
      assert rs[..k + 1][..k] == rs[..k];
      w.IfDirective(AnyOf(rs[k].conditions));
      w.WriteLines([CodeOf(part, rs[k], k)]);
      w.EndIf(AnyOf(rs[k].conditions));
    }
    assert rs[..|rs|] == rs;
  }

  method EmitTable(w: TextWriter<Code>, t: Template, rs: seq<Registration>)
    modifies w
    ensures w.indent == old(w.indent) && w.lines == TableText(old(w.lines), t, rs, w.indent)
  {
    w.WriteLines(Fixeds(t.tableHead));
    w.BeginIndent(3);
    EmitLoop(w, Table, rs);
    w.EndIndent(1);
    w.WriteLines([CloseTable]);
    w.EndIndent(1);
    w.WriteLines([Close]);
    w.EndIndent(1);
  }

  method EmitSwitch(w: TextWriter<Code>, t: Template, rs: seq<Registration>)
    modifies w
    ensures w.indent == old(w.indent) && w.lines == SwitchText(old(w.lines), t, rs, w.indent)
  {
    w.BeginIndent(1);
    w.WriteLines(Fixeds(t.switchHead));
    w.BeginIndent(2);
    EmitLoop(w, Switch, rs);
    w.WriteLines([DefaultNull]);
    w.EndIndent(1);
    w.WriteLines([Close]);
    w.EndIndent(1);
    w.WriteLines([Close]);
    w.EndIndent(1);
  }

  method EmitGetFormatterHelper(w: TextWriter<Code>, t: Template, rs: seq<Registration>)
    modifies w
    ensures w.indent == old(w.indent) && w.lines == Helper(old(w.lines), t, rs, w.indent)
  {
    EmitTable(w, t, rs);
    EmitSwitch(w, t, rs);
    w.WriteLines([Close]);
  }

  // ----- preprocessing keeps the lines of the enabled registrations, with their indices

  function KeptLoop(l: Lines, part: Part, rs: seq<Registration>, i: nat, on: Symbols): Lines {
    if rs == [] then l
    else
      var k := |rs| - 1;
      var before := KeptLoop(l, part, rs[..k], i, on);
      if Enabled(AnyOf(rs[k].conditions), on) then Write(before, i, [CodeOf(part, rs[k], k)]) else before
  }

  function KeptTable(l: Lines, t: Template, rs: seq<Registration>, i: nat, on: Symbols): Lines {
    var begun := Write(l, i, Fixeds(t.tableHead));
    Write(Write(KeptLoop(begun, Table, rs, i + 3, on), i + 2, [CloseTable]), i + 1, [Close])
  }

  function KeptSwitch(l: Lines, t: Template, rs: seq<Registration>, i: nat, on: Symbols): Lines {
    var begun := Write(l, i + 1, Fixeds(t.switchHead));
    Write(Write(Write(KeptLoop(begun, Switch, rs, i + 3, on), i + 3, [DefaultNull]), i + 2, [Close]), i + 1, [Close])
  }

  function KeptHelper(t: Template, rs: seq<Registration>, i: nat, on: Symbols): Lines {
    Write(KeptSwitch(KeptTable([], t, rs, i, on), t, rs, i, on), i, [Close])
  }

  lemma {:induction false} ScanLoop(l: Lines, part: Part, rs: seq<Registration>, i: nat, on: Symbols)
    requires Scan(l, on).Scanned? && Scan(l, on).open == []
    ensures Scan(Loop(l, part, rs, i), on) == Scanned(KeptLoop(Scan(l, on).out, part, rs, i, on), [])
  {
    if rs != [] {
      var k := |rs| - 1;
      ScanLoop(l, part, rs[..k], i, on);
      ScanGuarded(Loop(l, part, rs[..k], i), AnyOf(rs[k].conditions), i, [CodeOf(part, rs[k], k)], on);
    }
  }

  lemma ScanTable(l: Lines, t: Template, rs: seq<Registration>, i: nat, on: Symbols)
    requires Scan(l, on).Scanned? && Scan(l, on).open == []
    ensures Scan(TableText(l, t, rs, i), on) == Scanned(KeptTable(Scan(l, on).out, t, rs, i, on), [])
  {
    var l1 := Write(l, i, Fixeds(t.tableHead));
    var l2 := Loop(l1, Table, rs, i + 3);
    ScanWrite(l, i, Fixeds(t.tableHead), on);
    ScanLoop(l1, Table, rs, i + 3, on);
    ScanWrite(l2, i + 2, [CloseTable], on);
    ScanWrite(Write(l2, i + 2, [CloseTable]), i + 1, [Close], on);
  }

  lemma ScanSwitch(l: Lines, t: Template, rs: seq<Registration>, i: nat, on: Symbols)
    requires Scan(l, on).Scanned? && Scan(l, on).open == []
    ensures Scan(SwitchText(l, t, rs, i), on) == Scanned(KeptSwitch(Scan(l, on).out, t, rs, i, on), [])
  {
    var l1 := Write(l, i + 1, Fixeds(t.switchHead));
    var l2 := Loop(l1, Switch, rs, i + 3);
    var l3 := Write(l2, i + 3, [DefaultNull]);
    ScanWrite(l, i + 1, Fixeds(t.switchHead), on);
    ScanLoop(l1, Switch, rs, i + 3, on);
    ScanWrite(l2, i + 3, [DefaultNull], on);
    ScanWrite(l3, i + 2, [Close], on);
    ScanWrite(Write(l3, i + 2, [Close]), i + 1, [Close], on);
  }

  lemma PreprocessHelper(t: Template, rs: seq<Registration>, i: nat, on: Symbols)
    ensures Preprocess(Helper([], t, rs, i), on) == Some(KeptHelper(t, rs, i, on))
  {
    var none: Lines := [];
    assert Scan(none, on) == Scanned([], []);
    ScanTable(none, t, rs, i, on);
    ScanSwitch(TableText(none, t, rs, i), t, rs, i, on);
    ScanWrite(SwitchText(TableText(none, t, rs, i), t, rs, i), i, [Close], on);
  }

  // ----- what the compiled helper does

  /** The dictionary look-up, and the switch. */
  function TableLookup(lines: Lines, name: string): Option<nat> {
    if lines == [] then None
    else
      var last := lines[|lines| - 1];
      if last.Text? && last.code.TableEntry? && last.code.fullName == name then Some(last.code.index)
      else TableLookup(lines[..|lines| - 1], name)
  }

  function SwitchOn(lines: Lines, index: nat): Option<string> {
    if lines == [] then None
    else
      var last := lines[|lines| - 1];
      if last.Text? && last.code.SwitchCase? && last.code.index == index then Some(last.code.formatter)
      else SwitchOn(lines[..|lines| - 1], index)
  }

  /** `GetFormatter`; None is null. */
  function GetFormatter(lines: Lines, name: string): Option<string> {
    match TableLookup(lines, name)
    case None => None
    case Some(index) => SwitchOn(lines, index)
  }

  predicate NoEntries(codes: seq<Code>) {
    forall i | 0 <= i < |codes| :: !codes[i].TableEntry?
  }

  predicate NoCases(codes: seq<Code>) {
    forall i | 0 <= i < |codes| :: !codes[i].SwitchCase?
  }

  lemma {:induction false} LookupWrite(l: Lines, i: nat, codes: seq<Code>, name: string, index: nat)
    ensures NoEntries(codes) ==> TableLookup(Write(l, i, codes), name) == TableLookup(l, name)
    ensures NoCases(codes) ==> SwitchOn(Write(l, i, codes), index) == SwitchOn(l, index)
  {
    if codes == [] {
      assert Write(l, i, codes) == l;
    } else {
      LookupWrite(l, i, codes[..|codes| - 1], name, index);
      WriteNext(l, i, codes);
      var before := Write(l, i, codes[..|codes| - 1]);
      assert Write(l, i, codes)[..|before|] == before;
    }
  }

  lemma LookupOne(l: Lines, i: nat, code: Code, name: string, index: nat)
    ensures TableLookup(Write(l, i, [code]), name)
         == if code.TableEntry? && code.fullName == name then Some(code.index) else TableLookup(l, name)
    ensures SwitchOn(Write(l, i, [code]), index)
         == if code.SwitchCase? && code.index == index then Some(code.formatter) else SwitchOn(l, index)
  {
    assert Write(l, i, [code]) == l + [Text(i, code)];
    assert (l + [Text(i, code)])[..|l|] == l;
  }

  predicate DistinctNames(rs: seq<Registration>) {
    forall i, j | 0 <= i < j < |rs| :: rs[i].fullName != rs[j].fullName
  }

  /** The k-th registration is compiled in. */
  predicate On(rs: seq<Registration>, k: nat, on: Symbols)
    requires k < |rs|
  {
    Enabled(AnyOf(rs[k].conditions), on)
  }

  lemma {:induction false} LookupInTable(l: Lines, rs: seq<Registration>, i: nat, on: Symbols, name: string, index: nat)
    requires TableLookup(l, name) == None && DistinctNames(rs)
    ensures forall k: nat | k < |rs| && rs[k].fullName == name && On(rs, k, on) :: TableLookup(KeptLoop(l, Table, rs, i, on), name) == Some(k)
    ensures (forall k: nat | k < |rs| && rs[k].fullName == name :: !On(rs, k, on)) ==> TableLookup(KeptLoop(l, Table, rs, i, on), name) == None
    ensures SwitchOn(KeptLoop(l, Table, rs, i, on), index) == SwitchOn(l, index)
  {
    if rs != [] {
      var last := |rs| - 1;
      var before := KeptLoop(l, Table, rs[..last], i, on);
      LookupInTable(l, rs[..last], i, on, name, index);
      LookupOne(before, i, TableEntry(rs[last].fullName, last), name, index);
      var after := KeptLoop(l, Table, rs, i, on);
      assert after == if On(rs, last, on) then Write(before, i, [TableEntry(rs[last].fullName, last)]) else before;
      assert forall k: nat | k < last :: rs[..last][k] == rs[k] && On(rs[..last], k, on) == On(rs, k, on);
    }
  }

  lemma {:induction false} CaseInSwitch(l: Lines, rs: seq<Registration>, i: nat, on: Symbols, name: string, index: nat)
    requires SwitchOn(l, index) == None
    ensures SwitchOn(KeptLoop(l, Switch, rs, i, on), index)
         == if index < |rs| && On(rs, index, on) then Some(rs[index].formatter) else None
    ensures TableLookup(KeptLoop(l, Switch, rs, i, on), name) == TableLookup(l, name)
  {
    if rs != [] {
      var last := |rs| - 1;
      var before := KeptLoop(l, Switch, rs[..last], i, on);
      CaseInSwitch(l, rs[..last], i, on, name, index);
      LookupOne(before, i, SwitchCase(last, rs[last].formatter), name, index);
    }
  }

  lemma LookupInHelper(t: Template, rs: seq<Registration>, i: nat, on: Symbols, name: string, index: nat)
    requires DistinctNames(rs)
    ensures forall k: nat | k < |rs| && rs[k].fullName == name && On(rs, k, on) :: TableLookup(KeptHelper(t, rs, i, on), name) == Some(k)
    ensures (forall k: nat | k < |rs| && rs[k].fullName == name :: !On(rs, k, on)) ==> TableLookup(KeptHelper(t, rs, i, on), name) == None
    ensures SwitchOn(KeptHelper(t, rs, i, on), index) == if index < |rs| && On(rs, index, on) then Some(rs[index].formatter) else None
  {
    var none: Lines := [];
    var l1 := Write(none, i, Fixeds(t.tableHead));
    var l2 := KeptLoop(l1, Table, rs, i + 3, on);
    var l3 := Write(l2, i + 2, [CloseTable]);
    var l4 := Write(l3, i + 1, [Close]);
    var l5 := Write(l4, i + 1, Fixeds(t.switchHead));
    var l6 := KeptLoop(l5, Switch, rs, i + 3, on);
    var l7 := Write(l6, i + 3, [DefaultNull]);
    var l8 := Write(l7, i + 2, [Close]);
    var l9 := Write(l8, i + 1, [Close]);
    LookupWrite(none, i, Fixeds(t.tableHead), name, index);
    LookupInTable(l1, rs, i + 3, on, name, index);
    LookupOne(l2, i + 2, CloseTable, name, index);
    LookupOne(l3, i + 1, Close, name, index);
    LookupWrite(l4, i + 1, Fixeds(t.switchHead), name, index);
    CaseInSwitch(l5, rs, i + 3, on, name, index);
    LookupOne(l6, i + 3, DefaultNull, name, index);
    LookupOne(l7, i + 2, Close, name, index);
    LookupOne(l8, i + 1, Close, name, index);
    LookupOne(l9, i, Close, name, index);
    assert KeptHelper(t, rs, i, on) == Write(l9, i, [Close]);
  }

  /** Whichever symbols are defined, the compiled helper finds, for every type, exactly the formatter of the registration
      whose conditions hold: table and switch agree on the indices, whatever is left out of either. */
  lemma ResolvesExactly(t: Template, rs: seq<Registration>, i: nat, defined: Defined, name: string)
    requires DistinctNames(rs) && forall k | 0 <= k < |rs| :: forall c | c in rs[k].conditions :: IsCondition(c, defined)
    ensures Preprocess(Helper([], t, rs, i), Meaning(defined)).Some?
    ensures var on := Meaning(defined);
            var compiled := Preprocess(Helper([], t, rs, i), on).value;
            && (forall k | 0 <= k < |rs| && rs[k].fullName == name && Holds(rs[k].conditions, on) ::
                  GetFormatter(compiled, name) == Some(rs[k].formatter))
            && ((forall k | 0 <= k < |rs| && rs[k].fullName == name :: !Holds(rs[k].conditions, on)) ==>
                  GetFormatter(compiled, name) == None)
  {
    var on := Meaning(defined);
    PreprocessHelper(t, rs, i, on);
    forall k | 0 <= k < |rs| ensures On(rs, k, on) <==> Holds(rs[k].conditions, on) {
      EnabledIff(rs[k].conditions, defined);
    }
    var compiled := KeptHelper(t, rs, i, on);
    LookupInHelper(t, rs, i, on, name, 0);
    forall k | 0 <= k < |rs| && rs[k].fullName == name && Holds(rs[k].conditions, on)
      ensures GetFormatter(compiled, name) == Some(rs[k].formatter)
    {
      assert On(rs, k, on);
      LookupInHelper(t, rs, i, on, name, k);
    }
  }

  // ----- from a member to its formatter

  function WithoutDots(s: string): string {
    seq(|s|, i requires 0 <= i < |s| => if s[i] == '.' then '_' else s[i])
  }

  /** The expression that creates a formatter: a name that is not global is taken from the formatter namespace. */
  function Creation(ns: string, name: string, arguments: string): string {
    (if (|GLOBAL| <= |name| && name[..|GLOBAL|] == GLOBAL) || IsBlank(ns) then "" else ns + ".") + name + arguments
  }

  function OfGeneric(ns: string, x: Info<GenericPayload>): Registration {
    Registration(x.fullName, Creation(ns, x.payload.formatterName, x.payload.constructorArgs), x.conditions)
  }

  function OfEnum(ns: string, x: Info<EnumPayload>): Registration {
    Registration(x.fullName, Creation(ns, WithoutDots(x.payload.name) + "Formatter", "()"), x.conditions)
  }

  /** The formatter for one type. */
  function FormatterOf(m: Mapper, ns: string, t: Type): Option<string> {
    match Classify(m, t)
    case RegisterGeneric(g) => Some(Creation(ns, g.formatterName, g.constructorArgs))
    case RegisterEnum(e) => Some(Creation(ns, WithoutDots(e.name) + "Formatter", "()"))
    case _ => None
  }

  predicate IsEntry(ns: string, r: Registrations, x: Registration) {
    || (x.fullName in r.generics && x == OfGeneric(ns, r.generics[x.fullName]))
    || (x.fullName in r.enums && x == OfEnum(ns, r.enums[x.fullName]))
  }

  /** The registrations are the entries of the two tables, each once, in any order. */
  ghost predicate Lists(ns: string, rs: seq<Registration>, r: Registrations) {
    && (forall k | 0 <= k < |rs| :: IsEntry(ns, r, rs[k]))
    && (forall i, j | 0 <= i < j < |rs| :: rs[i] != rs[j])
    && (forall name | name in r.generics :: OfGeneric(ns, r.generics[name]) in rs)
    && (forall name | name in r.enums :: OfEnum(ns, r.enums[name]) in rs)
  }

  lemma ListedNamesDistinct(m: Mapper, os: seq<Occurrence>, ns: string, rs: seq<Registration>)
    requires WellNamed(os) && CollectResult(m, os).Some? && Lists(ns, rs, CollectResult(m, os).value)
    ensures DistinctNames(rs)
  {
    var r := CollectResult(m, os).value;
    forall i, j | 0 <= i < j < |rs| ensures rs[i].fullName != rs[j].fullName {
      assert IsEntry(ns, r, rs[i]) && IsEntry(ns, r, rs[j]);
      NamesDistinct(m, os, rs[i].fullName);
    }
  }

  /** The registration of a type's full name carries the type's own formatter. */
  lemma FormatterListed(m: Mapper, os: seq<Occurrence>, ns: string, rs: seq<Registration>, t: Type, isEnum: bool, on: Symbols)
    returns (k: nat)
    requires WellNamed(os) && CollectResult(m, os).Some? && Lists(ns, rs, CollectResult(m, os).value)
    requires exists i :: 0 <= i < |os| && os[i].t == t
    requires if isEnum then Classify(m, t).RegisterEnum? else Classify(m, t).RegisterGeneric?
    requires Registered(CollectResult(m, os).value, isEnum, FullName(t), on)
    ensures k < |rs| && rs[k].fullName == FullName(t) && Some(rs[k].formatter) == FormatterOf(m, ns, t) && Holds(rs[k].conditions, on)
  {
    var r := CollectResult(m, os).value;
    var x: Registration;
    if isEnum {
      EnumEntry(m, os, t);
      x := OfEnum(ns, r.enums[FullName(t)]);
    } else {
      GenericEntry(m, os, t);
      x := OfGeneric(ns, r.generics[FullName(t)]);
    }
    k :| 0 <= k < |rs| && rs[k] == x;
  }

  /** The conditions in the sources are ones that a compiler accepts. */
  predicate ConditionsOk(services: seq<Service>, hubs: seq<Hub>, defined: Defined) {
    && (forall s | s in services :: MembersOk(s.condition, s.members, defined))
    && (forall h | h in hubs :: MembersOk(h.condition, h.members, defined) && MembersOk(h.condition, h.receiver, defined))
  }

  predicate MembersOk(condition: string, members: seq<Member>, defined: Defined) {
    && (IsBlank(condition) || IsCondition(condition, defined))
    && forall x | x in members :: IsBlank(x.condition) || IsCondition(x.condition, defined)
  }

  lemma PlaceOk(services: seq<Service>, hubs: seq<Hub>, defined: Defined, p: Place)
    requires ConditionsOk(services, hubs, defined) && Declared(services, hubs, p)
    ensures var (condition, member) := MemberAt(services, hubs, p);
            && (IsBlank(condition) || IsCondition(condition, defined))
            && (IsBlank(member.condition) || IsCondition(member.condition, defined))
  {
  }

  /** So are those of the registrations made from them. */
  lemma RegistrationConditions(m: Mapper, services: seq<Service>, hubs: seq<Hub>, ns: string, rs: seq<Registration>, defined: Defined,
                               k: nat, c: string)
    requires ConditionsOk(services, hubs, defined) && CollectResult(m, AllOccurrences(services, hubs)).Some?
    requires Lists(ns, rs, CollectResult(m, AllOccurrences(services, hubs)).value) && k < |rs| && c in rs[k].conditions
    ensures IsCondition(c, defined)
  {
    var os := AllOccurrences(services, hubs);
    var s, name := CollectAll(m, os).value, rs[k].fullName;
    AllFrom(m, os);
    assert IsEntry(ns, CollectResult(m, os).value, rs[k]);
    var p: Place;
    if name in Merge(s.generics) && rs[k] == OfGeneric(ns, Merge(s.generics)[name]) {
      p := EntryConditions(m, services, hubs, s.generics, false, name, c);
    } else {
      p := EntryConditions(m, services, hubs, s.enums, true, name, c);
    }
    PlaceOk(services, hubs, defined, p);
  }

  /** End to end: whichever symbols are defined, whenever a method is compiled in, the generated resolver finds, for every
      part of its request and response types that a formatter exists for, that part's formatter. */
  lemma FormatterFound(m: Mapper, services: seq<Service>, hubs: seq<Hub>, p: Place, part: Type, isEnum: bool, defined: Defined,
                       ns: string, t: Template, rs: seq<Registration>, i: nat)
    requires ConditionsOk(services, hubs, defined)
    requires var os := AllOccurrences(services, hubs);
             WellNamed(os) && CollectResult(m, os).Some? && Lists(ns, rs, CollectResult(m, os).value)
    requires Declared(services, hubs, p)
    requires var (condition, member) := MemberAt(services, hubs, p);
             && CompiledIn(condition, member, Meaning(defined))
             && (Subterm(part, member.request) || Subterm(part, member.response))
    requires if isEnum then Classify(m, part).RegisterEnum? else Classify(m, part).RegisterGeneric?
    ensures var compiled := Preprocess(Helper([], t, rs, i), Meaning(defined));
            compiled.Some? && GetFormatter(compiled.value, FullName(part)) == FormatterOf(m, ns, part)
  {
    var os, on := AllOccurrences(services, hubs), Meaning(defined);
    WellNamedIsPlain(os);
    NothingDropped(m, services, hubs, p, part, isEnum, on);
    PartOccurs(services, hubs, p, part);
    var (condition, member) := MemberAt(services, hubs, p);
    var o := Occurrence(part, Directives(condition, member.condition));
    var j :| 0 <= j < |os| && os[j] == o;
    ListedNamesDistinct(m, os, ns, rs);
    var k := FormatterListed(m, os, ns, rs, part, isEnum, on);
    forall l | 0 <= l < |rs| ensures forall c | c in rs[l].conditions :: IsCondition(c, defined) {
      forall c | c in rs[l].conditions ensures IsCondition(c, defined) {
        RegistrationConditions(m, services, hubs, ns, rs, defined, l, c);
      }
    }
    ResolvesExactly(t, rs, i, defined, FullName(part));
  }

  // ----- which formatter that is

  /** A name is taken from the formatter namespace unless it is global or there is none. */
  lemma CreationIs(ns: string, name: string, arguments: string)
    ensures GLOBAL <= name || IsBlank(ns) ==> Creation(ns, name, arguments) == name + arguments
    ensures !(GLOBAL <= name) && !IsBlank(ns) ==> Creation(ns, name, arguments) == ns + "." + name + arguments
  {
    if GLOBAL <= name || IsBlank(ns) { assert "" + name + arguments == name + arguments; }
  }

  /** Enums: the name, with underscores for dots. */
  lemma EnumFormatters(m: Mapper, ns: string, t: Type) returns (name: string)
    requires t.Enum? && FullName(t) !in m.builtIn
    ensures FormatterOf(m, ns, t) == Some(Creation(ns, name + "Formatter", "()"))
    ensures |name| == |t.name| && forall i | 0 <= i < |name| :: name[i] == if t.name[i] == '.' then '_' else t.name[i]
  {
    name := WithoutDots(t.name);
  }

  /** Arrays of each rank. */
  lemma ArrayFormatters(m: Mapper, ns: string, element: Type, rank: nat)
    requires FullName(Array(element, rank)) !in m.builtIn && FullName(element) !in m.builtInElements
    ensures var f, name := FormatterOf(m, ns, Array(element, rank)), FullName(element);
            && (rank == 1 ==> f == Some(Creation(ns, m.arrayFormatters + "ArrayFormatter" + "<" + name + ">", "()")))
            && (rank == 2 ==> f == Some(Creation(ns, m.arrayFormatters + "TwoDimensionalArrayFormatter" + "<" + name + ">", "()")))
            && (rank == 3 ==> f == Some(Creation(ns, m.arrayFormatters + "ThreeDimensionalArrayFormatter" + "<" + name + ">", "()")))
            && (rank == 4 ==> f == Some(Creation(ns, m.arrayFormatters + "FourDimensionalArrayFormatter" + "<" + name + ">", "()")))
            && (rank == 0 || rank > 4 ==> f == None)
  {
  }

  /** Generic types: the argument tuple, the well-known ones, those of the user. */
  lemma GenericFormatters(m: Mapper, ns: string, t: Type)
    requires HasArguments(t) && FullName(t) !in m.builtIn && !IsBuiltInNullable(m, t.ns, t.name, t.args)
    ensures var f := FormatterOf(m, ns, t);
            var names := "<" + JoinNames(t.args) + ">";
            if t.ns == "MagicOnion" && t.name == "DynamicArgumentTuple" then
              f == Some(Creation(ns, m.tupleFormatter + names, "(" + (if m.tupleTakesDefaults then DefaultArgs(t.args) else "") + ")"))
            else if OpenName(t.ns, t.name, t.args) in m.wellKnownGenerics then
              f == Some(Creation(ns, m.wellKnownGenerics[OpenName(t.ns, t.name, t.args)] + names, "()"))
            else match m.userNamespace
                 case None => f == None
                 case Some(prefix) =>
                   f == Some(Creation(ns, (if IsBlank(prefix) then prefix else prefix + ".") + Qualified(t.ns, t.name) + "Formatter" + names, "()"))
  {
    if m.userNamespace.Some? { assert m.userNamespace.value + "" == m.userNamespace.value; }
  }
}
