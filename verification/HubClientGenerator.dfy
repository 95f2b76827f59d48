/** The generator of hub client classes (StaticStreamingHubClientGenerator.cs). A line of code is what it says: lines
    that depend on a method are structured, and the text between the loops is given with the hub. */
module HubClientGenerator {
  import opened Prelude
  import opened TypeInfo
  import opened CodeWriter

  datatype Parameter = Parameter(t: Type, name: string)

  datatype Method = Method(
    hubId: int, name: string, parameters: seq<Parameter>, result: Type, request: Type, response: Type, condition: string)

  /** The text of a hub's client that does not depend on its methods; `oneWayHead` comes before the line that begins the
      fire-and-forget client, `oneWayMembers` behind it. */
  datatype Template = Template(
    preamble: seq<string>, className: string, members: seq<string>, oneWayHead: seq<string>, oneWayMembers: seq<string>)

  datatype Hub = Hub(text: Template, methods: seq<Method>, receiverMethods: seq<Method>, condition: string)

  // ----- lines of code

  datatype Argument = Nil | Single(name: string) | Tuple(parameters: seq<Parameter>)

  datatype Code =
    | Fixed(text: string)
    | Open | Close | Blank | SwitchMethodId | CaseOpen | CaseClose | CaseBreak
      /** `[global::MagicOnion.Ignore]` */
    | IgnoreAttribute
      /** `public class Name : StreamingHubClientBase<...>, ...` */
    | ClientClass(name: string)
      /** `class FireAndForgetClient : ...` */
    | FireAndForgetClass
      /** `protected override void OnBroadcastEvent(...)` and `OnResponseEvent(...)` */
    | OnBroadcastEvent | OnResponseEvent
      /** `public R Name(parameters)` */
    | Signature(result: Type, name: string, parameters: seq<Parameter>)
      /** `=> WriteMessageWithResponseAsync<Request, Response>(hubId, argument)`, or the fire-and-forget call, in what the
          result type R asks for: nothing, or a new `ValueTask` */
    | Forward(result: Type, fireAndForget: bool, request: Type, response: Type, hubId: int, argument: Argument)
      /** `case hubId: // R Name(parameters)` */
    | Case(hubId: int, result: Type, name: string, parameters: seq<Parameter>)
      /** `base.SetResultForResponse<Response>(taskCompletionSource, data);` */
    | SetResult(response: Type)
      /** `var value = base.Deserialize<Request>(data);` */
    | DeserializeAs(request: Type)
      /** `receiver.Name(value)`, with no argument, the value, or the items of a tuple */
    | Invoke(name: string, arguments: nat)

  type Lines = seq<Line<Code>>

  function Fixeds(texts: seq<string>): (codes: seq<Code>)
    ensures |codes| == |texts| && forall i | 0 <= i < |codes| :: codes[i].Fixed?
  {
    seq(|texts|, i requires 0 <= i < |texts| => Fixed(texts[i]))
  }

  // ----- what is emitted for one method

  function ArgumentOf(parameters: seq<Parameter>): Argument {
    if |parameters| == 0 then Nil else if |parameters| == 1 then Single(parameters[0].name) else Tuple(parameters)
  }

  /** The loops over methods. */
  datatype Part = Proxies(fireAndForget: bool) | Broadcasts | Responses

  function Block(part: Part, m: Method): seq<Code> {
    match part
    case Proxies(fireAndForget) =>
      [Signature(m.result, m.name, m.parameters),
       Forward(m.result, fireAndForget, m.request, m.response, m.hubId, ArgumentOf(m.parameters))]
    case Broadcasts =>
      [Case(m.hubId, m.result, m.name, m.parameters), CaseOpen, DeserializeAs(m.request), Invoke(m.name, |m.parameters|),
       CaseClose, CaseBreak]
    case Responses =>
      [Case(m.hubId, m.result, m.name, m.parameters), SetResult(m.response), CaseBreak]
  }

  // ----- the text, as additions to what was written before

  function Loop(l: Lines, part: Part, ms: seq<Method>, i: nat): Lines {
    if ms == [] then l
    else
      var m := ms[|ms| - 1];
      CloseIf(Write(OpenIf(Loop(l, part, ms[..|ms| - 1], i), m.condition), i, Block(part, m)), m.condition)
  }

  function HubMethods(l: Lines, ms: seq<Method>, fireAndForget: bool, i: nat): Lines {
    Write(Loop(l, Proxies(fireAndForget), ms, i), i, [Blank])
  }

  function OneWayHead(hub: Hub): seq<Code> {
    Fixeds(hub.text.oneWayHead) + [FireAndForgetClass, Open] + Fixeds(hub.text.oneWayMembers)
  }

  function FireAndForget(l: Lines, hub: Hub, i: nat): Lines {
    Write(HubMethods(Write(l, i, OneWayHead(hub)), hub.methods, true, i + 1), i, [Close, Blank])
  }

  function SwitchBlock(l: Lines, part: Part, ms: seq<Method>, i: nat): Lines {
    Write(Loop(Write(l, i, [SwitchMethodId, Open]), part, ms, i + 1), i, [Close])
  }

  function Dispatcher(l: Lines, head: Code, part: Part, ms: seq<Method>, i: nat): Lines {
    Write(SwitchBlock(Write(l, i, [head, Open]), part, ms, i + 1), i, [Close, Blank])
  }

  function Dispatchers(l: Lines, hub: Hub, i: nat): Lines {
    Dispatcher(Dispatcher(l, OnBroadcastEvent, Broadcasts, hub.receiverMethods, i), OnResponseEvent, Responses, hub.methods, i)
  }

  /** What is made from the methods. */
  function Methods(l: Lines, hub: Hub, i: nat): Lines {
    Dispatchers(FireAndForget(HubMethods(l, hub.methods, false, i), hub, i), hub, i)
  }

  function ClassHead(hub: Hub): seq<Code> {
    [IgnoreAttribute, ClientClass(hub.text.className), Open]
  }

  function HubClientClass(l: Lines, hub: Hub, i: nat): Lines {
    Write(Methods(Write(Write(l, i, ClassHead(hub)), i + 1, Fixeds(hub.text.members)), hub, i + 1), i, [Close])
  }

  function HubFile(l: Lines, hub: Hub, i: nat): Lines {
    Write(HubClientClass(Write(Write(l, i, Fixeds(hub.text.preamble)), i + 1, [Blank]), hub, i + 1), i, [Close, Blank])
  }

  function HubFiles(l: Lines, hubs: seq<Hub>): Lines {
    if hubs == [] then l
    else
      var hub := hubs[|hubs| - 1];
      CloseIf(HubFile(OpenIf(HubFiles(l, hubs[..|hubs| - 1]), hub.condition), hub, 0), hub.condition)
  }

  function Build(header: seq<string>, hubs: seq<Hub>): Lines {
    HubFiles(Write([], 0, Fixeds(header)), hubs)
  }

  // ----- the emitting methods

  method EmitLoop(w: TextWriter<Code>, part: Part, ms: seq<Method>)
    modifies w`lines
    ensures w.lines == Loop(old(w.lines), part, ms, w.indent)
  {
    for k := 0 to |ms|
      invariant w.lines == Loop(old(w.lines), part, ms[..k], w.indent)
    {
      assert ms[..k + 1][..k] == ms[..k];
      w.IfDirective(ms[k].condition);
      w.WriteLines(Block(part, ms[k]));
      w.EndIf(ms[k].condition);
    }
    assert ms[..|ms|] == ms;
  }

  method EmitHubMethods(w: TextWriter<Code>, hub: Hub, fireAndForget: bool)
    modifies w`lines
    ensures w.lines == HubMethods(old(w.lines), hub.methods, fireAndForget, w.indent)
  {
    EmitLoop(w, Proxies(fireAndForget), hub.methods);
    w.WriteLines([Blank]);
  }

  method EmitFireAndForget(w: TextWriter<Code>, hub: Hub)
    modifies w
    ensures w.indent == old(w.indent) && w.lines == FireAndForget(old(w.lines), hub, w.indent)
  {
    w.WriteLines(OneWayHead(hub));
    w.BeginIndent(1);
    EmitHubMethods(w, hub, true);
    w.EndIndent(1);
    w.WriteLines([Close, Blank]);
  }

  method EmitSwitch(w: TextWriter<Code>, part: Part, ms: seq<Method>)
    modifies w
    ensures w.indent == old(w.indent) && w.lines == SwitchBlock(old(w.lines), part, ms, w.indent)
  {
    w.WriteLines([SwitchMethodId, Open]);
    w.BeginIndent(1);
    EmitLoop(w, part, ms);
    w.EndIndent(1);
    w.WriteLines([Close]);
  }

  method EmitDispatcher(w: TextWriter<Code>, head: Code, part: Part, ms: seq<Method>)
    modifies w
    ensures w.indent == old(w.indent) && w.lines == Dispatcher(old(w.lines), head, part, ms, w.indent)
  {
    w.WriteLines([head, Open]);
    w.BeginIndent(1);
    EmitSwitch(w, part, ms);
    w.EndIndent(1);
    w.WriteLines([Close, Blank]);
  }

  /** `EmitOnBroadcastEvent` and `EmitOnResponseEvent`. */
  method EmitDispatchers(w: TextWriter<Code>, hub: Hub)
    modifies w
    ensures w.indent == old(w.indent) && w.lines == Dispatchers(old(w.lines), hub, w.indent)
  {
    EmitDispatcher(w, OnBroadcastEvent, Broadcasts, hub.receiverMethods);
    EmitDispatcher(w, OnResponseEvent, Responses, hub.methods);
  }

  method EmitMethods(w: TextWriter<Code>, hub: Hub)
    modifies w
    ensures w.indent == old(w.indent) && w.lines == Methods(old(w.lines), hub, w.indent)
  {
    EmitHubMethods(w, hub, false);
    EmitFireAndForget(w, hub);
    EmitDispatchers(w, hub);
  }

  method EmitHubClientClass(w: TextWriter<Code>, hub: Hub)
    modifies w
    ensures w.indent == old(w.indent) && w.lines == HubClientClass(old(w.lines), hub, w.indent)
  {
    w.WriteLines(ClassHead(hub));
    w.BeginIndent(1);
    w.WriteLines(Fixeds(hub.text.members));
    EmitMethods(w, hub);
    w.EndIndent(1);
    w.WriteLines([Close]);
  }

  method EmitHub(w: TextWriter<Code>, hub: Hub)
    modifies w
    ensures w.indent == old(w.indent) && w.lines == HubFile(old(w.lines), hub, w.indent)
  {
    w.WriteLines(Fixeds(hub.text.preamble));
    w.BeginIndent(1);
    w.WriteLines([Blank]);
    EmitHubClientClass(w, hub);
    w.EndIndent(1);
    w.WriteLines([Close, Blank]);
  }

  /** `Build`; every indent taken is given back. */
  method BuildClients(header: seq<string>, hubs: seq<Hub>) returns (lines: Lines)
    ensures lines == Build(header, hubs)
  {
    var w := new TextWriter<Code>();
    w.WriteLines(Fixeds(header));
    for k := 0 to |hubs|
      invariant w.indent == 0 && w.lines == HubFiles(Write([], 0, Fixeds(header)), hubs[..k])
    {
      assert hubs[..k + 1][..k] == hubs[..k];
      w.IfDirective(hubs[k].condition);
      EmitHub(w, hubs[k]);
      w.EndIf(hubs[k].condition);
    }
    assert hubs[..|hubs|] == hubs;
    return w.lines;
  }

  // ----- preprocessing is selecting

  /** The methods whose condition holds, now without condition. */
  function EnabledMethods(ms: seq<Method>, on: string -> bool): seq<Method> {
    if ms == [] then []
    else
      var m := ms[|ms| - 1];
      EnabledMethods(ms[..|ms| - 1], on) + if Enabled(m.condition, on) then [m.(condition := "")] else []
  }

  function EnabledHub(hub: Hub, on: string -> bool): Hub {
    hub.(methods := EnabledMethods(hub.methods, on), receiverMethods := EnabledMethods(hub.receiverMethods, on), condition := "")
  }

  function EnabledHubs(hubs: seq<Hub>, on: string -> bool): seq<Hub> {
    if hubs == [] then []
    else
      var hub := hubs[|hubs| - 1];
      EnabledHubs(hubs[..|hubs| - 1], on) + if Enabled(hub.condition, on) then [EnabledHub(hub, on)] else []
  }

  lemma LoopMore(l: Lines, part: Part, ms: seq<Method>, m: Method, i: nat)
    requires m.condition == ""
    ensures Loop(l, part, ms + [m], i) == Write(Loop(l, part, ms, i), i, Block(part, m))
  {
    assert (ms + [m])[..|ms|] == ms;
  }

  lemma LoopOverEnabled(l: Lines, part: Part, ms: seq<Method>, i: nat, on: string -> bool)
    requires ms != []
    ensures var front, m := ms[..|ms| - 1], ms[|ms| - 1];
            var before := Loop(l, part, EnabledMethods(front, on), i);
            Loop(l, part, EnabledMethods(ms, on), i) == if Enabled(m.condition, on) then Write(before, i, Block(part, m)) else before
  {
    var front, m := ms[..|ms| - 1], ms[|ms| - 1];
    if Enabled(m.condition, on) {
      LoopMore(l, part, EnabledMethods(front, on), m.(condition := ""), i);
      assert Block(part, m.(condition := "")) == Block(part, m);
    } else {
      assert EnabledMethods(ms, on) == EnabledMethods(front, on);
    }
  }

  /** Scanning what a loop adds: within conditions that hold, what the loop over the enabled methods adds; else nothing. */
  lemma {:induction false} ScanLoop(l: Lines, part: Part, ms: seq<Method>, i: nat, on: string -> bool)
    requires Scan(l, on).Scanned?
    ensures var s := Scan(l, on);
            Scan(Loop(l, part, ms, i), on)
            == Scanned(if AllOn(s.open, on) then Loop(s.out, part, EnabledMethods(ms, on), i) else s.out, s.open)
  {
    if ms != [] {
      var front, m := ms[..|ms| - 1], ms[|ms| - 1];
      ScanLoop(l, part, front, i, on);
      ScanGuarded(Loop(l, part, front, i), m.condition, i, Block(part, m), on);
      LoopOverEnabled(Scan(l, on).out, part, ms, i, on);
    }
  }

  lemma ScanHubMethods(l: Lines, ms: seq<Method>, fireAndForget: bool, i: nat, on: string -> bool)
    requires Scan(l, on).Scanned?
    ensures var s := Scan(l, on);
            Scan(HubMethods(l, ms, fireAndForget, i), on)
            == Scanned(if AllOn(s.open, on) then HubMethods(s.out, EnabledMethods(ms, on), fireAndForget, i) else s.out, s.open)
  {
    ScanLoop(l, Proxies(fireAndForget), ms, i, on);
    ScanWrite(Loop(l, Proxies(fireAndForget), ms, i), i, [Blank], on);
  }

  lemma ScanFireAndForget(l: Lines, hub: Hub, i: nat, on: string -> bool)
    requires Scan(l, on).Scanned?
    ensures var s := Scan(l, on);
            Scan(FireAndForget(l, hub, i), on)
            == Scanned(if AllOn(s.open, on) then FireAndForget(s.out, EnabledHub(hub, on), i) else s.out, s.open)
  {
    var l1 := Write(l, i, OneWayHead(hub));
    ScanWrite(l, i, OneWayHead(hub), on);
    ScanHubMethods(l1, hub.methods, true, i + 1, on);
    ScanWrite(HubMethods(l1, hub.methods, true, i + 1), i, [Close, Blank], on);
  }

  lemma ScanDispatcher(l: Lines, head: Code, part: Part, ms: seq<Method>, i: nat, on: string -> bool)
    requires Scan(l, on).Scanned?
    ensures var s := Scan(l, on);
            Scan(Dispatcher(l, head, part, ms, i), on)
            == Scanned(if AllOn(s.open, on) then Dispatcher(s.out, head, part, EnabledMethods(ms, on), i) else s.out, s.open)
  {
    var l1 := Write(l, i, [head, Open]);
    var l2 := Write(l1, i + 1, [SwitchMethodId, Open]);
    ScanWrite(l, i, [head, Open], on);
    ScanWrite(l1, i + 1, [SwitchMethodId, Open], on);
    ScanLoop(l2, part, ms, i + 2, on);
    ScanWrite(Loop(l2, part, ms, i + 2), i + 1, [Close], on);
    ScanWrite(SwitchBlock(l1, part, ms, i + 1), i, [Close, Blank], on);
  }

  lemma ScanDispatchers(l: Lines, hub: Hub, i: nat, on: string -> bool)
    requires Scan(l, on).Scanned?
    ensures var s := Scan(l, on);
            Scan(Dispatchers(l, hub, i), on)
            == Scanned(if AllOn(s.open, on) then Dispatchers(s.out, EnabledHub(hub, on), i) else s.out, s.open)
  {
    ScanDispatcher(l, OnBroadcastEvent, Broadcasts, hub.receiverMethods, i, on);
    var l1 := Dispatcher(l, OnBroadcastEvent, Broadcasts, hub.receiverMethods, i);
    ScanDispatcher(l1, OnResponseEvent, Responses, hub.methods, i, on);
  }

  lemma ScanHubClientClass(l: Lines, hub: Hub, i: nat, on: string -> bool)
    requires Scan(l, on).Scanned?
    ensures var s := Scan(l, on);
            Scan(HubClientClass(l, hub, i), on)
            == Scanned(if AllOn(s.open, on) then HubClientClass(s.out, EnabledHub(hub, on), i) else s.out, s.open)
  {
    var l0 := Write(l, i, ClassHead(hub));
    var l1 := Write(l0, i + 1, Fixeds(hub.text.members));
    var l2 := HubMethods(l1, hub.methods, false, i + 1);
    var l3 := FireAndForget(l2, hub, i + 1);
    ScanWrite(l, i, ClassHead(hub), on);
    ScanWrite(l0, i + 1, Fixeds(hub.text.members), on);
    ScanHubMethods(l1, hub.methods, false, i + 1, on);
    ScanFireAndForget(l2, hub, i + 1, on);
    ScanDispatchers(l3, hub, i + 1, on);
    ScanWrite(Dispatchers(l3, hub, i + 1), i, [Close], on);
  }

  lemma ScanHubFile(l: Lines, hub: Hub, i: nat, on: string -> bool)
    requires Scan(l, on).Scanned?
    ensures var s := Scan(l, on);
            Scan(HubFile(l, hub, i), on)
            == Scanned(if AllOn(s.open, on) then HubFile(s.out, EnabledHub(hub, on), i) else s.out, s.open)
  {
    var l1 := Write(l, i, Fixeds(hub.text.preamble));
    var l2 := Write(l1, i + 1, [Blank]);
    ScanWrite(l, i, Fixeds(hub.text.preamble), on);
    ScanWrite(l1, i + 1, [Blank], on);
    ScanHubClientClass(l2, hub, i + 1, on);
    ScanWrite(HubClientClass(l2, hub, i + 1), i, [Close, Blank], on);
  }

  lemma HubFilesMore(l: Lines, hubs: seq<Hub>, hub: Hub)
    ensures HubFiles(l, hubs + [hub]) == CloseIf(HubFile(OpenIf(HubFiles(l, hubs), hub.condition), hub, 0), hub.condition)
  {
    assert (hubs + [hub])[..|hubs|] == hubs;
  }

  lemma {:induction false} ScanHubFiles(l: Lines, hubs: seq<Hub>, on: string -> bool)
    requires Scan(l, on).Scanned? && Scan(l, on).open == []
    ensures Scan(HubFiles(l, hubs), on) == Scanned(HubFiles(Scan(l, on).out, EnabledHubs(hubs, on)), [])
  {
    if hubs != [] {
      var front, hub := hubs[..|hubs| - 1], hubs[|hubs| - 1];
      ScanHubFiles(l, front, on);
      var l1 := HubFiles(l, front);
      ScanOpenIf(l1, hub.condition, on);
      ScanHubFile(OpenIf(l1, hub.condition), hub, 0, on);
      ScanCloseIf(HubFile(OpenIf(l1, hub.condition), hub, 0), hub.condition, [], on);
      if Enabled(hub.condition, on) {
        HubFilesMore(Scan(l, on).out, EnabledHubs(front, on), EnabledHub(hub, on));
      } else {
        assert EnabledHubs(hubs, on) == EnabledHubs(front, on);
      }
    }
  }

  /** For every symbol assignment: the generated text is well nested, and preprocessing it is generating from the hubs,
      hub methods and receiver methods whose conditions hold. */
  lemma PreprocessIsSelect(header: seq<string>, hubs: seq<Hub>, on: string -> bool)
    ensures Preprocess(Build(header, hubs), on) == Some(Build(header, EnabledHubs(hubs, on)))
  {
    var none: Lines := [];
    assert Scan(none, on) == Scanned([], []);
    ScanWrite(none, 0, Fixeds(header), on);
    ScanHubFiles(Write(none, 0, Fixeds(header)), hubs, on);
  }

  // ----- reading the compiled text

  /** `public R Name(parameters) => ...<Request, Response>(id, argument)`. */
  datatype Proxy = Proxy(
    name: string, parameters: seq<Parameter>, result: Type, hubId: int, request: Type, response: Type, argument: Argument,
    fireAndForget: bool)

  /** A case of `OnResponseEvent`, and one of `OnBroadcastEvent`. */
  datatype ResponseCase = ResponseCase(hubId: int, response: Type)
  datatype BroadcastCase = BroadcastCase(hubId: int, request: Type, name: string, arguments: nat)

  /** A client class as its reader sees it: methods and switches, with what is in them, in order. */
  datatype Client = Client(
    name: string, proxies: seq<Proxy>, oneWay: seq<Proxy>, broadcasts: seq<BroadcastCase>, responses: seq<ResponseCase>)

  datatype Section = InClass | InOneWay | InBroadcast | InResponse

  /** What the lines read last have begun. */
  datatype Begun =
    | Nothing
    | Signed(result: Type, name: string, parameters: seq<Parameter>)
    | Cased(hubId: int)
    | Deserialized(hubId: int, request: Type)

  datatype Reading = Reading(clients: seq<Client>, section: Section, begun: Begun)

  /** The last class with something more. */
  function InLast(r: Reading, c: Client): Reading
    requires r.clients != []
  {
    r.(clients := r.clients[|r.clients| - 1 := c], begun := Nothing)
  }

  function AddProxy(r: Reading, p: Proxy): Reading {
    if r.clients == [] then r
    else
      var last := r.clients[|r.clients| - 1];
      match r.section
      case InClass => InLast(r, last.(proxies := last.proxies + [p]))
      case InOneWay => InLast(r, last.(oneWay := last.oneWay + [p]))
      case _ => r
  }

  function AddResponse(r: Reading, c: ResponseCase): Reading {
    if r.clients == [] || !r.section.InResponse? then r
    else
      var last := r.clients[|r.clients| - 1];
      InLast(r, last.(responses := last.responses + [c]))
  }

  function AddBroadcast(r: Reading, c: BroadcastCase): Reading {
    if r.clients == [] || !r.section.InBroadcast? then r
    else
      var last := r.clients[|r.clients| - 1];
      InLast(r, last.(broadcasts := last.broadcasts + [c]))
  }

  /** One line of code, as a C# reader takes it. */
  function ReadCode(r: Reading, code: Code): Reading {
    match code
    case ClientClass(name) => Reading(r.clients + [Client(name, [], [], [], [])], InClass, Nothing)
    case FireAndForgetClass => r.(section := InOneWay, begun := Nothing)
    case OnBroadcastEvent => r.(section := InBroadcast, begun := Nothing)
    case OnResponseEvent => r.(section := InResponse, begun := Nothing)
    case Signature(result, name, parameters) => r.(begun := Signed(result, name, parameters))
    case Forward(_, fireAndForget, request, response, hubId, argument) =>
      if !r.begun.Signed? then r
      else AddProxy(r, Proxy(r.begun.name, r.begun.parameters, r.begun.result, hubId, request, response, argument, fireAndForget))
    case Case(hubId, _, _, _) => r.(begun := Cased(hubId))
    case SetResult(response) => if r.begun.Cased? then AddResponse(r, ResponseCase(r.begun.hubId, response)) else r
    case DeserializeAs(request) => if r.begun.Cased? then r.(begun := Deserialized(r.begun.hubId, request)) else r
    case Invoke(name, arguments) =>
      if r.begun.Deserialized? then AddBroadcast(r, BroadcastCase(r.begun.hubId, r.begun.request, name, arguments)) else r
    case _ => r
  }

  function Read(lines: Lines): Reading {
    if lines == [] then Reading([], InClass, Nothing)
    else
      var last := lines[|lines| - 1];
      var r := Read(lines[..|lines| - 1]);
      if last.Text? then ReadCode(r, last.code) else r
  }

  function ReadCodes(r: Reading, codes: seq<Code>): Reading {
    if codes == [] then r else ReadCode(ReadCodes(r, codes[..|codes| - 1]), codes[|codes| - 1])
  }

  lemma {:induction false} ReadWrite(l: Lines, i: nat, codes: seq<Code>)
    ensures Read(Write(l, i, codes)) == ReadCodes(Read(l), codes)
  {
    if codes == [] {
      assert Write(l, i, codes) == l;
    } else {
      ReadWrite(l, i, codes[..|codes| - 1]);
      WriteNext(l, i, codes);
      var before := Write(l, i, codes[..|codes| - 1]);
      assert Write(l, i, codes)[..|before|] == before;
    }
  }

  /** Lines that say nothing about clients. */
  predicate Silent(codes: seq<Code>) {
    forall k | 0 <= k < |codes| ::
      codes[k].Fixed? || codes[k].Open? || codes[k].Close? || codes[k].Blank? || codes[k].SwitchMethodId?
  }

  lemma {:induction false} ReadSilent(r: Reading, codes: seq<Code>)
    requires Silent(codes)
    ensures ReadCodes(r, codes) == r
  {
    if codes != [] { ReadSilent(r, codes[..|codes| - 1]); }
  }

  lemma {:induction false} ReadBoth(r: Reading, a: seq<Code>, b: seq<Code>)
    ensures ReadCodes(r, a + b) == ReadCodes(ReadCodes(r, a), b)
  {
    if b == [] {
      assert a + b == a;
    } else {
      ReadBoth(r, a, b[..|b| - 1]);
      assert (a + b)[..|a + b| - 1] == a + b[..|b| - 1];
    }
  }

  // ----- what each method contributes

  function ProxyOf(m: Method, fireAndForget: bool): Proxy {
    Proxy(m.name, m.parameters, m.result, m.hubId, m.request, m.response, ArgumentOf(m.parameters), fireAndForget)
  }

  function ProxiesOf(ms: seq<Method>, fireAndForget: bool): (ps: seq<Proxy>)
    ensures |ps| == |ms| && forall k | 0 <= k < |ms| :: ps[k] == ProxyOf(ms[k], fireAndForget)
  {
    seq(|ms|, k requires 0 <= k < |ms| => ProxyOf(ms[k], fireAndForget))
  }

  function ResponsesOf(ms: seq<Method>): (cs: seq<ResponseCase>)
    ensures |cs| == |ms| && forall k | 0 <= k < |ms| :: cs[k] == ResponseCase(ms[k].hubId, ms[k].response)
  {
    seq(|ms|, k requires 0 <= k < |ms| => ResponseCase(ms[k].hubId, ms[k].response))
  }

  function BroadcastsOf(ms: seq<Method>): (cs: seq<BroadcastCase>)
    ensures |cs| == |ms| && forall k | 0 <= k < |ms| :: cs[k] == BroadcastCase(ms[k].hubId, ms[k].request, ms[k].name, |ms[k].parameters|)
  {
    seq(|ms|, k requires 0 <= k < |ms| => BroadcastCase(ms[k].hubId, ms[k].request, ms[k].name, |ms[k].parameters|))
  }

  /** The section that a loop writes into. */
  function SectionOf(part: Part): Section {
    match part
    case Proxies(fireAndForget) => if fireAndForget then InOneWay else InClass
    case Broadcasts => InBroadcast
    case Responses => InResponse
  }

  /** The client with what a loop adds. */
  function WithMethods(c: Client, part: Part, ms: seq<Method>): Client {
    match part
    case Proxies(fireAndForget) =>
      if fireAndForget then c.(oneWay := c.oneWay + ProxiesOf(ms, true)) else c.(proxies := c.proxies + ProxiesOf(ms, false))
    case Broadcasts => c.(broadcasts := c.broadcasts + BroadcastsOf(ms))
    case Responses => c.(responses := c.responses + ResponsesOf(ms))
  }

  lemma ReadMore(r: Reading, codes: seq<Code>, code: Code)
    ensures ReadCodes(r, codes + [code]) == ReadCode(ReadCodes(r, codes), code)
  {
    assert (codes + [code])[..|codes|] == codes;
  }

  lemma ReadTwo(r: Reading, a: Code, b: Code)
    ensures ReadCodes(r, [a, b]) == ReadCode(ReadCode(r, a), b)
  {
    ReadMore(r, [], a);
    ReadMore(r, [a], b);
    assert [] + [a] == [a] && [a] + [b] == [a, b];
  }

  lemma ReadProxy(r: Reading, m: Method, fireAndForget: bool)
    requires r.clients != [] && r.section == SectionOf(Proxies(fireAndForget)) && r.begun == Nothing
    ensures ReadCodes(r, Block(Proxies(fireAndForget), m)) == InLast(r, WithMethods(r.clients[|r.clients| - 1], Proxies(fireAndForget), [m]))
  {
    var signature := Signature(m.result, m.name, m.parameters);
    var forward := Forward(m.result, fireAndForget, m.request, m.response, m.hubId, ArgumentOf(m.parameters));
    ReadTwo(r, signature, forward);
    assert ReadCode(r, signature) == r.(begun := Signed(m.result, m.name, m.parameters));
    assert ProxiesOf([m], fireAndForget) == [ProxyOf(m, fireAndForget)];
  }

  lemma ReadResponse(r: Reading, m: Method)
    requires r.clients != [] && r.section.InResponse? && r.begun == Nothing
    ensures ReadCodes(r, Block(Responses, m)) == InLast(r, WithMethods(r.clients[|r.clients| - 1], Responses, [m]))
  {
    var case_ := Case(m.hubId, m.result, m.name, m.parameters);
    var two := [case_, SetResult(m.response)];
    assert Block(Responses, m) == two + [CaseBreak];
    ReadMore(r, two, CaseBreak);
    ReadSetResult(r, m, case_);
  }

  lemma ReadSetResult(r: Reading, m: Method, case_: Code)
    requires r.clients != [] && r.section.InResponse? && case_ == Case(m.hubId, m.result, m.name, m.parameters)
    ensures ReadCodes(r, [case_, SetResult(m.response)]) == InLast(r, WithMethods(r.clients[|r.clients| - 1], Responses, [m]))
  {
    ReadTwo(r, case_, SetResult(m.response));
    SetInCase(r, m.hubId, m.response);
    AddedResponse(r.(begun := Cased(m.hubId)), m);
  }

  lemma SetInCase(r: Reading, hubId: int, response: Type)
    ensures ReadCode(r.(begun := Cased(hubId)), SetResult(response)) == AddResponse(r.(begun := Cased(hubId)), ResponseCase(hubId, response))
  {
  }

  lemma AddedResponse(r: Reading, m: Method)
    requires r.clients != [] && r.section.InResponse?
    ensures AddResponse(r, ResponseCase(m.hubId, m.response)) == InLast(r, WithMethods(r.clients[|r.clients| - 1], Responses, [m]))
  {
    assert ResponsesOf([m]) == [ResponseCase(m.hubId, m.response)];
  }

  lemma ReadBroadcast(r: Reading, m: Method)
    requires r.clients != [] && r.section.InBroadcast? && r.begun == Nothing
    ensures ReadCodes(r, Block(Broadcasts, m)) == InLast(r, WithMethods(r.clients[|r.clients| - 1], Broadcasts, [m]))
  {
    var case_ := Case(m.hubId, m.result, m.name, m.parameters);
    var cased := r.(begun := Cased(m.hubId));
    var invoke := [DeserializeAs(m.request), Invoke(m.name, |m.parameters|)];
    assert Block(Broadcasts, m) == [case_, CaseOpen] + (invoke + [CaseClose, CaseBreak]);
    ReadBoth(r, [case_, CaseOpen], invoke + [CaseClose, CaseBreak]);
    ReadTwo(r, case_, CaseOpen);
    assert ReadCodes(r, [case_, CaseOpen]) == cased;
    ReadBoth(cased, invoke, [CaseClose, CaseBreak]);
    ReadInvoke(r, m);
    ReadTwo(ReadCodes(cased, invoke), CaseClose, CaseBreak);
  }

  lemma ReadInvoke(r: Reading, m: Method)
    requires r.clients != [] && r.section.InBroadcast?
    ensures ReadCodes(r.(begun := Cased(m.hubId)), [DeserializeAs(m.request), Invoke(m.name, |m.parameters|)])
         == InLast(r, WithMethods(r.clients[|r.clients| - 1], Broadcasts, [m]))
  {
    var cased := r.(begun := Cased(m.hubId));
    ReadTwo(cased, DeserializeAs(m.request), Invoke(m.name, |m.parameters|));
    assert ReadCode(cased, DeserializeAs(m.request)) == r.(begun := Deserialized(m.hubId, m.request));
    assert BroadcastsOf([m]) == [BroadcastCase(m.hubId, m.request, m.name, |m.parameters|)];
  }

  lemma ReadBlock(r: Reading, part: Part, m: Method)
    requires r.clients != [] && r.section == SectionOf(part) && r.begun == Nothing
    ensures ReadCodes(r, Block(part, m)) == InLast(r, WithMethods(r.clients[|r.clients| - 1], part, [m]))
  {
    match part
    case Proxies(fireAndForget) => ReadProxy(r, m, fireAndForget);
    case Broadcasts => ReadBroadcast(r, m);
    case Responses => ReadResponse(r, m);
  }

  lemma WithMore(c: Client, part: Part, ms: seq<Method>, m: Method)
    ensures WithMethods(WithMethods(c, part, ms), part, [m]) == WithMethods(c, part, ms + [m])
  {
    assert ProxiesOf(ms + [m], true) == ProxiesOf(ms, true) + ProxiesOf([m], true);
    assert ProxiesOf(ms + [m], false) == ProxiesOf(ms, false) + ProxiesOf([m], false);
    assert BroadcastsOf(ms + [m]) == BroadcastsOf(ms) + BroadcastsOf([m]);
    assert ResponsesOf(ms + [m]) == ResponsesOf(ms) + ResponsesOf([m]);
  }

  lemma WithNone(c: Client, part: Part)
    ensures WithMethods(c, part, []) == c
  {
  }

  predicate Unconditional(ms: seq<Method>) {
    forall k | 0 <= k < |ms| :: ms[k].condition == ""
  }

  lemma LoopLast(l: Lines, part: Part, ms: seq<Method>, i: nat)
    requires Unconditional(ms) && ms != []
    ensures Loop(l, part, ms, i) == Write(Loop(l, part, ms[..|ms| - 1], i), i, Block(part, ms[|ms| - 1]))
  {
  }

  /** What the reading of a class has come to: its last client. */
  predicate At(r: Reading, before: seq<Client>, c: Client) {
    r.clients == before + [c] && r.begun == Nothing
  }

  lemma ReadBlockAt(r: Reading, part: Part, m: Method, before: seq<Client>, c: Client)
    requires At(r, before, c) && r.section == SectionOf(part)
    ensures At(ReadCodes(r, Block(part, m)), before, WithMethods(c, part, [m])) && ReadCodes(r, Block(part, m)).section == r.section
  {
    ReadBlock(r, part, m);
  }

  lemma ReadLoopMore(lines: Lines, part: Part, front: seq<Method>, m: Method, i: nat, before: seq<Client>, c: Client)
    requires At(Read(lines), before, WithMethods(c, part, front)) && Read(lines).section == SectionOf(part)
    ensures var r := Read(Write(lines, i, Block(part, m)));
            At(r, before, WithMethods(c, part, front + [m])) && r.section == SectionOf(part)
  {
    ReadWrite(lines, i, Block(part, m));
    ReadBlockAt(Read(lines), part, m, before, WithMethods(c, part, front));
    WithMore(c, part, front, m);
  }

  lemma {:induction false} ReadLoopAt(l: Lines, part: Part, ms: seq<Method>, i: nat, before: seq<Client>, c: Client)
    requires Unconditional(ms) && At(Read(l), before, c) && Read(l).section == SectionOf(part)
    ensures At(Read(Loop(l, part, ms, i)), before, WithMethods(c, part, ms)) && Read(Loop(l, part, ms, i)).section == SectionOf(part)
  {
    if ms == [] {
      WithNone(c, part);
    } else {
      var front, m := ms[..|ms| - 1], ms[|ms| - 1];
      ReadLoopAt(l, part, front, i, before, c);
      LoopLast(l, part, ms, i);
      ReadLoopMore(Loop(l, part, front, i), part, front, m, i, before, c);
      assert front + [m] == ms;
    }
  }

  // ----- the whole text

  lemma ReadHubMethods(l: Lines, ms: seq<Method>, fireAndForget: bool, i: nat, before: seq<Client>, c: Client)
    requires Unconditional(ms) && At(Read(l), before, c) && Read(l).section == SectionOf(Proxies(fireAndForget))
    ensures At(Read(HubMethods(l, ms, fireAndForget, i)), before, WithMethods(c, Proxies(fireAndForget), ms))
  {
    ReadLoopAt(l, Proxies(fireAndForget), ms, i, before, c);
    ReadSilentWrite(Loop(l, Proxies(fireAndForget), ms, i), i, [Blank]);
  }

  lemma ReadSilentWrite(l: Lines, i: nat, codes: seq<Code>)
    requires Silent(codes)
    ensures Read(Write(l, i, codes)) == Read(l)
  {
    ReadWrite(l, i, codes);
    ReadSilent(Read(l), codes);
  }

  lemma ReadOneWayHead(l: Lines, hub: Hub, i: nat)
    ensures Read(Write(l, i, OneWayHead(hub))) == Read(l).(section := InOneWay, begun := Nothing)
  {
    var a, b := Fixeds(hub.text.oneWayHead), Fixeds(hub.text.oneWayMembers);
    ReadWrite(l, i, OneWayHead(hub));
    ReadBoth(Read(l), a + [FireAndForgetClass, Open], b);
    ReadBoth(Read(l), a, [FireAndForgetClass, Open]);
    ReadSilent(Read(l), a);
    ReadTwo(Read(l), FireAndForgetClass, Open);
    ReadSilent(Read(l).(section := InOneWay, begun := Nothing), b);
  }

  lemma ReadFireAndForget(l: Lines, hub: Hub, i: nat, before: seq<Client>, c: Client)
    requires Unconditional(hub.methods) && At(Read(l), before, c)
    ensures At(Read(FireAndForget(l, hub, i)), before, WithMethods(c, Proxies(true), hub.methods))
  {
    var l1 := Write(l, i, OneWayHead(hub));
    ReadOneWayHead(l, hub, i);
    ReadHubMethods(l1, hub.methods, true, i + 1, before, c);
    ReadSilentWrite(HubMethods(l1, hub.methods, true, i + 1), i, [Close, Blank]);
  }

  predicate IsHead(head: Code, part: Part) {
    (head.OnBroadcastEvent? && part.Broadcasts?) || (head.OnResponseEvent? && part.Responses?)
  }

  lemma ReadDispatcher(l: Lines, head: Code, part: Part, ms: seq<Method>, i: nat, before: seq<Client>, c: Client)
    requires Unconditional(ms) && At(Read(l), before, c) && IsHead(head, part)
    ensures At(Read(Dispatcher(l, head, part, ms, i)), before, WithMethods(c, part, ms))
  {
    var l1 := Write(l, i, [head, Open]);
    var l2 := Write(l1, i + 1, [SwitchMethodId, Open]);
    ReadWrite(l, i, [head, Open]);
    ReadTwo(Read(l), head, Open);
    ReadSilentWrite(l1, i + 1, [SwitchMethodId, Open]);
    ReadLoopAt(l2, part, ms, i + 2, before, c);
    ReadSilentWrite(Loop(l2, part, ms, i + 2), i + 1, [Close]);
    ReadSilentWrite(SwitchBlock(l1, part, ms, i + 1), i, [Close, Blank]);
  }

  /** The client that a hub without conditions makes. */
  function ClientOf(hub: Hub): Client {
    Client(hub.text.className, ProxiesOf(hub.methods, false), ProxiesOf(hub.methods, true), BroadcastsOf(hub.receiverMethods),
           ResponsesOf(hub.methods))
  }

  lemma ReadClassHead(l: Lines, hub: Hub, i: nat)
    ensures var c := Client(hub.text.className, [], [], [], []);
            Read(Write(l, i, ClassHead(hub))) == Reading(Read(l).clients + [c], InClass, Nothing)
  {
    var ignore, class_ := IgnoreAttribute, ClientClass(hub.text.className);
    ReadWrite(l, i, ClassHead(hub));
    assert ClassHead(hub) == [ignore, class_] + [Open];
    ReadTwo(Read(l), ignore, class_);
    ReadMore(Read(l), [ignore, class_], Open);
  }

  predicate HubUnconditional(hub: Hub) {
    Unconditional(hub.methods) && Unconditional(hub.receiverMethods)
  }

  lemma AllOfClient(hub: Hub)
    ensures var c := Client(hub.text.className, [], [], [], []);
            var c2 := WithMethods(WithMethods(c, Proxies(false), hub.methods), Proxies(true), hub.methods);
            WithMethods(WithMethods(c2, Broadcasts, hub.receiverMethods), Responses, hub.methods) == ClientOf(hub)
  {
    assert [] + ProxiesOf(hub.methods, false) == ProxiesOf(hub.methods, false);
    assert [] + ProxiesOf(hub.methods, true) == ProxiesOf(hub.methods, true);
    assert [] + BroadcastsOf(hub.receiverMethods) == BroadcastsOf(hub.receiverMethods);
    assert [] + ResponsesOf(hub.methods) == ResponsesOf(hub.methods);
  }

  lemma ReadClass(l: Lines, hub: Hub, i: nat)
    requires HubUnconditional(hub)
    ensures At(Read(HubClientClass(l, hub, i)), Read(l).clients, ClientOf(hub))
  {
    var before, c := Read(l).clients, Client(hub.text.className, [], [], [], []);
    var c1 := WithMethods(c, Proxies(false), hub.methods);
    var c2 := WithMethods(c1, Proxies(true), hub.methods);
    var c3 := WithMethods(c2, Broadcasts, hub.receiverMethods);
    var l0 := Write(l, i, ClassHead(hub));
    var l1 := Write(l0, i + 1, Fixeds(hub.text.members));
    var l2 := HubMethods(l1, hub.methods, false, i + 1);
    var l3 := FireAndForget(l2, hub, i + 1);
    var l4 := Dispatcher(l3, OnBroadcastEvent, Broadcasts, hub.receiverMethods, i + 1);
    ReadClassHead(l, hub, i);
    ReadSilentWrite(l0, i + 1, Fixeds(hub.text.members));
    ReadHubMethods(l1, hub.methods, false, i + 1, before, c);
    ReadFireAndForget(l2, hub, i + 1, before, c1);
    ReadDispatcher(l3, OnBroadcastEvent, Broadcasts, hub.receiverMethods, i + 1, before, c2);
    ReadDispatcher(l4, OnResponseEvent, Responses, hub.methods, i + 1, before, c3);
    ReadSilentWrite(Dispatchers(l3, hub, i + 1), i, [Close]);
    AllOfClient(hub);
  }

  lemma ReadFileHead(l: Lines, hub: Hub, i: nat)
    ensures Read(Write(Write(l, i, Fixeds(hub.text.preamble)), i + 1, [Blank])) == Read(l)
  {
    ReadSilentWrite(l, i, Fixeds(hub.text.preamble));
    ReadSilentWrite(Write(l, i, Fixeds(hub.text.preamble)), i + 1, [Blank]);
  }

  lemma ReadFile(l: Lines, hub: Hub, i: nat)
    requires HubUnconditional(hub)
    ensures Read(HubFile(l, hub, i)).clients == Read(l).clients + [ClientOf(hub)]
  {
    var inside := Write(Write(l, i, Fixeds(hub.text.preamble)), i + 1, [Blank]);
    ReadFileHead(l, hub, i);
    ReadClass(inside, hub, i + 1);
    ReadSilentWrite(HubClientClass(inside, hub, i + 1), i, [Close, Blank]);
  }

  predicate AllUnconditional(hubs: seq<Hub>) {
    forall k | 0 <= k < |hubs| :: hubs[k].condition == "" && HubUnconditional(hubs[k])
  }

  function ClientsOf(hubs: seq<Hub>): (cs: seq<Client>)
    ensures |cs| == |hubs| && forall k | 0 <= k < |hubs| :: cs[k] == ClientOf(hubs[k])
  {
    seq(|hubs|, k requires 0 <= k < |hubs| => ClientOf(hubs[k]))
  }

  lemma HubFilesLast(l: Lines, hubs: seq<Hub>)
    requires hubs != [] && hubs[|hubs| - 1].condition == ""
    ensures HubFiles(l, hubs) == HubFile(HubFiles(l, hubs[..|hubs| - 1]), hubs[|hubs| - 1], 0)
  {
    assert IsBlank("");
  }

  lemma ReadFilesMore(lines: Lines, hubs: seq<Hub>)
    requires hubs != [] && HubUnconditional(hubs[|hubs| - 1]) && Read(lines).clients == ClientsOf(hubs[..|hubs| - 1])
    ensures Read(HubFile(lines, hubs[|hubs| - 1], 0)).clients == ClientsOf(hubs)
  {
    ReadFile(lines, hubs[|hubs| - 1], 0);
    assert ClientsOf(hubs) == ClientsOf(hubs[..|hubs| - 1]) + [ClientOf(hubs[|hubs| - 1])];
  }

  lemma FrontUnconditional(hubs: seq<Hub>)
    requires AllUnconditional(hubs) && hubs != []
    ensures AllUnconditional(hubs[..|hubs| - 1]) && hubs[|hubs| - 1].condition == "" && HubUnconditional(hubs[|hubs| - 1])
  {
  }

  lemma {:induction false} ReadFiles(l: Lines, hubs: seq<Hub>)
    requires AllUnconditional(hubs) && Read(l).clients == []
    ensures Read(HubFiles(l, hubs)).clients == ClientsOf(hubs)
  {
    if hubs != [] {
      FrontUnconditional(hubs);
      ReadFiles(l, hubs[..|hubs| - 1]);
      HubFilesLast(l, hubs);
      ReadFilesMore(HubFiles(l, hubs[..|hubs| - 1]), hubs);
    }
  }

  lemma {:induction false} EnabledUnconditional(ms: seq<Method>, on: string -> bool)
    ensures Unconditional(EnabledMethods(ms, on))
  {
    if ms != [] { EnabledUnconditional(ms[..|ms| - 1], on); }
  }

  lemma {:induction false} EnabledHubsUnconditional(hubs: seq<Hub>, on: string -> bool)
    ensures AllUnconditional(EnabledHubs(hubs, on))
  {
    if hubs != [] {
      EnabledHubsUnconditional(hubs[..|hubs| - 1], on);
      EnabledUnconditional(hubs[|hubs| - 1].methods, on);
      EnabledUnconditional(hubs[|hubs| - 1].receiverMethods, on);
    }
  }

  // ----- theorems about the compiled client

  /** A proxy forwards its method: its own name, parameters, result, id, request and response types, and its arguments as
      nil, as they are, or as a tuple. */
  predicate Forwards(p: Proxy, m: Method, fireAndForget: bool) {
    && p.name == m.name && p.parameters == m.parameters && p.result == m.result && p.fireAndForget == fireAndForget
    && p.hubId == m.hubId && p.request == m.request && p.response == m.response
    && (|m.parameters| == 0 ==> p.argument == Nil) && (|m.parameters| == 1 ==> p.argument == Single(m.parameters[0].name))
    && (|m.parameters| > 1 ==> p.argument == Tuple(m.parameters))
  }

  /** A client class has one proxy and one fire-and-forget proxy for each method, in order, a response case of each method's
      id and response type, and a broadcast case of each receiver method's id, request type and name. */
  predicate IsClientOf(c: Client, hub: Hub) {
    && c.name == hub.text.className
    && |c.proxies| == |c.oneWay| == |c.responses| == |hub.methods| && |c.broadcasts| == |hub.receiverMethods|
    && (forall j | 0 <= j < |hub.methods| ::
          var m := hub.methods[j];
          && Forwards(c.proxies[j], m, false) && Forwards(c.oneWay[j], m, true)
          && c.responses[j] == ResponseCase(m.hubId, m.response))
    && (forall j | 0 <= j < |hub.receiverMethods| ::
          var m := hub.receiverMethods[j];
          c.broadcasts[j] == BroadcastCase(m.hubId, m.request, m.name, |m.parameters|))
  }

  lemma ClientOfIs(hub: Hub)
    ensures IsClientOf(ClientOf(hub), hub)
  {
  }

  /** The classes in the text that a symbol assignment lets compile. */
  function CompiledClients(header: seq<string>, hubs: seq<Hub>, on: string -> bool): seq<Client> {
    match Preprocess(Build(header, hubs), on)
    case None => []
    case Some(lines) => Read(lines).clients
  }

  lemma BuildReads(header: seq<string>, hubs: seq<Hub>)
    requires AllUnconditional(hubs)
    ensures Read(Build(header, hubs)).clients == ClientsOf(hubs)
  {
    var none: Lines := [];
    ReadSilentWrite(none, 0, Fixeds(header));
    ReadFiles(Write(none, 0, Fixeds(header)), hubs);
  }

  /** For every symbol assignment: the text compiles, and read back it is one client class for each enabled hub, made from its
      enabled methods and receiver methods. */
  lemma ClientsAre(header: seq<string>, hubs: seq<Hub>, on: string -> bool)
    ensures Preprocess(Build(header, hubs), on).Some?
    ensures var clients := CompiledClients(header, hubs, on);
            && |clients| == |EnabledHubs(hubs, on)|
            && forall k | 0 <= k < |clients| :: IsClientOf(clients[k], EnabledHubs(hubs, on)[k])
  {
    var enabled := EnabledHubs(hubs, on);
    PreprocessIsSelect(header, hubs, on);
    EnabledHubsUnconditional(hubs, on);
    BuildReads(header, enabled);
    forall k | 0 <= k < |enabled| ensures IsClientOf(ClientsOf(enabled)[k], enabled[k]) { ClientOfIs(enabled[k]); }
  }

  /** Which methods those are: exactly the ones whose condition is blank or holds. */
  lemma {:induction false} EnabledMethodsIff(ms: seq<Method>, on: string -> bool, m: Method)
    ensures m in EnabledMethods(ms, on) <==> exists x :: x in ms && (IsBlank(x.condition) || on(x.condition)) && m == x.(condition := "")
  {
    if ms != [] {
      var front, last := ms[..|ms| - 1], ms[|ms| - 1];
      EnabledMethodsIff(front, on, m);
      assert forall x :: x in ms <==> x in front || x == last;
    }
  }

  lemma {:induction false} EnabledHubsIff(hubs: seq<Hub>, on: string -> bool, h: Hub)
    ensures h in EnabledHubs(hubs, on) <==> exists x :: x in hubs && (IsBlank(x.condition) || on(x.condition)) && h == EnabledHub(x, on)
  {
    if hubs != [] {
      var front, last := hubs[..|hubs| - 1], hubs[|hubs| - 1];
      EnabledHubsIff(front, on, h);
      assert forall x :: x in hubs <==> x in front || x == last;
    }
  }

  /** So the cases of the compiled `OnResponseEvent` are exactly those of the enabled hub methods, and of `OnBroadcastEvent`
      those of the enabled receiver methods. */
  lemma CasesIff(header: seq<string>, hubs: seq<Hub>, on: string -> bool, k: nat) returns (hub: Hub)
    requires k < |CompiledClients(header, hubs, on)|
    ensures var c := CompiledClients(header, hubs, on)[k];
            && hub in hubs && Enabled(hub.condition, on) && c.name == hub.text.className
            && (forall x :: x in c.responses <==>
                  exists m :: m in hub.methods && Enabled(m.condition, on) && x == ResponseCase(m.hubId, m.response))
            && (forall x :: x in c.broadcasts <==>
                  exists m :: m in hub.receiverMethods && Enabled(m.condition, on)
                              && x == BroadcastCase(m.hubId, m.request, m.name, |m.parameters|))
  {
    ClientsAre(header, hubs, on);
    var c, h := CompiledClients(header, hubs, on)[k], EnabledHubs(hubs, on)[k];
    EnabledHubsIff(hubs, on, h);
    hub :| hub in hubs && Enabled(hub.condition, on) && h == EnabledHub(hub, on);
    ResponsesIff(c, hub, on);
    BroadcastsIff(c, hub, on);
  }

  lemma ResponsesIff(c: Client, hub: Hub, on: string -> bool)
    requires IsClientOf(c, EnabledHub(hub, on))
    ensures forall x :: x in c.responses <==> exists m :: m in hub.methods && Enabled(m.condition, on) && x == ResponseCase(m.hubId, m.response)
  {
    var ms := EnabledMethods(hub.methods, on);
    forall x ensures x in c.responses <==> exists m :: m in hub.methods && Enabled(m.condition, on) && x == ResponseCase(m.hubId, m.response) {
      if x in c.responses {
        var j :| 0 <= j < |c.responses| && c.responses[j] == x;
        EnabledMethodsIff(hub.methods, on, ms[j]);
      }
      if exists m :: m in hub.methods && Enabled(m.condition, on) && x == ResponseCase(m.hubId, m.response) {
        var m :| m in hub.methods && Enabled(m.condition, on) && x == ResponseCase(m.hubId, m.response);
        EnabledMethodsIff(hub.methods, on, m.(condition := ""));
        var j :| 0 <= j < |ms| && ms[j] == m.(condition := "");
        assert c.responses[j] == x;
      }
    }
  }

  lemma BroadcastsIff(c: Client, hub: Hub, on: string -> bool)
    requires IsClientOf(c, EnabledHub(hub, on))
    ensures forall x :: x in c.broadcasts <==>
              exists m :: m in hub.receiverMethods && Enabled(m.condition, on) && x == BroadcastCase(m.hubId, m.request, m.name, |m.parameters|)
  {
    var ms := EnabledMethods(hub.receiverMethods, on);
    forall x ensures x in c.broadcasts <==>
                       exists m :: m in hub.receiverMethods && Enabled(m.condition, on)
                                   && x == BroadcastCase(m.hubId, m.request, m.name, |m.parameters|)
    {
      if x in c.broadcasts {
        var j :| 0 <= j < |c.broadcasts| && c.broadcasts[j] == x;
        EnabledMethodsIff(hub.receiverMethods, on, ms[j]);
      }
      if exists m :: m in hub.receiverMethods && Enabled(m.condition, on) && x == BroadcastCase(m.hubId, m.request, m.name, |m.parameters|) {
        var m :| m in hub.receiverMethods && Enabled(m.condition, on) && x == BroadcastCase(m.hubId, m.request, m.name, |m.parameters|);
        EnabledMethodsIff(hub.receiverMethods, on, m.(condition := ""));
        var j :| 0 <= j < |ms| && ms[j] == m.(condition := "");
        assert c.broadcasts[j] == x;
      }
    }
  }

  /** The response to what the j-th proxy sends, one-way or not, is taken by the j-th case, as the proxy's response type. */
  lemma ProxyAndCaseAgree(header: seq<string>, hubs: seq<Hub>, on: string -> bool, k: nat, j: nat)
    requires k < |CompiledClients(header, hubs, on)| && j < |CompiledClients(header, hubs, on)[k].proxies|
    ensures var c := CompiledClients(header, hubs, on)[k];
            && |c.proxies| == |c.oneWay| == |c.responses|
            && c.proxies[j].hubId == c.oneWay[j].hubId == c.responses[j].hubId
            && c.proxies[j].response == c.oneWay[j].response == c.responses[j].response
            && c.proxies[j].request == c.oneWay[j].request && c.proxies[j].name == c.oneWay[j].name
            && !c.proxies[j].fireAndForget && c.oneWay[j].fireAndForget
  {
    ClientsAre(header, hubs, on);
  }
}
