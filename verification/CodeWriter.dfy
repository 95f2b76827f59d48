/** The generator's text writer with its indent and `#if` helpers (IndentedTextWriterExtensions.cs), and what a
    preprocessor makes of the text. Output is a sequence of lines; what a line of code says is the parameter C. */
module CodeWriter {
  import opened Prelude
  import opened TypeInfo

  datatype Line<+C> = Text(indent: nat, code: C) | If(condition: string) | Endif(condition: string)

  function Texts<C>(indent: nat, codes: seq<C>): (lines: seq<Line<C>>)
    ensures |lines| == |codes|
  {
    seq(|codes|, i requires 0 <= i < |codes| => Text(indent, codes[i]))
  }

  /** What `WriteLines`, `IfDirective` and the disposal of its block add to the text so far. */
  function Write<C>(lines: seq<Line<C>>, indent: nat, codes: seq<C>): seq<Line<C>> {
    lines + Texts(indent, codes)
  }

  function OpenIf<C>(lines: seq<Line<C>>, condition: string): seq<Line<C>> {
    if IsBlank(condition) then lines else lines + [If(condition)]
  }

  function CloseIf<C>(lines: seq<Line<C>>, condition: string): seq<Line<C>> {
    if IsBlank(condition) then lines else lines + [Endif(condition)]
  }

  // ----- preprocessing

  /** The lines compiled so far and the conditions of the open `#if`s; Bad after an `#endif` that has no `#if` or names
      another condition. */
  datatype Scanned<+C> = Bad | Scanned(out: seq<Line<C>>, open: seq<string>)

  predicate AllOn(open: seq<string>, on: string -> bool) {
    forall i | 0 <= i < |open| :: on(open[i])
  }

  function Scan<C>(lines: seq<Line<C>>, on: string -> bool): Scanned<C> {
    if lines == [] then Scanned([], [])
    else
      match Scan(lines[..|lines| - 1], on)
      case Bad => Bad
      case Scanned(out, open) => ScanLine(out, open, lines[|lines| - 1], on)
  }

  function ScanLine<C>(out: seq<Line<C>>, open: seq<string>, line: Line<C>, on: string -> bool): Scanned<C> {
    match line
    case Text(_, _) => Scanned(if AllOn(open, on) then out + [line] else out, open)
    case If(c) => Scanned(out, open + [c])
    case Endif(c) => if open != [] && open[|open| - 1] == c then Scanned(out, open[..|open| - 1]) else Bad
  }

  /** The lines compiled when `on` says which conditions hold; None unless the directives are well nested. */
  function Preprocess<C>(lines: seq<Line<C>>, on: string -> bool): Option<seq<Line<C>>> {
    match Scan(lines, on)
    case Bad => None
    case Scanned(out, open) => if open == [] then Some(out) else None
  }

  predicate Enabled(condition: string, on: string -> bool) {
    IsBlank(condition) || on(condition)
  }

  lemma ScanNext<C>(lines: seq<Line<C>>, line: Line<C>, on: string -> bool)
    requires Scan(lines, on).Scanned?
    ensures Scan(lines + [line], on) == ScanLine(Scan(lines, on).out, Scan(lines, on).open, line, on)
  {
    assert (lines + [line])[..|lines|] == lines;
  }

  /** Code is kept as written, or dropped, with the state of the open conditions. */
  lemma {:induction false} ScanWrite<C>(lines: seq<Line<C>>, indent: nat, codes: seq<C>, on: string -> bool)
    requires Scan(lines, on).Scanned?
    ensures var s := Scan(lines, on);
            Scan(Write(lines, indent, codes), on) == Scanned(if AllOn(s.open, on) then Write(s.out, indent, codes) else s.out, s.open)
  {
    var s := Scan(lines, on);
    if codes == [] {
      assert Write(lines, indent, codes) == lines && Write(s.out, indent, codes) == s.out;
    } else {
      var front, line := codes[..|codes| - 1], Text(indent, codes[|codes| - 1]);
      ScanWrite(lines, indent, front, on);
      WriteNext(lines, indent, codes);
      WriteNext(s.out, indent, codes);
      ScanNext(Write(lines, indent, front), line, on);
    }
  }

  lemma WriteNext<C>(lines: seq<Line<C>>, indent: nat, codes: seq<C>)
    requires codes != []
    ensures Write(lines, indent, codes) == Write(lines, indent, codes[..|codes| - 1]) + [Text(indent, codes[|codes| - 1])]
  {
  }

  lemma ScanOpenIf<C>(lines: seq<Line<C>>, condition: string, on: string -> bool)
    requires Scan(lines, on).Scanned?
    ensures var s := Scan(lines, on);
            && Scan(OpenIf(lines, condition), on) == Scanned(s.out, if IsBlank(condition) then s.open else s.open + [condition])
            && (AllOn(Scan(OpenIf(lines, condition), on).open, on) <==> AllOn(s.open, on) && Enabled(condition, on))
  {
    var s := Scan(lines, on);
    if !IsBlank(condition) {
      ScanNext(lines, If(condition), on);
      AllOnPush(s.open, condition, on);
    }
  }

  lemma AllOnPush(open: seq<string>, c: string, on: string -> bool)
    ensures AllOn(open + [c], on) <==> AllOn(open, on) && on(c)
  {
    if AllOn(open + [c], on) {
      assert forall i | 0 <= i < |open| :: open[i] == (open + [c])[i];
      assert (open + [c])[|open|] == c;
    }
  }

  /** The block of a condition is closed in the state in which it was opened. */
  lemma ScanCloseIf<C>(lines: seq<Line<C>>, condition: string, outer: seq<string>, on: string -> bool)
    requires Scan(lines, on).Scanned? && Scan(lines, on).open == if IsBlank(condition) then outer else outer + [condition]
    ensures Scan(CloseIf(lines, condition), on) == Scanned(Scan(lines, on).out, outer)
  {
    if !IsBlank(condition) {
      ScanNext(lines, Endif(condition), on);
      assert (outer + [condition])[..|outer|] == outer;
    }
  }

  /** Code between the two directives of a condition, if it is one: compiled when the condition holds, too. */
  lemma ScanGuarded<C>(lines: seq<Line<C>>, condition: string, indent: nat, codes: seq<C>, on: string -> bool)
    requires Scan(lines, on).Scanned?
    ensures var s := Scan(lines, on);
            Scan(CloseIf(Write(OpenIf(lines, condition), indent, codes), condition), on)
            == Scanned(if AllOn(s.open, on) && Enabled(condition, on) then Write(s.out, indent, codes) else s.out, s.open)
  {
    ScanOpenIf(lines, condition, on);
    ScanWrite(OpenIf(lines, condition), indent, codes, on);
    ScanCloseIf(Write(OpenIf(lines, condition), indent, codes), condition, Scan(lines, on).open, on);
  }

  // ----- the writer

  class TextWriter<C> {
    var lines: seq<Line<C>>
    var indent: nat

    constructor ()
      ensures lines == [] && indent == 0
    {
      lines, indent := [], 0;
    }

    method WriteLine(code: C)
      modifies this`lines
      ensures lines == old(lines) + [Text(indent, code)]
    {
      lines := lines + [Text(indent, code)];
    }

    method WriteLines(codes: seq<C>)
      modifies this`lines
      ensures lines == Write(old(lines), indent, codes)
    {
      for i := 0 to |codes|
        invariant lines == Write(old(lines), indent, codes[..i])
      {
        WriteLine(codes[i]);
        WriteNext(old(lines), indent, codes[..i + 1]);
        assert codes[..i + 1][..i] == codes[..i];
      }
      assert codes[..|codes|] == codes;
    }

    method BeginIndent(depth: nat)
      modifies this`indent
      ensures indent == old(indent) + depth
    {
      indent := indent + depth;
    }

    /** Disposing the block; the property itself never goes below zero. */
    method EndIndent(depth: nat)
      modifies this`indent
      ensures indent == if old(indent) < depth then 0 else old(indent) - depth
    {
      indent := if indent < depth then 0 else indent - depth;
    }

    method IfDirective(condition: string)
      modifies this`lines
      ensures lines == OpenIf(old(lines), condition)
    {
      if !IsBlank(condition) { lines := lines + [If(condition)]; }
    }

    /** Disposing the block of `IfDirective`. */
    method EndIf(condition: string)
      modifies this`lines
      ensures lines == CloseIf(old(lines), condition)
    {
      if !IsBlank(condition) { lines := lines + [Endif(condition)]; }
    }
  }
}
