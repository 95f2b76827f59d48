/** What a C# preprocessor makes of the text of an `#if`: symbols, true and false, `!`, `&&`, `||`, `==`, `!=` and
    parentheses, with white space between them. */
module Conditions {
  import opened Prelude
  import opened TypeInfo

  // ----- tokens

  datatype Token = Word(name: string) | Not | And | Or | Equal | NotEqual | LeftParen | RightParen | Bad

  predicate IsWordChar(c: char) {
    'a' <= c <= 'z' || 'A' <= c <= 'Z' || '0' <= c <= '9' || c == '_' || (c as int >= 0x80 && !IsSpace(c))
  }

  function WordLength(s: string): (n: nat)
    ensures n <= |s| && (n < |s| ==> !IsWordChar(s[n])) && forall i | 0 <= i < n :: IsWordChar(s[i])
    ensures s != "" && IsWordChar(s[0]) ==> n > 0
  {
    if s == "" || !IsWordChar(s[0]) then 0 else 1 + WordLength(s[1..])
  }

  /** The first token of a text that begins with none of white space, and how long it is. */
  function FirstToken(s: string): (r: (Token, nat))
    requires s != "" && !IsSpace(s[0])
    ensures 0 < r.1 <= |s|
  {
    if IsWordChar(s[0]) then (Word(s[..WordLength(s)]), WordLength(s))
    else if s[0] == '(' then (LeftParen, 1)
    else if s[0] == ')' then (RightParen, 1)
    else if |s| > 1 && s[1] == '=' && s[0] == '!' then (NotEqual, 2)
    else if |s| > 1 && s[1] == '=' && s[0] == '=' then (Equal, 2)
    else if |s| > 1 && s[1] == '&' && s[0] == '&' then (And, 2)
    else if |s| > 1 && s[1] == '|' && s[0] == '|' then (Or, 2)
    else if s[0] == '!' then (Not, 1)
    else (Bad, 1)
  }

  function Tokens(s: string): seq<Token> {
    if s == "" then []
    else if IsSpace(s[0]) then Tokens(s[1..])
    else [FirstToken(s).0] + Tokens(s[FirstToken(s).1..])
  }

  // ----- values

  type Defined = string -> bool

  function WordValue(name: string, defined: Defined): bool {
    if name == "true" then true else if name == "false" then false else defined(name)
  }

  /** A value and the tokens behind it; None is a syntax error. */
  type Parsed = Option<(bool, seq<Token>)>

  function ParseOr(ts: seq<Token>, defined: Defined): (r: Parsed)
    ensures r.Some? ==> |r.value.1| < |ts|
    decreases |ts|, 4
  {
    match ParseAnd(ts, defined)
    case None => None
    case Some((v, rest)) =>
      if rest == [] || rest[0] != Or then Some((v, rest))
      else
        match ParseOr(rest[1..], defined)
        case None => None
        case Some((w, more)) => Some((v || w, more))
  }

  function ParseAnd(ts: seq<Token>, defined: Defined): (r: Parsed)
    ensures r.Some? ==> |r.value.1| < |ts|
    decreases |ts|, 3
  {
    match ParseEqual(ts, defined)
    case None => None
    case Some((v, rest)) =>
      if rest == [] || rest[0] != And then Some((v, rest))
      else
        match ParseAnd(rest[1..], defined)
        case None => None
        case Some((w, more)) => Some((v && w, more))
  }

  function ParseEqual(ts: seq<Token>, defined: Defined): (r: Parsed)
    ensures r.Some? ==> |r.value.1| < |ts|
    decreases |ts|, 2
  {
    match ParseUnary(ts, defined)
    case None => None
    case Some((v, rest)) =>
      if rest == [] || (rest[0] != Equal && rest[0] != NotEqual) then Some((v, rest))
      else
        match ParseEqual(rest[1..], defined)
        case None => None
        case Some((w, more)) => Some(((v == w) == (rest[0] == Equal), more))
  }

  function ParseUnary(ts: seq<Token>, defined: Defined): (r: Parsed)
    ensures r.Some? ==> |r.value.1| < |ts|
    decreases |ts|, 1
  {
    if ts == [] then None
    else
      match ts[0]
      case Word(name) => Some((WordValue(name, defined), ts[1..]))
      case Not =>
        (match ParseUnary(ts[1..], defined)
         case None => None
         case Some((v, rest)) => Some((!v, rest)))
      case LeftParen =>
        (match ParseOr(ts[1..], defined)
         case None => None
         case Some((v, rest)) => if rest != [] && rest[0] == RightParen then Some((v, rest[1..])) else None)
      case _ => None
  }

  /** The value of a condition; None when it is none. */
  function Evaluate(text: string, defined: Defined): Option<bool> {
    match ParseOr(Tokens(text), defined)
    case None => None
    case Some((v, rest)) => if rest == [] then Some(v) else None
  }

  predicate IsCondition(text: string, defined: Defined) {
    Evaluate(text, defined).Some?
  }

  predicate IsTrue(text: string, defined: Defined) {
    Evaluate(text, defined) == Some(true)
  }

  // ----- precedence

  /** Expressions, and how they are written with no more parentheses than precedence asks for. */
  datatype Expr = Atom(name: string) | Negation(e: Expr) | Same(l: Expr, r: Expr, same: bool) | Both(l: Expr, r: Expr) | Either(l: Expr, r: Expr)

  function Value(e: Expr, defined: Defined): bool {
    match e
    case Atom(name) => WordValue(name, defined)
    case Negation(x) => !Value(x, defined)
    case Same(l, r, same) => (Value(l, defined) == Value(r, defined)) == same
    case Both(l, r) => Value(l, defined) && Value(r, defined)
    case Either(l, r) => Value(l, defined) || Value(r, defined)
  }

  /** How strongly it binds. */
  function Level(e: Expr): nat {
    match e
    case Either(_, _) => 0
    case Both(_, _) => 1
    case Same(_, _, _) => 2
    case _ => 3
  }

  function Bare(e: Expr): seq<Token>
    decreases e, 0
  {
    match e
    case Atom(name) => [Word(name)]
    case Negation(x) => [Not] + Written(x, 3)
    case Same(l, r, same) => Written(l, 3) + [if same then Equal else NotEqual] + Written(r, 2)
    case Both(l, r) => Written(l, 2) + [And] + Written(r, 1)
    case Either(l, r) => Written(l, 1) + [Or] + Written(r, 0)
  }

  /** As an operand that must bind at least so strongly. */
  function Written(e: Expr, level: nat): seq<Token>
    decreases e, 1
  {
    if Level(e) < level then [LeftParen] + Bare(e) + [RightParen] else Bare(e)
  }

  function Parse(level: nat, ts: seq<Token>, defined: Defined): Parsed {
    if level == 0 then ParseOr(ts, defined)
    else if level == 1 then ParseAnd(ts, defined)
    else if level == 2 then ParseEqual(ts, defined)
    else ParseUnary(ts, defined)
  }

  /** What follows is no operator that binds at least so strongly. */
  predicate Ends(level: nat, tail: seq<Token>) {
    tail == [] || (&& (level == 0 ==> tail[0] != Or) && (level <= 1 ==> tail[0] != And)
                   && (level <= 2 ==> tail[0] != Equal && tail[0] != NotEqual))
  }

  lemma {:induction false} ParseWeaker(from: nat, to: nat, ts: seq<Token>, v: bool, tail: seq<Token>, defined: Defined)
    requires to <= from <= 3 && Parse(from, ts, defined) == Some((v, tail)) && Ends(to, tail)
    ensures Parse(to, ts, defined) == Some((v, tail))
    decreases from - to
  {
    if to < from { ParseWeaker(from, to + 1, ts, v, tail, defined); }
  }

  lemma {:induction false} ParseBare(e: Expr, tail: seq<Token>, defined: Defined)
    requires Ends(Level(e), tail)
    ensures Parse(Level(e), Bare(e) + tail, defined) == Some((Value(e, defined), tail))
    decreases e, 0
  {
    match e
    case Atom(_) =>
      assert (Bare(e) + tail)[1..] == tail;
    case Negation(x) =>
      ParseWritten(x, 3, tail, defined);
      assert (Bare(e) + tail)[1..] == Written(x, 3) + tail;
    case Same(l, r, same) =>
      var operator := if same then Equal else NotEqual;
      ParseWritten(r, 2, tail, defined);
      ParseWritten(l, 3, [operator] + (Written(r, 2) + tail), defined);
      Operands(Written(l, 3), operator, Written(r, 2), tail);
    case Both(l, r) =>
      ParseWritten(r, 1, tail, defined);
      ParseWritten(l, 2, [And] + (Written(r, 1) + tail), defined);
      Operands(Written(l, 2), And, Written(r, 1), tail);
    case Either(l, r) =>
      ParseWritten(r, 0, tail, defined);
      ParseWritten(l, 1, [Or] + (Written(r, 0) + tail), defined);
      Operands(Written(l, 1), Or, Written(r, 0), tail);
  }

  lemma Operands(l: seq<Token>, operator: Token, r: seq<Token>, tail: seq<Token>)
    ensures var rest := [operator] + (r + tail);
            l + [operator] + r + tail == l + rest && rest[0] == operator && rest[1..] == r + tail
  {
    assert l + [operator] + r + tail == l + ([operator] + (r + tail));
  }

  lemma InParens(inner: seq<Token>, tail: seq<Token>, v: bool, defined: Defined)
    requires ParseOr(inner + ([RightParen] + tail), defined) == Some((v, [RightParen] + tail))
    ensures ParseUnary([LeftParen] + inner + [RightParen] + tail, defined) == Some((v, tail))
  {
    var ts, rest := [LeftParen] + inner + [RightParen] + tail, [RightParen] + tail;
    assert ts[1..] == inner + rest && rest[1..] == tail;
  }

  lemma {:induction false} ParseWritten(e: Expr, level: nat, tail: seq<Token>, defined: Defined)
    requires level <= 3 && Ends(level, tail)
    ensures Parse(level, Written(e, level) + tail, defined) == Some((Value(e, defined), tail))
    decreases e, 1
  {
    if Level(e) < level {
      var rest := [RightParen] + tail;
      ParseBare(e, rest, defined);
      ParseWeaker(Level(e), 0, Bare(e) + rest, Value(e, defined), rest, defined);
      InParens(Bare(e), tail, Value(e, defined), defined);
      ParseWeaker(3, level, Written(e, level) + tail, Value(e, defined), tail, defined);
    } else {
      ParseBare(e, tail, defined);
      ParseWeaker(Level(e), level, Bare(e) + tail, Value(e, defined), tail, defined);
    }
  }

  /** Every expression, as written, has its value: `!` binds more strongly than `==` and `!=`, these than `&&`, that than
      `||`. */
  lemma ExpressionValue(e: Expr, defined: Defined)
    ensures ParseOr(Written(e, 0), defined) == Some((Value(e, defined), []))
  {
    ParseWritten(e, 0, [], defined);
    assert Written(e, 0) + [] == Written(e, 0);
  }

  // ----- tokens of texts side by side

  /** What begins with one of these never lengthens the token before it. */
  predicate Separates(s: string) {
    s == "" || s[0] == '(' || s[0] == ')' || s[0] == ' '
  }

  lemma SpaceIsSpace()
    ensures IsSpace(' ') && !IsSpace('(') && !IsSpace(')') && !IsSpace('|')
  {
  }

  lemma {:induction false} WordLengthBefore(a: string, b: string)
    requires Separates(b)
    ensures WordLength(a + b) == WordLength(a)
  {
    if a == "" {
      assert a + b == b;
    } else {
      WordLengthBefore(a[1..], b);
      assert (a + b)[1..] == a[1..] + b;
    }
  }

  lemma FirstTokenBefore(a: string, b: string)
    requires a != "" && !IsSpace(a[0]) && Separates(b)
    ensures FirstToken(a + b) == FirstToken(a)
  {
    WordLengthBefore(a, b);
    var n := WordLength(a);
    assert (a + b)[..n] == a[..n];
    assert |a + b| > 1 ==> (a + b)[1] == if |a| > 1 then a[1] else b[0];
  }

  lemma TokensFrom(s: string, t: Token, n: nat)
    requires s != "" && !IsSpace(s[0]) && FirstToken(s) == (t, n)
    ensures Tokens(s) == [t] + Tokens(s[n..])
  {
  }

  lemma Associate(a: seq<Token>, b: seq<Token>, c: seq<Token>)
    ensures a + (b + c) == (a + b) + c
  {
  }

  lemma TokensBehind(whole: seq<Token>, t: Token, x: seq<Token>, rest: seq<Token>, y: seq<Token>)
    requires whole == [t] + rest && rest == x + y
    ensures whole == ([t] + x) + y
  {
  }

  lemma Slice(a: string, b: string, n: nat)
    requires n <= |a|
    ensures (a + b)[n..] == a[n..] + b
  {
  }

  lemma TokensBehindSpace(a: string, b: string)
    requires a != "" && IsSpace(a[0]) && Tokens(a[1..] + b) == Tokens(a[1..]) + Tokens(b)
    ensures Tokens(a + b) == Tokens(a) + Tokens(b)
  {
    assert (a + b)[1..] == a[1..] + b;
  }

  lemma {:induction false} TokensAppend(a: string, b: string)
    requires Separates(b)
    ensures Tokens(a + b) == Tokens(a) + Tokens(b)
    decreases |a|
  {
    if a == "" {
      assert a + b == b;
    } else if IsSpace(a[0]) {
      TokensAppend(a[1..], b);
      TokensBehindSpace(a, b);
    } else {
      var (t, n) := FirstToken(a);
      FirstTokenBefore(a, b);
      TokensAppend(a[n..], b);
      TokensFrom(a, t, n);
      TokensFrom(a + b, t, n);
      Slice(a, b, n);
      TokensBehind(Tokens(a + b), t, Tokens(a[n..]), Tokens(a[n..] + b), Tokens(b));
    }
  }

  lemma TokensInParens(s: string)
    ensures Tokens("(" + s + ")") == [LeftParen] + Tokens(s) + [RightParen]
  {
    SpaceIsSpace();
    TokensAppend("(" + s, ")");
    assert Tokens(")") == [RightParen] by { assert ")"[1..] == ""; }
    var open := "(" + s;
    assert open[1..] == s;
    assert FirstToken(open) == (LeftParen, 1);
  }

  lemma TokensBehindOr(s: string)
    ensures Tokens(" || " + s) == [Or] + Tokens(s)
  {
    SpaceIsSpace();
    var t := " || " + s;
    var t1, t3 := t[1..], t[3..];
    assert t1[0] == '|' && t1[1] == '|' && t1[2..] == t3 && t3[0] == ' ' && t3[1..] == s;
    assert FirstToken(t1) == (Or, 2);
    assert Tokens(t3) == Tokens(s);
  }

  // ----- an expression in parentheses

  /** What is parsed does not depend on a closing parenthesis behind it. */
  predicate Extends(r: Parsed, r': Parsed, tail: seq<Token>) {
    r.Some? ==> r'.Some? && r'.value.0 == r.value.0 && r'.value.1 == r.value.1 + tail
  }

  lemma {:induction false} ParseOrExtends(ts: seq<Token>, tail: seq<Token>, defined: Defined)
    requires tail != [] && tail[0] == RightParen
    ensures Extends(ParseOr(ts, defined), ParseOr(ts + tail, defined), tail)
    decreases |ts|, 4
  {
    ParseAndExtends(ts, tail, defined);
    var first := ParseAnd(ts, defined);
    if first.Some? && first.value.1 != [] && first.value.1[0] == Or {
      var rest := first.value.1;
      ParseOrExtends(rest[1..], tail, defined);
      assert (rest + tail)[1..] == rest[1..] + tail;
    }
  }

  lemma {:induction false} ParseAndExtends(ts: seq<Token>, tail: seq<Token>, defined: Defined)
    requires tail != [] && tail[0] == RightParen
    ensures Extends(ParseAnd(ts, defined), ParseAnd(ts + tail, defined), tail)
    decreases |ts|, 3
  {
    ParseEqualExtends(ts, tail, defined);
    var first := ParseEqual(ts, defined);
    if first.Some? && first.value.1 != [] && first.value.1[0] == And {
      var rest := first.value.1;
      ParseAndExtends(rest[1..], tail, defined);
      assert (rest + tail)[1..] == rest[1..] + tail;
    }
  }

  lemma {:induction false} ParseEqualExtends(ts: seq<Token>, tail: seq<Token>, defined: Defined)
    requires tail != [] && tail[0] == RightParen
    ensures Extends(ParseEqual(ts, defined), ParseEqual(ts + tail, defined), tail)
    decreases |ts|, 2
  {
    ParseUnaryExtends(ts, tail, defined);
    var first := ParseUnary(ts, defined);
    if first.Some? && first.value.1 != [] && (first.value.1[0] == Equal || first.value.1[0] == NotEqual) {
      var rest := first.value.1;
      ParseEqualExtends(rest[1..], tail, defined);
      assert (rest + tail)[1..] == rest[1..] + tail;
    }
  }

  lemma {:induction false} ParseUnaryExtends(ts: seq<Token>, tail: seq<Token>, defined: Defined)
    requires tail != [] && tail[0] == RightParen
    ensures Extends(ParseUnary(ts, defined), ParseUnary(ts + tail, defined), tail)
    decreases |ts|, 1
  {
    if ts != [] {
      assert (ts + tail)[1..] == ts[1..] + tail;
      match ts[0]
      case Not => ParseUnaryExtends(ts[1..], tail, defined);
      case LeftParen =>
        ParseOrExtends(ts[1..], tail, defined);
        var inner := ParseOr(ts[1..], defined);
        if inner.Some? && inner.value.1 != [] { assert (inner.value.1 + tail)[1..] == inner.value.1[1..] + tail; }
      case _ =>
    }
  }

  /** A condition in parentheses, whatever follows. */
  lemma ParseParens(c: string, tail: seq<Token>, defined: Defined)
    requires IsCondition(c, defined)
    ensures ParseUnary([LeftParen] + Tokens(c) + [RightParen] + tail, defined) == Some((IsTrue(c, defined), tail))
  {
    var rest := [RightParen] + tail;
    ParseOrExtends(Tokens(c), rest, defined);
    assert [] + rest == rest;
    InParens(Tokens(c), tail, IsTrue(c, defined), defined);
  }

  // ----- alternatives

  /** `string.Join(" || ", conditions.Select(y => "(y)"))`. */
  function AnyOf(conditions: seq<string>): string {
    if conditions == [] then ""
    else
      var last := "(" + conditions[|conditions| - 1] + ")";
      if |conditions| == 1 then last else AnyOf(conditions[..|conditions| - 1]) + " || " + last
  }

  /** Only no condition at all makes no directive. */
  lemma AnyOfBlankIff(conditions: seq<string>)
    ensures IsBlank(AnyOf(conditions)) <==> conditions == []
  {
    if conditions != [] {
      var text := AnyOf(conditions);
      assert text[|text| - 1] == ')' && !IsSpace(')');
      assert ')' in text;
    }
  }

  function Group(c: string): seq<Token> {
    [LeftParen] + Tokens(c) + [RightParen]
  }

  function Groups(conditions: seq<string>): seq<Token> {
    if conditions == [] then []
    else if |conditions| == 1 then Group(conditions[0])
    else Group(conditions[0]) + [Or] + Groups(conditions[1..])
  }

  lemma {:induction false} GroupsMore(conditions: seq<string>, last: string)
    requires conditions != []
    ensures Groups(conditions + [last]) == Groups(conditions) + [Or] + Group(last)
  {
    var all := conditions + [last];
    assert all[1..] == conditions[1..] + [last];
    if |conditions| == 1 {
      assert all[1..] == [last];
    } else {
      GroupsMore(conditions[1..], last);
      assert Group(conditions[0]) + [Or] + (Groups(conditions[1..]) + [Or] + Group(last))
          == Group(conditions[0]) + [Or] + Groups(conditions[1..]) + [Or] + Group(last);
    }
  }

  lemma AnyOfMore(front: seq<string>, c: string)
    requires front != []
    ensures AnyOf(front + [c]) == AnyOf(front) + (" || " + ("(" + c + ")"))
  {
    assert (front + [c])[..|front|] == front;
    var last := "(" + c + ")";
    assert AnyOf(front) + " || " + last == AnyOf(front) + (" || " + last);
  }

  lemma TokensOfMore(front: seq<string>, c: string)
    requires front != [] && Tokens(AnyOf(front)) == Groups(front)
    ensures Tokens(AnyOf(front + [c])) == Groups(front + [c])
  {
    var last := "(" + c + ")";
    AnyOfMore(front, c);
    TokensInParens(c);
    TokensBehindOr(last);
    TokensAppend(AnyOf(front), " || " + last);
    GroupsMore(front, c);
    Associate(Groups(front), [Or], Group(c));
  }

  lemma {:induction false} TokensOfAnyOf(conditions: seq<string>)
    ensures Tokens(AnyOf(conditions)) == Groups(conditions)
  {
    if |conditions| == 1 {
      TokensInParens(conditions[0]);
    } else if conditions != [] {
      var front, c := conditions[..|conditions| - 1], conditions[|conditions| - 1];
      TokensOfAnyOf(front);
      TokensOfMore(front, c);
      assert front + [c] == conditions;
    }
  }

  ghost predicate SomeTrue(conditions: seq<string>, defined: Defined) {
    exists c :: c in conditions && IsTrue(c, defined)
  }

  lemma ParseOperand(ts: seq<Token>, v: bool, rest: seq<Token>, defined: Defined)
    requires ParseUnary(ts, defined) == Some((v, rest)) && (rest == [] || rest[0] == Or)
    ensures ParseAnd(ts, defined) == Some((v, rest))
  {
    assert ParseEqual(ts, defined) == Some((v, rest));
  }

  lemma {:induction false} ParseGroups(conditions: seq<string>, defined: Defined)
    requires conditions != [] && forall c | c in conditions :: IsCondition(c, defined)
    ensures ParseOr(Groups(conditions), defined) == Some((SomeTrue(conditions, defined), []))
  {
    var c, more := conditions[0], conditions[1..];
    var v := IsTrue(c, defined);
    assert conditions == [c] + more;
    assert SomeTrue(conditions, defined) <==> v || SomeTrue(more, defined);
    if more == [] {
      ParseParens(c, [], defined);
      assert Group(c) + [] == Group(c);
      ParseOperand(Group(c), v, [], defined);
    } else {
      var tail := [Or] + Groups(more);
      ParseGroups(more, defined);
      ParseParens(c, tail, defined);
      ParseOperand(Group(c) + tail, v, tail, defined);
      assert Groups(conditions) == Group(c) + tail;
      assert tail[1..] == Groups(more);
    }
  }

  /** For every symbol assignment: the joined text is a condition, and true exactly when one of the conditions is. */
  lemma AnyOfIsOr(conditions: seq<string>, defined: Defined)
    requires conditions != [] && forall c | c in conditions :: IsCondition(c, defined)
    ensures IsCondition(AnyOf(conditions), defined)
    ensures IsTrue(AnyOf(conditions), defined) <==> exists c :: c in conditions && IsTrue(c, defined)
  {
    TokensOfAnyOf(conditions);
    ParseGroups(conditions, defined);
  }
}
