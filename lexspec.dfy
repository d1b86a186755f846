/**
 * What the lexer computes, as functions over the whole token stream (module Scan) and
 * the cursor index. Each function returns the tree it built and the cursor index it
 * leaves behind, or the error the lexer raises. The methods of module Lexer run the
 * same steps on a live tokenizer and are proved to agree with these functions.
 */
module LexSpec {
  import opened Base
  import opened Values
  import opened Tokens
  import opened Scan
  import opened Ast
  import Operators

  type Ops = seq<Operators.OpEntry>

  /** The error codes of the lexer's syntax errors. */
  datatype Code = UnexpectedEol | BadOperator | BadToken | ThatsABug | BadOperatorFunction | UnexpectedClose

  /**
   * A syntax error with its code, an error raised by the tokenizer while the lexer
   * asked it for a token, or a TypeError from reading a property of a missing token.
   */
  datatype LexError = Syntax(code: Code) | Lexical(err: ScanError) | Crash

  /** A cursor index the lexer can stand on: before the first token, or on a token that is not whitespace (index 0 excepted, where stepping back stops). */
  predicate At(S: Stream, ti: int) {
    -1 <= ti < |S.toks| && (ti > 0 ==> S.toks[ti].kind != Whitespace)
  }

  /** The tokens strictly between two cursor indexes are all whitespace. */
  predicate Gap(S: Stream, ti: int, j: int) {
    forall k :: ti < k < j && 0 <= k < |S.toks| ==> S.toks[k].kind == Whitespace
  }

  /** The token `peek()` returns: the next one that is not whitespace, reading on as needed. */
  function PeekTok(S: Stream, ti: int): (r: Result<Option<(int, Token)>, LexError>)
    requires At(S, ti)
    ensures r.Ok? && r.value.Some? ==>
      ti < r.value.value.0 < |S.toks| && At(S, r.value.value.0) && S.toks[r.value.value.0] == r.value.value.1 &&
      r.value.value.1.kind != Whitespace && Gap(S, ti, r.value.value.0)
    ensures r.Ok? && r.value.None? ==> S.failure.None? && Gap(S, ti, |S.toks|)
    ensures r.Err? ==> S.failure.Some? && r.error == Lexical(S.failure.value)
  {
    match CursorPeek(S, ti, 1)
    case Err(e) => Err(Lexical(e))
    case Ok(None) => CursorPeekNone(S, ti, 1); Ok(None)
    case Ok(Some(p)) => Ok(Some(p))
  }

  /** `peek` reports nothing only when the scan ended cleanly and only whitespace is left. */
  lemma {:induction false} CursorPeekNone(S: Stream, ti: int, delta: int)
    requires -1 <= ti < |S.toks| && 1 <= delta && CursorPeek(S, ti, delta) == Ok(None)
    requires Gap(S, ti, ti + delta)
    ensures S.failure.None? && Gap(S, ti, |S.toks|)
    decreases |S.toks| - (ti + delta)
  {
    var idx := ti + delta;
    if idx < |S.toks| {
      CursorPeekNone(S, ti, delta + 1);
    }
  }

  /** The token of a peek's result, without its index. */
  function TokenOf(p: Option<(int, Token)>): (r: Option<Token>)
    ensures r.Some? <==> p.Some?
    ensures r.Some? ==> r.value == p.value.1
  {
    if p.Some? then Some(p.value.1) else None
  }

  /** `next()`: nothing at the end of the stream, otherwise the token `peek()` finds, which becomes current. */
  function NextTok(S: Stream, ti: int): (r: Result<Option<(int, Token)>, LexError>)
    requires At(S, ti)
    ensures r == PeekTok(S, ti)
  {
    if CursorEof(S, ti) then Ok(None) else PeekTok(S, ti)
  }

  /** `next(type, true)`: a token of another type is an error; at the end nothing moves. */
  function NextRequired(S: Stream, ti: int, kind: Kind): (r: Result<int, LexError>)
    requires At(S, ti)
    ensures r.Ok? ==> ti <= r.value && At(S, r.value)
    ensures r.Ok? && r.value != ti ==> S.toks[r.value].kind == kind
    ensures r == Err(Syntax(BadToken)) <==>
      PeekTok(S, ti).Ok? && PeekTok(S, ti).value.Some? && PeekTok(S, ti).value.value.1.kind != kind
  {
    var n :- NextTok(S, ti);
    if n.None? then Ok(ti)
    else if n.value.1.kind == kind then Ok(n.value.0)
    else Err(Syntax(BadToken))
  }

  /** The token `peek(type, -1)` looks at: the one before the cursor, or the current one when that is whitespace. */
  function PeekBack(S: Stream, ti: int): (r: Option<Token>)
    requires At(S, ti) && 0 <= ti
    ensures ti > 0 && S.toks[ti - 1].kind != Whitespace ==> r == Some(S.toks[ti - 1])
    ensures r.Some? && r.value.kind != S.toks[ti].kind ==> ti > 0 && r == Some(S.toks[ti - 1])
  {
    match CursorPeek(S, ti, -1)
    case Ok(Some(p)) => Some(p.1)
    case _ => None
  }

  function TextOf(c: Contents): string {
    if c.Text? then c.text else ""
  }

  /** The JavaScript value a literal token carries; number texts go through `Number`. */
  function LiteralValue(t: Token): (v: Value)
    ensures t.kind == LiteralNum && t.contents.Text? ==> v == Num(NumberValue(t.contents.text))
    ensures t.kind == LiteralStr && t.contents.Text? ==> v == Str(t.contents.text)
    ensures t.contents == TrueLit ==> v == Bool(true)
    ensures t.contents == FalseLit ==> v == Bool(false)
    ensures t.contents == NullLit ==> v == Null
  {
    match t.contents
    case Text(s) => if t.kind == LiteralNum then Num(NumberValue(s)) else Str(s)
    case TrueLit => Bool(true)
    case FalseLit => Bool(false)
    case NullLit => Null
    case Pattern(_, _) => Undefined
  }

  predicate IsLiteralKind(k: Kind) { k == LiteralNum || k == LiteralStr || k == LiteralPri }

  /** May a literal stand for itself? Only as the first unit, with no name or literal after it. */
  function LiteralUnit(v: Value, units: seq<Unit>, after: Option<Token>): (u: Unit)
    ensures u == Literal(v) <==>
      units == [] && (after.None? || (after.value.kind != Identifier && !IsLiteralKind(after.value.kind)))
    ensures u != Literal(v) ==> u == Descend(ByKey(v))
  {
    if |units| > 0 then Descend(ByKey(v))
    else if after.Some? && (after.value.kind == Identifier || IsLiteralKind(after.value.kind)) then
      Descend(ByKey(v))
    else Literal(v)
  }

  /** The target a target character names at the start of a statement. */
  function TargetUnit(text: string): (r: Option<Unit>)
    ensures r.Some? <==> text in {"$", "@", "#", "%"}
    ensures r == Some(Root) <==> text == "$"
    ensures r == Some(Scope) <==> text == "@"
    ensures r == Some(Key) <==> text == "#"
    ensures r == Some(Index) <==> text == "%"
  {
    if text == "$" then Some(Root)
    else if text == "@" then Some(Scope)
    else if text == "#" then Some(Key)
    else if text == "%" then Some(Index)
    else None
  }

  /** A target token: a target at the start of a statement, a property name later on. */
  function TargetStep(units: seq<Unit>, text: string): (r: Result<seq<Unit>, LexError>)
    ensures units != [] ==> r == Ok(units + [Descend(ByKey(Str(text)))])
    ensures units == [] && text in {"$", "@", "#", "%"} ==> r.Ok? && |r.value| == 1 && r.value[0] != Descend(ByKey(Str(text)))
    ensures units == [] && text !in {"$", "@", "#", "%"} ==> r == Err(Syntax(BadToken))
  {
    if |units| > 0 then Ok(units + [Descend(ByKey(Str(text)))])
    else match TargetUnit(text)
      case Some(u) => Ok([u])
      case None => Err(Syntax(BadToken))
  }

  /** What a `[...]` contributes: a slice as it is, a literal as a key, anything else as a sub-query. */
  function Bracketed(u: Unit): (r: Unit)
    ensures u.Slice? ==> r == u
    ensures u.Literal? ==> r == Descend(ByKey(u.value))
    ensures !u.Slice? && !u.Literal? ==> r == Descend(ByUnit(u))
  {
    if u.Slice? then u else if u.Literal? then Descend(ByKey(u.value)) else Descend(ByUnit(u))
  }

  /** The end of the input ends a statement: one unit collapses to it, none is an error. */
  function Collapse(units: seq<Unit>): (r: Result<Unit, LexError>)
    ensures r.Err? <==> units == []
    ensures r.Err? ==> r.error == Syntax(UnexpectedEol)
    ensures |units| == 1 ==> r == Ok(units[0])
    ensures |units| > 1 ==> r == Ok(Statement(units))
  {
    if |units| == 1 then Ok(units[0])
    else if |units| == 0 then Err(Syntax(UnexpectedEol))
    else Ok(Statement(units))
  }

  /**
   * `wtf(...)` with the cursor at `ti`: before it throws the syntax error `e` it reads
   * `peek(1)`, so a scan error in a token not read yet is raised in its place.
   */
  function Raise<X>(S: Stream, ti: int, e: LexError): (r: Result<X, LexError>)
    requires At(S, ti)
    ensures r.Err?
    ensures PeekTok(S, ti).Ok? ==> r.error == e
    ensures PeekTok(S, ti).Err? ==> r.error == PeekTok(S, ti).error && S.failure.Some?
  {
    match PeekTok(S, ti)
    case Err(x) => Err(x)
    case Ok(_) => Err(e)
  }

  /**
   * A closing bracket, paren or curl at `ti` ends a statement; an empty one is an error
   * only at depth 0, raised through `wtf`.
   */
  function Close(S: Stream, ti: int, units: seq<Unit>, depth: nat): (r: Result<Unit, LexError>)
    requires At(S, ti)
    ensures r.Err? <==> units == [] && depth == 0
    ensures r.Err? && PeekTok(S, ti).Ok? ==> r.error == Syntax(UnexpectedClose)
    ensures r.Err? && PeekTok(S, ti).Err? ==> r.error == PeekTok(S, ti).error
    ensures |units| == 1 ==> r == Ok(units[0])
    ensures |units| != 1 && r.Ok? ==> r == Ok(Statement(units))
  {
    if |units| == 1 then Ok(units[0])
    else if |units| == 0 && depth == 0 then Raise(S, ti, Syntax(UnexpectedClose))
    else Ok(Statement(units))
  }

  /** Neither a one-unit statement nor, unless `emptyOk`, an empty one. */
  predicate Collapsed(u: Unit, emptyOk: bool) {
    !(u.Statement? && |u.units| == 1) && (emptyOk || u != Statement([]))
  }

  predicate AllCollapsed(units: seq<Unit>) {
    forall i :: 0 <= i < |units| ==> Collapsed(units[i], false)
  }

  /**
   * A word operator right after `.` or `..` names a property. The source tests the
   * current token, which is the operator itself, and so pushes nothing.
   */
  function DescentUnitAsWritten(current: Token, name: string): (r: seq<Unit>) {
    if current.kind == Child then [Descend(ByKey(Str(name)))]
    else if current.kind == Recurse then [Recursive(ByName(name))]
    else []
  }

  /** The unit a word operator after `.` or `..` stands for, by the token before it. */
  function DescentUnit(before: Token, name: string): (r: seq<Unit>)
    ensures before.kind == Child ==> r == [Descend(ByKey(Str(name)))]
    ensures before.kind == Recurse ==> r == [Recursive(ByName(name))]
  {
    if before.kind == Child then [Descend(ByKey(Str(name)))]
    else if before.kind == Recurse then [Recursive(ByName(name))]
    else []
  }

  /** As written, the word is lost: the current token is always the operator. */
  lemma DescentAsWrittenDropsName(current: Token, before: Token, name: string)
    requires current.kind == Operator && before.kind == Child
    ensures DescentUnitAsWritten(current, name) == []
    ensures DescentUnit(before, name) == [Descend(ByKey(Str(name)))]
  {
  }

  /**
   * The checks on the token after a prefix or infix operator: the end of the input or
   * a closing bracket or paren is an unexpected end, a separator, a `.` or an infix
   * operator is a bad operator.
   */
  function AfterOperator(ops: Ops, after: Option<Token>): (r: Option<Code>)
    ensures after.None? ==> r == Some(UnexpectedEol)
    ensures after.Some? && after.value.kind in {BracketClose, ParenClose} ==> r == Some(UnexpectedEol)
    ensures after.Some? && after.value.kind in {UnionMark, SliceMark, Child} ==> r == Some(BadOperator)
    ensures after.Some? && after.value.kind == Operator ==>
      (r == Some(BadOperator) <==>
        exists e :: Operators.Lookup(ops, TextOf(after.value.contents)) == Some(e) && e.arity == Operators.INFIX)
    ensures r.None? ==> after.Some?
  {
    if after.None? then Some(UnexpectedEol)
    else
      var t := after.value;
      if t.kind == BracketClose || t.kind == ParenClose then Some(UnexpectedEol)
      else if t.kind == UnionMark || t.kind == SliceMark || t.kind == Child then Some(BadOperator)
      else if t.kind == Operator then
        match Operators.Lookup(ops, TextOf(t.contents))
        case Some(e) => if e.arity == Operators.INFIX then Some(BadOperator) else None
        case None => None
      else None
  }

  /** What a token does to the statement being scanned: it goes on, or it is finished. */
  datatype Step = Continue(units: seq<Unit>, ti: int) | Return(unit: Unit, ti: int)

  /** A Slice, Union or Hashmap under construction. */
  datatype Group = SliceG(parts: seq<Unit>) | UnionG(parts: seq<Unit>) | HashG(from: seq<Unit>, entries: seq<seq<Unit>>)

  function GroupUnit(g: Group): Unit {
    match g
    case SliceG(ps) => Slice(ps)
    case UnionG(ps) => Union(ps)
    case HashG(f, es) => Hashmap(f, es)
  }

  predicate GroupOk(g: Group) { g.UnionG? ==> |g.parts| > 0 }

  /**
   * `h` is what further passes can make of `g`: a Slice or Union keeps its members in
   * order and gains more; a Slice that turns into a Hashmap hands all its members to
   * `from`; a Union that does so keeps all but its last member in `from`, and the last
   * one becomes the key of the first two-segment entry; a Hashmap keeps `from` and its
   * entries in order and gains more entries.
   */
  predicate Grew(g: Group, h: Group) {
    match g
    case SliceG(ps) =>
      (h.SliceG? && ps < h.parts) || (h.HashG? && ps <= h.from && |h.entries| > 0)
    case UnionG(ps) =>
      (h.UnionG? && ps < h.parts) ||
      (h.HashG? && |h.entries| > 0 && |h.entries[0]| == 2 && ps <= h.from + [h.entries[0][0]])
    case HashG(f, es) => h.HashG? && h.from == f && es < h.entries
  }

  /** The node `u` is one that further passes can build from `g`. */
  predicate GrownInto(g: Group, u: Unit) {
    (u.Slice? && Grew(g, SliceG(u.parts))) ||
    (u.Union? && Grew(g, UnionG(u.parts))) ||
    (u.Hashmap? && Grew(g, HashG(u.from, u.entries)))
  }

  lemma GrewTransitive(g: Group, h: Group, k: Group)
    requires Grew(g, h) && Grew(h, k)
    ensures Grew(g, k)
  {
    if g.UnionG? && h.HashG? {
      assert h.entries[0] == k.entries[0];
    }
  }

  /** `scanStatement(type, depth)` from cursor index `ti`. */
  function Stmt(S: Stream, ops: Ops, ti: int, depth: nat): (r: Result<(Unit, int), LexError>)
    requires At(S, ti)
    ensures r.Ok? ==> ti <= r.value.1 && At(S, r.value.1)
    ensures r.Ok? ==> Collapsed(r.value.0, depth > 0)
    decreases |S.toks| - ti, 1
  {
    Loop(S, ops, ti, depth, [])
  }

  /** The `while (next())` loop of `scanStatement`, with the units pushed so far. */
  function Loop(S: Stream, ops: Ops, ti: int, depth: nat, units: seq<Unit>): (r: Result<(Unit, int), LexError>)
    requires At(S, ti) && AllCollapsed(units)
    ensures r.Ok? ==> ti <= r.value.1 && At(S, r.value.1)
    ensures r.Ok? ==> Collapsed(r.value.0, depth > 0)
    decreases |S.toks| - ti, 0
  {
    var n :- NextTok(S, ti);
    if n.None? then
      var u :- Collapse(units);
      Ok((u, ti))
    else
      var j := n.value.0;
      var t := n.value.1;
      if (t.kind == SliceMark || t.kind == UnionMark) && depth > 0 then
        // rewind: the separator belongs to the enclosing group
        RewindReturns(S, ti, j);
        var u :- Collapse(units);
        Ok((u, CursorPrev(S, j)))
      else
        var s :- StepFrom(S, ops, j, t, depth, units);
        match s
        case Continue(us, k) => Loop(S, ops, k, depth, us)
        case Return(u, k) => Ok((u, k))
  }

  /** One pass of the loop body for the token `t` just read at index `j`. */
  function StepFrom(S: Stream, ops: Ops, j: int, t: Token, depth: nat, units: seq<Unit>): (r: Result<Step, LexError>)
    requires At(S, j) && 0 <= j && S.toks[j] == t
    requires depth > 0 ==> t.kind != SliceMark && t.kind != UnionMark
    requires AllCollapsed(units)
    ensures r.Ok? ==> j <= r.value.ti && At(S, r.value.ti)
    ensures r.Ok? && r.value.Continue? ==> AllCollapsed(r.value.units)
    ensures r.Ok? && r.value.Return? ==> Collapsed(r.value.unit, depth > 0)
    decreases |S.toks| - j, 6
  {
    match t.kind
    case Child => Ok(Continue(units, j))
    case ParenOpen => OpenStep(S, ops, j, ParenOpen, units)
    case MapOpen => OpenStep(S, ops, j, MapOpen, units)
    case Identifier => Ok(Continue(units + [Descend(ByKey(Str(TextOf(t.contents))))], j))
    case LiteralNum => LiteralStep(S, j, t, units)
    case LiteralStr => LiteralStep(S, j, t, units)
    case LiteralPri => LiteralStep(S, j, t, units)
    case Recurse => RecurseStep(S, ops, j, units)
    case Target =>
      var us :- TargetStep(units, TextOf(t.contents));
      Ok(Continue(us, j))
    case Operator => OperatorStep(S, ops, j, t, depth, units)
    case SliceMark => GroupStep(S, ops, j, depth, units, SliceMark)
    case UnionMark => GroupStep(S, ops, j, depth, units, UnionMark)
    case FilterMark =>
      var (f, k) :- FilterBody(S, ops, j);
      Ok(Continue(units + [f], k))
    case BracketClose => CloseStep(S, j, depth, units)
    case ParenClose => CloseStep(S, j, depth, units)
    case MapClose => CloseStep(S, j, depth, units)
    case BracketOpen => OpenStep(S, ops, j, BracketOpen, units)
    case RegExp =>
      var src := if t.contents.Pattern? then t.contents.source else "";
      var flags := if t.contents.Pattern? then t.contents.flags else "";
      Ok(Continue(units + [RegularExpression(src, flags)], j))
    case Whitespace => Err(Syntax(BadToken))
  }

  /** A `:` or `,` in a statement: the statement so far is the first member of a slice or a union. */
  function GroupStep(S: Stream, ops: Ops, j: int, depth: nat, units: seq<Unit>, mark: Kind): (r: Result<Step, LexError>)
    requires At(S, j) && 0 <= j && AllCollapsed(units)
    requires mark == SliceMark || mark == UnionMark
    ensures r.Ok? ==> r.value.Return? && j <= r.value.ti && At(S, r.value.ti) && Collapsed(r.value.unit, depth > 0)
    ensures r.Ok? ==> GrownInto(if mark == SliceMark then SliceG([Statement(units)]) else UnionG([Statement(units)]), r.value.unit)
    decreases |S.toks| - j, 5
  {
    var g := if mark == SliceMark then SliceG([Statement(units)]) else UnionG([Statement(units)]);
    var (u, k) :- GroupFrom(S, ops, j, depth, g, mark);
    Ok(Return(u, k))
  }

  /**
   * An opening `(`, `{` or `[`: the statement up to its closing token, added as it is,
   * as a Mapper, or as a bracketed member.
   */
  function OpenStep(S: Stream, ops: Ops, j: int, kind: Kind, units: seq<Unit>): (r: Result<Step, LexError>)
    requires At(S, j) && 0 <= j && AllCollapsed(units)
    requires kind == ParenOpen || kind == MapOpen || kind == BracketOpen
    ensures r.Ok? ==> r.value.Continue? && j <= r.value.ti && At(S, r.value.ti) && AllCollapsed(r.value.units)
    decreases |S.toks| - j, 2
  {
    var (u, k) :- Stmt(S, ops, j, 0);
    var v := if kind == ParenOpen then u else if kind == MapOpen then Mapper(u) else Bracketed(u);
    Ok(Continue(units + [v], k))
  }

  /** A closing `)`, `}` or `]`: the statement collected so far is returned. */
  function CloseStep(S: Stream, j: int, depth: nat, units: seq<Unit>): (r: Result<Step, LexError>)
    requires At(S, j) && AllCollapsed(units)
    ensures r.Ok? ==> r.value == Return(if |units| == 1 then units[0] else Statement(units), j)
    ensures r.Ok? ==> Collapsed(r.value.unit, depth > 0)
    ensures r.Err? <==> units == [] && depth == 0
  {
    var u :- Close(S, j, units, depth);
    Ok(Return(u, j))
  }

  /** A literal token: itself at the start of a statement, a property key otherwise. */
  function LiteralStep(S: Stream, j: int, t: Token, units: seq<Unit>): (r: Result<Step, LexError>)
    requires At(S, j) && 0 <= j
    ensures r.Ok? ==> r.value.Continue? && r.value.ti == j && |r.value.units| == |units| + 1
    ensures r.Ok? ==> r.value.units[..|units|] == units && !r.value.units[|units|].Statement?
    ensures units != [] ==> r == Ok(Continue(units + [Descend(ByKey(LiteralValue(t)))], j))
    ensures r.Err? ==> units == [] && PeekTok(S, j).Err? && r.error == PeekTok(S, j).error
  {
    var v := LiteralValue(t);
    if |units| > 0 then Ok(Continue(units + [Descend(ByKey(v))], j))
    else
      var after :- PeekTok(S, j);
      Ok(Continue(units + [LiteralUnit(v, units, TokenOf(after))], j))
  }

  /**
   * An operator `t` after `..`, the cursor `k` on it: a word is a property name, a postfix
   * operator is searched for as a pattern, and any other symbol raises BAD_OPERATOR through
   * `wtf`, so a scan error in the token after it comes first.
   */
  function RecurseOperator(S: Stream, ops: Ops, k: int, t: Token, units: seq<Unit>): (r: Result<Step, LexError>)
    requires At(S, k) && t.kind == Operator
    ensures r.Ok? ==> r.value.Continue? && r.value.ti == k && |r.value.units| == |units| + 1 &&
                      r.value.units[..|units|] == units && r.value.units[|units|].Recursive?
    ensures !t.symbol ==> r == Ok(Continue(units + [Recursive(ByName(TextOf(t.contents)))], k))
    ensures (t.symbol && Operators.Lookup(ops, TextOf(t.contents)).Some? &&
             Operators.Lookup(ops, TextOf(t.contents)).value.arity != Operators.POSTFIX) ==>
        r == (if PeekTok(S, k).Err? then Err(PeekTok(S, k).error) else Err(Syntax(BadOperator)))
  {
    var name := TextOf(t.contents);
    if !t.symbol then Ok(Continue(units + [Recursive(ByName(name))], k))
    else
      var e := Operators.Lookup(ops, name);
      if e.None? then Err(Crash)
      else if e.value.arity == Operators.POSTFIX then
        Ok(Continue(units + [Recursive(ByPattern(Operand(name, e.value.arity, e.value.impl, None, None)))], k))
      else Raise(S, k, Syntax(BadOperator))
  }

  /** The token after `..` decides what is collected recursively. */
  function RecurseStep(S: Stream, ops: Ops, j: int, units: seq<Unit>): (r: Result<Step, LexError>)
    requires At(S, j) && 0 <= j
    ensures r.Ok? ==> r.value.Continue? && j < r.value.ti && At(S, r.value.ti)
    ensures r.Ok? ==> |r.value.units| == |units| + 1 && r.value.units[..|units|] == units &&
                      r.value.units[|units|].Recursive?
    ensures NextTok(S, j).Ok? && NextTok(S, j).value.Some? ==>
      var (k, t) := NextTok(S, j).value.value;
      (t.kind == Operator && t.symbol && Operators.Lookup(ops, TextOf(t.contents)).Some? &&
       Operators.Lookup(ops, TextOf(t.contents)).value.arity != Operators.POSTFIX) ==>
        r == (if PeekTok(S, k).Err? then Err(PeekTok(S, k).error) else Err(Syntax(BadOperator)))
    decreases |S.toks| - j, 2
  {
    var n :- NextTok(S, j);
    if n.None? then Err(Crash)
    else
      var k := n.value.0;
      var t := n.value.1;
      match t.kind
      case Identifier => Ok(Continue(units + [Recursive(ByName(TextOf(t.contents)))], k))
      case LiteralNum => Ok(Continue(units + [Recursive(ByName(TextOf(t.contents)))], k))
      case LiteralStr => Ok(Continue(units + [Recursive(ByName(TextOf(t.contents)))], k))
      case BracketOpen =>
        var (p, k2) :- RecurseBracket(S, ops, k);
        Ok(Continue(units + [Recursive(ByPattern(p))], k2))
      case ParenOpen =>
        var (u, k2) :- Stmt(S, ops, k, 0);
        Ok(Continue(units + [Recursive(ByPattern(u))], k2))
      case Operator => RecurseOperator(S, ops, k, t, units)
      case FilterMark =>
        var (f, k2) :- FilterBody(S, ops, k);
        Ok(Continue(units + [Recursive(ByPattern(f))], k2))
      case Target => Ok(Continue(units + [Recursive(ByName(TextOf(t.contents)))], k))
      case _ => Err(Syntax(BadToken))
  }

  /**
   * `?` must be followed by `(`: the filter is the statement inside. Without a token
   * after it, the error message reads the type of a missing token and throws.
   */
  function FilterBody(S: Stream, ops: Ops, j: int): (r: Result<(Unit, int), LexError>)
    requires At(S, j) && 0 <= j
    ensures r.Ok? ==> j < r.value.1 && At(S, r.value.1) && r.value.0.Filter?
    ensures PeekTok(S, j).Ok? && PeekTok(S, j).value.Some? && PeekTok(S, j).value.value.1.kind != ParenOpen ==>
      r == Err(Syntax(BadToken))
    ensures PeekTok(S, j) == Ok(None) ==> r == Err(Crash)
    decreases |S.toks| - j, 2
  {
    var n :- NextTok(S, j);
    if n.None? then Err(Crash)
    else if n.value.1.kind != ParenOpen then Err(Syntax(BadToken))
    else
      var (u, k) :- Stmt(S, ops, n.value.0, 0);
      Ok((Filter(u), k))
  }

  /**
   * `..[`: with `?` next, a filter whose `(` and closing `]` are required (at the end of
   * the input they are skipped); otherwise the statement up to `]` as a sub-query.
   */
  function RecurseBracket(S: Stream, ops: Ops, k: int): (r: Result<(Unit, int), LexError>)
    requires At(S, k) && 0 <= k
    ensures r.Ok? ==> k <= r.value.1 && At(S, r.value.1)
    ensures r.Ok? ==> r.value.0.Filter? || r.value.0.Descend?
    decreases |S.toks| - k, 2
  {
    var m :- NextTok(S, k);
    if m.Some? && m.value.1.kind == FilterMark then
      var k2 :- NextRequired(S, m.value.0, ParenOpen);
      var (u, k3) :- Stmt(S, ops, k2, 0);
      var k4 :- NextRequired(S, k3, BracketClose);
      Ok((Filter(u), k4))
    else
      var (u, k2) :- Stmt(S, ops, k, 0);
      Ok((Descend(ByUnit(u)), k2))
  }

  /** An operator token. */
  function OperatorStep(S: Stream, ops: Ops, j: int, t: Token, depth: nat, units: seq<Unit>): (r: Result<Step, LexError>)
    requires At(S, j) && 0 <= j && S.toks[j] == t
    requires AllCollapsed(units)
    ensures r.Ok? ==> j <= r.value.ti && At(S, r.value.ti)
    ensures r.Ok? && r.value.Continue? ==> AllCollapsed(r.value.units)
    ensures r.Ok? && r.value.Return? ==>
      r.value.unit.Operand? && r.value.unit.arity == Operators.INFIX && |units| > 0 &&
      r.value.unit.left == Some(Statement(units)) && r.value.unit.right.Some?
    ensures Operators.Lookup(ops, TextOf(t.contents)).None? ==>
      r == (if PeekTok(S, j).Err? then Err(PeekTok(S, j).error) else Err(Syntax(BadToken)))
    decreases |S.toks| - j, 2
  {
    var name := TextOf(t.contents);
    match Operators.Lookup(ops, name)
    case None => Raise(S, j, Syntax(BadToken))
    case Some(e) =>
      var before := PeekBack(S, j);
      if !t.symbol && before.Some? && (before.value.kind == Child || before.value.kind == Recurse) then
        Ok(Continue(units + DescentUnit(before.value, name), j))
      else if e.arity == Operators.POSTFIX then
        Ok(Continue(units + [Operand(name, e.arity, e.impl, None, None)], j))
      else
        var after :- PeekTok(S, j);
        match AfterOperator(ops, TokenOf(after))
        case Some(code) => Err(Syntax(code))
        case None =>
          if e.arity == Operators.INFIX then
            if |units| == 0 then Err(Syntax(BadOperator))
            else
              var (right, k) :- Stmt(S, ops, j, depth + 1);
              Ok(Return(Operand(name, e.arity, e.impl, Some(Statement(units)), Some(right)), k))
          else if e.arity == Operators.PREFIX then
            if |units| > 0 then Err(Syntax(BadOperator))
            else
              var (right, k) :- Stmt(S, ops, j, depth + 1);
              Ok(Continue(units + [Operand(name, e.arity, e.impl, None, Some(right))], k))
          else Err(Syntax(BadOperatorFunction))
  }

  /** One pass of a group's loop: the group with one more member, where the member ends, and the separator after it. */
  datatype Pass = Pass(g: Group, end: int, next: Option<(int, Kind)>)

  /**
   * The body of the `do ... while (next(T_SLICE) || next(T_UNION))` loop for the
   * separator `sep` at `ti`: switch to a Hashmap if `sep` calls for it, scan one member,
   * then move onto the next separator if one follows.
   */
  function GroupPass(S: Stream, ops: Ops, ti: int, depth: nat, g: Group, sep: Kind): (r: Result<Pass, LexError>)
    requires At(S, ti) && 0 <= ti && GroupOk(g)
    ensures r.Ok? ==> ti <= r.value.end && At(S, r.value.end) && GroupOk(r.value.g)
    ensures r.Ok? ==> Grew(g, r.value.g)
    ensures r.Ok? && r.value.next.Some? ==>
      r.value.end < r.value.next.value.0 && At(S, r.value.next.value.0) &&
      r.value.next.value.1 in {SliceMark, UnionMark} && S.toks[r.value.next.value.0].kind == r.value.next.value.1
    decreases |S.toks| - ti, 3
  {
    var (g1, segs) := Regroup(g, sep);
    var (g2, k) :- GroupMember(S, ops, ti, depth, g1, segs);
    assert Grew(g, g2) by {
      if g.UnionG? && g1.HashG? {
        assert g.parts == g1.from + [g2.entries[0][0]];
      }
    }
    var n :- NextTok(S, k);
    if n.Some? && (n.value.1.kind == SliceMark || n.value.1.kind == UnionMark) then
      Ok(Pass(g2, k, Some((n.value.0, n.value.1.kind))))
    else Ok(Pass(g2, k, None))
  }

  /** A pass is the member read after `Regroup`, then the look at the token after it. */
  lemma PassSteps(S: Stream, ops: Ops, ti: int, depth: nat, g: Group, sep: Kind)
    requires At(S, ti) && 0 <= ti && GroupOk(g)
    ensures var m := GroupMember(S, ops, ti, depth, Regroup(g, sep).0, Regroup(g, sep).1);
      match m
      case Err(e) => GroupPass(S, ops, ti, depth, g, sep) == Err(e)
      case Ok((g2, k)) =>
        match NextTok(S, k)
        case Err(e) => GroupPass(S, ops, ti, depth, g, sep) == Err(e)
        case Ok(n) =>
          GroupPass(S, ops, ti, depth, g, sep) ==
            Ok(Pass(g2, k, if n.Some? && n.value.1.kind in {SliceMark, UnionMark} then Some((n.value.0, n.value.1.kind)) else None))
  {
  }

  /**
   * The loop that collects the members of a Slice or Union after the separator at `ti`,
   * switching to a Hashmap when the other separator turns up.
   */
  function GroupFrom(S: Stream, ops: Ops, ti: int, depth: nat, g: Group, sep: Kind): (r: Result<(Unit, int), LexError>)
    requires At(S, ti) && 0 <= ti && GroupOk(g)
    ensures r.Ok? ==> ti <= r.value.1 && At(S, r.value.1)
    ensures r.Ok? ==> GrownInto(g, r.value.0)
    decreases |S.toks| - ti, 4
  {
    var p :- GroupPass(S, ops, ti, depth, g, sep);
    match p.next
    case Some((j, kind)) =>
      var r := GroupFrom(S, ops, j, depth, p.g, kind);
      if r.Ok? then
        var u := r.value.0;
        assert GrownInto(g, u) by {
          var h := if u.Slice? then SliceG(u.parts) else if u.Union? then UnionG(u.parts) else HashG(u.from, u.entries);
          GrewTransitive(g, p.g, h);
        }
        r
      else r
    case None => Ok((GroupUnit(p.g), p.end))
  }

  /**
   * The separator `sep` switches a Slice met by `,`, or a Union met by `:`, to a Hashmap;
   * a Union gives up its last member to be the key of the first entry.
   */
  function Regroup(g: Group, sep: Kind): (r: (Group, seq<Unit>))
    requires GroupOk(g)
    ensures sep == UnionMark && g.SliceG? ==> r == (HashG(g.parts, []), [])
    ensures sep == SliceMark && g.UnionG? ==> r.0 == HashG(g.parts[..|g.parts| - 1], []) && r.0.from + r.1 == g.parts
    ensures r.0.HashG? <==> g.HashG? || (sep == UnionMark && g.SliceG?) || (sep == SliceMark && g.UnionG?)
    ensures !r.0.HashG? ==> r == (g, [])
    ensures GroupOk(r.0)
  {
    if sep == UnionMark && g.SliceG? then (HashG(g.parts, []), [])
    else if sep == SliceMark && g.UnionG? then (HashG(g.parts[..|g.parts| - 1], []), [g.parts[|g.parts| - 1]])
    else (g, [])
  }

  /** One member of a group: a statement at depth + 1, or for a hashmap one key or key:value entry. */
  function GroupMember(S: Stream, ops: Ops, ti: int, depth: nat, g: Group, segs: seq<Unit>): (r: Result<(Group, int), LexError>)
    requires At(S, ti) && GroupOk(g)
    ensures r.Ok? ==> ti <= r.value.1 && At(S, r.value.1) && GroupOk(r.value.0)
    ensures r.Ok? ==> g.SliceG? == r.value.0.SliceG? && g.UnionG? == r.value.0.UnionG?
    ensures r.Ok? && !g.HashG? ==> g.parts < r.value.0.parts && |r.value.0.parts| == |g.parts| + 1
    ensures r.Ok? && g.HashG? ==>
      var h := r.value.0;
      h.HashG? && h.from == g.from && g.entries < h.entries && |h.entries| == |g.entries| + 1 &&
      segs < h.entries[|g.entries|] && |h.entries[|g.entries|]| <= |segs| + 2 &&
      (|segs| > 0 ==> |h.entries[|g.entries|]| == |segs| + 1)
    decreases |S.toks| - ti, 2
  {
    var (s1, k1) :- Stmt(S, ops, ti, depth + 1);
    match g
    case SliceG(ps) => Ok((SliceG(ps + [s1]), k1))
    case UnionG(ps) => Ok((UnionG(ps + [s1]), k1))
    case HashG(f, es) =>
      var segs1 := segs + [s1];
      if |segs1| == 1 then
        var n :- NextTok(S, k1);
        if n.Some? && n.value.1.kind == SliceMark then
          var (s2, k2) :- Stmt(S, ops, n.value.0, depth + 1);
          Ok((HashG(f, es + [segs1 + [s2]]), k2))
        else Ok((HashG(f, es + [segs1]), k1))
      else Ok((HashG(f, es + [segs1]), k1))
  }

  /** Stepping back from the token `next` just read returns to where the cursor stood. */
  lemma {:induction false} RewindReturns(S: Stream, ti: int, j: int)
    requires At(S, ti) && ti < j < |S.toks| && Gap(S, ti, j)
    ensures ti <= CursorPrev(S, j) && At(S, CursorPrev(S, j))
    ensures 0 <= ti ==> CursorPrev(S, j) == ti
    decreases j
  {
    if j > 0 {
      var k := j - 1;
      if S.toks[k].kind == Whitespace && k > ti {
        RewindReturns(S, ti, k);
      }
    }
  }

  /**
   * `lex(tokens)`: the top-level statement, which must use up every token; tokens left
   * over are a bug report, unless reading them raises the tokenizer's error first.
   */
  function Lex(S: Stream, ops: Ops): (r: Result<Unit, LexError>)
    ensures r.Ok? ==> Collapsed(r.value, false)
  {
    var (u, k) :- Stmt(S, ops, -1, 0);
    if CursorEof(S, k) then Ok(u)
    else if S.failure.Some? then Err(Lexical(S.failure.value))
    else Err(Syntax(ThatsABug))
  }
}

