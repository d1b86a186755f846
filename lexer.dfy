/**
 * The lexer run on a live tokenizer: `scanStatement`'s `while (next())` loop and its
 * branches as methods that read tokens through the cursor's `next`, `peek` and `prev`.
 * Each method is proved to return what the functions of module LexSpec compute on the
 * tokenizer's whole token stream, and to leave the cursor where they say. The lexer's
 * `tok` and `contents` variables are the token a method was handed.
 */
module Lexer {
  import opened Base
  import opened Tokens
  import opened Scan
  import opened Ast
  import opened LexSpec
  import opened Tokenizing
  import Operators

  /** A tokenizer the lexer may read from: consistent, with its cursor where the lexer can stand. */
  ghost predicate Ready(tz: Tokenizer)
    reads tz
  {
    tz.Valid() && At(tz.Full(), tz.tindex)
  }

  /** The method's result `r` and the cursor agree with the statement the functions scan. */
  ghost predicate Scanned(tz: Tokenizer, s: Result<(Unit, int), LexError>, r: Result<Unit, LexError>)
    reads tz
  {
    match s
    case Ok(p) => r == Ok(p.0) && tz.tindex == p.1 && Ready(tz)
    case Err(e) => r == Err(e)
  }

  /**
   * The method's result `r`, the statement and the cursor agree with one step of the
   * loop: `None` goes on with the units pushed, `Some(u)` ends the statement with `u`.
   */
  ghost predicate Stepped(tz: Tokenizer, statement: StatementNode, s: Result<Step, LexError>, r: Result<Option<Unit>, LexError>)
    reads tz, statement
  {
    match s
    case Ok(Continue(us, k)) => r == Ok(None) && statement.units == us && tz.tindex == k && Ready(tz)
    case Ok(Return(u, k)) => r == Ok(Some(u)) && tz.tindex == k && Ready(tz)
    case Err(e) => r == Err(e)
  }

  /** Peeking `d` places ahead finds the token that `next` finds from `d - 1` places on. */
  lemma {:induction false} PeekIsNext(S: Stream, ti: int, d: int)
    requires 1 <= d && -1 <= ti
    ensures CursorPeek(S, ti, d).Err? ==> CursorNext(S, ti + d - 1) == Err(CursorPeek(S, ti, d).error)
    ensures CursorPeek(S, ti, d).Ok? && CursorPeek(S, ti, d).value.Some? ==>
      CursorNext(S, ti + d - 1) == Ok((CursorPeek(S, ti, d).value.value.0, Some(CursorPeek(S, ti, d).value.value.1)))
    decreases |S.toks| - (ti + d)
  {
    var idx := ti + d;
    if 0 <= idx < |S.toks| && S.toks[idx].kind == Whitespace {
      PeekIsNext(S, ti, d + 1);
    }
  }

  /**
   * `next(type, required)`: at the end of the input, or when the next token is not of
   * the `kind` asked for, nothing moves (a `required` token of another type is an error);
   * otherwise the cursor moves onto the next token, which is returned.
   */
  method NextOf(tz: Tokenizer, kind: Option<Kind>, required: bool) returns (r: Result<Option<Token>, LexError>)
    requires Ready(tz)
    modifies tz
    ensures match NextTok(tz.Full(), old(tz.tindex))
      case Err(e) => r == Err(e)
      case Ok(None) => r == Ok(None) && tz.tindex == old(tz.tindex) && Ready(tz)
      case Ok(Some(p)) =>
        if kind.None? || p.1.kind == kind.value then r == Ok(Some(p.1)) && tz.tindex == p.0 && Ready(tz)
        else if required then r == Err(Syntax(BadToken))
        else r == Ok(None) && tz.tindex == old(tz.tindex) && Ready(tz)
  {
    if tz.AtEnd() {
      return Ok(None);
    }
    var t := tz.Peek(1);
    if t.Err? {
      return Err(Lexical(t.error));
    }
    if t.value.None? {
      return Ok(None);
    }
    var tok := t.value.value;
    if kind.Some? && tok.kind != kind.value {
      if required {
        return Err(Syntax(BadToken));
      }
      return Ok(None);
    }
    PeekIsNext(tz.Full(), tz.tindex, 1);
    var n := tz.Next();
    r := Ok(n.value);
  }

  /** `peek()`: the next token that is not whitespace; the cursor stays. */
  method PeekNext(tz: Tokenizer) returns (r: Result<Option<Token>, LexError>)
    requires Ready(tz)
    modifies tz
    ensures tz.tindex == old(tz.tindex)
    ensures match PeekTok(tz.Full(), old(tz.tindex))
      case Ok(p) => r == Ok(TokenOf(p)) && Ready(tz)
      case Err(e) => r == Err(e)
  {
    var t := tz.Peek(1);
    r := if t.Err? then Err(Lexical(t.error)) else Ok(t.value);
  }

  /** `peek(type, -1)`: the token before the current one, skipping whitespace forwards. */
  method PeekBefore(tz: Tokenizer) returns (r: Option<Token>)
    requires Ready(tz) && 0 <= tz.tindex
    modifies tz
    ensures r == PeekBack(tz.Full(), old(tz.tindex)) && tz.tindex == old(tz.tindex) && Ready(tz)
  {
    ghost var S := tz.Full();
    if tz.tindex > 0 {
      assert CursorPeek(S, tz.tindex, 0) == Ok(Some((tz.tindex, S.toks[tz.tindex])));
    }
    var t := tz.Peek(-1);
    r := if t.Ok? then t.value else None;
  }

  /** `scanStatement(type, depth)`: reads tokens into a fresh statement until one ends it. */
  method ScanStatement(tz: Tokenizer, ops: Ops, depth: nat) returns (r: Result<Unit, LexError>)
    requires Ready(tz)
    modifies tz
    ensures Scanned(tz, Stmt(tz.Full(), ops, old(tz.tindex), depth), r)
    decreases |tz.Full().toks| - tz.tindex, 1
  {
    ghost var S := tz.Full();
    ghost var ti0 := tz.tindex;
    var statement := new StatementNode();
    while true
      invariant Ready(tz) && ti0 <= tz.tindex && AllCollapsed(statement.units)
      invariant Loop(S, ops, tz.tindex, depth, statement.units) == Stmt(S, ops, ti0, depth)
      decreases |S.toks| - tz.tindex
    {
      ghost var ti := tz.tindex;
      var n := NextOf(tz, None, false);
      if n.Err? {
        return Err(n.error);
      }
      if n.value.None? {
        break;
      }
      var tok := n.value.value;
      if (tok.kind == SliceMark || tok.kind == UnionMark) && depth > 0 {
        // the separator belongs to the group being collected one level up
        RewindReturns(S, ti, tz.tindex);
        var _ := tz.Prev();
        break;
      }
      var done := Dispatch(tz, ops, tok, depth, statement);
      if done.Err? {
        return Err(done.error);
      }
      if done.value.Some? {
        return Ok(done.value.value);
      }
    }
    if statement.Length() == 1 {
      return Ok(statement.units[0]);
    }
    if statement.Length() == 0 {
      return Err(Syntax(UnexpectedEol));
    }
    return Ok(statement.Node());
  }

  /** The body of the loop for the token `tok` just read: `Some(u)` ends the statement with `u`. */
  method Dispatch(tz: Tokenizer, ops: Ops, tok: Token, depth: nat, statement: StatementNode)
    returns (r: Result<Option<Unit>, LexError>)
    requires Ready(tz) && 0 <= tz.tindex && tz.Full().toks[tz.tindex] == tok
    requires depth > 0 ==> tok.kind != SliceMark && tok.kind != UnionMark
    requires AllCollapsed(statement.units)
    modifies tz, statement
    ensures Stepped(tz, statement, StepFrom(tz.Full(), ops, old(tz.tindex), tok, depth, old(statement.units)), r)
    decreases |tz.Full().toks| - tz.tindex, 6
  {
    var contents := TextOf(tok.contents);
    match tok.kind
    case Child =>
      r := Ok(None);
    case ParenOpen =>
      r := OpenStatement(tz, ops, ParenOpen, statement);
    case MapOpen =>
      r := OpenStatement(tz, ops, MapOpen, statement);
    case Identifier =>
      statement.Push(Descend(ByKey(Values.Str(contents))));
      r := Ok(None);
    case LiteralNum =>
      r := ScanLiteral(tz, tok, statement);
    case LiteralStr =>
      r := ScanLiteral(tz, tok, statement);
    case LiteralPri =>
      r := ScanLiteral(tz, tok, statement);
    case Recurse =>
      r := ScanRecurse(tz, ops, statement);
    case Target =>
      if statement.Length() > 0 {
        statement.Push(Descend(ByKey(Values.Str(contents))));
        r := Ok(None);
      } else {
        var target := TargetUnit(contents);
        if target.None? {
          return Err(Syntax(BadToken));
        }
        statement.Push(target.value);
        r := Ok(None);
      }
    case Operator =>
      r := ScanOperator(tz, ops, tok, depth, statement);
    case SliceMark =>
      var u :- ScanGroup(tz, ops, depth, statement.Node(), SliceMark);
      r := Ok(Some(u));
    case UnionMark =>
      var u :- ScanGroup(tz, ops, depth, statement.Node(), UnionMark);
      r := Ok(Some(u));
    case FilterMark =>
      var f :- ScanFilter(tz, ops);
      statement.Push(f);
      r := Ok(None);
    case BracketClose =>
      r := CloseStatement(tz, depth, statement);
    case ParenClose =>
      r := CloseStatement(tz, depth, statement);
    case MapClose =>
      r := CloseStatement(tz, depth, statement);
    case BracketOpen =>
      r := OpenStatement(tz, ops, BracketOpen, statement);
    case RegExp =>
      var src := if tok.contents.Pattern? then tok.contents.source else "";
      var flags := if tok.contents.Pattern? then tok.contents.flags else "";
      statement.Push(RegularExpression(src, flags));
      r := Ok(None);
    case Whitespace =>
      r := Err(Syntax(BadToken));
  }

  /** `(`, `{` and `[`: the nested statement, pushed as it is, as a Mapper, or as a bracketed member. */
  method OpenStatement(tz: Tokenizer, ops: Ops, kind: Kind, statement: StatementNode) returns (r: Result<Option<Unit>, LexError>)
    requires Ready(tz) && 0 <= tz.tindex && AllCollapsed(statement.units)
    requires kind == ParenOpen || kind == MapOpen || kind == BracketOpen
    modifies tz, statement
    ensures Stepped(tz, statement, OpenStep(tz.Full(), ops, old(tz.tindex), kind, old(statement.units)), r)
    decreases |tz.Full().toks| - tz.tindex, 2
  {
    var u :- ScanStatement(tz, ops, 0);
    if kind == ParenOpen {
      statement.Push(u);
    } else if kind == MapOpen {
      statement.Push(Mapper(u));
    } else if u.Slice? {
      statement.Push(u);
    } else if u.Literal? {
      statement.Push(Descend(ByKey(u.value)));
    } else {
      statement.Push(Descend(ByUnit(u)));
    }
    r := Ok(None);
  }

  /** A closing bracket, paren or curl: the statement ends, collapsed to its one unit. */
  method CloseStatement(tz: Tokenizer, depth: nat, statement: StatementNode) returns (r: Result<Option<Unit>, LexError>)
    requires Ready(tz)
    modifies tz
    ensures tz.tindex == old(tz.tindex)
    ensures match Close(tz.Full(), old(tz.tindex), statement.units, depth)
      case Ok(u) => r == Ok(Some(u)) && Ready(tz)
      case Err(e) => r == Err(e)
  {
    if statement.Length() == 1 {
      return Ok(Some(statement.units[0]));
    }
    if statement.Length() == 0 && depth == 0 {
      var after := PeekNext(tz);
      return if after.Err? then Err(after.error) else Err(Syntax(UnexpectedClose));
    }
    return Ok(Some(statement.Node()));
  }

  /** A literal: itself when it opens the statement and no name or literal follows, a key otherwise. */
  method ScanLiteral(tz: Tokenizer, tok: Token, statement: StatementNode) returns (r: Result<Option<Unit>, LexError>)
    requires Ready(tz) && 0 <= tz.tindex
    modifies tz, statement
    ensures Stepped(tz, statement, LiteralStep(tz.Full(), old(tz.tindex), tok, old(statement.units)), r)
  {
    var v := LiteralValue(tok);
    if statement.Length() > 0 {
      statement.Push(Descend(ByKey(v)));
      return Ok(None);
    }
    var after := PeekNext(tz);
    if after.Err? {
      return Err(after.error);
    }
    if after.value.Some? && (after.value.value.kind == Identifier || IsLiteralKind(after.value.value.kind)) {
      statement.Push(Descend(ByKey(v)));
    } else {
      statement.Push(Literal(v));
    }
    r := Ok(None);
  }

  /**
   * What follows `..`. The source tries `next` with one type after another; a typed
   * `next` that does not match moves nothing, so this reads the token once and tests
   * its type.
   */
  method ScanRecurse(tz: Tokenizer, ops: Ops, statement: StatementNode) returns (r: Result<Option<Unit>, LexError>)
    requires Ready(tz) && 0 <= tz.tindex
    modifies tz, statement
    ensures Stepped(tz, statement, RecurseStep(tz.Full(), ops, old(tz.tindex), old(statement.units)), r)
    decreases |tz.Full().toks| - tz.tindex, 2
  {
    var n := NextOf(tz, None, false);
    if n.Err? {
      return Err(n.error);
    }
    if n.value.None? {
      // the error message reads the type of a missing token
      return Err(Crash);
    }
    var t := n.value.value;
    var name := TextOf(t.contents);
    match t.kind
    case Identifier | LiteralNum | LiteralStr | Target =>
      statement.Push(Recursive(ByName(name)));
      r := Ok(None);
    case BracketOpen =>
      var p :- ScanRecurseBracket(tz, ops);
      statement.Push(Recursive(ByPattern(p)));
      r := Ok(None);
    case ParenOpen =>
      var u :- ScanStatement(tz, ops, 0);
      statement.Push(Recursive(ByPattern(u)));
      r := Ok(None);
    case Operator =>
      r := ScanRecurseOperator(tz, ops, t, statement);
    case FilterMark =>
      var f :- ScanFilter(tz, ops);
      statement.Push(Recursive(ByPattern(f)));
      r := Ok(None);
    case _ =>
      r := Err(Syntax(BadToken));
  }

  /** An operator after `..`. */
  method ScanRecurseOperator(tz: Tokenizer, ops: Ops, t: Token, statement: StatementNode)
    returns (r: Result<Option<Unit>, LexError>)
    requires Ready(tz) && t.kind == Operator
    modifies tz, statement
    ensures Stepped(tz, statement, RecurseOperator(tz.Full(), ops, old(tz.tindex), t, old(statement.units)), r)
  {
    var name := TextOf(t.contents);
    if !t.symbol {
      statement.Push(Recursive(ByName(name)));
      return Ok(None);
    }
    var e := Operators.Lookup(ops, name);
    if e.None? {
      // destructuring the missing table entry throws
      return Err(Crash);
    }
    if e.value.arity != Operators.POSTFIX {
      var after := PeekNext(tz);
      return if after.Err? then Err(after.error) else Err(Syntax(BadOperator));
    }
    statement.Push(Recursive(ByPattern(Operand(name, e.value.arity, e.value.impl, None, None))));
    r := Ok(None);
  }

  /** `?(...)`: the filter whose statement follows the `?` the cursor stands on. */
  method ScanFilter(tz: Tokenizer, ops: Ops) returns (r: Result<Unit, LexError>)
    requires Ready(tz) && 0 <= tz.tindex
    modifies tz
    ensures Scanned(tz, FilterBody(tz.Full(), ops, old(tz.tindex)), r)
    decreases |tz.Full().toks| - tz.tindex, 2
  {
    var n := NextOf(tz, Some(ParenOpen), false);
    if n.Err? {
      return Err(n.error);
    }
    if n.value.None? {
      // the error message reads the type of `peek()`, which fails when there is no token
      var p := PeekNext(tz);
      return if p.Ok? && p.value.Some? then Err(Syntax(BadToken)) else Err(Crash);
    }
    var u :- ScanStatement(tz, ops, 0);
    r := Ok(Filter(u));
  }

  /** `..[`: a filter `?(...)` closed by a required `]`, or a sub-query. */
  method ScanRecurseBracket(tz: Tokenizer, ops: Ops) returns (r: Result<Unit, LexError>)
    requires Ready(tz) && 0 <= tz.tindex
    modifies tz
    ensures Scanned(tz, RecurseBracket(tz.Full(), ops, old(tz.tindex)), r)
    decreases |tz.Full().toks| - tz.tindex, 2
  {
    ghost var S, k := tz.Full(), tz.tindex;
    var m := NextOf(tz, Some(FilterMark), false);
    if m.Err? {
      return Err(m.error);
    }
    if m.value.Some? {
      ghost var k1 := tz.tindex;
      assert NextTok(S, k) == Ok(Some((k1, m.value.value)));
      var open := NextOf(tz, Some(ParenOpen), true);
      if open.Err? {
        return Err(open.error);
      }
      ghost var k2 := tz.tindex;
      assert NextRequired(S, k1, ParenOpen) == Ok(k2);
      var u :- ScanStatement(tz, ops, 0);
      ghost var k3 := tz.tindex;
      assert Stmt(S, ops, k2, 0) == Ok((u, k3));
      var close := NextOf(tz, Some(BracketClose), true);
      if close.Err? {
        return Err(close.error);
      }
      assert NextRequired(S, k3, BracketClose) == Ok(tz.tindex);
      return Ok(Filter(u));
    }
    var u :- ScanStatement(tz, ops, 0);
    r := Ok(Descend(ByUnit(u)));
  }

  /**
   * An operator token: a property name after `.` or `..` when it is a word, otherwise
   * a postfix operator pushed as it is, a prefix operator applied to the rest of the
   * statement, or an infix operator between the statement so far and the rest.
   */
  method ScanOperator(tz: Tokenizer, ops: Ops, tok: Token, depth: nat, statement: StatementNode)
    returns (r: Result<Option<Unit>, LexError>)
    requires Ready(tz) && 0 <= tz.tindex && tz.Full().toks[tz.tindex] == tok
    requires AllCollapsed(statement.units)
    modifies tz, statement
    ensures Stepped(tz, statement, OperatorStep(tz.Full(), ops, old(tz.tindex), tok, depth, old(statement.units)), r)
    decreases |tz.Full().toks| - tz.tindex, 2
  {
    var name := TextOf(tok.contents);
    var e := Operators.Lookup(ops, name);
    if e.None? {
      var after := PeekNext(tz);
      return if after.Err? then Err(after.error) else Err(Syntax(BadToken));
    }
    var entry := e.value;
    var before := PeekBefore(tz);
    if !tok.symbol && before.Some? && (before.value.kind == Child || before.value.kind == Recurse) {
      if before.value.kind == Child {
        statement.Push(Descend(ByKey(Values.Str(name))));
      } else {
        statement.Push(Recursive(ByName(name)));
      }
      return Ok(None);
    }
    if entry.arity == Operators.POSTFIX {
      statement.Push(Operand(name, entry.arity, entry.impl, None, None));
      return Ok(None);
    }
    var after := PeekNext(tz);
    if after.Err? {
      return Err(after.error);
    }
    var code := AfterOperator(ops, after.value);
    if code.Some? {
      return Err(Syntax(code.value));
    }
    if entry.arity == Operators.INFIX {
      if statement.Length() == 0 {
        return Err(Syntax(BadOperator));
      }
      var right :- ScanStatement(tz, ops, depth + 1);
      return Ok(Some(Operand(name, entry.arity, entry.impl, Some(statement.Node()), Some(right))));
    }
    if entry.arity == Operators.PREFIX {
      if statement.Length() > 0 {
        return Err(Syntax(BadOperator));
      }
      var right :- ScanStatement(tz, ops, depth + 1);
      statement.Push(Operand(name, entry.arity, entry.impl, None, Some(right)));
      return Ok(None);
    }
    r := Err(Syntax(BadOperatorFunction));
  }

  /**
   * The `do ... while (next(T_SLICE) || next(T_UNION))` loop after the separator the
   * cursor stands on: members are scanned at `depth + 1` into a Slice or a Union, which
   * turns into a Hashmap when the other separator turns up.
   */
  method ScanGroup(tz: Tokenizer, ops: Ops, depth: nat, first: Unit, sep0: Kind) returns (r: Result<Unit, LexError>)
    requires Ready(tz) && 0 <= tz.tindex
    modifies tz
    ensures Scanned(tz, GroupFrom(tz.Full(), ops, old(tz.tindex), depth,
                                  if sep0 == SliceMark then SliceG([first]) else UnionG([first]), sep0), r)
    decreases |tz.Full().toks| - tz.tindex, 4
  {
    ghost var S := tz.Full();
    ghost var ti0 := tz.tindex;
    var g := if sep0 == SliceMark then SliceG([first]) else UnionG([first]);
    var sep := sep0;
    ghost var result := GroupFrom(S, ops, ti0, depth, g, sep);
    while true
      invariant Ready(tz) && ti0 <= tz.tindex && 0 <= tz.tindex && GroupOk(g)
      invariant GroupFrom(S, ops, tz.tindex, depth, g, sep) == result
      decreases |S.toks| - tz.tindex
    {
      var round := GroupRound(tz, ops, depth, g, sep);
      if round.Err? {
        return Err(round.error);
      }
      g := round.value.0;
      if round.value.1.None? {
        return Ok(GroupUnit(g));
      }
      sep := round.value.1.value;
    }
  }

  /**
   * One pass of the `do ... while` body: switch to a Hashmap if the separator `sep`
   * calls for it, add one member, and read the next separator if there is one.
   */
  method GroupRound(tz: Tokenizer, ops: Ops, depth: nat, g: Group, sep: Kind) returns (r: Result<(Group, Option<Kind>), LexError>)
    requires Ready(tz) && 0 <= tz.tindex && GroupOk(g)
    modifies tz
    ensures match GroupPass(tz.Full(), ops, old(tz.tindex), depth, g, sep)
      case Err(e) => r == Err(e)
      case Ok(p) =>
        r == Ok((p.g, if p.next.Some? then Some(p.next.value.1) else None)) && Ready(tz) &&
        tz.tindex == if p.next.Some? then p.next.value.0 else p.end
    decreases |tz.Full().toks| - tz.tindex, 3
  {
    ghost var S, ti := tz.Full(), tz.tindex;
    var (unit, segments) := Regroup(g, sep);
    var m := ScanMember(tz, ops, depth, unit, segments);
    if m.Err? {
      PassSteps(S, ops, ti, depth, g, sep);
      return Err(m.error);
    }
    ghost var k := tz.tindex;
    var n := NextSeparator(tz);
    PassSteps(S, ops, ti, depth, g, sep);
    if n.Err? {
      return Err(n.error);
    }
    r := Ok((m.value, if n.value.Some? then Some(n.value.value.kind) else None));
  }

  /** `next(T_SLICE) || next(T_UNION)`: moves onto the next token only when it is a separator. */
  method NextSeparator(tz: Tokenizer) returns (r: Result<Option<Token>, LexError>)
    requires Ready(tz)
    modifies tz
    ensures match NextTok(tz.Full(), old(tz.tindex))
      case Err(e) => r == Err(e)
      case Ok(p) =>
        if p.Some? && (p.value.1.kind == SliceMark || p.value.1.kind == UnionMark) then
          r == Ok(Some(p.value.1)) && tz.tindex == p.value.0 && Ready(tz)
        else r == Ok(None) && tz.tindex == old(tz.tindex) && Ready(tz)
  {
    r := NextOf(tz, Some(SliceMark), false);
    if r.Ok? && r.value.None? {
      r := NextOf(tz, Some(UnionMark), false);
    }
  }

  /** One member of a group; in a hashmap a key, or a key and a value when `:` follows it. */
  method ScanMember(tz: Tokenizer, ops: Ops, depth: nat, g: Group, segments: seq<Unit>) returns (r: Result<Group, LexError>)
    requires Ready(tz) && GroupOk(g)
    modifies tz
    ensures match GroupMember(tz.Full(), ops, old(tz.tindex), depth, g, segments)
      case Ok(p) => r == Ok(p.0) && tz.tindex == p.1 && Ready(tz)
      case Err(e) => r == Err(e)
    decreases |tz.Full().toks| - tz.tindex, 2
  {
    if g.HashG? {
      var s1 :- ScanStatement(tz, ops, depth + 1);
      var segs := segments + [s1];
      if |segs| == 1 {
        var more := NextOf(tz, Some(SliceMark), false);
        if more.Err? {
          return Err(more.error);
        }
        if more.value.Some? {
          var s2 :- ScanStatement(tz, ops, depth + 1);
          segs := segs + [s2];
        }
      }
      r := Ok(HashG(g.from, g.entries + [segs]));
    } else {
      var s :- ScanStatement(tz, ops, depth + 1);
      r := Ok(if g.SliceG? then SliceG(g.parts + [s]) else UnionG(g.parts + [s]));
    }
  }

  /**
   * `lex(tokens)`: scans the top-level statement; tokens left over are a bug report,
   * unless reading them for the report raises the tokenizer's error first.
   */
  method Lex(tz: Tokenizer, ops: Ops) returns (r: Result<Unit, LexError>)
    requires tz.Valid() && tz.tindex == -1
    modifies tz
    ensures r == LexSpec.Lex(tz.Full(), ops)
  {
    var u :- ScanStatement(tz, ops, 0);
    if !tz.AtEnd() {
      var rest := tz.Remaining();
      if rest.Err? {
        return Err(Lexical(rest.error));
      }
      return Err(Syntax(ThatsABug));
    }
    r := Ok(u);
  }
}
