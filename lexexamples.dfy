/** The lexer's behaviour on small token streams. */
module LexExamples {
  import opened Base
  import opened Tokens
  import opened Scan
  import opened Ast
  import opened LexSpec
  import Operators

  /** `in 5`: an infix operator with nothing on its left. */
  lemma InfixWithoutLeft(ops: Ops)
    requires Operators.Lookup(ops, "in").Some? && Operators.Lookup(ops, "in").value.arity == Operators.INFIX
    ensures Lex(Stream([Token(Operator, Text("in"), 1, 1, false), Token(Whitespace, Text(" "), 1, 3, false),
                        Token(LiteralNum, Text("5"), 1, 4, false)], None),
                ops) == Err(Syntax(BadOperator))
  {
    var S := Stream([Token(Operator, Text("in"), 1, 1, false), Token(Whitespace, Text(" "), 1, 3, false),
                     Token(LiteralNum, Text("5"), 1, 4, false)], None);
    assert CursorPeek(S, -1, 1) == Ok(Some((0, S.toks[0])));
    assert NextTok(S, -1) == Ok(Some((0, S.toks[0])));
    assert PeekBack(S, 0) == None by {
      assert CursorPeek(S, 0, -1) == Ok(None);
    }
    assert PeekTok(S, 0) == Ok(Some((2, S.toks[2]))) by {
      assert CursorPeek(S, 0, 2) == Ok(Some((2, S.toks[2])));
    }
    InfixNeedsLeft(S, ops, 0, S.toks[0], 0);
  }

  /**
   * An infix operator at the start of a statement, followed by an operand, raises
   * "Unexpected operator".
   */
  lemma InfixNeedsLeft(S: Stream, ops: Ops, j: int, t: Token, depth: nat)
    requires At(S, j) && 0 <= j && S.toks[j] == t && t.kind == Operator
    requires Operators.Lookup(ops, TextOf(t.contents)).Some?
    requires Operators.Lookup(ops, TextOf(t.contents)).value.arity == Operators.INFIX
    requires PeekBack(S, j).None?
    requires PeekTok(S, j).Ok? && AfterOperator(ops, TokenOf(PeekTok(S, j).value)).None?
    ensures StepFrom(S, ops, j, t, depth, []) == Err(Syntax(BadOperator))
  {
    assert OperatorStep(S, ops, j, t, depth, []) == Err(Syntax(BadOperator));
  }

  /**
   * `)'a`: the statement is empty at the `)`, but `wtf` reads the next token first, so
   * the unterminated string is what is raised.
   */
  lemma CloseBeforeBadString(ops: Ops)
    ensures Lex(Stream([Token(ParenClose, Text(")"), 1, 1, false)], Some(UnterminatedString(1, 2))), ops) ==
      Err(Lexical(UnterminatedString(1, 2)))
  {
    var S := Stream([Token(ParenClose, Text(")"), 1, 1, false)], Some(UnterminatedString(1, 2)));
    assert NextTok(S, -1) == Ok(Some((0, S.toks[0])));
    assert PeekTok(S, 0) == Err(Lexical(UnterminatedString(1, 2))) by {
      assert CursorPeek(S, 0, 1) == Err(UnterminatedString(1, 2));
    }
    assert StepFrom(S, ops, 0, S.toks[0], 0, []) == Err(Lexical(UnterminatedString(1, 2)));
    assert Loop(S, ops, -1, 0, []) == Err(Lexical(UnterminatedString(1, 2)));
  }

  /** `5 in`: an infix operator with nothing on its right. */
  lemma InfixWithoutRight(ops: Ops)
    requires Operators.Lookup(ops, "in").Some? && Operators.Lookup(ops, "in").value.arity == Operators.INFIX
    ensures Lex(Stream([Token(LiteralNum, Text("5"), 1, 1, false), Token(Whitespace, Text(" "), 1, 2, false),
                        Token(Operator, Text("in"), 1, 3, false)], None),
                ops) == Err(Syntax(UnexpectedEol))
  {
    var S := Stream([Token(LiteralNum, Text("5"), 1, 1, false), Token(Whitespace, Text(" "), 1, 2, false),
                     Token(Operator, Text("in"), 1, 3, false)], None);
    assert NextTok(S, -1) == Ok(Some((0, S.toks[0])));
    var five := Literal(Values.Num(Values.NumberValue("5")));
    LiteralBeforeInfix(ops, S, five);
    InfixAtEnd(ops, S, five);
    assert Loop(S, ops, -1, 0, []) == Err(Syntax(UnexpectedEol));
  }

  /** The first step of the example above: the literal, with the operator after it. */
  lemma LiteralBeforeInfix(ops: Ops, S: Stream, five: Unit)
    requires five == Literal(Values.Num(Values.NumberValue("5")))
    requires S == Stream([Token(LiteralNum, Text("5"), 1, 1, false), Token(Whitespace, Text(" "), 1, 2, false),
                          Token(Operator, Text("in"), 1, 3, false)], None)
    ensures StepFrom(S, ops, 0, S.toks[0], 0, []) == Ok(Continue([five], 0))
  {
    LiteralLooksAhead(S, five);
    NumberTokenStep(S, ops, 0, S.toks[0], 0, []);
  }

  /** A number token is read as a literal whatever the operators are. */
  lemma NumberTokenStep(S: Stream, ops: Ops, j: int, t: Token, depth: nat, units: seq<Unit>)
    requires At(S, j) && 0 <= j && S.toks[j] == t && t.kind == LiteralNum && AllCollapsed(units)
    ensures StepFrom(S, ops, j, t, depth, units) == LiteralStep(S, j, t, units)
  {
  }

  /** The literal `5` sees the operator after the white space, so it stays a literal. */
  lemma LiteralLooksAhead(S: Stream, five: Unit)
    requires five == Literal(Values.Num(Values.NumberValue("5")))
    requires S == Stream([Token(LiteralNum, Text("5"), 1, 1, false), Token(Whitespace, Text(" "), 1, 2, false),
                          Token(Operator, Text("in"), 1, 3, false)], None)
    ensures LiteralStep(S, 0, S.toks[0], []) == Ok(Continue([five], 0))
  {
    assert PeekTok(S, 0) == Ok(Some((2, S.toks[2]))) by {
      assert CursorPeek(S, 0, 2) == Ok(Some((2, S.toks[2])));
    }
    assert LiteralUnit(Values.Num(Values.NumberValue("5")), [], Some(S.toks[2])) == five;
  }

  /** The second step of the example above: the operator finds nothing on its right. */
  lemma InfixAtEnd(ops: Ops, S: Stream, five: Unit)
    requires five == Literal(Values.Num(Values.NumberValue("5")))
    requires Operators.Lookup(ops, "in").Some? && Operators.Lookup(ops, "in").value.arity == Operators.INFIX
    requires S == Stream([Token(LiteralNum, Text("5"), 1, 1, false), Token(Whitespace, Text(" "), 1, 2, false),
                          Token(Operator, Text("in"), 1, 3, false)], None)
    ensures Loop(S, ops, 0, 0, [five]) == Err(Syntax(UnexpectedEol))
  {
    assert NextTok(S, 0) == Ok(Some((2, S.toks[2])));
    assert PeekBack(S, 2) == Some(S.toks[2]) by {
      assert CursorPeek(S, 2, -1) == Ok(Some((2, S.toks[2])));
    }
    assert PeekTok(S, 2) == Ok(None) by {
      assert !CursorEof(S, 1);
      assert CursorPeek(S, 2, 1) == Ok(None);
    }
    InfixNeedsRight(S, ops, 2, S.toks[2], 0, [five]);
  }

  /** A prefix or infix operator with nothing after it raises "Unexpected EOL". */
  lemma InfixNeedsRight(S: Stream, ops: Ops, j: int, t: Token, depth: nat, units: seq<Unit>)
    requires At(S, j) && 0 <= j && S.toks[j] == t && t.kind == Operator && AllCollapsed(units)
    requires Operators.Lookup(ops, TextOf(t.contents)).Some?
    requires Operators.Lookup(ops, TextOf(t.contents)).value.arity != Operators.POSTFIX
    requires t.symbol || PeekBack(S, j).None? || PeekBack(S, j).value.kind !in {Child, Recurse}
    requires PeekTok(S, j) == Ok(None)
    ensures StepFrom(S, ops, j, t, depth, units) == Err(Syntax(UnexpectedEol))
  {
    assert OperatorStep(S, ops, j, t, depth, units) == Err(Syntax(UnexpectedEol));
  }

}
