/**
 * The tokenizer object: the input, the scan position with its line and column, the
 * tokens read so far, the cursor index and the previous token, updated in place by
 * the readers and the cursor. Each method is proved to do what the functions of
 * module Scan say.
 */
module Tokenizing {
  import opened Base
  import opened Tokens
  import opened Scan
  import Operators

  /** What a reader did: declined, pushed a token, or raised. */
  datatype Status = Declined | Accepted | Failed(err: ScanError)

  /** Moving in two steps ends where moving the whole distance ends. */
  lemma AdvanceTwice(s: string, st: Pos, k: nat, d: nat)
    requires st.pos + k <= |s|
    ensures Advance(s, Advance(s, st, k), d) == Advance(s, st, k + d)
  {
    var mid := Advance(s, st, k);
    var idx := if st.pos + k + d < |s| then st.pos + k + d else |s|;
    TrackCompose(s, st.pos, st.pos + k, idx, (st.line, st.col));
  }

  /** `input.slice(tindex)`, where a negative index counts from the end. */
  function SliceFrom(xs: seq<Token>, i: int): (r: seq<Token>)
    ensures 0 <= i <= |xs| ==> r == xs[i..]
    ensures i > |xs| ==> r == []
    ensures i < 0 ==> r == xs[(if |xs| + i < 0 then 0 else |xs| + i)..]
  {
    if i < 0 then xs[(if |xs| + i < 0 then 0 else |xs| + i)..]
    else if i >= |xs| then []
    else xs[i..]
  }

  class Tokenizer {
    const input: string
    const words: seq<string>
    const symbols: seq<Operators.SymbolRow>
    var pos: nat
    var line: int
    var col: int
    var tokens: seq<Token>
    var tindex: int
    var previous: Option<Kind>

    /** Every token of the input, with the error that ends the scan if there is one. */
    ghost const full: Stream

    ghost function Full(): Stream {
      full
    }

    ghost function State(): Pos
      reads this
    {
      Pos(pos, line, col)
    }

    /** The tokens read so far followed by the ones still to be read make up the whole scan. */
    ghost predicate Hist()
      reads this
    {
      ValidSymbols(symbols) && pos <= |input| &&
      var rest := ScanFrom(input, words, symbols, State(), previous);
      Full().toks == tokens + rest.toks && Full().failure == rest.failure
    }

    /** The cursor stands on a token read so far, unless the whole input has been read. */
    ghost predicate Valid()
      reads this
    {
      Hist() && (tindex < |tokens| || pos >= |input|)
    }

    /** What a reader did to the tokenizer, given what its function says. */
    ghost predicate Took(a: Attempt, st0: Pos, toks0: seq<Token>, prev0: Option<Kind>, r: Status)
      reads this
    {
      match a
      case Accept(t, nx) => r == Accepted && State() == nx && tokens == toks0 + [t] && previous == Some(t.kind)
      case Decline => r == Declined && State() == st0 && tokens == toks0 && previous == prev0
      case Fail(e) => r == Failed(e)
    }

    constructor (text: string, ops: seq<Operators.OpEntry>)
      requires Operators.DistinctNames(ops)
      requires forall i :: 0 <= i < |ops| ==> ops[i].name != []
      ensures input == Trim(text) && words == Operators.WordNames(ops)
      ensures symbols == Operators.SortRows(Operators.SymbolRowsOf(ops))
      ensures State() == Pos(0, 1, 1) && tokens == [] && tindex == -1 && previous == None
      ensures ValidSymbols(symbols) && Full() == Scan.Scan(input, words, symbols)
      ensures Valid()
    {
      var syms, ws := Operators.ParseOperators(ops);
      Operators.ParsedSymbols(ops, syms);
      var trimmed := Trim(text);
      ghost var whole := Scan.Scan(trimmed, ws, syms);
      assert whole == ScanFrom(trimmed, ws, syms, Pos(0, 1, 1), None);
      assert whole.toks == [] + whole.toks;
      full := whole;
      input := trimmed;
      words := ws;
      symbols := syms;
      pos, line, col := 0, 1, 1;
      tokens, tindex, previous := [], -1, None;
    }

    /** The tokens read so far begin the full scan. */
    lemma TokensSoFar()
      requires Valid()
      ensures |tokens| <= |Full().toks| && forall i :: 0 <= i < |tokens| ==> tokens[i] == Full().toks[i]
    {
    }

    /** `peek(delta)` on characters: none outside the input. */
    function PeekChar(delta: int): (r: Option<char>)
      reads this
      ensures r.Some? <==> 0 <= pos + delta < |input|
      ensures r.Some? ==> r.value == input[pos + delta]
    {
      var i := pos + delta;
      if 0 <= i < |input| then Some(input[i]) else None
    }

    /** `parseChar` for the character at `i`. */
    method ParseChar(i: nat)
      requires i < |input|
      modifies this`line, this`col
      ensures (line, col) == TrackChar(input, i, (old(line), old(col)))
    {
      var c := input[i];
      if c == CR || c == LF {
        if c == LF && i > 0 && input[i - 1] == CR {
          return;
        }
        line := line + 1;
        col := 1;
      } else {
        col := col + 1;
      }
    }

    /** `move(delta)`. */
    method Move(delta: nat)
      requires pos <= |input|
      modifies this`pos, this`line, this`col
      ensures State() == Advance(input, old(State()), delta)
    {
      var index := if pos + delta < |input| then pos + delta else |input|;
      ghost var lc0 := (line, col);
      for i := pos to index
        invariant (line, col) == Track(input, old(pos), i, lc0)
      {
        ParseChar(i);
      }
      pos := index;
    }

    /** `token(...)`: push a token and remember it as the previous one. */
    method PushToken(t: Token)
      modifies this`tokens, this`previous
      ensures tokens == old(tokens) + [t] && previous == Some(t.kind)
    {
      tokens := tokens + [t];
      previous := Some(t.kind);
    }

    method ReadWhitespace() returns (r: Status)
      requires pos < |input|
      modifies this`pos, this`line, this`col, this`tokens, this`previous
      ensures Took(Scan.ReadWhitespace(input, old(State())), old(State()), old(tokens), old(previous), r)
    {
      var p, l, c := pos, line, col;
      while pos < |input| && input[pos] != NUL
        invariant p <= pos <= |input|
        invariant WsEnd(input, pos) == WsEnd(input, p)
        invariant State() == Advance(input, Pos(p, l, c), pos - p)
        invariant tokens == old(tokens) && previous == old(previous)
        decreases |input| - pos
      {
        var ch := input[pos];
        if ch as int > 14 && ch != ' ' && ch != NBSP {
          break;
        }
        AdvanceTwice(input, Pos(p, l, c), pos - p, 1);
        Move(1);
      }
      if p == pos {
        return Declined;
      }
      PushToken(Token(Whitespace, Text(input[p..pos]), l, c, false));
      return Accepted;
    }

    /** The bracket, paren and curl readers. */
    method ReadSingle(ch: char, kind: Kind) returns (r: Status)
      requires pos < |input|
      modifies this`pos, this`line, this`col, this`tokens, this`previous
      ensures Took(Scan.ReadSingle(input, old(State()), ch, kind), old(State()), old(tokens), old(previous), r)
    {
      if PeekChar(0) != Some(ch) {
        return Declined;
      }
      PushToken(Token(kind, Text([ch]), line, col, false));
      Move(1);
      return Accepted;
    }

    method ReadIdentifier() returns (r: Status)
      requires pos < |input|
      modifies this`pos, this`line, this`col, this`tokens, this`previous
      ensures Took(Scan.ReadIdentifier(input, old(State()), words), old(State()), old(tokens), old(previous), r)
    {
      var c0 := input[pos];
      if IsNumeric(c0) || !IsIdent(c0) || c0 == '.' {
        return Declined;
      }
      var p, l, c := pos, line, col;
      Move(1);
      ScanIdentifier();
      AdvanceTwice(input, Pos(p, l, c), 1, pos - p - 1);
      var kc := ClassifyWord(input[p..pos], words);
      PushToken(Token(kc.0, kc.1, l, c, false));
      return Accepted;
    }

    /** The loop of `readIdentifier`: identifier characters up to the first other one. */
    method ScanIdentifier()
      requires pos <= |input|
      modifies this`pos, this`line, this`col
      ensures pos == IdentEnd(input, old(pos))
      ensures State() == Advance(input, old(State()), pos - old(pos))
    {
      var p, l, c := pos, line, col;
      while pos < |input| && input[pos] != NUL
        invariant p <= pos <= |input|
        invariant IdentEnd(input, pos) == IdentEnd(input, p)
        invariant State() == Advance(input, Pos(p, l, c), pos - p)
        decreases |input| - pos
      {
        if !IsIdent(input[pos]) {
          break;
        }
        AdvanceTwice(input, Pos(p, l, c), pos - p, 1);
        Move(1);
      }
    }

    method ReadNumber() returns (r: Status)
      requires pos < |input|
      modifies this`pos, this`line, this`col, this`tokens, this`previous
      ensures Took(Scan.ReadNumber(input, old(State()), old(previous)), old(State()), old(tokens), old(previous), r)
    {
      var c0 := input[pos];
      if !IsNumeric(c0) && !IsMinusPeriod(c0) {
        return Declined;
      }
      if IsMinusPeriod(c0) && !(pos + 1 < |input| && IsNumeric(input[pos + 1])) {
        return Declined;
      }
      if c0 == '-' && !MinusMayStart(previous) {
        // this minus has to be an operator
        return Declined;
      }
      var p, l, c := pos, line, col;
      ScanNumber();
      PushToken(Token(LiteralNum, Text(input[p..pos]), l, c, false));
      return Accepted;
    }

    /** The loop of `readNumber`: a leading minus, digits and at most one period. */
    method ScanNumber()
      requires pos < |input|
      modifies this`pos, this`line, this`col
      ensures pos == NumberEnd(input, old(pos), old(pos), false)
      ensures State() == Advance(input, old(State()), pos - old(pos))
    {
      var p, l, c := pos, line, col;
      var hasPeriod := false;
      var ch := input[pos];
      ghost var goal := NumberEnd(input, p, p, false);
      while true
        invariant p <= pos < |input| && ch == input[pos]
        invariant NumberEnd(input, p, pos, hasPeriod) == goal
        invariant State() == Advance(input, Pos(p, l, c), pos - p)
        invariant pos == p ==> !hasPeriod
        decreases |input| - pos
      {
        if ch == '-' {
          if pos != p {
            break;
          }
        } else if ch == '.' {
          if hasPeriod {
            break;
          }
        } else if !IsNumeric(ch) {
          break;
        }
        assert NumberEnd(input, p, pos, hasPeriod) == NumberEnd(input, p, pos + 1, hasPeriod || ch == '.');
        hasPeriod := hasPeriod || ch == '.';
        AdvanceTwice(input, Pos(p, l, c), pos - p, 1);
        Move(1);
        if pos >= |input| || input[pos] == NUL {
          break;
        }
        ch := input[pos];
      }
    }

    method ReadString() returns (r: Status)
      requires pos < |input|
      modifies this`pos, this`line, this`col, this`tokens, this`previous
      ensures Took(Scan.ReadString(input, old(State())), old(State()), old(tokens), old(previous), r)
    {
      var fence := input[pos];
      if !IsQuot(fence) {
        return Declined;
      }
      var p, l, c := pos, line, col;
      Move(1);
      var found := ScanString(fence);
      AdvanceTwice(input, Pos(p, l, c), 1, pos - p - 1);
      if found {
        var body := if pos - p == 1 then "" else Unescape(input[p + 1..pos]);
        PushToken(Token(LiteralStr, Text(body), l, c, false));
        AdvanceTwice(input, Pos(p, l, c), pos - p, 1);
        Move(1);
        return Accepted;
      }
      return Failed(UnterminatedString(l, c));
    }

    /** The loop of `readString`: up to the closing fence, a backslash skipping two characters. */
    method ScanString(fence: char) returns (found: bool)
      requires pos <= |input|
      modifies this`pos, this`line, this`col
      ensures found <==> StringEnd(input, old(pos), fence).Some?
      ensures found ==> pos == StringEnd(input, old(pos), fence).value
      ensures old(pos) <= pos <= |input|
      ensures State() == Advance(input, old(State()), pos - old(pos))
    {
      var p, l, c := pos, line, col;
      while pos < |input| && input[pos] != NUL
        invariant p <= pos <= |input|
        invariant StringEnd(input, pos, fence) == StringEnd(input, p, fence)
        invariant State() == Advance(input, Pos(p, l, c), pos - p)
        decreases |input| - pos
      {
        var ch := input[pos];
        if ch == '\\' {
          AdvanceTwice(input, Pos(p, l, c), pos - p, 2);
          Move(2);
          continue;
        }
        if ch == fence {
          return true;
        }
        AdvanceTwice(input, Pos(p, l, c), pos - p, 1);
        Move(1);
      }
      return false;
    }

    method ReadRegularExpression() returns (r: Status)
      requires pos < |input|
      modifies this`pos, this`line, this`col, this`tokens, this`previous
      ensures Took(Scan.ReadRegularExpression(input, old(State())), old(State()), old(tokens), old(previous), r)
    {
      if input[pos] != '/' || (pos + 1 < |input| && input[pos + 1] == '/') {
        return Declined;
      }
      var p, l, c := pos, line, col;
      Move(1);
      var closed := ScanRegex();
      AdvanceTwice(input, Pos(p, l, c), 1, pos - p - 1);
      assert RegexStarts(input, p) && RegexEnd(input, p + 1, false) == (pos, closed);
      if closed {
        var parts := Split(input[p..pos], '/');
        var source := if |parts| > 1 then parts[1] else "";
        var flags := if |parts| > 2 then parts[2] else "";
        assert Scan.ReadRegularExpression(input, Pos(p, l, c)) ==
          Accept(Token(RegExp, Pattern(source, flags), l, c, false), State());
        PushToken(Token(RegExp, Pattern(source, flags), l, c, false));
        return Accepted;
      }
      assert Scan.ReadRegularExpression(input, Pos(p, l, c)) == Fail(UnterminatedRegex(l, c));
      return Failed(UnterminatedRegex(l, c));
    }

    /**
     * The body of the regular-expression reader's loop: after the closing slash only
     * letters (the flags) are consumed; before it a backslash skips two characters.
     */
    method ScanRegex() returns (closed: bool)
      requires pos <= |input|
      modifies this`pos, this`line, this`col
      ensures (pos, closed) == RegexEnd(input, old(pos), false)
      ensures State() == Advance(input, old(State()), pos - old(pos))
    {
      var p, l, c := pos, line, col;
      closed := false;
      while pos < |input| && input[pos] != NUL
        invariant p <= pos <= |input|
        invariant RegexEnd(input, pos, closed) == RegexEnd(input, p, false)
        invariant State() == Advance(input, Pos(p, l, c), pos - p)
        decreases |input| - pos
      {
        var ch := input[pos];
        if closed {
          if IsAlpha(ch) {
            AdvanceTwice(input, Pos(p, l, c), pos - p, 1);
            Move(1);
            continue;
          }
          break;
        }
        if ch == '\\' {
          AdvanceTwice(input, Pos(p, l, c), pos - p, 2);
          Move(2);
          continue;
        }
        if ch == '/' {
          closed := true;
        }
        AdvanceTwice(input, Pos(p, l, c), pos - p, 1);
        Move(1);
      }
    }

    /** `matchChars`: do the next characters have exactly these codes? */
    method MatchChars(codes: seq<int>) returns (r: bool)
      requires pos <= |input|
      ensures r == MatchCodes(input, pos, codes)
    {
      for i := 0 to |codes|
        invariant i == 0 || pos + i <= |input|
        invariant forall k :: 0 <= k < i ==> pos + k < |input| && input[pos + k] as int == codes[k]
      {
        var ch := PeekChar(i);
        if ch.None? || ch.value as int != codes[i] {
          assert !MatchCodes(input, pos, codes) by {
            assert !(pos + i < |input| && input[pos + i] as int == codes[i]);
          }
          return false;
        }
      }
      return true;
    }

    method ReadOperator() returns (r: Status)
      requires pos < |input| && ValidSymbols(symbols)
      modifies this`pos, this`line, this`col, this`tokens, this`previous
      ensures Took(Scan.ReadOperator(input, old(State()), symbols), old(State()), old(tokens), old(previous), r)
    {
      var ch := input[pos];
      if ch == '.' {
        if PeekChar(1) == Some('.') {
          PushToken(Token(Recurse, Text(".."), line, col, false));
          Move(2);
        } else {
          PushToken(Token(Child, Text("."), line, col, false));
          Move(1);
        }
        return Accepted;
      }
      if ch == '@' || ch == '?' || ch == ':' || ch == ',' || ch == '#' || ch == '%' {
        var kind := if ch == '?' then FilterMark else if ch == ':' then SliceMark
          else if ch == ',' then UnionMark else Target;
        PushToken(Token(kind, Text([ch]), line, col, false));
        Move(1);
        return Accepted;
      }
      for k := 0 to |symbols|
        invariant forall m :: 0 <= m < k ==> !MatchCodes(input, pos, symbols[m].codes)
        invariant State() == old(State()) && tokens == old(tokens) && previous == old(previous)
      {
        var matched := MatchChars(symbols[k].codes);
        if matched {
          var l, c := line, col;
          Move(|symbols[k].name|);
          PushToken(Token(Operator, Text(symbols[k].name), l, c, true));
          return Accepted;
        }
      }
      return Declined;
    }

    /** Runs one reader of `read.order`. */
    method RunReader(rd: Reader) returns (r: Status)
      requires pos < |input| && ValidSymbols(symbols)
      modifies this`pos, this`line, this`col, this`tokens, this`previous
      ensures Took(Scan.RunReader(rd, input, old(State()), old(previous), words, symbols),
                   old(State()), old(tokens), old(previous), r)
    {
      match rd
      case WhitespaceReader => r := ReadWhitespace();
      case BrackStart => r := ReadSingle('[', BracketOpen);
      case ParenStart => r := ReadSingle('(', ParenOpen);
      case CurlStart => r := ReadSingle('{', MapOpen);
      case IdentifierReader => r := ReadIdentifier();
      case NumberReader => r := ReadNumber();
      case StringReader => r := ReadString();
      case RegExpReader => r := ReadRegularExpression();
      case OperatorReader => r := ReadOperator();
      case BrackEnd => r := ReadSingle(']', BracketClose);
      case ParenEnd => r := ReadSingle(')', ParenClose);
      case CurlEnd => r := ReadSingle('}', MapClose);
    }

    /** `read()`: nothing at the end of the input, otherwise the first reader that accepts. */
    method Read() returns (r: Status)
      requires Hist()
      modifies this`pos, this`line, this`col, this`tokens, this`previous
      ensures old(pos) >= |input| ==>
        r == Declined && State() == old(State()) && tokens == old(tokens) && previous == old(previous)
      ensures old(pos) < |input| ==>
        Took(ReadToken(input, old(State()), old(previous), words, symbols), old(State()), old(tokens), old(previous), r)
      ensures r == Accepted ==> old(pos) < pos
      ensures !r.Failed? ==> Hist()
      ensures r.Failed? ==> Full().failure == Some(r.err) && Full().toks == old(tokens)
    {
      if pos >= |input| {
        return Declined;
      }
      ghost var st0 := State();
      for k := 0 to |ReadOrder|
        invariant State() == st0 && tokens == old(tokens) && previous == old(previous)
        invariant ReadFrom(k, input, st0, previous, words, symbols) ==
                  ReadFrom(0, input, st0, previous, words, symbols)
      {
        r := RunReader(ReadOrder[k]);
        if r != Declined {
          return;
        }
      }
      r := Failed(UnknownToken(line, col));
    }

    /** The cursor's `eof`: the input is read to the end and no token lies after the cursor. */
    function AtEnd(): (b: bool)
      reads this
      requires Valid()
      ensures b <==> CursorEof(Full(), tindex)
    {
      pos >= |input| && tindex >= |tokens| - 1
    }

    /** The read loop of `next` and `peek`: reads until the token at `idx` exists or the input is exhausted. */
    method Fill(idx: int) returns (e: Option<ScanError>)
      requires Valid()
      modifies this`pos, this`line, this`col, this`tokens, this`previous
      ensures e.Some? ==> Full().failure == e && idx >= |Full().toks|
      ensures e.None? ==> Valid() && (idx < |tokens| || (pos >= |input| && tokens == Full().toks && Full().failure.None?))
    {
      while idx >= |tokens| && pos < |input|
        invariant Valid()
        decreases |input| - pos
      {
        var st := Read();
        if st.Failed? {
          return Some(st.err);
        }
      }
      if pos >= |input| {
        assert ScanFrom(input, words, symbols, State(), previous) == Stream([], None);
        assert Full().toks == tokens + [] == tokens;
      }
      return None;
    }

    /** `next()`: moves the cursor to the next token that is not whitespace. */
    method Next() returns (r: Result<Option<Token>, ScanError>)
      requires Valid()
      modifies this
      ensures match CursorNext(Full(), old(tindex))
        case Ok(v) => r == Ok(v.1) && tindex == v.0 && Valid()
        case Err(e) => r == Err(e)
      decreases |Full().toks| - tindex
    {
      ghost var t0 := tindex;
      var e := Fill(tindex + 1);
      if e.Some? {
        assert CursorNext(Full(), t0) == Err(e.value);
        return Err(e.value);
      }
      tindex := tindex + 1;
      TokensSoFar();
      if 0 <= tindex < |tokens| && tokens[tindex].kind == Whitespace {
        assert CursorNext(Full(), t0) == CursorNext(Full(), tindex);
        r := Next();
        return;
      }
      r := Ok(if 0 <= tindex < |tokens| then Some(tokens[tindex]) else None);
    }

    /** `peek(delta)`: the token `delta` places on, skipping whitespace, reading as needed. */
    method Peek(delta: int) returns (r: Result<Option<Token>, ScanError>)
      requires Valid()
      modifies this`pos, this`line, this`col, this`tokens, this`previous
      ensures match CursorPeek(Full(), tindex, delta)
        case Ok(v) => r == Ok(if v.Some? then Some(v.value.1) else None) && Valid()
        case Err(e) => r == Err(e)
      decreases |Full().toks| - (tindex + delta)
    {
      var idx := tindex + delta;
      var e := Fill(idx);
      PeekOnce(Full(), tindex, delta);
      if e.Some? {
        assert CursorPeek(Full(), tindex, delta) == Err(e.value);
        return Err(e.value);
      }
      TokensSoFar();
      if 0 <= idx < |tokens| {
        assert tokens[idx] == Full().toks[idx];
        if tokens[idx].kind == Whitespace {
          r := Peek(delta + 1);
          return;
        }
        r := Ok(Some(tokens[idx]));
      } else {
        r := Ok(None);
      }
    }

    /** `prev()`: moves the cursor back to the previous token that is not whitespace. */
    method Prev() returns (t: Option<Token>)
      requires Valid()
      modifies this`tindex
      ensures tindex == CursorPrev(Full(), old(tindex)) && Valid()
      ensures t == (if 0 <= tindex < |Full().toks| then Some(Full().toks[tindex]) else None)
    {
      TokensSoFar();
      var i := tindex;
      while true
        invariant i <= old(tindex)
        invariant CursorPrev(Full(), i) == CursorPrev(Full(), old(tindex))
        decreases if i < 0 then 0 else i + 1
      {
        if i == 0 {
          break;
        }
        i := i - 1;
        if !(0 <= i < |tokens| && tokens[i].kind == Whitespace) {
          break;
        }
      }
      tindex := i;
      t := if 0 <= i < |tokens| then Some(tokens[i]) else None;
    }

    /** `readAll()`: every token of the input, or the error that stops the scan. */
    method ReadAll() returns (r: Result<seq<Token>, ScanError>)
      requires Valid()
      modifies this`pos, this`line, this`col, this`tokens, this`previous
      ensures Full().failure.Some? ==> r == Err(Full().failure.value)
      ensures Full().failure.None? ==> r == Ok(Full().toks) && tokens == Full().toks && Valid()
    {
      while true
        invariant Valid()
        decreases |input| - pos
      {
        var st := Read();
        if st.Failed? {
          return Err(st.err);
        }
        if st == Declined {
          break;
        }
      }
      assert pos >= |input|;
      assert ScanFrom(input, words, symbols, State(), previous) == Stream([], None);
      assert Full().toks == tokens + [] == tokens;
      return Ok(tokens);
    }

    /** `remaining()`: the tokens from the cursor on, after reading the whole input. */
    method Remaining() returns (r: Result<seq<Token>, ScanError>)
      requires Valid()
      modifies this`pos, this`line, this`col, this`tokens, this`previous
      ensures Full().failure.Some? ==> r == Err(Full().failure.value)
      ensures Full().failure.None? ==> r == Ok(SliceFrom(Full().toks, tindex))
    {
      var all := ReadAll();
      if all.Err? {
        return Err(all.error);
      }
      return Ok(SliceFrom(tokens, tindex));
    }
  }
}
