/**
 * The scanner as functions of the input: one function per reader, the reader order,
 * the whole token stream of an input, and the token cursor over that stream. The
 * imperative tokenizer in module Tokenizing is proved to compute these.
 */
module Scan {
  import opened Base
  import opened Tokens
  import Operators

  /** Scanner position: the input offset and the line and column it stands on. */
  datatype Pos = Pos(pos: nat, line: int, col: int)

  datatype ScanError =
    | UnterminatedString(line: int, col: int)
    | UnterminatedRegex(line: int, col: int)
    | UnknownToken(line: int, col: int)

  /** What a reader does at a position: decline, produce a token and move on, or raise. */
  datatype Attempt = Decline | Accept(tok: Token, next: Pos) | Fail(err: ScanError)

  /** Every token of an input, whitespace included, and the error that stopped the scan, if any. */
  datatype Stream = Stream(toks: seq<Token>, failure: Option<ScanError>)

  // ---- line and column ----

  /** `parseChar` for the character at `i`: CR, LF and CRLF each start one new line. */
  function TrackChar(s: string, i: nat, lc: (int, int)): (int, int)
    requires i < |s|
  {
    if s[i] == CR then (lc.0 + 1, 1)
    else if s[i] == LF then (if i > 0 && s[i - 1] == CR then lc else (lc.0 + 1, 1))
    else (lc.0, lc.1 + 1)
  }

  /** Line and column `a` come no later than `b`: an earlier line, or the same line and a column not after. */
  predicate NotAfter(a: (int, int), b: (int, int)) { a.0 < b.0 || (a.0 == b.0 && a.1 <= b.1) }

  /** Line and column after reading `s[i..j]` from line and column `lc`; reading never moves back. */
  function Track(s: string, i: nat, j: nat, lc: (int, int)): (r: (int, int))
    requires i <= j <= |s|
    ensures NotAfter(lc, r)
    decreases j - i
  {
    if i == j then lc else TrackChar(s, j - 1, Track(s, i, j - 1, lc))
  }

  /** Reading a stretch in two moves ends on the same line and column as reading it in one. */
  lemma {:induction false} TrackCompose(s: string, i: nat, k: nat, j: nat, lc: (int, int))
    requires i <= k <= j <= |s|
    ensures Track(s, k, j, Track(s, i, k, lc)) == Track(s, i, j, lc)
    decreases j - k
  {
    if k < j {
      TrackCompose(s, i, k, j - 1, lc);
    }
  }

  /** The number of line breaks in a text, counting CRLF once: an independent reference. */
  function LineBreaks(t: string): nat {
    if t == [] then 0
    else if t[0] == CR && |t| > 1 && t[1] == LF then 1 + LineBreaks(t[2..])
    else if t[0] == CR || t[0] == LF then 1 + LineBreaks(t[1..])
    else LineBreaks(t[1..])
  }

  /** Line counting agrees with the reference when the stretch does not start inside a CRLF. */
  lemma {:induction false} TrackCountsLineBreaks(s: string, i: nat, j: nat, lc: (int, int))
    requires i <= j <= |s|
    requires i == 0 || i == j || s[i - 1] != CR || s[i] != LF
    ensures Track(s, i, j, lc).0 == lc.0 + LineBreaks(s[i..j])
    decreases j - i
  {
    if i < j {
      var t := s[i..j];
      TrackCompose(s, i, i + 1, j, lc);
      var lc1 := TrackChar(s, i, lc);
      assert Track(s, i, i + 1, lc) == lc1;
      if s[i] == CR && i + 1 < j && s[i + 1] == LF {
        TrackCompose(s, i + 1, i + 2, j, lc1);
        assert Track(s, i + 1, i + 2, lc1) == lc1;
        assert t[2..] == s[i + 2..j];
        TrackCountsLineBreaks(s, i + 2, j, lc1);
      } else {
        assert t[1..] == s[i + 1..j];
        TrackCountsLineBreaks(s, i + 1, j, lc1);
      }
    }
  }

  /** `parseChar` as written: the CRLF test reads the character where the move began. */
  function TrackCharAsWritten(s: string, i: nat, lc: (int, int)): (int, int)
    requires i < |s|
  {
    if s[i] == CR || s[i] == LF then (lc.0 + 1, 1) else (lc.0, lc.1 + 1)
  }

  function TrackAsWritten(s: string, i: nat, j: nat, lc: (int, int)): (int, int)
    requires i <= j <= |s|
    decreases j - i
  {
    if i == j then lc else TrackCharAsWritten(s, j - 1, TrackAsWritten(s, i, j - 1, lc))
  }

  /** As written, a CRLF line ending counts as two lines: "b" in "a\r\nb" ends up on line 3. */
  lemma CrLfCountsTwiceAsWritten()
    ensures TrackAsWritten("a\r\nb", 0, 4, (1, 1)) == (3, 2)
  {
  }

  /** With CRLF counted once, "b" in "a\r\nb" is on line 2. */
  lemma CrLfCountsOnce()
    ensures Track("a\r\nb", 0, 4, (1, 1)) == (2, 2)
  {
  }

  /** `move(delta)`: clamps the target to the end of the input and tracks the characters passed. */
  function Advance(s: string, st: Pos, delta: nat): (r: Pos)
    requires st.pos <= |s|
    ensures r.pos <= |s|
    ensures st.pos + delta <= |s| ==> r.pos == st.pos + delta
    ensures st.pos + delta > |s| ==> r.pos == |s|
    ensures NotAfter((st.line, st.col), (r.line, r.col))
  {
    var idx := if st.pos + delta < |s| then st.pos + delta else |s|;
    var lc := Track(s, st.pos, idx, (st.line, st.col));
    Pos(idx, lc.0, lc.1)
  }

  // ---- the readers ----

  /** The end of the run of whitespace characters starting at `i`. */
  function WsEnd(s: string, i: nat): (r: nat)
    requires i <= |s|
    ensures i <= r <= |s|
    ensures forall k :: i <= k < r ==> IsSpaceChar(s[k])
    ensures r == |s| || !IsSpaceChar(s[r])
    decreases |s| - i
  {
    if i < |s| && IsSpaceChar(s[i]) then WsEnd(s, i + 1) else i
  }

  predicate Progress(s: string, st: Pos, a: Attempt) {
    a.Accept? ==>
      st.pos < a.next.pos <= |s| && a.tok.line == st.line && a.tok.col == st.col &&
      NotAfter((st.line, st.col), (a.next.line, a.next.col))
  }

  function ReadWhitespace(s: string, st: Pos): (a: Attempt)
    requires st.pos < |s|
    ensures Progress(s, st, a) && !a.Fail?
  {
    var e := WsEnd(s, st.pos);
    if e == st.pos then Decline
    else Accept(Token(Whitespace, Text(s[st.pos..e]), st.line, st.col, false), Advance(s, st, e - st.pos))
  }

  /** The bracket, paren and curl readers: one character, one token. */
  function ReadSingle(s: string, st: Pos, ch: char, kind: Kind): (a: Attempt)
    requires st.pos < |s|
    ensures Progress(s, st, a) && !a.Fail?
    ensures a.Accept? <==> s[st.pos] == ch
  {
    if s[st.pos] != ch then Decline
    else Accept(Token(kind, Text([ch]), st.line, st.col, false), Advance(s, st, 1))
  }

  function IdentEnd(s: string, i: nat): (r: nat)
    requires i <= |s|
    ensures i <= r <= |s|
    ensures forall k :: i <= k < r ==> IsIdent(s[k])
    ensures r == |s| || !IsIdent(s[r])
    decreases |s| - i
  {
    if i < |s| && IsIdent(s[i]) then IdentEnd(s, i + 1) else i
  }

  /** The kind and contents of a scanned word. */
  function ClassifyWord(text: string, words: seq<string>): (r: (Kind, Contents))
    ensures r.0 == LiteralPri <==> text in {"true", "false", "null"}
    ensures r.0 == LiteralPri ==>
      r.1 == (if text == "true" then TrueLit else if text == "false" then FalseLit else NullLit)
    ensures r.0 == Target <==> text == "$"
    ensures r.0 == Operator <==> text !in {"true", "false", "null", "$"} && text in words
    ensures r.0 == Identifier <==> text !in {"true", "false", "null", "$"} && text !in words
    ensures r.0 != LiteralPri ==> r.1 == Text(text)
  {
    if text == "true" then (LiteralPri, TrueLit)
    else if text == "false" then (LiteralPri, FalseLit)
    else if text == "null" then (LiteralPri, NullLit)
    else if text == "$" then (Target, Text("$"))
    else if text in words then (Operator, Text(text))
    else (Identifier, Text(text))
  }

  function ReadIdentifier(s: string, st: Pos, words: seq<string>): (a: Attempt)
    requires st.pos < |s|
    ensures Progress(s, st, a) && !a.Fail?
    ensures a.Accept? <==> IsIdent(s[st.pos]) && !IsNumeric(s[st.pos])
  {
    var c := s[st.pos];
    if IsNumeric(c) || !IsIdent(c) || c == '.' then Decline
    else
      var e := IdentEnd(s, st.pos + 1);
      var kc := ClassifyWord(s[st.pos..e], words);
      Accept(Token(kc.0, kc.1, st.line, st.col, false), Advance(s, st, e - st.pos))
  }

  /**
   * `s[i..r]` continues a number that starts at `p`: digits, a minus only at `p`, a
   * period only while none was seen, and `s[r]` (if any) cannot continue it.
   */
  predicate NumberExtent(s: string, p: nat, i: nat, r: nat, hasPeriod: bool)
    requires p <= i <= r <= |s|
  {
    && (forall k :: i <= k < r ==> IsNumeric(s[k]) || s[k] == '.' || (s[k] == '-' && k == p))
    && (hasPeriod ==> forall k :: i <= k < r ==> s[k] != '.')
    && (forall k, m :: i <= k < m < r && s[k] == '.' ==> s[m] != '.')
    && (r < |s| ==>
         (s[r] == '-' && r != p) ||
         (s[r] == '.' && (hasPeriod || '.' in s[i..r])) ||
         (!IsNumeric(s[r]) && s[r] != '-' && s[r] != '.'))
  }

  /**
   * The end of a number that starts at `p`, scanning from `i`: a minus only at the
   * start, at most one period, digits otherwise.
   */
  function NumberEnd(s: string, p: nat, i: nat, hasPeriod: bool): (r: nat)
    requires p <= i <= |s|
    ensures i <= r <= |s|
    decreases |s| - i
  {
    if i >= |s| then i
    else if s[i] == '-' then (if i != p then i else NumberEnd(s, p, i + 1, hasPeriod))
    else if s[i] == '.' then (if hasPeriod then i else NumberEnd(s, p, i + 1, true))
    else if !IsNumeric(s[i]) then i
    else NumberEnd(s, p, i + 1, hasPeriod)
  }

  /** The number that `NumberEnd` delimits is exactly the longest run the number rule admits. */
  lemma {:induction false} NumberEndExtent(s: string, p: nat, i: nat, hasPeriod: bool)
    requires p <= i <= |s|
    ensures NumberExtent(s, p, i, NumberEnd(s, p, i, hasPeriod), hasPeriod)
    decreases |s| - i
  {
    var r := NumberEnd(s, p, i, hasPeriod);
    if i >= |s| || r == i {
    } else {
      var hp := hasPeriod || s[i] == '.';
      NumberEndExtent(s, p, i + 1, hp);
      assert r == NumberEnd(s, p, i + 1, hp);
      assert s[i..r] == [s[i]] + s[i + 1..r];
    }
  }

  /** May a minus at the current position start a number, given the previous token? */
  predicate MinusMayStart(prev: Option<Kind>) { prev.None? || NumbersCanFollow(prev.value) }

  function ReadNumber(s: string, st: Pos, prev: Option<Kind>): (a: Attempt)
    requires st.pos < |s|
    ensures Progress(s, st, a) && !a.Fail?
    ensures a.Accept? && s[st.pos] == '-' ==> MinusMayStart(prev)
    ensures a.Decline? <==>
      (!IsNumeric(s[st.pos]) && !IsMinusPeriod(s[st.pos])) ||
      (IsMinusPeriod(s[st.pos]) && !(st.pos + 1 < |s| && IsNumeric(s[st.pos + 1]))) ||
      (s[st.pos] == '-' && !MinusMayStart(prev))
    ensures a.Accept? ==>
      var e := NumberEnd(s, st.pos, st.pos, false);
      a.tok.kind == LiteralNum && a.tok.contents == Text(s[st.pos..e]) && a.next == Advance(s, st, e - st.pos)
  {
    var c := s[st.pos];
    if !IsNumeric(c) && !IsMinusPeriod(c) then Decline
    else if IsMinusPeriod(c) && !(st.pos + 1 < |s| && IsNumeric(s[st.pos + 1])) then Decline
    else if c == '-' && !MinusMayStart(prev) then Decline
    else
      var e := NumberEnd(s, st.pos, st.pos, false);
      assert e > st.pos;
      Accept(Token(LiteralNum, Text(s[st.pos..e]), st.line, st.col, false), Advance(s, st, e - st.pos))
  }

  /** What `readNumber` as written leaves behind: a token, or no token after having moved. */
  datatype NumberOutcome = NumberToken(text: string, end: nat) | Dropped(at: nat) | NoNumber

  /**
   * `readNumber` as written: the previous-token test runs for every minus, also one
   * met after digits, and returns without a token but with the digits consumed.
   */
  function ReadNumberAsWritten(s: string, pos: nat, prev: Option<Kind>): NumberOutcome
    requires pos < |s|
  {
    var c := s[pos];
    if !IsNumeric(c) && !IsMinusPeriod(c) then NoNumber
    else if IsMinusPeriod(c) && !(pos + 1 < |s| && IsNumeric(s[pos + 1])) then NoNumber
    else NumberLoopAsWritten(s, pos, pos, false, prev)
  }

  function NumberLoopAsWritten(s: string, p: nat, i: nat, hasPeriod: bool, prev: Option<Kind>): NumberOutcome
    requires p <= i <= |s|
    decreases |s| - i
  {
    if i >= |s| then NumberToken(s[p..i], i)
    else if s[i] == '-' then
      (if !MinusMayStart(prev) then (if i == p then NoNumber else Dropped(i))
       else if i != p then NumberToken(s[p..i], i)
       else NumberLoopAsWritten(s, p, i + 1, hasPeriod, prev))
    else if s[i] == '.' then
      (if hasPeriod then NumberToken(s[p..i], i) else NumberLoopAsWritten(s, p, i + 1, true, prev))
    else if !IsNumeric(s[i]) then NumberToken(s[p..i], i)
    else NumberLoopAsWritten(s, p, i + 1, hasPeriod, prev)
  }

  /** In "#2-1" the digit after the key target is consumed and no token is made of it. */
  lemma NumberDroppedAsWritten()
    ensures ReadNumberAsWritten("#2-1", 1, Some(Target)) == Dropped(2)
    ensures ReadNumber("#2-1", Pos(1, 1, 2), Some(Target)) ==
      Accept(Token(LiteralNum, Text("2"), 1, 2, false), Pos(2, 1, 3))
  {
    assert "#2-1"[1..2] == "2";
  }

  predicate IsLineTerminator(c: char) { c == LF || c == CR || c as int == 0x2028 || c as int == 0x2029 }

  /** `replace(/\\(.)/, '$1')` as written: only the first escape is removed. */
  function UnescapeFirst(t: string): string {
    if |t| < 2 then t
    else if t[0] == '\\' && !IsLineTerminator(t[1]) then t[1..]
    else [t[0]] + UnescapeFirst(t[1..])
  }

  /** Every backslash escape removed, as `replace(/\\(.)/g, '$1')` does. */
  function Unescape(t: string): string {
    if |t| < 2 then t
    else if t[0] == '\\' && !IsLineTerminator(t[1]) then [t[1]] + Unescape(t[2..])
    else [t[0]] + Unescape(t[1..])
  }

  /** A string's contents with backslashes and the fence escaped, as a query author writes it. */
  function Escape(x: string, fence: char): (t: string)
    ensures |t| >= |x|
  {
    if x == [] then []
    else (if x[0] == '\\' || x[0] == fence then ['\\', x[0]] else [x[0]]) + Escape(x[1..], fence)
  }

  lemma {:induction false} UnescapeEscape(x: string, fence: char)
    requires !IsLineTerminator(fence)
    ensures Unescape(Escape(x, fence)) == x
  {
    if x != [] {
      var t := Escape(x, fence);
      var rest := Escape(x[1..], fence);
      UnescapeEscape(x[1..], fence);
      if x[0] == '\\' || x[0] == fence {
        assert t == ['\\', x[0]] + rest;
        if |t| >= 2 {
          assert t[2..] == rest;
        }
      } else {
        assert t == [x[0]] + rest;
        if rest == [] {
          assert t == [x[0]];
        } else {
          assert t[1..] == rest;
        }
      }
      assert x == [x[0]] + x[1..];
    }
  }

  /** As written, a literal with two escaped quotes keeps the second backslash. */
  lemma UnescapeFirstKeepsLaterEscapes()
    ensures Escape("a'b'c", '\'') == "a\\'b\\'c"
    ensures UnescapeFirst("a\\'b\\'c") == "a'b\\'c"
    ensures Unescape("a\\'b\\'c") == "a'b'c"
  {
    var t := "a\\'b\\'c";
    assert "a'b'c"[1..] == "'b'c" && "'b'c"[1..] == "b'c" && "b'c"[1..] == "'c" && "'c"[1..] == "c";
    assert Escape("c", '\'') == "c";
    assert Escape("'c", '\'') == "\\'c";
    assert Escape("b'c", '\'') == "b\\'c";
    assert Escape("'b'c", '\'') == "\\'b\\'c";
    assert t[1..] == "\\'b\\'c" && t[2..] == "'b\\'c" && t[3..] == "b\\'c" && t[4..] == "\\'c" && t[6..] == "c";
    assert UnescapeFirst(t[1..]) == t[2..];
    assert Unescape(t[4..]) == "'c";
    assert Unescape(t[3..]) == "b'c";
    assert Unescape(t[1..]) == "'b'c";
  }

  /** The index of the fence that closes a string, skipping escaped characters. */
  function StringEnd(s: string, i: nat, fence: char): (r: Option<nat>)
    requires i <= |s|
    ensures r.Some? ==> i <= r.value < |s| && s[r.value] == fence
    decreases |s| - i
  {
    if i >= |s| || s[i] == NUL then None
    else if s[i] == '\\' then StringEnd(s, if i + 2 < |s| then i + 2 else |s|, fence)
    else if s[i] == fence then Some(i)
    else StringEnd(s, i + 1, fence)
  }

  function ReadString(s: string, st: Pos): (a: Attempt)
    requires st.pos < |s|
    ensures Progress(s, st, a)
    ensures a.Fail? ==> a.err == UnterminatedString(st.line, st.col)
    ensures a.Decline? <==> !IsQuot(s[st.pos])
  {
    var c := s[st.pos];
    if !IsQuot(c) then Decline
    else match StringEnd(s, st.pos + 1, c)
      case None => Fail(UnterminatedString(st.line, st.col))
      case Some(e) =>
        var body := if e - st.pos == 1 then "" else Unescape(s[st.pos + 1..e]);
        Accept(Token(LiteralStr, Text(body), st.line, st.col, false), Advance(s, st, e + 1 - st.pos))
  }

  /** A literal written as fence, escaped contents, fence reads back as its contents. */
  lemma StringRoundTrip(x: string, fence: char, rest: string)
    requires IsQuot(fence) && NUL !in x
    ensures var s := [fence] + Escape(x, fence) + [fence] + rest;
      ReadString(s, Pos(0, 1, 1)).Accept? &&
      ReadString(s, Pos(0, 1, 1)).tok.contents == Text(x) &&
      ReadString(s, Pos(0, 1, 1)).next.pos == |Escape(x, fence)| + 2
  {
    var t := Escape(x, fence);
    var s := [fence] + t + [fence] + rest;
    assert s[1..|t| + 1] == t && s[|t| + 1] == fence && s[0] == fence;
    StringEndEscaped(x, fence, s, 1);
    UnescapeEscape(x, fence);
    var body := if |t| + 1 == 1 then "" else Unescape(s[1..|t| + 1]);
    assert body == x;
    assert ReadString(s, Pos(0, 1, 1)) ==
      Accept(Token(LiteralStr, Text(body), 1, 1, false), Advance(s, Pos(0, 1, 1), |t| + 2));
  }

  lemma {:induction false} StringEndEscaped(x: string, fence: char, s: string, i: nat)
    requires IsQuot(fence) && NUL !in x
    requires i + |Escape(x, fence)| < |s| && s[i..i + |Escape(x, fence)|] == Escape(x, fence)
    requires s[i + |Escape(x, fence)|] == fence
    ensures StringEnd(s, i, fence) == Some(i + |Escape(x, fence)|)
  {
    var t := Escape(x, fence);
    if x == [] {
    } else {
      var rest := Escape(x[1..], fence);
      if x[0] == '\\' || x[0] == fence {
        assert t == ['\\', x[0]] + rest;
        assert s[i] == '\\';
        assert s[i + 2..i + 2 + |rest|] == s[i..i + |t|][2..];
        assert s[i + 2..i + 2 + |rest|] == rest;
        StringEndEscaped(x[1..], fence, s, i + 2);
        assert StringEnd(s, i, fence) == StringEnd(s, i + 2, fence);
      } else {
        assert t == [x[0]] + rest;
        assert s[i] == x[0];
        assert x[0] != NUL by { assert x[0] in x; }
        assert s[i + 1..i + 1 + |rest|] == s[i..i + |t|][1..];
        assert s[i + 1..i + 1 + |rest|] == rest;
        StringEndEscaped(x[1..], fence, s, i + 1);
        assert StringEnd(s, i, fence) == StringEnd(s, i + 1, fence);
      }
    }
  }

  /** `split('/')`: the pieces between separators, the first and last possibly empty. */
  function Split(t: string, sep: char): (r: seq<string>)
    ensures |r| >= 1
    ensures forall k :: 0 <= k < |r| ==> sep !in r[k]
  {
    if t == [] then [""]
    else
      var rest := Split(t[1..], sep);
      if t[0] == sep then [""] + rest else [[t[0]] + rest[0]] + rest[1..]
  }

  function Join(parts: seq<string>, sep: char): string
    requires |parts| >= 1
  {
    if |parts| == 1 then parts[0] else parts[0] + [sep] + Join(parts[1..], sep)
  }

  /** Joining the pieces with the separator gives back the text. */
  lemma {:induction false} JoinSplit(t: string, sep: char)
    ensures Join(Split(t, sep), sep) == t
  {
    if t != [] {
      var rest := Split(t[1..], sep);
      JoinSplit(t[1..], sep);
      if t[0] == sep {
        assert Split(t, sep)[1..] == rest;
      } else {
        var r := Split(t, sep);
        if |rest| == 1 {
          assert r == [[t[0]] + rest[0]];
        } else {
          assert r[1..] == rest[1..];
          assert Join(r, sep) == [t[0]] + rest[0] + [sep] + Join(rest[1..], sep);
        }
      }
      assert t == [t[0]] + t[1..];
    }
  }

  /** The end of a regular expression literal and whether its closing slash was found. */
  function RegexEnd(s: string, i: nat, closed: bool): (r: (nat, bool))
    requires i <= |s|
    ensures i <= r.0 <= |s|
    ensures closed ==> r.1
    decreases |s| - i
  {
    if i >= |s| || s[i] == NUL then (i, closed)
    else if closed then (if IsAlpha(s[i]) then RegexEnd(s, i + 1, true) else (i, true))
    else if s[i] == '\\' then RegexEnd(s, if i + 2 < |s| then i + 2 else |s|, false)
    else if s[i] == '/' then RegexEnd(s, i + 1, true)
    else RegexEnd(s, i + 1, false)
  }

  /** The guard of the regular-expression reader as written: it looks two characters ahead. */
  predicate RegexStartsAsWritten(s: string, pos: nat)
    requires pos < |s|
  {
    s[pos] == '/' && !(pos + 2 < |s| && s[pos + 2] == '/')
  }

  /** The guard as its comment says: a slash starts a regular expression unless "//" follows. */
  predicate RegexStarts(s: string, pos: nat)
    requires pos < |s|
  {
    s[pos] == '/' && !(pos + 1 < |s| && s[pos + 1] == '/')
  }

  /** As written, "/a/" is refused as a regular expression, and "//" is taken for one. */
  lemma RegexGuardAsWrittenMisreads()
    ensures !RegexStartsAsWritten("/a/", 0) && RegexStarts("/a/", 0)
    ensures RegexStartsAsWritten("//", 0) && !RegexStarts("//", 0)
  {
  }

  function ReadRegularExpression(s: string, st: Pos): (a: Attempt)
    requires st.pos < |s|
    ensures Progress(s, st, a)
    ensures a.Decline? <==> !RegexStarts(s, st.pos)
    ensures a.Fail? <==> RegexStarts(s, st.pos) && !RegexEnd(s, st.pos + 1, false).1
    ensures a.Fail? ==> a.err == UnterminatedRegex(st.line, st.col)
    ensures a.Accept? ==>
      a.tok.kind == RegExp && a.tok.contents.Pattern? && !a.tok.symbol &&
      '/' !in a.tok.contents.source && '/' !in a.tok.contents.flags &&
      a.next == Advance(s, st, RegexEnd(s, st.pos + 1, false).0 - st.pos)
  {
    if !RegexStarts(s, st.pos) then Decline
    else
      var (e, closed) := RegexEnd(s, st.pos + 1, false);
      if !closed then Fail(UnterminatedRegex(st.line, st.col))
      else
        var parts := Split(s[st.pos..e], '/');
        var source := if |parts| > 1 then parts[1] else "";
        var flags := if |parts| > 2 then parts[2] else "";
        Accept(Token(RegExp, Pattern(source, flags), st.line, st.col, false), Advance(s, st, e - st.pos))
  }

  /** Pattern characters (no slash, backslash or NUL) keep the loop open. */
  lemma {:induction false} RegexEndPattern(s: string, i: nat, j: nat)
    requires i <= j < |s|
    requires forall k :: i <= k < j ==> s[k] != '/' && s[k] != '\\' && s[k] != NUL
    ensures RegexEnd(s, i, false) == RegexEnd(s, j, false)
    decreases j - i
  {
    if i < j {
      RegexEndPattern(s, i + 1, j);
    }
  }

  /** Once closed, the loop reads the letters of the flags and stops at the first other character. */
  lemma {:induction false} RegexEndFlags(s: string, i: nat, j: nat)
    requires i <= j <= |s|
    requires forall k :: i <= k < j ==> IsAlpha(s[k])
    requires j == |s| || !IsAlpha(s[j])
    ensures RegexEnd(s, i, true) == (j, true)
    decreases j - i
  {
    if i < j {
      RegexEndFlags(s, i + 1, j);
    }
  }

  /** Text without the separator is one piece. */
  lemma {:induction false} SplitNone(a: string, sep: char)
    requires sep !in a
    ensures Split(a, sep) == [a]
  {
    if a != [] {
      SplitNone(a[1..], sep);
      assert [a[0]] + a[1..] == a;
    }
  }

  /** The first separator ends the first piece. */
  lemma {:induction false} SplitAt(a: string, b: string, sep: char)
    requires sep !in a
    ensures Split(a + [sep] + b, sep) == [a] + Split(b, sep)
  {
    var t := a + [sep] + b;
    if a == [] {
      assert t == [sep] + b && t[1..] == b;
    } else {
      assert t[0] == a[0] && t[1..] == a[1..] + [sep] + b;
      SplitAt(a[1..], b, sep);
      assert [a[0]] + a[1..] == a;
    }
  }

  /** The loop that finds the end of `/p/f` stops right after the flags, closed. */
  lemma RegexEndOf(s: string, i: nat, c: nat, e: nat)
    requires i < c < e <= |s|
    requires forall k :: i < k < c ==> s[k] != '/' && s[k] != '\\' && s[k] != NUL
    requires s[c] == '/'
    requires forall k :: c < k < e ==> IsAlpha(s[k])
    requires e == |s| || !IsAlpha(s[e])
    ensures RegexEnd(s, i + 1, false) == (e, true)
  {
    RegexEndPattern(s, i + 1, c);
    RegexEndFlags(s, c + 1, e);
  }

  /** Splitting `/p/f` at the slashes gives an empty piece, the pattern and the flags. */
  lemma RegexPieces(p: string, f: string)
    requires '/' !in p && '/' !in f
    ensures Split(['/'] + p + ['/'] + f, '/') == ["", p, f]
  {
    assert ['/'] + p + ['/'] + f == [] + ['/'] + (p + ['/'] + f);
    SplitAt([], p + ['/'] + f, '/');
    SplitAt(p, f, '/');
    SplitNone(f, '/');
  }

  /** Where the slashes, the pattern and the flags sit in `pre + /p/f + rest`. */
  lemma RegexLayout(pre: string, p: string, f: string, rest: string)
    requires p != []
    ensures var s := pre + ['/'] + p + ['/'] + f + rest;
      var i, c := |pre|, |pre| + 1 + |p|;
      var e := c + 1 + |f|;
      e <= |s| && s[i] == '/' && s[i + 1] == p[0] && s[c] == '/' &&
      s[i..e] == ['/'] + p + ['/'] + f &&
      (forall k :: i < k < c ==> s[k] == p[k - i - 1]) &&
      (forall k :: c < k < e ==> s[k] == f[k - c - 1]) &&
      (e == |s| || s[e] == rest[0])
  {
    var s := pre + ['/'] + p + ['/'] + f + rest;
    var c := |pre| + 1 + |p|;
    var e := c + 1 + |f|;
    assert s[|pre| + 1..c] == p && s[c + 1..e] == f;
  }

  /** Once the end of the expression and its pieces are known, the token follows from them. */
  lemma ReadRegexFrom(s: string, st: Pos, e: nat, p: string, f: string)
    requires st.pos < |s| && RegexStarts(s, st.pos)
    requires RegexEnd(s, st.pos + 1, false) == (e, true)
    requires Split(s[st.pos..e], '/') == ["", p, f]
    ensures ReadRegularExpression(s, st) ==
      Accept(Token(RegExp, Pattern(p, f), st.line, st.col, false), Advance(s, st, e - st.pos))
  {
  }

  /**
   * A regular expression written as slash, pattern, slash, flags reads back as that
   * pattern and those flags, and the position moves past all of it.
   */
  lemma RegexRoundTrip(pre: string, p: string, f: string, rest: string, st: Pos)
    requires p != [] && forall k :: 0 <= k < |p| ==> p[k] != '/' && p[k] != '\\' && p[k] != NUL
    requires forall k :: 0 <= k < |f| ==> IsAlpha(f[k])
    requires rest == [] || !IsAlpha(rest[0])
    requires st.pos == |pre|
    ensures var s := pre + ['/'] + p + ['/'] + f + rest;
      ReadRegularExpression(s, st) ==
        Accept(Token(RegExp, Pattern(p, f), st.line, st.col, false), Advance(s, st, |p| + |f| + 2))
  {
    var s := pre + ['/'] + p + ['/'] + f + rest;
    var i := |pre|;
    var c := i + 1 + |p|;
    var e := c + 1 + |f|;
    RegexLayout(pre, p, f, rest);
    forall k | i < k < c
      ensures s[k] != '/' && s[k] != '\\' && s[k] != NUL
    {
      assert s[k] == p[k - i - 1];
    }
    forall k | c < k < e
      ensures IsAlpha(s[k])
    {
      assert s[k] == f[k - c - 1];
    }
    RegexEndOf(s, i, c, e);
    assert '/' !in p by {
      forall k | 0 <= k < |p| ensures p[k] != '/' { }
    }
    assert '/' !in f by {
      forall k | 0 <= k < |f| ensures f[k] != '/' { assert IsAlpha(f[k]); }
    }
    RegexPieces(p, f);
    ReadRegexFrom(s, st, e, p, f);
  }

  // ---- operators ----

  /** SYMBOLS entries are built from a non-empty name and that name's character codes. */
  predicate ValidSymbols(symbols: seq<Operators.SymbolRow>) {
    forall k :: 0 <= k < |symbols| ==>
      symbols[k].name != [] && symbols[k].codes == Operators.CharCodes(symbols[k].name)
  }

  /** `matchChars`: the input at `i` continues with exactly these character codes. */
  predicate MatchCodes(s: string, i: nat, codes: seq<int>) {
    i + |codes| <= |s| && forall k :: 0 <= k < |codes| ==> s[i + k] as int == codes[k]
  }

  /** The first SYMBOLS entry from `k` on whose codes match at `i`. */
  function FirstMatch(s: string, i: nat, symbols: seq<Operators.SymbolRow>, k: nat): (r: Option<nat>)
    requires k <= |symbols|
    ensures r.Some? ==> k <= r.value < |symbols| && MatchCodes(s, i, symbols[r.value].codes)
    ensures r.Some? ==> forall m :: k <= m < r.value ==> !MatchCodes(s, i, symbols[m].codes)
    ensures r.None? ==> forall m :: k <= m < |symbols| ==> !MatchCodes(s, i, symbols[m].codes)
    decreases |symbols| - k
  {
    if k == |symbols| then None
    else if MatchCodes(s, i, symbols[k].codes) then Some(k)
    else FirstMatch(s, i, symbols, k + 1)
  }

  function ReadOperator(s: string, st: Pos, symbols: seq<Operators.SymbolRow>): (a: Attempt)
    requires st.pos < |s| && ValidSymbols(symbols)
    ensures Progress(s, st, a) && !a.Fail?
  {
    var c := s[st.pos];
    if c == '.' then
      (if st.pos + 1 < |s| && s[st.pos + 1] == '.'
       then Accept(Token(Recurse, Text(".."), st.line, st.col, false), Advance(s, st, 2))
       else Accept(Token(Child, Text("."), st.line, st.col, false), Advance(s, st, 1)))
    else if c == '@' then Accept(Token(Target, Text("@"), st.line, st.col, false), Advance(s, st, 1))
    else if c == '?' then Accept(Token(FilterMark, Text("?"), st.line, st.col, false), Advance(s, st, 1))
    else if c == ':' then Accept(Token(SliceMark, Text(":"), st.line, st.col, false), Advance(s, st, 1))
    else if c == ',' then Accept(Token(UnionMark, Text(","), st.line, st.col, false), Advance(s, st, 1))
    else if c == '#' then Accept(Token(Target, Text("#"), st.line, st.col, false), Advance(s, st, 1))
    else if c == '%' then Accept(Token(Target, Text("%"), st.line, st.col, false), Advance(s, st, 1))
    else match FirstMatch(s, st.pos, symbols, 0)
      case None => Decline
      case Some(k) =>
        var name := symbols[k].name;
        Accept(Token(Operator, Text(name), st.line, st.col, true), Advance(s, st, |name|))
  }

  /** With SYMBOLS sorted, the operator read is the longest one that matches. */
  lemma LongestOperatorWins(s: string, st: Pos, symbols: seq<Operators.SymbolRow>, m: nat)
    requires st.pos < |s| && ValidSymbols(symbols) && Operators.SortedRows(symbols)
    requires s[st.pos] !in {'.', '@', '?', ':', ',', '#', '%'}
    requires m < |symbols| && MatchCodes(s, st.pos, symbols[m].codes)
    ensures ReadOperator(s, st, symbols).Accept?
    ensures var t := ReadOperator(s, st, symbols).tok;
      t.kind == Operator && t.symbol && |symbols[m].name| <= |t.contents.text| &&
      st.pos + |t.contents.text| <= |s| && t.contents.text == s[st.pos..st.pos + |t.contents.text|]
  ensures var a := ReadOperator(s, st, symbols);
      a.next == Advance(s, st, |a.tok.contents.text|) && a.next.pos == st.pos + |a.tok.contents.text|
  {
    var r := FirstMatch(s, st.pos, symbols, 0);
    var k := r.value;
    if k < m {
      Operators.LongestFirst(symbols, k, m);
    }
    var name := symbols[k].name;
    var codes := symbols[k].codes;
    assert codes == Operators.CharCodes(name) && name != [];
    assert |codes| == |name|;
    assert st.pos + |name| <= |s| by {
      assert MatchCodes(s, st.pos, codes);
      var last := |name| - 1;
      assert 0 <= last < |codes|;
      assert st.pos + last < |s| && s[st.pos + last] as int == codes[last];
    }
    assert s[st.pos..st.pos + |name|] == name by {
      forall j | 0 <= j < |name| ensures s[st.pos + j] == name[j] {
        assert s[st.pos + j] as int == symbols[k].codes[j];
      }
    }
  }

  // ---- one read ----

  datatype Reader =
    | WhitespaceReader
    | BrackStart
    | ParenStart
    | CurlStart
    | IdentifierReader
    | NumberReader
    | StringReader
    | RegExpReader
    | OperatorReader
    | BrackEnd
    | ParenEnd
    | CurlEnd

  /** `read.order`; the closing-bracket reader is listed twice. */
  const ReadOrder: seq<Reader> := [
    WhitespaceReader, BrackStart, ParenStart, CurlStart, IdentifierReader, NumberReader,
    StringReader, RegExpReader, OperatorReader, BrackEnd, ParenEnd, BrackEnd, CurlEnd
  ]

  function RunReader(r: Reader, s: string, st: Pos, prev: Option<Kind>, words: seq<string>,
                     symbols: seq<Operators.SymbolRow>): (a: Attempt)
    requires st.pos < |s| && ValidSymbols(symbols)
    ensures Progress(s, st, a)
  {
    match r
    case WhitespaceReader => ReadWhitespace(s, st)
    case BrackStart => ReadSingle(s, st, '[', BracketOpen)
    case ParenStart => ReadSingle(s, st, '(', ParenOpen)
    case CurlStart => ReadSingle(s, st, '{', MapOpen)
    case IdentifierReader => ReadIdentifier(s, st, words)
    case NumberReader => ReadNumber(s, st, prev)
    case StringReader => ReadString(s, st)
    case RegExpReader => ReadRegularExpression(s, st)
    case OperatorReader => ReadOperator(s, st, symbols)
    case BrackEnd => ReadSingle(s, st, ']', BracketClose)
    case ParenEnd => ReadSingle(s, st, ')', ParenClose)
    case CurlEnd => ReadSingle(s, st, '}', MapClose)
  }

  /** The first reader from position `k` of the order that does not decline. */
  function ReadFrom(k: nat, s: string, st: Pos, prev: Option<Kind>, words: seq<string>,
                    symbols: seq<Operators.SymbolRow>): (a: Attempt)
    requires k <= |ReadOrder| && st.pos < |s| && ValidSymbols(symbols)
    ensures Progress(s, st, a) && !a.Decline?
    decreases |ReadOrder| - k
  {
    if k == |ReadOrder| then Fail(UnknownToken(st.line, st.col))
    else
      var a := RunReader(ReadOrder[k], s, st, prev, words, symbols);
      if a.Decline? then ReadFrom(k + 1, s, st, prev, words, symbols) else a
  }

  /**
   * `read()` at a position before the end: a token that starts here and consumes at
   * least one character, or an error.
   */
  function ReadToken(s: string, st: Pos, prev: Option<Kind>, words: seq<string>,
                     symbols: seq<Operators.SymbolRow>): (a: Attempt)
    requires st.pos < |s| && ValidSymbols(symbols)
    ensures !a.Decline? && Progress(s, st, a)
  {
    ReadFrom(0, s, st, prev, words, symbols)
  }

  /** Every token from a position to the end of the input, or up to the first error. */
  function ScanFrom(s: string, words: seq<string>, symbols: seq<Operators.SymbolRow>,
                    st: Pos, prev: Option<Kind>): Stream
    requires st.pos <= |s| && ValidSymbols(symbols)
    decreases |s| - st.pos
  {
    if st.pos >= |s| then Stream([], None)
    else match ReadToken(s, st, prev, words, symbols)
      case Accept(t, nx) =>
        var rest := ScanFrom(s, words, symbols, nx, Some(t.kind));
        Stream([t] + rest.toks, rest.failure)
      case Fail(e) => Stream([], Some(e))
      case Decline => Stream([], None)
  }

  /** Every token of an input that has already been trimmed. */
  function Scan(s: string, words: seq<string>, symbols: seq<Operators.SymbolRow>): Stream
    requires ValidSymbols(symbols)
  {
    ScanFrom(s, words, symbols, Pos(0, 1, 1), None)
  }

  /**
   * The tokens of a scan, fewer than the characters left, start where the scan starts
   * and come in order of line and column: each starts no earlier than the one before.
   */
  lemma {:induction false} ScanTokensOrdered(s: string, words: seq<string>, symbols: seq<Operators.SymbolRow>,
                                             st: Pos, prev: Option<Kind>)
    requires st.pos <= |s| && ValidSymbols(symbols)
    ensures var r := ScanFrom(s, words, symbols, st, prev);
      |r.toks| <= |s| - st.pos &&
      (r.toks != [] ==> r.toks[0].line == st.line && r.toks[0].col == st.col) &&
      (forall i :: 0 <= i < |r.toks| ==> NotAfter((st.line, st.col), (r.toks[i].line, r.toks[i].col))) &&
      (forall i, j :: 0 <= i < j < |r.toks| ==> NotAfter((r.toks[i].line, r.toks[i].col), (r.toks[j].line, r.toks[j].col)))
    decreases |s| - st.pos
  {
    if st.pos < |s| {
      var a := ReadToken(s, st, prev, words, symbols);
      if a.Accept? {
        ScanTokensOrdered(s, words, symbols, a.next, Some(a.tok.kind));
        var rest := ScanFrom(s, words, symbols, a.next, Some(a.tok.kind));
        var toks := [a.tok] + rest.toks;
        assert ScanFrom(s, words, symbols, st, prev).toks == toks;
        forall i, j | 0 <= i < j < |toks|
          ensures NotAfter((toks[i].line, toks[i].col), (toks[j].line, toks[j].col))
        {
          assert toks[j] == rest.toks[j - 1];
          if i > 0 {
            assert toks[i] == rest.toks[i - 1];
          }
        }
      }
    }
  }

  /** An input that trims to nothing has no tokens and raises nothing. */
  lemma EmptyInputNoTokens(text: string, words: seq<string>, symbols: seq<Operators.SymbolRow>)
    requires ValidSymbols(symbols)
    requires forall i :: 0 <= i < |text| ==> IsTrimSpace(text[i])
    ensures Scan(Trim(text), words, symbols) == Stream([], None)
  {
    TrimAllSpace(text);
  }

  /** A position where every reader declines raises "Unknown token" at its line and column. */
  lemma {:induction false} NoReaderUnknownToken(k: nat, s: string, st: Pos, prev: Option<Kind>,
                                                words: seq<string>, symbols: seq<Operators.SymbolRow>)
    requires k <= |ReadOrder| && st.pos < |s| && ValidSymbols(symbols)
    requires forall m :: k <= m < |ReadOrder| ==> RunReader(ReadOrder[m], s, st, prev, words, symbols).Decline?
    ensures ReadFrom(k, s, st, prev, words, symbols) == Fail(UnknownToken(st.line, st.col))
    decreases |ReadOrder| - k
  {
    if k < |ReadOrder| {
      NoReaderUnknownToken(k + 1, s, st, prev, words, symbols);
    }
  }

  /** "^" is no token of an operator-free scanner. */
  lemma UnknownCharacter()
    ensures Scan("^", [], []) == Stream([], Some(UnknownToken(1, 1)))
  {
    var st := Pos(0, 1, 1);
    forall m | 0 <= m < |ReadOrder| ensures RunReader(ReadOrder[m], "^", st, None, [], []).Decline? {
      assert FirstMatch("^", 0, [], 0) == None;
    }
    NoReaderUnknownToken(0, "^", st, None, [], []);
  }

  // ---- the cursor over a stream ----

  /**
   * `next()`: the index of the next token that is not whitespace and that token (none
   * past the end); it raises the scan error when it needs a token the scan never made.
   */
  function CursorNext(S: Stream, ti: int): (r: Result<(int, Option<Token>), ScanError>)
    ensures r.Ok? && r.value.1.Some? ==>
      -1 <= ti < r.value.0 < |S.toks| && S.toks[r.value.0] == r.value.1.value &&
      r.value.1.value.kind != Whitespace &&
      forall k :: ti < k < r.value.0 ==> S.toks[k].kind == Whitespace
    ensures r.Ok? && r.value.1.None? ==> r.value.0 < 0 || r.value.0 >= |S.toks|
    ensures r.Err? ==> S.failure == Some(r.error)
    decreases |S.toks| - ti
  {
    var j := ti + 1;
    if j < 0 then Ok((j, None))
    else if j >= |S.toks| then (if S.failure.Some? then Err(S.failure.value) else Ok((j, None)))
    else if S.toks[j].kind == Whitespace then CursorNext(S, j)
    else Ok((j, Some(S.toks[j])))
  }

  /** `peek(delta)`: the token `delta` places on, skipping whitespace; the cursor does not move. */
  function CursorPeek(S: Stream, ti: int, delta: int): (r: Result<Option<(int, Token)>, ScanError>)
    ensures r.Ok? && r.value.Some? ==>
      0 <= ti + delta <= r.value.value.0 < |S.toks| && S.toks[r.value.value.0] == r.value.value.1 &&
      r.value.value.1.kind != Whitespace &&
      forall k :: ti + delta <= k < r.value.value.0 ==> S.toks[k].kind == Whitespace
    ensures r.Err? ==> S.failure == Some(r.error)
    decreases |S.toks| - (ti + delta)
  {
    var idx := ti + delta;
    if idx < 0 then Ok(None)
    else if idx >= |S.toks| then (if S.failure.Some? then Err(S.failure.value) else Ok(None))
    else if S.toks[idx].kind == Whitespace then CursorPeek(S, ti, delta + 1)
    else Ok(Some((idx, S.toks[idx])))
  }

  /** One step of `peek`: skip a whitespace token, stop on another one, or fall off either end. */
  lemma PeekOnce(S: Stream, ti: int, delta: int)
    ensures var idx := ti + delta;
      CursorPeek(S, ti, delta) ==
        if idx < 0 then Ok(None)
        else if idx >= |S.toks| then (if S.failure.Some? then Err(S.failure.value) else Ok(None))
        else if S.toks[idx].kind == Whitespace then CursorPeek(S, ti, delta + 1)
        else Ok(Some((idx, S.toks[idx])))
  {
  }

  /** `prev()`: back to the previous token that is not whitespace, never below index 0. */
  function CursorPrev(S: Stream, ti: int): (r: int)
    ensures ti > 0 ==> 0 <= r < ti
    ensures ti == 0 ==> r == 0
    ensures ti < 0 ==> r == ti - 1
    ensures 0 < r < |S.toks| ==> S.toks[r].kind != Whitespace
    ensures forall k :: r < k < ti && k < |S.toks| ==> S.toks[k].kind == Whitespace
    decreases if ti < 0 then 0 else ti
  {
    if ti == 0 then 0
    else
      var k := ti - 1;
      if 0 <= k < |S.toks| && S.toks[k].kind == Whitespace then CursorPrev(S, k) else k
  }

  /** The cursor's `eof`: the scan ended without error and no token lies after the cursor. */
  predicate CursorEof(S: Stream, ti: int) {
    S.failure.None? && ti >= |S.toks| - 1
  }

  /** Stepping back from the token after `ti` lands on `ti` again when `ti` is not whitespace. */
  lemma {:induction false} PrevUndoesNext(S: Stream, ti: int, j: int)
    requires 0 <= ti < j <= |S.toks| && S.toks[ti].kind != Whitespace
    requires forall k :: ti < k < j ==> S.toks[k].kind == Whitespace
    ensures CursorPrev(S, j) == ti
    decreases j
  {
    if j - 1 > ti {
      PrevUndoesNext(S, ti, j - 1);
    }
  }
}
