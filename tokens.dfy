/** The tokens the scanner produces and the character classes it reads them with. */
module Tokens {
  import opened Base

  /** The nineteen token kinds, in declaration order. */
  datatype Kind =
    | Whitespace
    | Target
    | FilterMark
    | Child
    | Recurse
    | Operator
    | Identifier
    | LiteralNum
    | LiteralStr
    | LiteralPri
    | BracketOpen
    | BracketClose
    | ParenOpen
    | ParenClose
    | SliceMark
    | UnionMark
    | MapOpen
    | MapClose
    | RegExp

  /** A token's contents: its text, a primitive literal, or a regular expression's parts. */
  datatype Contents =
    | Text(text: string)
    | TrueLit
    | FalseLit
    | NullLit
    | Pattern(source: string, flags: string)

  /** A token carries the line and column where it starts; `symbol` marks symbol operators. */
  datatype Token = Token(kind: Kind, contents: Contents, line: int, col: int, symbol: bool)

  /** The token kinds after which a leading minus may start a number. */
  predicate NumbersCanFollow(k: Kind) {
    k in {Whitespace, Child, Recurse, Operator, BracketOpen, ParenOpen, SliceMark, UnionMark}
  }

  const NUL: char := 0 as char
  const LF: char := 10 as char
  const CR: char := 13 as char
  const NBSP: char := 0xA0 as char

  predicate IsAlpha(c: char) { ('A' <= c <= 'Z') || ('a' <= c <= 'z') }
  predicate IsNumeric(c: char) { '0' <= c <= '9' }
  predicate IsIdent(c: char) { IsAlpha(c) || IsNumeric(c) || c == '_' || c == '$' }
  predicate IsMinusPeriod(c: char) { c == '-' || c == '.' }
  predicate IsQuot(c: char) { c == '\'' || c == '"' }

  /** What the whitespace reader skips: codes 1 to 14, space and no-break space. */
  predicate IsSpaceChar(c: char) { (0 < c as int <= 14) || c == ' ' || c == NBSP }

  /** What `String.prototype.trim` removes: white space and line terminators. */
  predicate IsTrimSpace(c: char) {
    var n := c as int;
    (9 <= n <= 13) || n == 32 || n == 0xA0 || n == 0x1680 || (0x2000 <= n <= 0x200A) ||
    n == 0x2028 || n == 0x2029 || n == 0x202F || n == 0x205F || n == 0x3000 || n == 0xFEFF
  }

  function TrimStart(s: string): string
  {
    if s != [] && IsTrimSpace(s[0]) then TrimStart(s[1..]) else s
  }

  function TrimEnd(s: string): string
  {
    if s != [] && IsTrimSpace(s[|s| - 1]) then TrimEnd(s[..|s| - 1]) else s
  }

  /** `input.trim()`: the input without leading and trailing white space. */
  function Trim(s: string): string
  {
    TrimEnd(TrimStart(s))
  }

  /** `TrimStart` keeps a suffix that starts with no white space and drops only white space. */
  lemma {:induction false} TrimStartCuts(s: string)
    ensures var r := TrimStart(s);
      |r| <= |s| && r == s[|s| - |r|..] && (r == [] || !IsTrimSpace(r[0])) &&
      forall i :: 0 <= i < |s| - |r| ==> IsTrimSpace(s[i])
  {
    if s != [] && IsTrimSpace(s[0]) {
      var t := s[1..];
      TrimStartCuts(t);
      var r := TrimStart(t);
      assert TrimStart(s) == r;
      assert t[|t| - |r|..] == s[|s| - |r|..];
      forall i | 0 <= i < |s| - |r| ensures IsTrimSpace(s[i]) {
        if i > 0 { assert s[i] == t[i - 1]; }
      }
    }
  }

  /** `TrimEnd` keeps a prefix that ends with no white space and drops only white space. */
  lemma {:induction false} TrimEndCuts(s: string)
    ensures var r := TrimEnd(s);
      |r| <= |s| && r == s[..|r|] && (r == [] || !IsTrimSpace(r[|r| - 1])) &&
      forall i :: |r| <= i < |s| ==> IsTrimSpace(s[i])
  {
    if s != [] && IsTrimSpace(s[|s| - 1]) {
      var t := s[..|s| - 1];
      TrimEndCuts(t);
      var r := TrimEnd(t);
      assert TrimEnd(s) == r;
      assert t[..|r|] == s[..|r|];
      forall i | |r| <= i < |s| ensures IsTrimSpace(s[i]) {
        if i < |s| - 1 { assert s[i] == t[i]; }
      }
    }
  }

  /**
   * What `Trim` keeps is one piece of the input that neither starts nor ends with
   * white space, and only white space is cut on either side.
   */
  lemma TrimCutsSpace(s: string)
    ensures Trim(s) == [] || (!IsTrimSpace(Trim(s)[0]) && !IsTrimSpace(Trim(s)[|Trim(s)| - 1]))
    ensures exists i, j {:trigger s[i..j]} ::
              0 <= i <= j <= |s| && Trim(s) == s[i..j] &&
              (forall k :: 0 <= k < i ==> IsTrimSpace(s[k])) &&
              (forall k :: j <= k < |s| ==> IsTrimSpace(s[k]))
  {
    var t := TrimStart(s);
    TrimStartCuts(s);
    TrimEndCuts(t);
    var r := TrimEnd(t);
    var i, j := |s| - |t|, |s| - |t| + |r|;
    assert r == s[i..j] by {
      assert t == s[i..];
      assert r == t[..|r|];
    }
    assert r != [] ==> r[0] == t[0];
    assert forall k :: 0 <= k < i ==> IsTrimSpace(s[k]);
    assert forall k :: j <= k < |s| ==> IsTrimSpace(s[k]) by {
      forall k | j <= k < |s| ensures IsTrimSpace(s[k]) {
        assert s[k] == t[k - i];
      }
    }
    assert s[i..j] == Trim(s);
  }

  /** An input of white space only trims to nothing. */
  lemma TrimAllSpace(s: string)
    requires forall i :: 0 <= i < |s| ==> IsTrimSpace(s[i])
    ensures Trim(s) == []
  {
    TrimStartCuts(s);
  }
}
