/**
 * The operator table: which names are operators, their arity (1 postfix, 0 infix,
 * -1 prefix), the split of names into word and symbol operators, and the
 * sequence-logic entries of the default table.
 */
module Operators {
  import opened Base
  import opened Values

  /**
   * The function behind an operator. The sequence-logic entries are written out;
   * every other entry is applied through an oracle supplied by the caller.
   */
  datatype Impl =
    | SpreadValues   // `*`
    | SpreadKeys     // `~`
    | AndOp          // `&&`
    | OrOp           // `||`
    | CoalesceOp     // `??`
    | CountOp        // `count`
    | FirstOp        // `first`
    | LastOp         // `last`
    | EmptyOp        // `empty`
    | Unmodelled

  datatype OpEntry = OpEntry(name: string, arity: int, impl: Impl)

  const POSTFIX := 1
  const INFIX := 0
  const PREFIX := -1

  /** The default table, in declaration order. */
  const DefaultOperators: seq<OpEntry> := [
    OpEntry("*", POSTFIX, SpreadValues), OpEntry("~", POSTFIX, SpreadKeys),
    OpEntry("===", INFIX, Unmodelled), OpEntry("==", INFIX, Unmodelled),
    OpEntry("!==", INFIX, Unmodelled), OpEntry("!=", INFIX, Unmodelled),
    OpEntry("<=", INFIX, Unmodelled), OpEntry("<", INFIX, Unmodelled),
    OpEntry(">=", INFIX, Unmodelled), OpEntry(">", INFIX, Unmodelled),
    OpEntry("-", INFIX, Unmodelled), OpEntry("+", INFIX, Unmodelled),
    OpEntry("&&", INFIX, AndOp), OpEntry("||", INFIX, OrOp), OpEntry("??", INFIX, CoalesceOp),
    OpEntry("!!", PREFIX, Unmodelled), OpEntry("!", PREFIX, Unmodelled),
    OpEntry("is", INFIX, Unmodelled), OpEntry("in", INFIX, Unmodelled),
    OpEntry("not", INFIX, Unmodelled), OpEntry("subset", INFIX, Unmodelled),
    OpEntry("size", INFIX, Unmodelled), OpEntry("typeof", INFIX, Unmodelled),
    OpEntry("ntypeof", INFIX, Unmodelled), OpEntry("mod", INFIX, Unmodelled),
    OpEntry("pow", INFIX, Unmodelled), OpEntry("join", INFIX, Unmodelled),
    OpEntry("split", INFIX, Unmodelled), OpEntry("add", INFIX, Unmodelled),
    OpEntry("sub", INFIX, Unmodelled), OpEntry("mul", INFIX, Unmodelled),
    OpEntry("div", INFIX, Unmodelled),
    OpEntry("keys", PREFIX, Unmodelled), OpEntry("values", PREFIX, Unmodelled),
    OpEntry("abs", PREFIX, Unmodelled), OpEntry("ceil", PREFIX, Unmodelled),
    OpEntry("floor", PREFIX, Unmodelled), OpEntry("round", PREFIX, Unmodelled),
    OpEntry("min", PREFIX, Unmodelled), OpEntry("max", PREFIX, Unmodelled),
    OpEntry("sum", PREFIX, Unmodelled), OpEntry("avg", PREFIX, Unmodelled),
    OpEntry("med", PREFIX, Unmodelled), OpEntry("stddev", PREFIX, Unmodelled),
    OpEntry("random", PREFIX, Unmodelled), OpEntry("first", PREFIX, FirstOp),
    OpEntry("last", PREFIX, LastOp), OpEntry("unique", PREFIX, Unmodelled),
    OpEntry("any", PREFIX, Unmodelled), OpEntry("all", PREFIX, Unmodelled),
    OpEntry("none", PREFIX, Unmodelled), OpEntry("sizeof", PREFIX, Unmodelled),
    OpEntry("count", PREFIX, CountOp), OpEntry("empty", PREFIX, EmptyOp),
    OpEntry("sort", PREFIX, Unmodelled)
  ]

  function Names(ops: seq<OpEntry>): (r: seq<string>)
    ensures |r| == |ops| && forall i :: 0 <= i < |ops| ==> r[i] == ops[i].name
  {
    seq(|ops|, i requires 0 <= i < |ops| => ops[i].name)
  }

  /** Object keys are unique, so a table never names an operator twice. */
  predicate DistinctNames(ops: seq<OpEntry>) {
    forall i, j :: 0 <= i < j < |ops| ==> ops[i].name != ops[j].name
  }

  /** The entry a name maps to, as `operators[name]` looks it up. */
  function Lookup(ops: seq<OpEntry>, name: string): (r: Option<OpEntry>)
    ensures r.Some? ==> r.value in ops && r.value.name == name
    ensures r.None? ==> forall i :: 0 <= i < |ops| ==> ops[i].name != name
  {
    if ops == [] then None
    else if ops[0].name == name then Some(ops[0])
    else Lookup(ops[1..], name)
  }

  // ---- word and symbol operators ----

  predicate IsAsciiLetter(c: char) { ('A' <= c <= 'Z') || ('a' <= c <= 'z') }

  /** `operatorIsWord`: the first character code is an ASCII letter (an empty name has none). */
  predicate OperatorIsWord(name: string) { |name| > 0 && IsAsciiLetter(name[0]) }

  /** A SYMBOLS entry: the operator and the character codes of its spelling. */
  datatype SymbolRow = SymbolRow(name: string, codes: seq<int>)

  function CharCodes(s: string): (r: seq<int>)
    ensures |r| == |s| && forall i :: 0 <= i < |s| ==> r[i] == s[i] as int
  {
    seq(|s|, i requires 0 <= i < |s| => s[i] as int)
  }

  /** The WORDS list of a table, in table order. */
  function WordNames(ops: seq<OpEntry>): seq<string> {
    if ops == [] then []
    else
      var last := ops[|ops| - 1];
      WordNames(ops[..|ops| - 1]) + (if OperatorIsWord(last.name) then [last.name] else [])
  }

  /** The SYMBOLS list of a table before it is sorted, in table order. */
  function SymbolRowsOf(ops: seq<OpEntry>): seq<SymbolRow> {
    if ops == [] then []
    else
      var last := ops[|ops| - 1];
      SymbolRowsOf(ops[..|ops| - 1]) +
        (if OperatorIsWord(last.name) then [] else [SymbolRow(last.name, CharCodes(last.name))])
  }

  /** JavaScript's `a < b` on strings: code-unit order, a proper prefix first. */
  predicate LexLess(a: string, b: string) {
    if a == [] then b != []
    else if b == [] then false
    else if a[0] != b[0] then a[0] < b[0]
    else LexLess(a[1..], b[1..])
  }

  /** `symbolsort`: longer names first, equal lengths in descending string order. */
  function SymbolSort(a: SymbolRow, b: SymbolRow): int {
    if |a.name| != |b.name| then |b.name| - |a.name|
    else if LexLess(b.name, a.name) then -1 else 1
  }

  predicate Precedes(a: SymbolRow, b: SymbolRow) { SymbolSort(a, b) < 0 }

  predicate SortedRows(rows: seq<SymbolRow>) {
    forall i, j :: 0 <= i < j < |rows| ==> Precedes(rows[i], rows[j])
  }

  lemma {:induction false} LexLessIrreflexive(a: string)
    ensures !LexLess(a, a)
  {
    if a != [] {
      LexLessIrreflexive(a[1..]);
    }
  }

  lemma {:induction false} LexLessTransitive(a: string, b: string, c: string)
    requires LexLess(a, b) && LexLess(b, c)
    ensures LexLess(a, c)
  {
    if a != [] && b != [] && c != [] && a[0] == b[0] && b[0] == c[0] {
      LexLessTransitive(a[1..], b[1..], c[1..]);
    }
  }

  lemma {:induction false} LexLessTotal(a: string, b: string)
    requires a != b
    ensures LexLess(a, b) || LexLess(b, a)
  {
    if a != [] && b != [] && a[0] == b[0] {
      assert a == [a[0]] + a[1..] && b == [b[0]] + b[1..];
      LexLessTotal(a[1..], b[1..]);
    }
  }

  lemma PrecedesTransitive(a: SymbolRow, b: SymbolRow, c: SymbolRow)
    requires Precedes(a, b) && Precedes(b, c)
    ensures Precedes(a, c)
  {
    if |a.name| == |b.name| == |c.name| {
      LexLessTransitive(c.name, b.name, a.name);
    }
  }

  lemma PrecedesTotal(a: SymbolRow, b: SymbolRow)
    requires a.name != b.name
    ensures Precedes(a, b) != Precedes(b, a)
  {
    if |a.name| == |b.name| {
      LexLessTotal(a.name, b.name);
      if LexLess(a.name, b.name) && LexLess(b.name, a.name) {
        LexLessTransitive(a.name, b.name, a.name);
        LexLessIrreflexive(a.name);
      }
    }
  }

  /** Inserts a row in front of the first row it precedes. */
  function InsertRow(x: SymbolRow, s: seq<SymbolRow>): seq<SymbolRow> {
    if s == [] || Precedes(x, s[0]) then [x] + s else [s[0]] + InsertRow(x, s[1..])
  }

  /** The SYMBOLS list after `sort(symbolsort)`. */
  function SortRows(s: seq<SymbolRow>): seq<SymbolRow> {
    if s == [] then [] else InsertRow(s[0], SortRows(s[1..]))
  }

  predicate DistinctRowNames(s: seq<SymbolRow>) {
    forall i, j :: 0 <= i < j < |s| ==> s[i].name != s[j].name
  }

  lemma {:induction false} InsertRowPermutes(x: SymbolRow, s: seq<SymbolRow>)
    ensures multiset(InsertRow(x, s)) == multiset(s) + multiset{x}
  {
    if s != [] && !Precedes(x, s[0]) {
      InsertRowPermutes(x, s[1..]);
      assert s == [s[0]] + s[1..];
    }
  }

  lemma {:induction false} InsertRowSorted(x: SymbolRow, s: seq<SymbolRow>)
    requires SortedRows(s)
    requires forall i :: 0 <= i < |s| ==> s[i].name != x.name
    ensures SortedRows(InsertRow(x, s))
  {
    if s == [] {
    } else if Precedes(x, s[0]) {
      forall k | 0 <= k < |s| ensures Precedes(x, s[k]) {
        if k > 0 {
          PrecedesTransitive(x, s[0], s[k]);
        }
      }
      ConsSorted(x, s);
    } else {
      PrecedesTotal(x, s[0]);
      InsertRowSorted(x, s[1..]);
      HeadPrecedesInserted(x, s);
      ConsSorted(s[0], InsertRow(x, s[1..]));
    }
  }

  /** A row that precedes every row of a sorted list can go in front of it. */
  lemma ConsSorted(h: SymbolRow, t: seq<SymbolRow>)
    requires SortedRows(t) && forall k :: 0 <= k < |t| ==> Precedes(h, t[k])
    ensures SortedRows([h] + t)
  {
    var r := [h] + t;
    forall i, j | 0 <= i < j < |r| ensures Precedes(r[i], r[j]) {
      assert r[j] == t[j - 1];
      if i > 0 {
        assert r[i] == t[i - 1];
      }
    }
  }

  /** The head of a sorted list precedes every row after inserting a row it precedes into its tail. */
  lemma HeadPrecedesInserted(x: SymbolRow, s: seq<SymbolRow>)
    requires SortedRows(s) && s != [] && Precedes(s[0], x)
    ensures forall k :: 0 <= k < |InsertRow(x, s[1..])| ==> Precedes(s[0], InsertRow(x, s[1..])[k])
  {
    InsertRowPermutes(x, s[1..]);
    var t := InsertRow(x, s[1..]);
    forall k | 0 <= k < |t| ensures Precedes(s[0], t[k]) {
      assert t[k] in multiset(t);
      if t[k] != x {
        assert t[k] in multiset(s[1..]);
        var m :| 0 <= m < |s[1..]| && s[1..][m] == t[k];
        assert s[m + 1] == t[k];
      }
    }
  }

  lemma {:induction false} SortRowsCorrect(s: seq<SymbolRow>)
    requires DistinctRowNames(s)
    ensures multiset(SortRows(s)) == multiset(s)
    ensures SortedRows(SortRows(s))
  {
    if s != [] {
      assert DistinctRowNames(s[1..]);
      SortRowsCorrect(s[1..]);
      InsertRowPermutes(s[0], SortRows(s[1..]));
      assert s == [s[0]] + s[1..];
      forall i | 0 <= i < |s[1..]| ensures s[1..][i].name != s[0].name {
        assert s[1..][i] == s[i + 1];
      }
      NoneNamed(s[1..], SortRows(s[1..]), s[0].name);
      InsertRowSorted(s[0], SortRows(s[1..]));
    }
  }

  /** A rearrangement of rows none of which has a given name has none with that name either. */
  lemma NoneNamed(s: seq<SymbolRow>, t: seq<SymbolRow>, n: string)
    requires multiset(t) == multiset(s) && forall i :: 0 <= i < |s| ==> s[i].name != n
    ensures forall i :: 0 <= i < |t| ==> t[i].name != n
  {
    forall i | 0 <= i < |t| ensures t[i].name != n {
      assert t[i] in multiset(s);
      var m :| 0 <= m < |s| && s[m] == t[i];
    }
  }

  /** The head of a sorted arrangement is the row that precedes all the others. */
  lemma SortedHeads(a: seq<SymbolRow>, b: seq<SymbolRow>)
    requires SortedRows(a) && SortedRows(b) && multiset(a) == multiset(b) && a != []
    ensures b != [] && a[0] == b[0]
  {
    assert |b| == |multiset(b)| == |multiset(a)| == |a|;
    assert a[0] in multiset(b);
    var j :| 0 <= j < |b| && b[j] == a[0];
    assert b[0] in multiset(a);
    var i :| 0 <= i < |a| && a[i] == b[0];
    if i != 0 {
      assert Precedes(a[0], b[0]);
      if j != 0 {
        assert Precedes(b[0], a[0]);
        PrecedesTransitive(a[0], b[0], a[0]);
      }
      PrecedesIrreflexive(a[0]);
      assert false;
    }
  }

  /**
   * Any two sorted arrangements of the same rows are equal, so the result of
   * `sort(symbolsort)` does not depend on the sorting algorithm the host uses.
   */
  lemma {:induction false} SortedUnique(a: seq<SymbolRow>, b: seq<SymbolRow>)
    requires SortedRows(a) && SortedRows(b) && multiset(a) == multiset(b)
    ensures a == b
  {
    if a == [] {
      assert |b| == |multiset(b)| == 0;
    } else {
      SortedHeads(a, b);
      TailMultiset(a);
      TailMultiset(b);
      SortedUnique(a[1..], b[1..]);
      assert a == [a[0]] + a[1..] && b == [b[0]] + b[1..];
    }
  }

  /** Dropping the head of a list drops one occurrence of it from its multiset. */
  lemma TailMultiset(a: seq<SymbolRow>)
    requires a != []
    ensures multiset(a[1..]) == multiset(a) - multiset{a[0]}
  {
    assert a == [a[0]] + a[1..];
  }

  lemma {:induction false} PrecedesIrreflexive(a: SymbolRow)
    ensures !Precedes(a, a)
  {
    LexLessIrreflexive(a.name);
  }

  /**
   * `parseOperators`: every name goes to WORDS when its first character code is an
   * ASCII letter, otherwise to SYMBOLS as its spelling and character codes; SYMBOLS
   * is then sorted with `symbolsort`.
   */
  method ParseOperators(ops: seq<OpEntry>) returns (symbols: seq<SymbolRow>, words: seq<string>)
    requires DistinctNames(ops)
    ensures words == WordNames(ops)
    ensures SortedRows(symbols)
    ensures multiset(symbols) == multiset(SymbolRowsOf(ops))
  {
    symbols, words := [], [];
    for i := 0 to |ops|
      invariant words == WordNames(ops[..i])
      invariant symbols == SymbolRowsOf(ops[..i])
    {
      assert ops[..i + 1][..i] == ops[..i];
      var name := ops[i].name;
      if |name| > 0 && (('A' <= name[0] <= 'Z') || ('a' <= name[0] <= 'z')) {
        words := words + [name];
        continue;
      }
      symbols := symbols + [SymbolRow(name, CharCodes(name))];
    }
    assert ops[..|ops|] == ops;
    SymbolRowsDistinct(ops);
    SortRowsCorrect(symbols);
    symbols := SortRows(symbols);
  }

  /**
   * What `parseOperators` leaves in SYMBOLS is the one sorted arrangement of the
   * table's symbol rows, and every row carries a non-empty name with its codes.
   */
  lemma ParsedSymbols(ops: seq<OpEntry>, symbols: seq<SymbolRow>)
    requires DistinctNames(ops)
    requires forall i :: 0 <= i < |ops| ==> ops[i].name != []
    requires SortedRows(symbols) && multiset(symbols) == multiset(SymbolRowsOf(ops))
    ensures symbols == SortRows(SymbolRowsOf(ops))
    ensures forall k :: 0 <= k < |symbols| ==>
      symbols[k].name != [] && symbols[k].codes == CharCodes(symbols[k].name)
  {
    SymbolRowsDistinct(ops);
    SortRowsCorrect(SymbolRowsOf(ops));
    SortedUnique(symbols, SortRows(SymbolRowsOf(ops)));
    forall k | 0 <= k < |symbols|
      ensures symbols[k].name != [] && symbols[k].codes == CharCodes(symbols[k].name)
    {
      assert symbols[k] in multiset(SymbolRowsOf(ops));
      SymbolRowsMembers(ops, symbols[k]);
    }
  }

  lemma {:induction false} SymbolRowsMembers(ops: seq<OpEntry>, r: SymbolRow)
    ensures r in SymbolRowsOf(ops) <==>
      exists i :: 0 <= i < |ops| && !OperatorIsWord(ops[i].name) &&
        r == SymbolRow(ops[i].name, CharCodes(ops[i].name))
  {
    if ops != [] {
      var init := ops[..|ops| - 1];
      var last := ops[|ops| - 1];
      var extra := if OperatorIsWord(last.name) then [] else [SymbolRow(last.name, CharCodes(last.name))];
      assert SymbolRowsOf(ops) == SymbolRowsOf(init) + extra;
      SymbolRowsMembers(init, r);
      if r in SymbolRowsOf(ops) {
        if r in SymbolRowsOf(init) {
          var i :| 0 <= i < |init| && !OperatorIsWord(init[i].name) &&
            r == SymbolRow(init[i].name, CharCodes(init[i].name));
          assert ops[i] == init[i];
        } else {
          assert r in extra;
          assert ops[|ops| - 1] == last;
        }
      } else {
        forall i | 0 <= i < |ops| && !OperatorIsWord(ops[i].name)
          ensures r != SymbolRow(ops[i].name, CharCodes(ops[i].name))
        {
          if i < |ops| - 1 {
            assert init[i] == ops[i];
          }
        }
      }
    }
  }

  lemma {:induction false} WordNamesMembers(ops: seq<OpEntry>, n: string)
    ensures n in WordNames(ops) <==> n in Names(ops) && OperatorIsWord(n)
  {
    if ops != [] {
      var init := ops[..|ops| - 1];
      WordNamesMembers(init, n);
      assert Names(ops) == Names(init) + [ops[|ops| - 1].name];
    }
  }

  lemma {:induction false} SymbolRowsDistinct(ops: seq<OpEntry>)
    requires DistinctNames(ops)
    ensures DistinctRowNames(SymbolRowsOf(ops))
  {
    if ops != [] {
      var init := ops[..|ops| - 1];
      SymbolRowsDistinct(init);
      var last := ops[|ops| - 1];
      if !OperatorIsWord(last.name) {
        var s := SymbolRowsOf(init);
        forall k | 0 <= k < |s| ensures s[k].name != last.name {
          SymbolRowsMembers(init, s[k]);
          var i :| 0 <= i < |init| && !OperatorIsWord(init[i].name) &&
            s[k] == SymbolRow(init[i].name, CharCodes(init[i].name));
          assert ops[i] == init[i];
        }
      }
    }
  }

  /**
   * Every name of the table lands in exactly one of WORDS and SYMBOLS, in WORDS iff
   * `operatorIsWord` holds of it, and every SYMBOLS entry carries its name's codes.
   */
  lemma Partition(ops: seq<OpEntry>, symbols: seq<SymbolRow>, n: string)
    requires multiset(symbols) == multiset(SymbolRowsOf(ops))
    requires n in Names(ops)
    ensures n in WordNames(ops) <==> OperatorIsWord(n)
    ensures (exists r :: r in symbols && r.name == n) <==> !OperatorIsWord(n)
    ensures forall r :: r in symbols ==> r.codes == CharCodes(r.name)
  {
    WordNamesMembers(ops, n);
    var i :| 0 <= i < |ops| && ops[i].name == n;
    if !OperatorIsWord(n) {
      SymbolRowsMembers(ops, SymbolRow(n, CharCodes(n)));
      assert SymbolRow(n, CharCodes(n)) in multiset(symbols);
    }
    if exists r :: r in symbols && r.name == n {
      var r :| r in symbols && r.name == n;
      assert r in multiset(SymbolRowsOf(ops));
      SymbolRowsMembers(ops, r);
    }
    forall r | r in symbols ensures r.codes == CharCodes(r.name) {
      assert r in multiset(SymbolRowsOf(ops));
      SymbolRowsMembers(ops, r);
    }
  }

  /** In sorted SYMBOLS a longer operator always comes before a shorter one. */
  lemma LongestFirst(symbols: seq<SymbolRow>, i: nat, j: nat)
    requires SortedRows(symbols) && i < j < |symbols|
    ensures |symbols[i].name| >= |symbols[j].name|
    ensures |symbols[i].name| == |symbols[j].name| ==> LexLess(symbols[j].name, symbols[i].name)
  {
    assert Precedes(symbols[i], symbols[j]);
  }

  // ---- the sequence-logic entries ----

  /** `bool(x)`: `[true]` when `x` is truthy, otherwise `[]`. */
  function BoolOf(x: Value): (r: seq<Value>)
    ensures |r| <= 1 && (forall v :: v in r ==> v == Bool(true))
    ensures r != [] <==> Truthy(x)
  {
    if Truthy(x) then [Bool(true)] else []
  }

  predicate HasTruthy(s: seq<Value>) { exists i :: 0 <= i < |s| && Truthy(s[i]) }

  /** `&&`: the second set when the first holds a truthy element, else the first. */
  function And(a: seq<Value>, b: seq<Value>): seq<Value> {
    if HasTruthy(a) then b else a
  }

  /** `||`: the first set when it holds a truthy element, else the second. */
  function Or(a: seq<Value>, b: seq<Value>): seq<Value> {
    if HasTruthy(a) then a else b
  }

  /** `??`: the first set unless it is empty. */
  function Coalesce(a: seq<Value>, b: seq<Value>): seq<Value> {
    if |a| > 0 then a else b
  }

  /**
   * Read as truth values (a set is true when it holds a truthy element), `&&` is
   * conjunction and `||` disjunction, and each returns one of its operands whole.
   */
  lemma SetLogic(a: seq<Value>, b: seq<Value>)
    ensures HasTruthy(And(a, b)) <==> HasTruthy(a) && HasTruthy(b)
    ensures HasTruthy(Or(a, b)) <==> HasTruthy(a) || HasTruthy(b)
    ensures And(a, b) == (if HasTruthy(a) then b else a)
    ensures Or(a, b) == (if HasTruthy(a) then a else b)
    ensures Coalesce(a, b) == (if a == [] then b else a)
    ensures Coalesce(a, b) == [] <==> a == [] && b == []
  {
  }

  /** `count`: a singleton holding the size of the set. */
  function Count(s: seq<Value>): seq<Value> {
    [Num(|s| as real)]
  }

  /** `first`: a singleton holding the first element (undefined for an empty set). */
  function First(s: seq<Value>): (r: seq<Value>)
    ensures |r| == 1
    ensures s != [] ==> r[0] == s[0]
    ensures s == [] ==> r[0] == Undefined
  {
    [if s == [] then Undefined else s[0]]
  }

  /** `last`: a singleton holding the last element (undefined for an empty set). */
  function Last(s: seq<Value>): (r: seq<Value>)
    ensures |r| == 1
    ensures s != [] ==> r[0] == s[|s| - 1]
    ensures s == [] ==> r[0] == Undefined
  {
    [if s == [] then Undefined else s[|s| - 1]]
  }

  /** `empty` as written: `bool(set.length)`, which is `[true]` for a NON-empty set. */
  function EmptyAsWritten(s: seq<Value>): seq<Value> {
    BoolOf(Num(|s| as real))
  }

  lemma EmptyAsWrittenInverted()
    ensures EmptyAsWritten([]) == []
    ensures EmptyAsWritten([Null]) == [Bool(true)]
  {
  }

  /** `empty` as evidently intended: `[true]` exactly for the empty set. */
  function Empty(s: seq<Value>): (r: seq<Value>)
    ensures r == [Bool(true)] <==> s == []
    ensures r == [] <==> s != []
  {
    BoolOf(Bool(s == []))
  }

  /** The part of a mappable item that `*` and `~` spread. */
  datatype Part = ValuesPart | KeysPart

  function PartOf(store: Store, item: Value, part: Part): seq<Value> {
    if part == ValuesPart then ValuesOf(store, item) else KeysOf(store, item)
  }

  /** What one item contributes to `*` or `~`. */
  function Expand(store: Store, item: Value, part: Part): seq<Value> {
    if IsMappable(store, item) then PartOf(store, item, part) else [item]
  }

  /** `*` and `~`: each mappable item replaced by its values (keys), the rest kept. */
  function Spread(store: Store, s: seq<Value>, part: Part): seq<Value> {
    if s == [] then [] else Expand(store, s[0], part) + Spread(store, s[1..], part)
  }

  /** Spreading works item by item and keeps the order of the items. */
  lemma {:induction false} SpreadAppend(store: Store, a: seq<Value>, b: seq<Value>, part: Part)
    ensures Spread(store, a + b, part) == Spread(store, a, part) + Spread(store, b, part)
  {
    if a == [] {
      assert a + b == b;
    } else {
      assert (a + b)[0] == a[0] && (a + b)[1..] == a[1..] + b;
      SpreadAppend(store, a[1..], b, part);
      var e := Expand(store, a[0], part);
      calc {
        Spread(store, a + b, part);
        e + Spread(store, a[1..] + b, part);
        e + (Spread(store, a[1..], part) + Spread(store, b, part));
        { assert e + (Spread(store, a[1..], part) + Spread(store, b, part)) ==
                 (e + Spread(store, a[1..], part)) + Spread(store, b, part); }
        Spread(store, a, part) + Spread(store, b, part);
      }
    }
  }

  /** Items that are not mappable pass through unchanged. */
  lemma {:induction false} SpreadPassesScalars(store: Store, s: seq<Value>, part: Part)
    requires forall i :: 0 <= i < |s| ==> !IsMappable(store, s[i])
    ensures Spread(store, s, part) == s
  {
    if s != [] {
      SpreadPassesScalars(store, s[1..], part);
    }
  }

  /** A single mappable item is replaced by exactly its values, or its keys. */
  lemma SpreadOne(store: Store, item: Value, part: Part)
    ensures Spread(store, [item], part) ==
      (if IsMappable(store, item) then PartOf(store, item, part) else [item])
  {
    assert [item][1..] == [];
    assert Spread(store, [item], part) == Expand(store, item, part) + [];
  }

  /** What an operator function returned: a list, or one value for `ensureArray` to wrap. */
  datatype OpResult = Items(items: seq<Value>) | Single(value: Value)

  /** The caller-supplied behaviour of every operator the model leaves uninterpreted. */
  type Foreign = (string, seq<seq<Value>>) -> OpResult

  /**
   * Calls an operator function with the operand sets. A modelled entry called with
   * the argument count it is written for is evaluated here; everything else goes to
   * the oracle.
   */
  function Apply(store: Store, op: OpEntry, args: seq<seq<Value>>, foreign: Foreign): (r: OpResult)
    ensures op.impl == CountOp && |args| == 1 ==> r == Items([Num(|args[0]| as real)])
    ensures op.impl == Unmodelled ==> r == foreign(op.name, args)
  {
    match op.impl
    case SpreadValues => if |args| == 1 then Items(Spread(store, args[0], ValuesPart)) else foreign(op.name, args)
    case SpreadKeys => if |args| == 1 then Items(Spread(store, args[0], KeysPart)) else foreign(op.name, args)
    case AndOp => if |args| == 2 then Items(And(args[0], args[1])) else foreign(op.name, args)
    case OrOp => if |args| == 2 then Items(Or(args[0], args[1])) else foreign(op.name, args)
    case CoalesceOp => if |args| == 2 then Items(Coalesce(args[0], args[1])) else foreign(op.name, args)
    case CountOp => if |args| == 1 then Items(Count(args[0])) else foreign(op.name, args)
    case FirstOp => if |args| == 1 then Items(First(args[0])) else foreign(op.name, args)
    case LastOp => if |args| == 1 then Items(Last(args[0])) else foreign(op.name, args)
    case EmptyOp => if |args| == 1 then Items(Empty(args[0])) else foreign(op.name, args)
    case Unmodelled => foreign(op.name, args)
  }

  /** `ensureArray` applied to what an operator returned. */
  function Normalise(store: Store, r: OpResult): (out: seq<Value>)
    ensures forall v :: v in out ==> !IsNullish(v)
  {
    match r
    case Items(xs) => Compact(xs)
    case Single(v) => EnsureArray(store, v)
  }
}
