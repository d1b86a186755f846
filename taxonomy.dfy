/**
 * What the built evaluator of each tree node computes. Every node becomes a function
 * from a context (root, scope, current, key, index) to a sequence of values, or the
 * error the evaluator raises. The imperative versions of the loops are in module
 * Evaluator and are proved to compute these functions.
 */
module Taxonomy {
  import opened Base
  import opened Values
  import opened Ast
  import opened Slicing
  import Operators

  /** The context every node function receives. `current` is the node-set flowing through a statement. */
  datatype Props = Props(root: Value, scope: Value, current: seq<Value>, key: Value, index: Value)

  /**
   * A TypeError raised while evaluating, a node that cannot be built, or a case the
   * model does not interpret (number parsing of non-numbers, fractional bounds).
   */
  datatype EvalError = TypeError | BuildError | Unmodelled

  /** The context a compiled query is first called with: the data is root, scope and the only current item. */
  function Start(data: Value): Props {
    Props(data, data, [data], Undefined, Undefined)
  }

  /** A context field or a literal as a result: nothing for null or undefined, else the value alone. */
  function Present(v: Value): (r: seq<Value>)
    ensures r == [] <==> IsNullish(v)
    ensures |r| <= 1 && forall x :: x in r ==> x == v
  {
    if IsNullish(v) then [] else [v]
  }

  // ---- named Descend ----

  /** The property key a literal Descend selects by; booleans and null cannot be built into a key. */
  function KeyOf(k: Value): (r: Option<PropKey>)
    ensures r.Some? <==> k.Str? || k.Num?
  {
    match k
    case Str(s) => Some(Name(s))
    case Num(x) => Some(Number(x))
    case _ => None
  }

  /** `current.map((item) => select(item, key))`. */
  function Column(store: Store, items: seq<Value>, key: PropKey): (r: seq<Value>)
    ensures |r| == |items| && forall i :: 0 <= i < |items| ==> r[i] == Select(store, items[i], key)
  {
    seq(|items|, i requires 0 <= i < |items| => Select(store, items[i], key))
  }

  /** `filter(isUndefined)`: only the undefined entries, in order. */
  function OnlyUndefined(xs: seq<Value>): (r: seq<Value>)
    ensures |r| <= |xs|
    ensures forall v :: v in r ==> v == Undefined
    ensures r != [] <==> Undefined in xs
  {
    if xs == [] then []
    else (if xs[0] == Undefined then [Undefined] else []) + OnlyUndefined(xs[1..])
  }

  /** The entries that are not undefined, in order. */
  function Defined(xs: seq<Value>): (r: seq<Value>)
    ensures |r| <= |xs|
    ensures forall v :: v in r <==> v in xs && v != Undefined
  {
    if xs == [] then []
    else (if xs[0] == Undefined then [] else [xs[0]]) + Defined(xs[1..])
  }

  /** Filtering out undefined works entry by entry: the kept entries of `a + b` are those of `a`, then those of `b`. */
  lemma {:induction false} DefinedAppend(a: seq<Value>, b: seq<Value>)
    ensures Defined(a + b) == Defined(a) + Defined(b)
  {
    if a == [] {
      assert a + b == b;
    } else {
      assert (a + b)[0] == a[0] && (a + b)[1..] == a[1..] + b;
      DefinedAppend(a[1..], b);
    }
  }

  /** A named Descend as written: the selected column filtered with `isUndefined`. */
  function DescendKeyAsWritten(store: Store, items: seq<Value>, key: PropKey): seq<Value> {
    OnlyUndefined(Column(store, items, key))
  }

  /**
   * A named Descend as evidently intended: each item's property `key`, kept where
   * present, in the order of the items.
   */
  function DescendKey(store: Store, items: seq<Value>, key: PropKey): (r: seq<Value>)
    ensures forall v :: v in r <==>
      v != Undefined && exists i :: 0 <= i < |items| && Select(store, items[i], key) == v
  {
    var c := Column(store, items, key);
    assert forall v :: v in c <==> exists i :: 0 <= i < |items| && Select(store, items[i], key) == v by {
      forall v ensures v in c ==> exists i :: 0 <= i < |items| && Select(store, items[i], key) == v {
        if v in c {
          var i :| 0 <= i < |c| && c[i] == v;
        }
      }
    }
    Defined(c)
  }

  /**
   * The named Descend goes item by item: one entry for each item that holds the key,
   * none for one that does not, in the order of the items.
   */
  lemma DescendKeyPerItem(store: Store, a: seq<Value>, b: seq<Value>, item: Value, key: PropKey)
    ensures DescendKey(store, a + b, key) == DescendKey(store, a, key) + DescendKey(store, b, key)
    ensures DescendKey(store, [item], key) ==
      if Select(store, item, key) == Undefined then [] else [Select(store, item, key)]
  {
    assert Column(store, a + b, key) == Column(store, a, key) + Column(store, b, key);
    DefinedAppend(Column(store, a, key), Column(store, b, key));
    assert Column(store, [item], key) == [Select(store, item, key)];
  }

  /** On an object that has the property, the named Descend as written yields nothing, and on one that lacks it, undefined. */
  lemma DescendKeyAsWrittenInverted()
    ensures DescendKeyAsWritten(map[0 := ObjNode([("a", Num(1.0))])], [Ref(0)], Name("a")) == []
    ensures DescendKeyAsWritten(map[0 := ObjNode([("a", Num(1.0))])], [Ref(0)], Name("b")) == [Undefined]
    ensures DescendKey(map[0 := ObjNode([("a", Num(1.0))])], [Ref(0)], Name("a")) == [Num(1.0)]
    ensures DescendKey(map[0 := ObjNode([("a", Num(1.0))])], [Ref(0)], Name("b")) == []
  {
    var store := map[0 := ObjNode([("a", Num(1.0))])];
    assert Column(store, [Ref(0)], Name("a")) == [Num(1.0)];
    assert Column(store, [Ref(0)], Name("b")) == [Undefined];
  }

  // ---- Filter ----

  /** One call of the filter's callback: the entry's value as scope, its key, and its position. */
  datatype Visit = Visit(scope: Value, key: Value, index: Value)

  function VisitsOf(store: Store, item: Value): (r: seq<Visit>)
    ensures |r| == |Entries(store, item)|
    ensures forall i :: 0 <= i < |r| ==>
      r[i] == Visit(Entries(store, item)[i].val, Entries(store, item)[i].key, Num(i as real))
  {
    var es := Entries(store, item);
    seq(|es|, i requires 0 <= i < |es| => Visit(es[i].val, es[i].key, Num(i as real)))
  }

  /** Every callback the filter makes, item after item. */
  function Visits(store: Store, items: seq<Value>): seq<Visit> {
    if items == [] then [] else VisitsOf(store, items[0]) + Visits(store, items[1..])
  }

  function Scopes(vs: seq<Visit>): (r: seq<Value>)
    ensures |r| == |vs| && forall i :: 0 <= i < |vs| ==> r[i] == vs[i].scope
  {
    seq(|vs|, i requires 0 <= i < |vs| => vs[i].scope)
  }

  /** A predicate result passes when its first element is truthy. */
  predicate Passes(t: seq<Value>) { t != [] && Truthy(t[0]) }

  /** The entries of `xs` whose mark in `keep` is set, in their order in `xs`. */
  function KeptWhere(xs: seq<Value>, keep: seq<bool>): (r: seq<Value>)
    requires |keep| == |xs|
    ensures |r| <= |xs|
    ensures forall x :: x in r <==> exists j :: 0 <= j < |xs| && keep[j] && xs[j] == x
  {
    if xs == [] then []
    else
      var rest := KeptWhere(xs[1..], keep[1..]);
      assert forall x :: x in rest <==> exists j :: 1 <= j < |xs| && keep[j] && xs[j] == x by {
        forall x | x in rest ensures exists j :: 1 <= j < |xs| && keep[j] && xs[j] == x {
          var j :| 0 <= j < |xs| - 1 && keep[1..][j] && xs[1..][j] == x;
          assert keep[j + 1] && xs[j + 1] == x;
        }
      }
      (if keep[0] then [xs[0]] else []) + rest
  }

  /** Keeping by marks works piece by piece, so the kept entries stay in order. */
  lemma {:induction false} KeptWhereAppend(a: seq<Value>, ka: seq<bool>, b: seq<Value>, kb: seq<bool>)
    requires |ka| == |a| && |kb| == |b|
    ensures KeptWhere(a + b, ka + kb) == KeptWhere(a, ka) + KeptWhere(b, kb)
  {
    if a == [] {
      assert a + b == b && ka + kb == kb;
    } else {
      assert (a + b)[0] == a[0] && (a + b)[1..] == a[1..] + b;
      assert (ka + kb)[0] == ka[0] && (ka + kb)[1..] == ka[1..] + kb;
      KeptWhereAppend(a[1..], ka[1..], b, kb);
    }
  }

  /** The predicate of filter `u` run on one callback's context. */
  function Test(store: Store, foreign: Operators.Foreign, u: Unit, v: Visit, p: Props): Result<seq<Value>, EvalError>
    requires u.Filter?
  {
    Eval(store, foreign, u.pred, p.(scope := v.scope, key := v.key, index := v.index))
  }

  /** For each callback, whether the predicate ran and passed. */
  function PassMarks(store: Store, foreign: Operators.Foreign, u: Unit, vs: seq<Visit>, p: Props): (r: seq<bool>)
    requires u.Filter?
    ensures |r| == |vs|
  {
    seq(|vs|, j requires 0 <= j < |vs| => var t := Test(store, foreign, u, vs[j], p); t.Ok? && Passes(t.value))
  }

  // ---- Slice (the array slicing itself is in module Slicing) ----

  /**
   * A bound of a slice: the first element of its part's result, read as a number.
   * An empty part (nothing written between the separators) is an absent bound. A
   * missing, null or undefined first element is an absent bound; integral numbers are
   * bounds; anything else would go through `parseFloat` and is not interpreted.
   */
  function BoundOf(parts: seq<Unit>, results: seq<seq<Value>>, k: nat): (r: Result<Option<int>, EvalError>)
    requires |results| == |parts|
    ensures k >= |parts| ==> r == Ok(None)
    ensures k < |parts| && parts[k] == Statement([]) ==> r == Ok(None)
    ensures r.Ok? && r.value.Some? ==>
      k < |parts| && results[k] != [] && results[k][0] == Num(r.value.value as real)
  {
    if k >= |parts| || parts[k] == Statement([]) || results[k] == [] then Ok(None)
    else match results[k][0]
      case Undefined => Ok(None)
      case Null => Ok(None)
      case Num(x) => if IsIntegral(x) then Ok(Some(x.Floor)) else Err(Unmodelled)
      case _ => Err(Unmodelled)
  }

  /**
   * A slice of every array among the current items: without a step (or with step 0)
   * each array's `slice(start, stop)`, with a step the elements at the stepped indexes,
   * null and undefined removed.
   */
  function SliceOf(store: Store, parts: seq<Unit>, results: seq<seq<Value>>, current: seq<Value>): (r: Result<seq<Value>, EvalError>)
    requires |results| == |parts|
  {
    var start :- BoundOf(parts, results, 0);
    var stop :- BoundOf(parts, results, 1);
    var step :- BoundOf(parts, results, 2);
    var lists := ArrayContents(store, current);
    if step.None? || step.value == 0 then Ok(Flatten(PlainSlices(lists, start, stop)))
    else Ok(Compact(Flatten(SteppedSlices(lists, start, stop, step.value))))
  }

  /**
   * A bound as written: nothing tells an empty part apart, and the empty statement
   * written there returns the `current` it was given, so its first item is read.
   */
  function BoundAsWritten(results: seq<seq<Value>>, k: nat): Result<Option<int>, EvalError> {
    if k >= |results| || results[k] == [] then Ok(None)
    else match results[k][0]
      case Undefined => Ok(None)
      case Null => Ok(None)
      case Num(x) => if IsIntegral(x) then Ok(Some(x.Floor)) else Err(Unmodelled)
      case _ => Err(Unmodelled)
  }

  /**
   * In `[:2:1]` the empty first part returns the current items; as written the start is
   * then read from the first of them, while an empty part is meant as an absent bound.
   */
  lemma EmptyBoundReadsCurrentAsWritten(store: Store, foreign: Operators.Foreign, p: Props, a: Value)
    requires p.current == [Num(1.0), a]
    ensures var u := Slice([Statement([]), Literal(Num(2.0)), Literal(Num(1.0))]);
      Parts(store, foreign, u, 3, p) == Ok([p.current, [Num(2.0)], [Num(1.0)]]) &&
      BoundAsWritten([p.current, [Num(2.0)], [Num(1.0)]], 0) == Ok(Some(1)) &&
      BoundOf(u.parts, [p.current, [Num(2.0)], [Num(1.0)]], 0) == Ok(None)
  {
    var u := Slice([Statement([]), Literal(Num(2.0)), Literal(Num(1.0))]);
    StatementUnits(store, foreign, Root, p);
    assert u.parts[0] == Statement([]) && u.parts[1] == Literal(Num(2.0)) && u.parts[2] == Literal(Num(1.0));
    assert Parts(store, foreign, u, 0, p) == Ok([]);
    assert [] + [p.current] == [p.current];
    assert Parts(store, foreign, u, 1, p) == Ok([p.current]);
    assert Eval(store, foreign, Literal(Num(2.0)), p) == Ok([Num(2.0)]);
    assert [p.current] + [[Num(2.0)]] == [p.current, [Num(2.0)]];
    assert Parts(store, foreign, u, 2, p) == Ok([p.current, [Num(2.0)]]);
    assert Eval(store, foreign, Literal(Num(1.0)), p) == Ok([Num(1.0)]);
    assert [p.current, [Num(2.0)]] + [[Num(1.0)]] == [p.current, [Num(2.0)], [Num(1.0)]];
    assert (1.0).Floor == 1;
  }

  /** `let [[start], [stop], [step]] = ...` as written: fewer than three parts cannot be destructured. */
  function SliceArgsAsWritten(results: seq<seq<Value>>): (r: Result<(Value, Value, Value), EvalError>)
  {
    if |results| < 3 then Err(TypeError)
    else Ok((First(results[0]), First(results[1]), First(results[2])))
  }

  function First(xs: seq<Value>): Value {
    if xs == [] then Undefined else xs[0]
  }

  /** `[1:2]` has two parts, so the destructuring throws, while the padded reading slices. */
  lemma TwoPartSliceThrowsAsWritten(store: Store, item: Value)
    requires IsArray(store, item)
    ensures SliceArgsAsWritten([[Num(1.0)], [Num(2.0)]]) == Err(TypeError)
    ensures SliceOf(store, [Literal(Num(1.0)), Literal(Num(2.0))], [[Num(1.0)], [Num(2.0)]], [item]) ==
      Ok(JsSlice(store[item.addr].items, Some(1), Some(2)))
  {
    var xs := store[item.addr].items;
    var parts := [Literal(Num(1.0)), Literal(Num(2.0))];
    var results := [[Num(1.0)], [Num(2.0)]];
    assert ArrayContents(store, [item]) == [xs] by {
      assert [item][1..] == [];
    }
    assert (1.0).Floor == 1 && (2.0).Floor == 2;
    assert BoundOf(parts, results, 0) == Ok(Some(1));
    assert BoundOf(parts, results, 1) == Ok(Some(2));
    assert BoundOf(parts, results, 2) == Ok(None);
    assert PlainSlices([xs], Some(1), Some(2)) == [JsSlice(xs, Some(1), Some(2))];
    assert [JsSlice(xs, Some(1), Some(2))][1..] == [];
    assert Flatten([JsSlice(xs, Some(1), Some(2))]) == JsSlice(xs, Some(1), Some(2)) + Flatten([]);
    assert JsSlice(xs, Some(1), Some(2)) + [] == JsSlice(xs, Some(1), Some(2));
  }

  /** The accumulator of Slice's reducers as written: the list, or the length that `push` returned. */
  datatype Acc = List(items: seq<Value>) | Length(n: nat)

  /** `items.push(...piece)` returned as the next accumulator. */
  function PushAsWritten(acc: Acc, piece: seq<Value>): Result<Acc, EvalError> {
    match acc
    case List(items) => Ok(Length(|items| + |piece|))
    case Length(_) => Err(TypeError)
  }

  /** The reduce over the sliced pieces as written, starting from `[]`. */
  function ReduceAsWritten(pieces: seq<seq<Value>>): Result<Acc, EvalError>
    decreases |pieces|
  {
    if pieces == [] then Ok(List([]))
    else
      var acc :- ReduceAsWritten(pieces[..|pieces| - 1]);
      PushAsWritten(acc, pieces[|pieces| - 1])
  }

  /** The stepped reducer as written: the same reduce, then `.filter` on what it returned, which a length does not have. */
  function SteppedReduceAsWritten(pieces: seq<seq<Value>>): Result<seq<Value>, EvalError> {
    var acc :- ReduceAsWritten(pieces);
    match acc
    case List(items) => Ok(Compact(items))
    case Length(_) => Err(TypeError)
  }

  /**
   * One sliced array gives its length instead of its elements, two make the second `push` throw;
   * the stepped reducer then calls `.filter` on that length, so it throws even for one array.
   */
  lemma SliceReduceAsWrittenLosesItems(a: seq<Value>, b: seq<Value>)
    ensures ReduceAsWritten([a]) == Ok(Length(|a|))
    ensures ReduceAsWritten([a, b]) == Err(TypeError)
    ensures SteppedReduceAsWritten([a]) == Err(TypeError)
    ensures SteppedReduceAsWritten([a, b]) == Err(TypeError)
    ensures Flatten([a, b]) == a + b
  {
    assert [a][..0] == [];
    assert [a, b][..1] == [a];
    assert [a, b][1..] == [b];
    assert [b][1..] == [];
    assert Flatten([b]) == b + Flatten([]);
  }

  // ---- Recursive ----

  /** The outcome of a walk: the seen set after it, the objects it entered in order, and what it collected. */
  datatype Walked = Walked(seen: set<nat>, visits: seq<nat>, results: seq<Value>)

  /** A walk from `seen` enters only new objects of the store, each once, and adds exactly them to `seen`. */
  ghost predicate WalkedFrom(store: Store, seen: set<nat>, w: Walked) {
    (forall a :: a in w.seen <==> a in seen || a in w.visits) &&
    (forall i :: 0 <= i < |w.visits| ==> w.visits[i] !in seen && w.visits[i] in store) &&
    (forall i, j :: 0 <= i < j < |w.visits| ==> w.visits[i] != w.visits[j])
  }

  /** Two walks one after the other form a walk. */
  lemma WalkedCompose(store: Store, s0: set<nat>, w1: Walked, w2: Walked)
    requires WalkedFrom(store, s0, w1) && WalkedFrom(store, w1.seen, w2)
    ensures WalkedFrom(store, s0, Walked(w2.seen, w1.visits + w2.visits, []))
  {
    var vs := w1.visits + w2.visits;
    forall i, j | 0 <= i < j < |vs| ensures vs[i] != vs[j] {
      if j >= |w1.visits| && i < |w1.visits| {
        assert vs[i] in w1.seen;
      }
    }
  }

  /** A match of a named Recursive: the entry's key is the name and its value is not null or undefined. */
  function Hit(e: Entry, name: string): (r: seq<Value>)
    ensures r == (if e.key == Str(name) && !IsNullish(e.val) then [e.val] else [])
  {
    if e.key == Str(name) && !IsNullish(e.val) then [e.val] else []
  }

  /** `walk(item)` of a named Recursive. */
  function NameWalk(store: Store, name: string, seen: set<nat>, v: Value): (r: Walked)
    ensures seen <= r.seen
    ensures (!IsMappable(store, v) || v.addr in seen) <==> r.visits == []
    decreases store.Keys - seen, 0
  {
    if !IsMappable(store, v) || v.addr in seen then Walked(seen, [], [])
    else
      var w := NameEntries(store, name, seen + {v.addr}, Entries(store, v), 0);
      Walked(w.seen, [v.addr] + w.visits, w.results)
  }

  /** The callback of `map(item, ...)` over the entries from `i` on: collect a match, then walk into the value. */
  function NameEntries(store: Store, name: string, seen: set<nat>, es: seq<Entry>, i: nat): (r: Walked)
    requires i <= |es|
    ensures seen <= r.seen
    decreases store.Keys - seen, 1, |es| - i
  {
    if i == |es| then Walked(seen, [], [])
    else
      var w1 := NameWalk(store, name, seen, es[i].val);
      var w2 := NameEntries(store, name, w1.seen, es, i + 1);
      Walked(w2.seen, w1.visits + w2.visits, Hit(es[i], name) + w1.results + w2.results)
  }

  /** `current.map(walk)` with one `seen` set shared by all the walks. */
  function NameWalkAll(store: Store, name: string, seen: set<nat>, items: seq<Value>, i: nat): (r: Walked)
    requires i <= |items|
    ensures seen <= r.seen
    decreases store.Keys - seen, 2, |items| - i
  {
    if i == |items| then Walked(seen, [], [])
    else
      var w1 := NameWalk(store, name, seen, items[i]);
      var w2 := NameWalkAll(store, name, w1.seen, items, i + 1);
      Walked(w2.seen, w1.visits + w2.visits, w1.results + w2.results)
  }

  /** Entering a new object and then walking from there forms a walk. */
  lemma WalkedEnter(store: Store, seen: set<nat>, a: nat, w: Walked)
    requires a in store && a !in seen && WalkedFrom(store, seen + {a}, w)
    ensures WalkedFrom(store, seen, Walked(w.seen, [a] + w.visits, w.results))
  {
    var vs := [a] + w.visits;
    forall i, j | 0 <= i < j < |vs| ensures vs[i] != vs[j] {
      if i == 0 {
        assert vs[j] == w.visits[j - 1];
      }
    }
  }

  /** Walks compose, and collect only values that are not null or undefined. */
  predicate NoNullish(xs: seq<Value>) { forall x :: x in xs ==> !IsNullish(x) }

  /**
   * A named walk from `seen` enters each object of the store at most once, never one
   * already seen, and ends with exactly those objects added to `seen`; what it collects
   * is never null or undefined.
   */
  lemma {:induction false} NameWalkOnce(store: Store, name: string, seen: set<nat>, v: Value)
    ensures WalkedFrom(store, seen, NameWalk(store, name, seen, v))
    ensures NoNullish(NameWalk(store, name, seen, v).results)
    decreases store.Keys - seen, 0
  {
    if IsMappable(store, v) && v.addr !in seen {
      NameEntriesOnce(store, name, seen + {v.addr}, Entries(store, v), 0);
      WalkedEnter(store, seen, v.addr, NameEntries(store, name, seen + {v.addr}, Entries(store, v), 0));
    }
  }

  lemma {:induction false} NameEntriesOnce(store: Store, name: string, seen: set<nat>, es: seq<Entry>, i: nat)
    requires i <= |es|
    ensures WalkedFrom(store, seen, NameEntries(store, name, seen, es, i))
    ensures NoNullish(NameEntries(store, name, seen, es, i).results)
    decreases store.Keys - seen, 1, |es| - i
  {
    if i < |es| {
      var w1 := NameWalk(store, name, seen, es[i].val);
      NameWalkOnce(store, name, seen, es[i].val);
      NameEntriesOnce(store, name, w1.seen, es, i + 1);
      WalkedCompose(store, seen, w1, NameEntries(store, name, w1.seen, es, i + 1));
    }
  }

  lemma {:induction false} NameWalkAllOnce(store: Store, name: string, seen: set<nat>, items: seq<Value>, i: nat)
    requires i <= |items|
    ensures WalkedFrom(store, seen, NameWalkAll(store, name, seen, items, i))
    ensures NoNullish(NameWalkAll(store, name, seen, items, i).results)
    decreases store.Keys - seen, 2, |items| - i
  {
    if i < |items| {
      var w1 := NameWalk(store, name, seen, items[i]);
      NameWalkOnce(store, name, seen, items[i]);
      NameWalkAllOnce(store, name, w1.seen, items, i + 1);
      WalkedCompose(store, seen, w1, NameWalkAll(store, name, w1.seen, items, i + 1));
    }
  }

  // ---- the evaluator ----

  /** Whether `build()` succeeds on the whole tree: taxonomy.js has no class for maps, regular expressions or hashmaps. */
  predicate Buildable(u: Unit) {
    match u
    case Statement(us) => forall i :: 0 <= i < |us| ==> Buildable(us[i])
    case Root => true
    case Scope => true
    case Key => true
    case Index => true
    case Literal(_) => true
    case Descend(ByKey(k)) => KeyOf(k).Some?
    case Descend(ByUnit(v)) => Buildable(v)
    case Recursive(ByName(_)) => true
    case Recursive(ByPattern(v)) => Buildable(v)
    case Slice(ps) => forall i :: 0 <= i < |ps| ==> Buildable(ps[i])
    case Union(ps) => forall i :: 0 <= i < |ps| ==> Buildable(ps[i])
    case Filter(pred) => Buildable(pred)
    case Operand(_, _, _, l, r) => (l.Some? ==> Buildable(l.value)) && (r.Some? ==> Buildable(r.value))
    case Mapper(_) => false
    case RegularExpression(_, _) => false
    case Hashmap(_, _) => false
  }

  /** The compiled query called on the data, as `compile(path)(data)` does. */
  function Query(store: Store, foreign: Operators.Foreign, u: Unit, data: Value): Result<seq<Value>, EvalError> {
    if !Buildable(u) then Err(BuildError) else Eval(store, foreign, u, Start(data))
  }

  /** The function `build()` returns for node `u`, applied to context `p`. */
  function Eval(store: Store, foreign: Operators.Foreign, u: Unit, p: Props): Result<seq<Value>, EvalError>
    decreases u, 3
  {
    match u
    case Statement(us) => Chain(store, foreign, u, 0, p.current, p)
    case Root => Ok(Present(p.root))
    case Scope => Ok(Present(p.scope))
    case Key => Ok(Present(p.key))
    case Index => Ok(Present(p.index))
    case Literal(v) => Ok(Present(v))
    case Descend(ByKey(k)) =>
      (match KeyOf(k)
       case Some(key) => Ok(DescendKey(store, p.current, key))
       case None => Err(BuildError))
    case Descend(ByUnit(v)) =>
      if v.Slice? then Eval(store, foreign, v, p) else DescendUpTo(store, foreign, u, |p.current|, p)
    case Recursive(ByName(name)) => Ok(NameWalkAll(store, name, {}, p.current, 0).results)
    case Recursive(ByPattern(v)) =>
      var w :- PatternWalkAll(store, foreign, u, {}, 0, p);
      Ok(w.results)
    case Slice(parts) =>
      var results :- Parts(store, foreign, u, |parts|, p);
      SliceOf(store, parts, results, p.current)
    case Union(parts) => UnionUpTo(store, foreign, u, |parts|, p)
    case Filter(pred) => FilterUpTo(store, foreign, u, Visits(store, p.current), |Visits(store, p.current)|, p)
    case Operand(name, arity, impl, left, right) =>
      var op := Operators.OpEntry(name, arity, impl);
      if left.None? && right.None? then
        Ok(Operators.Normalise(store, Operators.Apply(store, op, [p.current], foreign)))
      else if left.Some? && right.Some? then
        var a :- Eval(store, foreign, left.value, p);
        var b :- Eval(store, foreign, right.value, p);
        Ok(Operators.Normalise(store, Operators.Apply(store, op, [a, b], foreign)))
      else if right.Some? then
        var b :- Eval(store, foreign, right.value, p);
        Ok(Operators.Normalise(store, Operators.Apply(store, op, [b], foreign)))
      else
        var a :- Eval(store, foreign, left.value, p);
        Ok(Operators.Normalise(store, Operators.Apply(store, op, [a], foreign)))
    case Mapper(_) => Err(BuildError)
    case RegularExpression(_, _) => Err(BuildError)
    case Hashmap(_, _) => Err(BuildError)
  }

  /** The statement's loop from unit `i` on: each unit gets the previous unit's output as `current`. */
  function Chain(store: Store, foreign: Operators.Foreign, u: Unit, i: nat, cur: seq<Value>, p: Props): Result<seq<Value>, EvalError>
    requires u.Statement? && i <= |u.units|
    decreases u, 2, |u.units| - i
  {
    if i == |u.units| then Ok(cur)
    else
      var next :- Eval(store, foreign, u.units[i], p.(current := cur));
      Chain(store, foreign, u, i + 1, next, p)
  }

  /** The union's loop over its first `n` members: every member gets the same context. */
  function UnionUpTo(store: Store, foreign: Operators.Foreign, u: Unit, n: nat, p: Props): Result<seq<Value>, EvalError>
    requires u.Union? && n <= |u.parts|
    decreases u, 2, n
  {
    if n == 0 then Ok([])
    else
      var a :- UnionUpTo(store, foreign, u, n - 1, p);
      var b :- Eval(store, foreign, u.parts[n - 1], p);
      Ok(a + b)
  }

  /** The results of a slice's first `n` parts, each run on the same context. */
  function Parts(store: Store, foreign: Operators.Foreign, u: Unit, n: nat, p: Props): (r: Result<seq<seq<Value>>, EvalError>)
    requires u.Slice? && n <= |u.parts|
    ensures r.Ok? ==> |r.value| == n
    decreases u, 2, n
  {
    if n == 0 then Ok([])
    else
      var a :- Parts(store, foreign, u, n - 1, p);
      var b :- Eval(store, foreign, u.parts[n - 1], p);
      Ok(a + [b])
  }

  /** A computed Descend over the first `n` current items: the sub-query runs on each mappable item's keys. */
  function DescendUpTo(store: Store, foreign: Operators.Foreign, u: Unit, n: nat, p: Props): Result<seq<Value>, EvalError>
    requires u.Descend? && u.sel.ByUnit? && n <= |p.current|
    decreases u, 2, n
  {
    if n == 0 then Ok([])
    else
      var a :- DescendUpTo(store, foreign, u, n - 1, p);
      var item := p.current[n - 1];
      if !IsMappable(store, item) then Ok(a)
      else
        var b :- Eval(store, foreign, u.sel.unit, p.(scope := item, current := KeysOf(store, item)));
        Ok(a + b)
  }

  /** The filter over its first `n` callbacks: an entry's value is kept when the predicate passes on it. */
  function FilterUpTo(store: Store, foreign: Operators.Foreign, u: Unit, vs: seq<Visit>, n: nat, p: Props): (r: Result<seq<Value>, EvalError>)
    requires u.Filter? && n <= |vs|
    ensures r.Ok? ==> |r.value| <= n && forall x :: x in r.value ==> exists j :: 0 <= j < n && vs[j].scope == x
    decreases u, 2, n
  {
    if n == 0 then Ok([])
    else
      var a :- FilterUpTo(store, foreign, u, vs, n - 1, p);
      var v := vs[n - 1];
      var t :- Eval(store, foreign, u.pred, p.(scope := v.scope, key := v.key, index := v.index));
      Ok(if Passes(t) then a + [v.scope] else a)
  }

  /** `walk(item)` of a Recursive with a sub-query. */
  function PatternWalk(store: Store, foreign: Operators.Foreign, u: Unit, seen: set<nat>, v: Value, p: Props): (r: Result<Walked, EvalError>)
    requires u.Recursive? && u.rsel.ByPattern?
    ensures r.Ok? ==> seen <= r.value.seen
    decreases u, 1, store.Keys - seen, 0
  {
    if !IsMappable(store, v) || v.addr in seen then Ok(Walked(seen, [], []))
    else
      var w :- PatternEntries(store, foreign, u, seen + {v.addr}, Entries(store, v), 0, p);
      Ok(Walked(w.seen, [v.addr] + w.visits, w.results))
  }

  /** The callback of `map(item, ...)`: the sub-query's non-null results on the value, then the walk into it. */
  function PatternEntries(store: Store, foreign: Operators.Foreign, u: Unit, seen: set<nat>, es: seq<Entry>, i: nat, p: Props): (r: Result<Walked, EvalError>)
    requires u.Recursive? && u.rsel.ByPattern? && i <= |es|
    ensures r.Ok? ==> seen <= r.value.seen
    decreases u, 1, store.Keys - seen, 1, |es| - i
  {
    if i == |es| then Ok(Walked(seen, [], []))
    else
      var level :- Eval(store, foreign, u.rsel.unit, p.(scope := es[i].val));
      var w1 :- PatternWalk(store, foreign, u, seen, es[i].val, p);
      var w2 :- PatternEntries(store, foreign, u, w1.seen, es, i + 1, p);
      Ok(Walked(w2.seen, w1.visits + w2.visits, Compact(level) + w1.results + w2.results))
  }

  /** `props.current.map(walk)` for a Recursive with a sub-query. */
  function PatternWalkAll(store: Store, foreign: Operators.Foreign, u: Unit, seen: set<nat>, i: nat, p: Props): (r: Result<Walked, EvalError>)
    requires u.Recursive? && u.rsel.ByPattern? && i <= |p.current|
    ensures r.Ok? ==> seen <= r.value.seen
    decreases u, 1, store.Keys - seen, 2, |p.current| - i
  {
    if i == |p.current| then Ok(Walked(seen, [], []))
    else
      var w1 :- PatternWalk(store, foreign, u, seen, p.current[i], p);
      var w2 :- PatternWalkAll(store, foreign, u, w1.seen, i + 1, p);
      Ok(Walked(w2.seen, w1.visits + w2.visits, w1.results + w2.results))
  }

  // ---- what the evaluator promises ----

  /** Targets read their context field and literals their value; a literal ignores the context. */
  lemma TargetsAndLiterals(store: Store, foreign: Operators.Foreign, v: Value, p: Props, q: Props)
    ensures Eval(store, foreign, Root, p) == Ok(Present(p.root))
    ensures Eval(store, foreign, Scope, p) == Ok(Present(p.scope))
    ensures Eval(store, foreign, Key, p) == Ok(Present(p.key))
    ensures Eval(store, foreign, Index, p) == Ok(Present(p.index))
    ensures Eval(store, foreign, Literal(v), p) == Eval(store, foreign, Literal(v), q)
    ensures Eval(store, foreign, Literal(Null), p) == Ok([])
  {
  }

  /** The statement loop reads `current` only through the value it threads. */
  lemma {:induction false} ChainIgnoresCurrent(store: Store, foreign: Operators.Foreign, u: Unit, i: nat, cur: seq<Value>, p: Props, c: seq<Value>)
    requires u.Statement? && i <= |u.units|
    ensures Chain(store, foreign, u, i, cur, p) == Chain(store, foreign, u, i, cur, p.(current := c))
    decreases |u.units| - i
  {
    assert p.(current := c).(current := cur) == p.(current := cur);
    if i < |u.units| {
      var r := Eval(store, foreign, u.units[i], p.(current := cur));
      if r.Ok? {
        ChainIgnoresCurrent(store, foreign, u, i + 1, r.value, p, c);
      }
    }
  }

  /** The tail of a statement's loop depends only on the tail of its units. */
  lemma {:induction false} ChainShift(store: Store, foreign: Operators.Foreign, a: seq<Unit>, b: seq<Unit>, j: nat, cur: seq<Value>, p: Props)
    requires j <= |b|
    ensures Chain(store, foreign, Statement(a + b), |a| + j, cur, p) == Chain(store, foreign, Statement(b), j, cur, p)
    decreases |b| - j
  {
    if j < |b| {
      assert (a + b)[|a| + j] == b[j];
      var r := Eval(store, foreign, b[j], p.(current := cur));
      if r.Ok? {
        ChainShift(store, foreign, a, b, j + 1, r.value, p);
      }
    }
  }

  lemma {:induction false} ChainAppend(store: Store, foreign: Operators.Foreign, a: seq<Unit>, b: seq<Unit>, i: nat, cur: seq<Value>, p: Props)
    requires i <= |a|
    ensures Chain(store, foreign, Statement(a + b), i, cur, p) ==
      (var x :- Chain(store, foreign, Statement(a), i, cur, p); Chain(store, foreign, Statement(b), 0, x, p))
    decreases |a| - i
  {
    if i == |a| {
      ChainShift(store, foreign, a, b, 0, cur, p);
    } else {
      assert (a + b)[i] == a[i];
      var r := Eval(store, foreign, a[i], p.(current := cur));
      if r.Ok? {
        ChainAppend(store, foreign, a, b, i + 1, r.value, p);
      }
    }
  }

  /**
   * A statement runs its units in order, each on the previous one's output: running
   * `a + b` is running `a`, then `b` on what `a` returned.
   */
  lemma StatementSplits(store: Store, foreign: Operators.Foreign, a: seq<Unit>, b: seq<Unit>, p: Props)
    ensures Eval(store, foreign, Statement(a + b), p) ==
      (var x :- Eval(store, foreign, Statement(a), p); Eval(store, foreign, Statement(b), p.(current := x)))
  {
    ChainAppend(store, foreign, a, b, 0, p.current, p);
    var r := Chain(store, foreign, Statement(a), 0, p.current, p);
    if r.Ok? {
      ChainIgnoresCurrent(store, foreign, Statement(b), 0, r.value, p, r.value);
    }
  }

  /**
   * An empty statement returns its input `current`, and a statement of one unit
   * computes what that unit computes, so collapsing a one-unit statement to its unit
   * keeps the meaning of the tree.
   */
  lemma StatementUnits(store: Store, foreign: Operators.Foreign, x: Unit, p: Props)
    ensures Eval(store, foreign, Statement([]), p) == Ok(p.current)
    ensures Eval(store, foreign, Statement([x]), p) == Eval(store, foreign, x, p)
  {
    assert p.(current := p.current) == p;
    var r := Eval(store, foreign, x, p);
    if r.Ok? {
      assert Chain(store, foreign, Statement([x]), 1, r.value, p) == Ok(r.value);
    }
  }

  lemma {:induction false} UnionShift(store: Store, foreign: Operators.Foreign, a: seq<Unit>, b: seq<Unit>, j: nat, p: Props)
    requires j <= |b|
    ensures UnionUpTo(store, foreign, Union(a + b), |a| + j, p) ==
      (var x :- UnionUpTo(store, foreign, Union(a), |a|, p); var y :- UnionUpTo(store, foreign, Union(b), j, p); Ok(x + y))
  {
    if j == 0 {
      UnionPrefix(store, foreign, a, b, |a|, p);
      var r := UnionUpTo(store, foreign, Union(a), |a|, p);
      if r.Ok? {
        assert r.value + [] == r.value;
      }
    } else {
      UnionShift(store, foreign, a, b, j - 1, p);
      assert (a + b)[|a| + j - 1] == b[j - 1];
      var x := UnionUpTo(store, foreign, Union(a), |a|, p);
      var y := UnionUpTo(store, foreign, Union(b), j - 1, p);
      if x.Ok? && y.Ok? {
        var z := Eval(store, foreign, b[j - 1], p);
        if z.Ok? {
          assert x.value + y.value + z.value == x.value + (y.value + z.value);
        }
      }
    }
  }

  lemma {:induction false} UnionPrefix(store: Store, foreign: Operators.Foreign, a: seq<Unit>, b: seq<Unit>, n: nat, p: Props)
    requires n <= |a|
    ensures UnionUpTo(store, foreign, Union(a + b), n, p) == UnionUpTo(store, foreign, Union(a), n, p)
  {
    if n > 0 {
      UnionPrefix(store, foreign, a, b, n - 1, p);
      assert (a + b)[n - 1] == a[n - 1];
    }
  }

  /**
   * A union gives every member the same context and concatenates their outputs in
   * member order: the union of `a + b` is the union of `a` followed by the union of `b`.
   */
  lemma UnionConcatenates(store: Store, foreign: Operators.Foreign, a: seq<Unit>, b: seq<Unit>, x: Unit, p: Props)
    ensures Eval(store, foreign, Union(a + b), p) ==
      (var l :- Eval(store, foreign, Union(a), p); var r :- Eval(store, foreign, Union(b), p); Ok(l + r))
    ensures Eval(store, foreign, Union([]), p) == Ok([])
    ensures Eval(store, foreign, Union([x]), p) == Eval(store, foreign, x, p)
  {
    UnionShift(store, foreign, a, b, |b|, p);
    var r := Eval(store, foreign, x, p);
    assert UnionUpTo(store, foreign, Union([x]), 0, p) == Ok([]);
    assert Union([x]).parts[0] == x;
    if r.Ok? {
      assert [] + r.value == r.value;
    }
  }

  /** A predicate that always passes keeps every entry value of every current item, in order. */
  lemma {:induction false} FilterAllPass(store: Store, foreign: Operators.Foreign, u: Unit, vs: seq<Visit>, n: nat, p: Props)
    requires u == Filter(Literal(Bool(true))) && n <= |vs|
    ensures FilterUpTo(store, foreign, u, vs, n, p) == Ok(Scopes(vs[..n]))
  {
    if n > 0 {
      FilterAllPass(store, foreign, u, vs, n - 1, p);
      assert Scopes(vs[..n]) == Scopes(vs[..n - 1]) + [vs[n - 1].scope];
    }
  }

  /** A predicate that never passes keeps nothing. */
  lemma {:induction false} FilterNonePass(store: Store, foreign: Operators.Foreign, u: Unit, vs: seq<Visit>, n: nat, p: Props)
    requires u == Filter(Literal(Null)) && n <= |vs|
    ensures FilterUpTo(store, foreign, u, vs, n, p) == Ok([])
  {
    if n > 0 {
      FilterNonePass(store, foreign, u, vs, n - 1, p);
    }
  }

  /** An always-true predicate keeps every entry value of every current item, in order, and an always-null one keeps none. */
  lemma FilterKeeps(store: Store, foreign: Operators.Foreign, p: Props)
    ensures Eval(store, foreign, Filter(Literal(Bool(true))), p) == Ok(Scopes(Visits(store, p.current)))
    ensures Eval(store, foreign, Filter(Literal(Null)), p) == Ok([])
  {
    var vs := Visits(store, p.current);
    FilterAllPass(store, foreign, Filter(Literal(Bool(true))), vs, |vs|, p);
    assert vs[..|vs|] == vs;
    FilterNonePass(store, foreign, Filter(Literal(Null)), vs, |vs|, p);
  }

  /**
   * For any predicate, a filter node succeeds exactly when its predicate runs on every
   * entry of every current item, and then yields the entry values on which it passes,
   * in order.
   */
  lemma FilterKeepsPassingEntries(store: Store, foreign: Operators.Foreign, pred: Unit, p: Props)
    ensures var vs := Visits(store, p.current);
      Eval(store, foreign, Filter(pred), p).Ok? <==> forall j :: 0 <= j < |vs| ==> Test(store, foreign, Filter(pred), vs[j], p).Ok?
    ensures var vs := Visits(store, p.current); var r := Eval(store, foreign, Filter(pred), p);
      r.Ok? ==> r.value == KeptWhere(Scopes(vs), PassMarks(store, foreign, Filter(pred), vs, p))
  {
    var vs := Visits(store, p.current);
    assert vs[..|vs|] == vs;
    EvalFilter(store, foreign, pred, p);
    FilterKeepsPassing(store, foreign, Filter(pred), vs, |vs|, p);
  }

  lemma EvalFilter(store: Store, foreign: Operators.Foreign, pred: Unit, p: Props)
    ensures Eval(store, foreign, Filter(pred), p) ==
      FilterUpTo(store, foreign, Filter(pred), Visits(store, p.current), |Visits(store, p.current)|, p)
  {
  }

  /**
   * For any predicate, the filter over its first `n` callbacks succeeds exactly when
   * the predicate runs on each of them, and then keeps the entry value of each
   * callback whose predicate passes, and only those, in callback order.
   */
  lemma {:induction false} FilterKeepsPassing(store: Store, foreign: Operators.Foreign, u: Unit, vs: seq<Visit>, n: nat, p: Props)
    requires u.Filter? && n <= |vs|
    ensures FilterUpTo(store, foreign, u, vs, n, p).Ok? <==>
      forall j :: 0 <= j < n ==> Test(store, foreign, u, vs[j], p).Ok?
    ensures FilterUpTo(store, foreign, u, vs, n, p).Ok? ==>
      FilterUpTo(store, foreign, u, vs, n, p).value == KeptWhere(Scopes(vs[..n]), PassMarks(store, foreign, u, vs[..n], p))
  {
    if n > 0 {
      FilterKeepsPassing(store, foreign, u, vs, n - 1, p);
      var t := Test(store, foreign, u, vs[n - 1], p);
      assert t == Eval(store, foreign, u.pred, p.(scope := vs[n - 1].scope, key := vs[n - 1].key, index := vs[n - 1].index));
      KeptOneMore(store, foreign, u, vs, n, p);
    }
  }

  lemma KeptOneMore(store: Store, foreign: Operators.Foreign, u: Unit, vs: seq<Visit>, n: nat, p: Props)
    requires u.Filter? && 0 < n <= |vs|
    ensures var t := Test(store, foreign, u, vs[n - 1], p);
      KeptWhere(Scopes(vs[..n]), PassMarks(store, foreign, u, vs[..n], p)) ==
      KeptWhere(Scopes(vs[..n - 1]), PassMarks(store, foreign, u, vs[..n - 1], p)) +
      (if t.Ok? && Passes(t.value) then [vs[n - 1].scope] else [])
  {
    var t := Test(store, foreign, u, vs[n - 1], p);
    var b := t.Ok? && Passes(t.value);
    assert Scopes(vs[..n]) == Scopes(vs[..n - 1]) + [vs[n - 1].scope];
    assert PassMarks(store, foreign, u, vs[..n], p) == PassMarks(store, foreign, u, vs[..n - 1], p) + [b];
    KeptWhereAppend(Scopes(vs[..n - 1]), PassMarks(store, foreign, u, vs[..n - 1], p), [vs[n - 1].scope], [b]);
    assert KeptWhere([vs[n - 1].scope], [b]) == (if b then [vs[n - 1].scope] else []);
  }

  /** A computed Descend skips every item that is not an array or object. */
  lemma {:induction false} DescendSkipsScalars(store: Store, foreign: Operators.Foreign, u: Unit, n: nat, p: Props)
    requires u.Descend? && u.sel.ByUnit? && n <= |p.current|
    requires forall i :: 0 <= i < |p.current| ==> !IsMappable(store, p.current[i])
    ensures DescendUpTo(store, foreign, u, n, p) == Ok([])
  {
    if n > 0 {
      DescendSkipsScalars(store, foreign, u, n - 1, p);
    }
  }

  /** `[:]`: two empty parts slice every current array whole, and drop the other items. */
  lemma WholeSlice(store: Store, foreign: Operators.Foreign, p: Props)
    ensures Eval(store, foreign, Slice([Statement([]), Statement([])]), p) == Ok(Flatten(ArrayContents(store, p.current)))
  {
    var u := Slice([Statement([]), Statement([])]);
    StatementUnits(store, foreign, Root, p);
    assert Parts(store, foreign, u, 0, p) == Ok([]);
    assert u.parts[0] == Statement([]) && u.parts[1] == Statement([]);
    assert [] + [p.current] == [p.current];
    assert Parts(store, foreign, u, 1, p) == Ok([p.current]);
    assert [p.current] + [p.current] == [p.current, p.current];
    assert Parts(store, foreign, u, 2, p) == Ok([p.current, p.current]);
    var lists := ArrayContents(store, p.current);
    forall i | 0 <= i < |lists| ensures PlainSlices(lists, None, None)[i] == lists[i] {
      SliceBoundaryLaws(lists[i]);
    }
    assert PlainSlices(lists, None, None) == lists;
  }

  /** Every value a named Recursive collects is held under that name by some object of the store. */
  ghost predicate HeldUnder(store: Store, name: string, x: Value) {
    exists a :: a in store && Entry(Str(name), x) in Entries(store, Ref(a))
  }

  lemma {:induction false} NameEntriesSound(store: Store, name: string, seen: set<nat>, es: seq<Entry>, i: nat)
    requires i <= |es|
    requires forall j :: i <= j < |es| && es[j].key == Str(name) ==> HeldUnder(store, name, es[j].val)
    ensures forall x :: x in NameEntries(store, name, seen, es, i).results ==> HeldUnder(store, name, x)
    decreases store.Keys - seen, 1, |es| - i
  {
    if i < |es| {
      var w1 := NameWalk(store, name, seen, es[i].val);
      NameWalkSound(store, name, seen, es[i].val);
      NameEntriesSound(store, name, w1.seen, es, i + 1);
    }
  }

  lemma {:induction false} NameWalkSound(store: Store, name: string, seen: set<nat>, v: Value)
    ensures forall x :: x in NameWalk(store, name, seen, v).results ==> HeldUnder(store, name, x)
    decreases store.Keys - seen, 0
  {
    if IsMappable(store, v) && v.addr !in seen {
      var es := Entries(store, v);
      forall j | 0 <= j < |es| && es[j].key == Str(name) ensures HeldUnder(store, name, es[j].val) {
        assert Ref(v.addr) == v;
        assert Entry(Str(name), es[j].val) in Entries(store, Ref(v.addr));
      }
      NameEntriesSound(store, name, seen + {v.addr}, es, 0);
    }
  }

  lemma {:induction false} NameWalkAllSound(store: Store, name: string, seen: set<nat>, items: seq<Value>, i: nat)
    requires i <= |items|
    ensures forall x :: x in NameWalkAll(store, name, seen, items, i).results ==> HeldUnder(store, name, x)
    decreases store.Keys - seen, 2, |items| - i
  {
    if i < |items| {
      var w1 := NameWalk(store, name, seen, items[i]);
      NameWalkSound(store, name, seen, items[i]);
      NameWalkAllSound(store, name, w1.seen, items, i + 1);
    }
  }

  /**
   * A named Recursive never fails, and collects only values that are not null or
   * undefined and that some object of the data holds under that name.
   */
  lemma RecursiveNameSound(store: Store, foreign: Operators.Foreign, name: string, p: Props)
    ensures Eval(store, foreign, Recursive(ByName(name)), p).Ok?
    ensures forall x :: x in Eval(store, foreign, Recursive(ByName(name)), p).value ==>
      !IsNullish(x) && HeldUnder(store, name, x)
  {
    NameWalkAllSound(store, name, {}, p.current, 0);
    NameWalkAllOnce(store, name, {}, p.current, 0);
  }

  /**
   * After a walk that ends with `seen` and `results`, the object `a` has been dealt with:
   * every array or object among its entry values is seen, and every value it holds under
   * `name` that is not null or undefined is collected.
   */
  ghost predicate Processed(store: Store, name: string, a: nat, seen: set<nat>, results: seq<Value>) {
    forall e :: e in Entries(store, Ref(a)) ==>
      (IsMappable(store, e.val) ==> e.val.addr in seen) &&
      (e.key == Str(name) && !IsNullish(e.val) ==> e.val in results)
  }

  ghost predicate AllProcessed(store: Store, name: string, w: Walked) {
    forall k :: 0 <= k < |w.visits| ==> Processed(store, name, w.visits[k], w.seen, w.results)
  }

  lemma ProcessedGrows(store: Store, name: string, a: nat, s1: set<nat>, r1: seq<Value>, s2: set<nat>, r2: seq<Value>)
    requires Processed(store, name, a, s1, r1) && s1 <= s2 && forall x :: x in r1 ==> x in r2
    ensures Processed(store, name, a, s2, r2)
  {
  }

  /** A named walk deals with every object it enters, and ends with `v` seen when `v` is an array or object. */
  lemma {:induction false} NameWalkComplete(store: Store, name: string, seen: set<nat>, v: Value)
    ensures AllProcessed(store, name, NameWalk(store, name, seen, v))
    ensures IsMappable(store, v) ==> v.addr in NameWalk(store, name, seen, v).seen
    decreases store.Keys - seen, 0
  {
    if IsMappable(store, v) && v.addr !in seen {
      var es := Entries(store, v);
      var we := NameEntries(store, name, seen + {v.addr}, es, 0);
      NameEntriesComplete(store, name, seen + {v.addr}, es, 0);
      var w := NameWalk(store, name, seen, v);
      assert w == Walked(we.seen, [v.addr] + we.visits, we.results);
      assert Processed(store, name, v.addr, w.seen, w.results) by {
        assert Ref(v.addr) == v;
        forall e | e in es
          ensures (IsMappable(store, e.val) ==> e.val.addr in w.seen) &&
                  (e.key == Str(name) && !IsNullish(e.val) ==> e.val in w.results)
        {
          var j :| 0 <= j < |es| && es[j] == e;
        }
      }
      forall k | 0 <= k < |w.visits| ensures Processed(store, name, w.visits[k], w.seen, w.results) {
        if k > 0 {
          assert w.visits[k] == we.visits[k - 1];
        }
      }
    }
  }

  /** The entries from `i` on: each array or object among their values ends up seen, each match is collected. */
  lemma {:induction false} NameEntriesComplete(store: Store, name: string, seen: set<nat>, es: seq<Entry>, i: nat)
    requires i <= |es|
    ensures var w := NameEntries(store, name, seen, es, i);
      AllProcessed(store, name, w) &&
      forall j :: i <= j < |es| ==>
        (IsMappable(store, es[j].val) ==> es[j].val.addr in w.seen) &&
        (es[j].key == Str(name) && !IsNullish(es[j].val) ==> es[j].val in w.results)
    decreases store.Keys - seen, 1, |es| - i
  {
    if i < |es| {
      var w1 := NameWalk(store, name, seen, es[i].val);
      NameWalkComplete(store, name, seen, es[i].val);
      var w2 := NameEntries(store, name, w1.seen, es, i + 1);
      NameEntriesComplete(store, name, w1.seen, es, i + 1);
      var w := NameEntries(store, name, seen, es, i);
      assert w == Walked(w2.seen, w1.visits + w2.visits, Hit(es[i], name) + w1.results + w2.results);
      forall k | 0 <= k < |w.visits| ensures Processed(store, name, w.visits[k], w.seen, w.results) {
        if k < |w1.visits| {
          ProcessedGrows(store, name, w1.visits[k], w1.seen, w1.results, w.seen, w.results);
        } else {
          assert w.visits[k] == w2.visits[k - |w1.visits|];
          ProcessedGrows(store, name, w.visits[k], w2.seen, w2.results, w.seen, w.results);
        }
      }
    }
  }

  /** `current.map(walk)`: every array or object among the current items ends up seen, and every entered object is dealt with. */
  lemma {:induction false} NameWalkAllComplete(store: Store, name: string, seen: set<nat>, items: seq<Value>, i: nat)
    requires i <= |items|
    ensures var w := NameWalkAll(store, name, seen, items, i);
      AllProcessed(store, name, w) &&
      forall j :: i <= j < |items| && IsMappable(store, items[j]) ==> items[j].addr in w.seen
    decreases store.Keys - seen, 2, |items| - i
  {
    if i < |items| {
      var w1 := NameWalk(store, name, seen, items[i]);
      NameWalkComplete(store, name, seen, items[i]);
      var w2 := NameWalkAll(store, name, w1.seen, items, i + 1);
      NameWalkAllComplete(store, name, w1.seen, items, i + 1);
      var w := NameWalkAll(store, name, seen, items, i);
      assert w == Walked(w2.seen, w1.visits + w2.visits, w1.results + w2.results);
      forall k | 0 <= k < |w.visits| ensures Processed(store, name, w.visits[k], w.seen, w.results) {
        if k < |w1.visits| {
          ProcessedGrows(store, name, w1.visits[k], w1.seen, w1.results, w.seen, w.results);
        } else {
          assert w.visits[k] == w2.visits[k - |w1.visits|];
          ProcessedGrows(store, name, w.visits[k], w2.seen, w2.results, w.seen, w.results);
        }
      }
    }
  }

  /**
   * A chain of objects of the store that starts at a current item and goes on, each
   * time, to an object that the previous one holds as an entry value.
   */
  ghost predicate Path(store: Store, items: seq<Value>, path: seq<nat>) {
    && |path| > 0
    && Ref(path[0]) in items
    && (forall k :: 0 <= k < |path| ==> path[k] in store)
    && (forall k :: 0 < k < |path| ==> Ref(path[k]) in ValuesOf(store, Ref(path[k - 1])))
  }

  /** A set that holds the current items and every array or object held by one of its objects holds every path. */
  lemma {:induction false} PathEntered(store: Store, name: string, items: seq<Value>, path: seq<nat>, k: nat, seen: set<nat>, results: seq<Value>)
    requires Path(store, items, path) && k < |path|
    requires forall j :: 0 <= j < |items| && IsMappable(store, items[j]) ==> items[j].addr in seen
    requires forall a :: a in seen ==> Processed(store, name, a, seen, results)
    ensures path[k] in seen
  {
    if k == 0 {
      var j :| 0 <= j < |items| && items[j] == Ref(path[0]);
    } else {
      PathEntered(store, name, items, path, k - 1, seen, results);
      var vs := ValuesOf(store, Ref(path[k - 1]));
      var i :| 0 <= i < |vs| && vs[i] == Ref(path[k]);
      var e := Entries(store, Ref(path[k - 1]))[i];
      assert e in Entries(store, Ref(path[k - 1]));
    }
  }

  /** The walk of a named Recursive from nothing seen collects every match held along every path. */
  lemma NameWalkAllFinds(store: Store, name: string, items: seq<Value>, path: seq<nat>, x: Value)
    requires Path(store, items, path)
    requires Entry(Str(name), x) in Entries(store, Ref(path[|path| - 1])) && !IsNullish(x)
    ensures x in NameWalkAll(store, name, {}, items, 0).results
  {
    var w := NameWalkAll(store, name, {}, items, 0);
    NameWalkAllComplete(store, name, {}, items, 0);
    NameWalkAllOnce(store, name, {}, items, 0);
    forall a | a in w.seen ensures Processed(store, name, a, w.seen, w.results) {
      var k :| 0 <= k < |w.visits| && w.visits[k] == a;
    }
    PathEntered(store, name, items, path, |path| - 1, w.seen, w.results);
  }

  /**
   * A named Recursive misses nothing: every value that is not null or undefined and
   * that some object reachable from a current item holds under the name is collected.
   */
  lemma RecursiveNameComplete(store: Store, foreign: Operators.Foreign, name: string, p: Props, path: seq<nat>, x: Value)
    requires Path(store, p.current, path)
    requires Entry(Str(name), x) in Entries(store, Ref(path[|path| - 1])) && !IsNullish(x)
    ensures Eval(store, foreign, Recursive(ByName(name)), p).Ok?
    ensures x in Eval(store, foreign, Recursive(ByName(name)), p).value
  {
    NameWalkAllFinds(store, name, p.current, path, x);
  }

  /** A self-containing array is entered once, and the walk ends. */
  lemma CycleEnteredOnce()
    ensures NameWalkAll(map[0 := ArrNode([Ref(0)])], "a", {}, [Ref(0)], 0) == Walked({0}, [0], [])
  {
    var store := map[0 := ArrNode([Ref(0)])];
    var es := Entries(store, Ref(0));
    assert es == [Entry(Num(0.0), Ref(0))];
    assert NameWalk(store, "a", {0}, Ref(0)) == Walked({0}, [], []);
    assert NameEntries(store, "a", {0}, es, 1) == Walked({0}, [], []);
    assert NameEntries(store, "a", {0}, es, 0) == Walked({0}, [], []);
    assert NameWalk(store, "a", {}, Ref(0)) == Walked({0}, [0], []);
  }

  /**
   * A walk of a Recursive with a sub-query that succeeds enters each object at most
   * once and never one already seen; what it collects is never null or undefined.
   */
  lemma {:induction false} PatternWalkOnce(store: Store, foreign: Operators.Foreign, u: Unit, seen: set<nat>, v: Value, p: Props)
    requires u.Recursive? && u.rsel.ByPattern?
    ensures var r := PatternWalk(store, foreign, u, seen, v, p);
      r.Ok? ==> WalkedFrom(store, seen, r.value) && NoNullish(r.value.results)
    decreases store.Keys - seen, 0
  {
    if IsMappable(store, v) && v.addr !in seen {
      var r := PatternEntries(store, foreign, u, seen + {v.addr}, Entries(store, v), 0, p);
      PatternEntriesOnce(store, foreign, u, seen + {v.addr}, Entries(store, v), 0, p);
      if r.Ok? {
        WalkedEnter(store, seen, v.addr, r.value);
      }
    }
  }

  lemma {:induction false} PatternEntriesOnce(store: Store, foreign: Operators.Foreign, u: Unit, seen: set<nat>, es: seq<Entry>, i: nat, p: Props)
    requires u.Recursive? && u.rsel.ByPattern? && i <= |es|
    ensures var r := PatternEntries(store, foreign, u, seen, es, i, p);
      r.Ok? ==> WalkedFrom(store, seen, r.value) && NoNullish(r.value.results)
    decreases store.Keys - seen, 1, |es| - i
  {
    if i < |es| {
      var w1 := PatternWalk(store, foreign, u, seen, es[i].val, p);
      PatternWalkOnce(store, foreign, u, seen, es[i].val, p);
      if w1.Ok? {
        var w2 := PatternEntries(store, foreign, u, w1.value.seen, es, i + 1, p);
        PatternEntriesOnce(store, foreign, u, w1.value.seen, es, i + 1, p);
        if w2.Ok? {
          WalkedCompose(store, seen, w1.value, w2.value);
        }
      }
    }
  }

  lemma {:induction false} PatternWalkAllOnce(store: Store, foreign: Operators.Foreign, u: Unit, seen: set<nat>, i: nat, p: Props)
    requires u.Recursive? && u.rsel.ByPattern? && i <= |p.current|
    ensures var r := PatternWalkAll(store, foreign, u, seen, i, p);
      r.Ok? ==> WalkedFrom(store, seen, r.value) && NoNullish(r.value.results)
    decreases store.Keys - seen, 2, |p.current| - i
  {
    if i < |p.current| {
      var w1 := PatternWalk(store, foreign, u, seen, p.current[i], p);
      PatternWalkOnce(store, foreign, u, seen, p.current[i], p);
      if w1.Ok? {
        var w2 := PatternWalkAll(store, foreign, u, w1.value.seen, i + 1, p);
        PatternWalkAllOnce(store, foreign, u, w1.value.seen, i + 1, p);
        if w2.Ok? {
          WalkedCompose(store, seen, w1.value, w2.value);
        }
      }
    }
  }

  /** A Recursive with a sub-query collects only values that are not null or undefined. */
  lemma RecursivePatternSound(store: Store, foreign: Operators.Foreign, pat: Unit, p: Props)
    ensures var r := Eval(store, foreign, Recursive(ByPattern(pat)), p);
      r.Ok? ==> NoNullish(r.value)
  {
    PatternWalkAllOnce(store, foreign, Recursive(ByPattern(pat)), {}, 0, p);
  }

  /** An operator node with no operands applies its function to `current`; the outcome goes through `ensureArray`. */
  lemma OperandOnCurrent(store: Store, foreign: Operators.Foreign, name: string, arity: int, impl: Operators.Impl, p: Props)
    ensures Eval(store, foreign, Operand(name, arity, impl, None, None), p) ==
      Ok(Operators.Normalise(store, Operators.Apply(store, Operators.OpEntry(name, arity, impl), [p.current], foreign)))
  {
  }

  /** An operator node with both operands runs the left one, then the right one, then applies its function to both results. */
  lemma OperandOnBoth(store: Store, foreign: Operators.Foreign, name: string, arity: int, impl: Operators.Impl,
                      l: Unit, r: Unit, p: Props)
    ensures Eval(store, foreign, Operand(name, arity, impl, Some(l), Some(r)), p) ==
      (var a :- Eval(store, foreign, l, p); var b :- Eval(store, foreign, r, p);
       Ok(Operators.Normalise(store, Operators.Apply(store, Operators.OpEntry(name, arity, impl), [a, b], foreign))))
  {
    var u := Operand(name, arity, impl, Some(l), Some(r));
    match Eval(store, foreign, l, p)
    case Err(e) =>
      assert Eval(store, foreign, u, p) == Err(e);
    case Ok(a) =>
      match Eval(store, foreign, r, p)
      case Err(e) =>
        assert Eval(store, foreign, u, p) == Err(e);
      case Ok(b) =>
        assert Eval(store, foreign, u, p) ==
          Ok(Operators.Normalise(store, Operators.Apply(store, Operators.OpEntry(name, arity, impl), [a, b], foreign)));
  }

  /** An operator node with one operand, on either side, applies its function to that operand's result. */
  lemma OperandOnOne(store: Store, foreign: Operators.Foreign, name: string, arity: int, impl: Operators.Impl,
                     x: Unit, p: Props)
    ensures Eval(store, foreign, Operand(name, arity, impl, None, Some(x)), p) ==
      (var b :- Eval(store, foreign, x, p); Ok(Operators.Normalise(store, Operators.Apply(store, Operators.OpEntry(name, arity, impl), [b], foreign))))
    ensures Eval(store, foreign, Operand(name, arity, impl, Some(x), None), p) ==
      (var a :- Eval(store, foreign, x, p); Ok(Operators.Normalise(store, Operators.Apply(store, Operators.OpEntry(name, arity, impl), [a], foreign))))
  {
  }

  /** `count`, a prefix operator, yields the size of the node-set its operand statement produced. */
  lemma CountOperand(store: Store, foreign: Operators.Foreign, name: string, x: Unit, p: Props)
    requires Eval(store, foreign, x, p).Ok?
    ensures Eval(store, foreign, Operand(name, Operators.PREFIX, Operators.CountOp, None, Some(x)), p) ==
      Ok([Num(|Eval(store, foreign, x, p).value| as real)])
  {
    var n := |Eval(store, foreign, x, p).value|;
    OperandOnOne(store, foreign, name, Operators.PREFIX, Operators.CountOp, x, p);
    assert Compact([Num(n as real)]) == [Num(n as real)] by {
      CompactIdle([Num(n as real)]);
    }
  }

  /** `&&` between two statements yields the right one's output when the left one's holds a truthy value, else the left one's. */
  lemma AndOperand(store: Store, foreign: Operators.Foreign, name: string, l: Unit, r: Unit, p: Props)
    requires Eval(store, foreign, l, p).Ok? && Eval(store, foreign, r, p).Ok?
    ensures var a := Eval(store, foreign, l, p).value;
      var b := Eval(store, foreign, r, p).value;
      Eval(store, foreign, Operand(name, Operators.INFIX, Operators.AndOp, Some(l), Some(r)), p) ==
        Ok(if Operators.HasTruthy(a) then Compact(b) else Compact(a))
  {
    OperandOnBoth(store, foreign, name, Operators.INFIX, Operators.AndOp, l, r, p);
    var a, b := Eval(store, foreign, l, p).value, Eval(store, foreign, r, p).value;
    var e := Operators.OpEntry(name, Operators.INFIX, Operators.AndOp);
    assert Operators.Apply(store, e, [a, b], foreign) == Operators.Items(Operators.And(a, b));
  }

  // ---- Operand as the lexer constructs it ----

  /** What a slot of an Operand node holds after construction. */
  datatype Slot = Vacant | Arity(n: int) | Function(impl: Operators.Impl) | Tree(t: Unit)

  /** An Operand node's four slots `operator, fn, left, right`. */
  datatype OperandSlots = OperandSlots(operator: string, fn: Slot, left: Slot, right: Slot)

  /**
   * `new Operand(contents, opType, fn)` as the lexer calls it: the arity lands in `fn` and
   * the operator function in `left`; the lexer then overwrites `left` (infix) and
   * `right` (infix and prefix) with statements.
   */
  function OperandAsLexed(name: string, arity: int, impl: Operators.Impl, left: Option<Unit>, right: Option<Unit>): OperandSlots {
    OperandSlots(name, Arity(arity),
      if left.Some? then Tree(left.value) else Function(impl),
      if right.Some? then Tree(right.value) else Vacant)
  }

  /** A slot as JavaScript truthiness sees it. */
  predicate Filled(s: Slot) {
    match s
    case Vacant => false
    case Arity(n) => n != 0
    case Function(_) => true
    case Tree(_) => true
  }

  /**
   * Building and calling an Operand with the slots it was given: `build` throws when
   * `fn` is falsy; otherwise the returned function calls `fn`, which throws when `fn`
   * holds a number rather than a function.
   */
  function OperandRunAsWritten(s: OperandSlots): (r: Result<(), EvalError>) {
    if !Filled(s.fn) then Err(BuildError)
    else if !s.fn.Function? then Err(TypeError)
    else Ok(())
  }

  /** Every operator node the lexer builds fails: infix ones at build time, the others when called. */
  lemma OperandAsLexedFails(name: string, arity: int, impl: Operators.Impl, left: Option<Unit>, right: Option<Unit>)
    ensures OperandRunAsWritten(OperandAsLexed(name, arity, impl, left, right)).Err?
    ensures arity == Operators.INFIX ==> OperandRunAsWritten(OperandAsLexed(name, arity, impl, left, right)) == Err(BuildError)
    ensures arity != Operators.INFIX ==> OperandRunAsWritten(OperandAsLexed(name, arity, impl, left, right)) == Err(TypeError)
  {
  }
}
