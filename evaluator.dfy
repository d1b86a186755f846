/**
 * The evaluator functions as the source runs them: loops that reassign `current` or
 * push into an accumulator, and walkers that update a `seen` set and a results list.
 * Each method is proved to compute the function of module Taxonomy for its node.
 */
module Evaluator {
  import opened Base
  import opened Values
  import opened Ast
  import opened Slicing
  import opened Taxonomy
  import Operators

  // ---- an error in a loop's step ends the whole loop with that error ----

  lemma {:induction false} UnionErrorStays(store: Store, foreign: Operators.Foreign, u: Unit, i: nat, n: nat, p: Props)
    requires u.Union? && i < n <= |u.parts| && UnionUpTo(store, foreign, u, i + 1, p).Err?
    ensures UnionUpTo(store, foreign, u, n, p) == UnionUpTo(store, foreign, u, i + 1, p)
    decreases n
  {
    if n > i + 1 {
      UnionErrorStays(store, foreign, u, i, n - 1, p);
    }
  }

  lemma {:induction false} PartsErrorStays(store: Store, foreign: Operators.Foreign, u: Unit, i: nat, n: nat, p: Props)
    requires u.Slice? && i < n <= |u.parts| && Parts(store, foreign, u, i + 1, p).Err?
    ensures Parts(store, foreign, u, n, p) == Parts(store, foreign, u, i + 1, p)
    decreases n
  {
    if n > i + 1 {
      PartsErrorStays(store, foreign, u, i, n - 1, p);
    }
  }

  lemma {:induction false} DescendErrorStays(store: Store, foreign: Operators.Foreign, u: Unit, i: nat, n: nat, p: Props)
    requires u.Descend? && u.sel.ByUnit? && i < n <= |p.current| && DescendUpTo(store, foreign, u, i + 1, p).Err?
    ensures DescendUpTo(store, foreign, u, n, p) == DescendUpTo(store, foreign, u, i + 1, p)
    decreases n
  {
    if n > i + 1 {
      DescendErrorStays(store, foreign, u, i, n - 1, p);
    }
  }

  lemma {:induction false} FilterErrorStays(store: Store, foreign: Operators.Foreign, u: Unit, vs: seq<Visit>, i: nat, n: nat, p: Props)
    requires u.Filter? && i < n <= |vs| && FilterUpTo(store, foreign, u, vs, i + 1, p).Err?
    ensures FilterUpTo(store, foreign, u, vs, n, p) == FilterUpTo(store, foreign, u, vs, i + 1, p)
    decreases n
  {
    if n > i + 1 {
      FilterErrorStays(store, foreign, u, vs, i, n - 1, p);
    }
  }

  // ---- the node functions ----

  /** The function built for node `u`, called on context `p`. */
  method Run(store: Store, foreign: Operators.Foreign, u: Unit, p: Props) returns (r: Result<seq<Value>, EvalError>)
    ensures r == Eval(store, foreign, u, p)
    decreases u, 3
  {
    match u
    case Statement(_) =>
      r := RunStatement(store, foreign, u, p);
    case Descend(ByUnit(v)) =>
      if v.Slice? {
        r := Run(store, foreign, v, p);
      } else {
        r := RunDescend(store, foreign, u, p);
      }
    case Recursive(ByName(name)) =>
      var walker := new NameWalker();
      walker.WalkAll(store, name, p.current);
      assert walker.results == [] + NameWalkAll(store, name, {}, p.current, 0).results;
      assert walker.results == NameWalkAll(store, name, {}, p.current, 0).results;
      assert Eval(store, foreign, u, p) == Ok(NameWalkAll(store, name, {}, p.current, 0).results);
      r := Ok(walker.results);
    case Recursive(ByPattern(_)) =>
      r := RunPattern(store, foreign, u, p);
    case Slice(_) =>
      r := RunSlice(store, foreign, u, p);
    case Union(_) =>
      r := RunUnion(store, foreign, u, p);
    case Filter(_) =>
      r := RunFilter(store, foreign, u, p);
    case Operand(_, _, _, _, _) =>
      r := RunOperand(store, foreign, u, p);
    case _ =>
      r := Eval(store, foreign, u, p);
  }

  /** `for (const unit of units) current = unit({ ...props, current })`. */
  method RunStatement(store: Store, foreign: Operators.Foreign, u: Unit, p: Props) returns (r: Result<seq<Value>, EvalError>)
    requires u.Statement?
    ensures r == Eval(store, foreign, u, p)
    decreases u, 2
  {
    var current := p.current;
    var i := 0;
    while i < |u.units|
      invariant 0 <= i <= |u.units|
      invariant Chain(store, foreign, u, i, current, p) == Eval(store, foreign, u, p)
    {
      var next := Run(store, foreign, u.units[i], p.(current := current));
      if next.Err? {
        return Err(next.error);
      }
      current := next.value;
      i := i + 1;
    }
    r := Ok(current);
  }

  /** `for (const unit of units) result.push(...unit(props))`. */
  method RunUnion(store: Store, foreign: Operators.Foreign, u: Unit, p: Props) returns (r: Result<seq<Value>, EvalError>)
    requires u.Union?
    ensures r == Eval(store, foreign, u, p)
    decreases u, 2
  {
    var result := [];
    var i := 0;
    while i < |u.parts|
      invariant 0 <= i <= |u.parts|
      invariant UnionUpTo(store, foreign, u, i, p) == Ok(result)
    {
      var b := Run(store, foreign, u.parts[i], p);
      if b.Err? {
        UnionErrorStays(store, foreign, u, i, |u.parts|, p);
        return Err(b.error);
      }
      result := result + b.value;
      i := i + 1;
    }
    r := Ok(result);
  }

  /** The reduce of a computed Descend: each mappable item's keys go through the sub-query. */
  method RunDescend(store: Store, foreign: Operators.Foreign, u: Unit, p: Props) returns (r: Result<seq<Value>, EvalError>)
    requires u.Descend? && u.sel.ByUnit? && !u.sel.unit.Slice?
    ensures r == Eval(store, foreign, u, p)
    decreases u, 2
  {
    var items := [];
    var i := 0;
    while i < |p.current|
      invariant 0 <= i <= |p.current|
      invariant DescendUpTo(store, foreign, u, i, p) == Ok(items)
    {
      var item := p.current[i];
      if IsMappable(store, item) {
        var b := Run(store, foreign, u.sel.unit, p.(scope := item, current := KeysOf(store, item)));
        if b.Err? {
          DescendErrorStays(store, foreign, u, i, |p.current|, p);
          return Err(b.error);
        }
        items := items + b.value;
      }
      i := i + 1;
    }
    r := Ok(items);
  }

  /** The filter's callbacks in turn: an entry's value is pushed when the predicate passes on it. */
  method RunFilter(store: Store, foreign: Operators.Foreign, u: Unit, p: Props) returns (r: Result<seq<Value>, EvalError>)
    requires u.Filter?
    ensures r == Eval(store, foreign, u, p)
    decreases u, 2
  {
    var vs := Visits(store, p.current);
    var items := [];
    var i := 0;
    while i < |vs|
      invariant 0 <= i <= |vs|
      invariant FilterUpTo(store, foreign, u, vs, i, p) == Ok(items)
    {
      var v := vs[i];
      var t := Run(store, foreign, u.pred, p.(scope := v.scope, key := v.key, index := v.index));
      if t.Err? {
        FilterErrorStays(store, foreign, u, vs, i, |vs|, p);
        return Err(t.error);
      }
      if Passes(t.value) {
        items := items + [v.scope];
      }
      i := i + 1;
    }
    r := Ok(items);
  }

  /** An operator node: the operand statements run first, then the operator function, then `ensureArray`. */
  method RunOperand(store: Store, foreign: Operators.Foreign, u: Unit, p: Props) returns (r: Result<seq<Value>, EvalError>)
    requires u.Operand?
    ensures r == Eval(store, foreign, u, p)
    decreases u, 2
  {
    var op := Operators.OpEntry(u.name, u.arity, u.impl);
    var args: seq<seq<Value>>;
    if u.left.None? && u.right.None? {
      args := [p.current];
    } else if u.left.Some? && u.right.Some? {
      var a := Run(store, foreign, u.left.value, p);
      if a.Err? {
        return Err(a.error);
      }
      var b := Run(store, foreign, u.right.value, p);
      if b.Err? {
        return Err(b.error);
      }
      args := [a.value, b.value];
    } else if u.right.Some? {
      var b := Run(store, foreign, u.right.value, p);
      if b.Err? {
        return Err(b.error);
      }
      args := [b.value];
    } else {
      var a := Run(store, foreign, u.left.value, p);
      if a.Err? {
        return Err(a.error);
      }
      args := [a.value];
    }
    r := Ok(Operators.Normalise(store, Operators.Apply(store, op, args, foreign)));
  }

  /** A Slice: every part runs on the same context, then the arrays among the current items are sliced. */
  method RunSlice(store: Store, foreign: Operators.Foreign, u: Unit, p: Props) returns (r: Result<seq<Value>, EvalError>)
    requires u.Slice?
    ensures r == Eval(store, foreign, u, p)
    decreases u, 2
  {
    var results := [];
    var i := 0;
    while i < |u.parts|
      invariant 0 <= i <= |u.parts|
      invariant Parts(store, foreign, u, i, p) == Ok(results)
    {
      var b := Run(store, foreign, u.parts[i], p);
      if b.Err? {
        PartsErrorStays(store, foreign, u, i, |u.parts|, p);
        return Err(b.error);
      }
      results := results + [b.value];
      i := i + 1;
    }
    r := SliceArrays(store, u.parts, results, p.current);
  }

  /** The reduce over the arrays of `current`, with the stepping loops for a non-zero step. */
  method SliceArrays(store: Store, parts: seq<Unit>, results: seq<seq<Value>>, current: seq<Value>) returns (r: Result<seq<Value>, EvalError>)
    requires |results| == |parts|
    ensures r == SliceOf(store, parts, results, current)
  {
    var start :- BoundOf(parts, results, 0);
    var stop :- BoundOf(parts, results, 1);
    var step :- BoundOf(parts, results, 2);
    var lists := ArrayContents(store, current);
    if step.None? || step.value == 0 {
      var items := SliceEach(lists, start, stop);
      r := Ok(items);
    } else {
      var items := StepEach(lists, start, stop, step.value);
      r := Ok(Compact(items));
    }
  }

  /** A Recursive with a sub-query: one walker, shared by the walks from every current item. */
  method RunPattern(store: Store, foreign: Operators.Foreign, u: Unit, p: Props) returns (r: Result<seq<Value>, EvalError>)
    requires u.Recursive? && u.rsel.ByPattern?
    ensures r == Eval(store, foreign, u, p)
    decreases u, 2
  {
    ghost var all := PatternWalkAll(store, foreign, u, {}, 0, p);
    assert Eval(store, foreign, u, p) == if all.Ok? then Ok(all.value.results) else Err(all.error);
    var walker := new PatternWalker();
    var i := 0;
    while i < |p.current|
      invariant 0 <= i <= |p.current|
      invariant fresh(walker)
      invariant Shift([], all) == Shift(walker.results, PatternWalkAll(store, foreign, u, walker.seen, i, p))
    {
      ghost var here := PatternWalkAll(store, foreign, u, walker.seen, i, p);
      ghost var before := walker.results;
      ghost var w1 := PatternWalk(store, foreign, u, walker.seen, p.current[i], p);
      var err := walker.Walk(store, foreign, u, p.current[i], p);
      if err.Some? {
        assert w1 == Err(err.value) && here == Err(err.value);
        return Err(err.value);
      }
      assert w1.Ok? && walker.seen == w1.value.seen && walker.results == before + w1.value.results;
      ghost var w2 := PatternWalkAll(store, foreign, u, walker.seen, i + 1, p);
      if w2.Ok? {
        assert here == Ok(Walked(w2.value.seen, w1.value.visits + w2.value.visits, w1.value.results + w2.value.results));
        assert walker.results + w2.value.results == before + (w1.value.results + w2.value.results);
      } else {
        assert here == Err(w2.error);
      }
      i := i + 1;
    }
    assert walker.results + [] == walker.results;
    assert all.Ok? && all.value.results == [] + all.value.results;
    r := Ok(walker.results);
  }

  /** A walk's outcome with the results collected before it put in front. */
  function After(before: seq<Value>, w: Walked): (set<nat>, seq<Value>) {
    (w.seen, before + w.results)
  }

  /** Results appended before a walk's three pieces: kept as a lemma so the walkers' proofs stay small. */
  lemma AppendFour(a: seq<Value>, b: seq<Value>, c: seq<Value>, d: seq<Value>)
    ensures a + b + c + d == a + (b + c + d)
  {
  }

  /** `After` for a walk that may fail. */
  function Shift(before: seq<Value>, w: Result<Walked, EvalError>): Result<(set<nat>, seq<Value>), EvalError> {
    match w
    case Ok(x) => Ok(After(before, x))
    case Err(e) => Err(e)
  }

  /**
   * One entry callback of a Recursive with a sub-query, once the sub-query and the walk
   * into the value have succeeded: the rest of the entries continue from the walk's state.
   */
  lemma PatternEntriesStep(store: Store, foreign: Operators.Foreign, u: Unit, seen: set<nat>, es: seq<Entry>, i: nat, p: Props,
                           before: seq<Value>, level: seq<Value>, w1: Walked)
    requires u.Recursive? && u.rsel.ByPattern? && i < |es|
    requires Eval(store, foreign, u.rsel.unit, p.(scope := es[i].val)) == Ok(level)
    requires PatternWalk(store, foreign, u, seen, es[i].val, p) == Ok(w1)
    ensures Shift(before, PatternEntries(store, foreign, u, seen, es, i, p)) ==
      Shift(before + Compact(level) + w1.results, PatternEntries(store, foreign, u, w1.seen, es, i + 1, p))
  {
    var w2 := PatternEntries(store, foreign, u, w1.seen, es, i + 1, p);
    if w2.Ok? {
      AppendFour(before, Compact(level), w1.results, w2.value.results);
    }
  }

  /** The closure state of a Recursive with a sub-query: the `seen` set and the `results` list. */
  class PatternWalker {
    var seen: set<nat>
    var results: seq<Value>

    constructor ()
      ensures seen == {} && results == []
    {
      seen := {};
      results := [];
    }

    /**
     * `walk(item)`: skip what is not mappable or already seen; otherwise mark it seen
     * and go through its entries.
     */
    method Walk(store: Store, foreign: Operators.Foreign, u: Unit, v: Value, p: Props) returns (err: Option<EvalError>)
      requires u.Recursive? && u.rsel.ByPattern?
      modifies this
      ensures Shift(old(results), PatternWalk(store, foreign, u, old(seen), v, p)) ==
        (if err.Some? then Err(err.value) else Ok((seen, results)))
      decreases u, 1, store.Keys - seen, 0
    {
      if !IsMappable(store, v) || v.addr in seen {
        assert results + [] == results;
        return None;
      }
      seen := seen + {v.addr};
      err := WalkEntries(store, foreign, u, Entries(store, v), p);
    }

    /**
     * The callback of `map(item, ...)` over the entries: push the sub-query's non-null
     * results on the value, then walk into the value.
     */
    method WalkEntries(store: Store, foreign: Operators.Foreign, u: Unit, es: seq<Entry>, p: Props) returns (err: Option<EvalError>)
      requires u.Recursive? && u.rsel.ByPattern?
      modifies this
      ensures Shift(old(results), PatternEntries(store, foreign, u, old(seen), es, 0, p)) ==
        (if err.Some? then Err(err.value) else Ok((seen, results)))
      decreases u, 1, store.Keys - seen, 1
    {
      ghost var goal := Shift(results, PatternEntries(store, foreign, u, seen, es, 0, p));
      var i := 0;
      while i < |es|
        invariant 0 <= i <= |es|
        invariant old(seen) <= seen
        invariant goal == Shift(results, PatternEntries(store, foreign, u, seen, es, i, p))
      {
        ghost var here := PatternEntries(store, foreign, u, seen, es, i, p);
        var level := Run(store, foreign, u.rsel.unit, p.(scope := es[i].val));
        if level.Err? {
          assert here == Err(level.error);
          return Some(level.error);
        }
        ghost var before := results;
        ghost var seen0 := seen;
        ghost var w1 := PatternWalk(store, foreign, u, seen, es[i].val, p);
        results := results + Compact(level.value);
        var e := Walk(store, foreign, u, es[i].val, p);
        if e.Some? {
          assert w1 == Err(e.value) && here == Err(e.value);
          return e;
        }
        assert w1.Ok? && seen == w1.value.seen && results == before + Compact(level.value) + w1.value.results;
        PatternEntriesStep(store, foreign, u, seen0, es, i, p, before, level.value, w1.value);
        i := i + 1;
      }
      assert results + [] == results;
      return None;
    }
  }

  /** The closure state of a named Recursive: the `seen` set and the `results` list. */
  class NameWalker {
    var seen: set<nat>
    var results: seq<Value>

    constructor ()
      ensures seen == {} && results == []
    {
      seen := {};
      results := [];
    }

    /**
     * `walk(item)`: skip what is not mappable or already seen; otherwise mark it seen
     * and go through its entries.
     */
    method Walk(store: Store, name: string, v: Value)
      modifies this
      ensures var w := NameWalk(store, name, old(seen), v);
        seen == w.seen && results == old(results) + w.results
      decreases store.Keys - seen, 0
    {
      if !IsMappable(store, v) || v.addr in seen {
        assert results + [] == results;
        return;
      }
      seen := seen + {v.addr};
      WalkEntries(store, name, Entries(store, v));
    }

    /**
     * The callback of `map(item, ...)` over the entries: push the value when its key is
     * the name and it is not null or undefined, then walk into the value.
     */
    method WalkEntries(store: Store, name: string, es: seq<Entry>)
      modifies this
      ensures var w := NameEntries(store, name, old(seen), es, 0);
        seen == w.seen && results == old(results) + w.results
      decreases store.Keys - seen, 1
    {
      ghost var goal := After(results, NameEntries(store, name, seen, es, 0));
      var i := 0;
      while i < |es|
        invariant 0 <= i <= |es|
        invariant old(seen) <= seen
        invariant goal == After(results, NameEntries(store, name, seen, es, i))
      {
        ghost var before := results;
        ghost var w1 := NameWalk(store, name, seen, es[i].val);
        ghost var w2 := NameEntries(store, name, w1.seen, es, i + 1);
        assert NameEntries(store, name, seen, es, i) ==
          Walked(w2.seen, w1.visits + w2.visits, Hit(es[i], name) + w1.results + w2.results);
        if es[i].key == Str(name) && !IsNullish(es[i].val) {
          results := results + [es[i].val];
        }
        assert results == before + Hit(es[i], name);
        Walk(store, name, es[i].val);
        assert seen == w1.seen && results == before + Hit(es[i], name) + w1.results;
        AppendFour(before, Hit(es[i], name), w1.results, w2.results);
        i := i + 1;
      }
      assert results + [] == results;
    }

    /** `current.map(walk)`. */
    method WalkAll(store: Store, name: string, items: seq<Value>)
      modifies this
      ensures var w := NameWalkAll(store, name, old(seen), items, 0);
        seen == w.seen && results == old(results) + w.results
    {
      ghost var goal := NameWalkAll(store, name, seen, items, 0);
      ghost var start := results;
      var i := 0;
      while i < |items|
        invariant 0 <= i <= |items|
        invariant goal.seen == NameWalkAll(store, name, seen, items, i).seen
        invariant start + goal.results == results + NameWalkAll(store, name, seen, items, i).results
      {
        ghost var before := results;
        ghost var w1 := NameWalk(store, name, seen, items[i]);
        ghost var rest := NameWalkAll(store, name, w1.seen, items, i + 1);
        assert NameWalkAll(store, name, seen, items, i) ==
          Walked(rest.seen, w1.visits + rest.visits, w1.results + rest.results);
        Walk(store, name, items[i]);
        assert results == before + w1.results && seen == w1.seen;
        assert before + (w1.results + rest.results) == results + rest.results;
        i := i + 1;
      }
      assert results + [] == results;
    }
  }
}
