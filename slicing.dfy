/**
 * The slicing of the arrays among the current items by a Slice node: JavaScript's
 * `Array.prototype.slice` for a slice without a step, and the source's own stepping
 * loops for a slice with one. The functions say what is sliced; the methods are the
 * loops as the source runs them, proved to compute the functions.
 */
module Slicing {
  import opened Base
  import opened Values

  /** `Array.prototype.slice`'s reading of a relative index against a length. */
  function Clamp(s: int, len: nat): (r: nat)
    ensures r <= len
    ensures 0 <= s ==> r == if s < len then s else len
    ensures s < 0 ==> r == if len + s < 0 then 0 else len + s
  {
    if s < 0 then (if len + s < 0 then 0 else len + s) else if s < len then s else len
  }

  /**
   * `item.slice(start, stop)` with absent bounds meaning "from the first" and
   * "to the end": a contiguous run of the item.
   */
  function JsSlice(xs: seq<Value>, start: Option<int>, stop: Option<int>): (r: seq<Value>)
    ensures exists a, b :: 0 <= a <= b <= |xs| && r == xs[a..b]
  {
    var a := if start.None? then 0 else Clamp(start.value, |xs|);
    var b := if stop.None? then |xs| else Clamp(stop.value, |xs|);
    if a < b then xs[a..b] else (assert xs[0..0] == []; [])
  }

  /** `item.slice(start, stop)` as written: a null stop reaches `slice` as null, which it reads as 0. */
  function JsSliceAsWritten(xs: seq<Value>, start: Option<int>, stop: Option<int>): seq<Value> {
    JsSlice(xs, start, if stop.None? then Some(0) else stop)
  }

  /** Absent bounds take the whole array; `[-1:]` takes the last element. */
  lemma SliceBoundaryLaws(xs: seq<Value>)
    ensures JsSlice(xs, None, None) == xs
    ensures xs != [] ==> JsSlice(xs, Some(-1), None) == [xs[|xs| - 1]]
    ensures forall k: int :: 0 <= k <= |xs| ==> JsSlice(xs, Some(k), None) == xs[k..]
    ensures forall k: int :: 0 <= k <= |xs| ==> JsSlice(xs, None, Some(k)) == xs[..k]
  {
    assert xs[0..|xs|] == xs;
  }

  /**
   * As written, a three-part slice such as `[-1:null:0]`, whose stop is null and whose step
   * is 0, yields nothing. (A two-part `[-1:]` throws before it gets here.)
   */
  lemma OpenSliceEmptyAsWritten(xs: seq<Value>)
    requires xs != []
    ensures JsSliceAsWritten(xs, Some(-1), None) == []
    ensures JsSlice(xs, Some(-1), None) == [xs[|xs| - 1]]
  {
  }

  /** The first index a stepped slice may visit. */
  function FirstIndex(start: Option<int>, len: nat): (r: int)
    ensures 0 <= r
    ensures start.None? ==> r == 0
    ensures start.Some? && start.value < 0 ==> r == if start.value + len < 0 then 0 else start.value + len
    ensures start.Some? && start.value >= 0 ==> r == start.value
  {
    if start.None? then 0
    else
      var s := if start.value < 0 then start.value + len else start.value;
      if s < 0 then 0 else s
  }

  /** The last index a stepped slice may visit (its stop is inclusive). */
  function LastIndex(stop: Option<int>, len: nat): (r: int)
    ensures r <= len - 1
    ensures stop.None? ==> r == len - 1
    ensures stop.Some? ==> r == (var t := if stop.value < 0 then stop.value + len else stop.value;
                                 if t < len - 1 then t else len - 1)
  {
    if stop.None? then len - 1
    else
      var t := if stop.value < 0 then stop.value + len else stop.value;
      if t < len - 1 then t else len - 1
  }

  /** `for (let i = first; i <= last; i += step)` with a positive step: the indexes it visits. */
  function UpIndices(i: int, last: int, step: int): (r: seq<int>)
    requires step > 0
    ensures r == [] <==> i > last
    ensures r != [] ==> r[0] == i && r[|r| - 1] <= last < r[|r| - 1] + step
    ensures forall k :: 0 <= k < |r| ==> i <= r[k] <= last
    decreases last - i + 1
  {
    if i > last then [] else [i] + UpIndices(i + step, last, step)
  }

  /** `for (let i = last; i >= first; i += step)` with a negative step: the indexes it visits. */
  function DownIndices(i: int, first: int, step: int): (r: seq<int>)
    requires step < 0
    ensures r == [] <==> i < first
    ensures r != [] ==> r[0] == i && r[|r| - 1] + step < first <= r[|r| - 1]
    ensures forall k :: 0 <= k < |r| ==> first <= r[k] <= i
    decreases i - first + 1
  {
    if i < first then [] else [i] + DownIndices(i + step, first, step)
  }

  /** The elements at the given indexes, in the order of the indexes. */
  function Pick(xs: seq<Value>, idx: seq<int>): (r: seq<Value>)
    requires forall k :: 0 <= k < |idx| ==> 0 <= idx[k] < |xs|
    ensures |r| == |idx| && forall k :: 0 <= k < |idx| ==> r[k] == xs[idx[k]]
  {
    seq(|idx|, k requires 0 <= k < |idx| => xs[idx[k]])
  }

  /** The indexes a stepped slice visits in one array: every one lies in [first, last], so within the array. */
  function SteppedIndices(len: nat, start: Option<int>, stop: Option<int>, step: int): (r: seq<int>)
    requires step != 0
    ensures forall k :: 0 <= k < |r| ==>
      FirstIndex(start, len) <= r[k] <= LastIndex(stop, len) && 0 <= r[k] < len
    ensures step > 0 ==> r == UpIndices(FirstIndex(start, len), LastIndex(stop, len), step)
    ensures step < 0 ==> r == DownIndices(LastIndex(stop, len), FirstIndex(start, len), step)
  {
    var first := FirstIndex(start, len);
    var last := LastIndex(stop, len);
    if step > 0 then UpIndices(first, last, step) else DownIndices(last, first, step)
  }

  /** One array under a stepped slice. */
  function Stepped(xs: seq<Value>, start: Option<int>, stop: Option<int>, step: int): seq<Value>
    requires step != 0
  {
    Pick(xs, SteppedIndices(|xs|, start, stop, step))
  }

  /** A positive step walks up from the first index and a negative one down from the last. */
  lemma SteppedDirections(xs: seq<Value>, start: Option<int>, stop: Option<int>, step: int)
    requires step != 0
    ensures var r := Stepped(xs, start, stop, step);
      var first := FirstIndex(start, |xs|);
      var last := LastIndex(stop, |xs|);
      (r != [] <==> first <= last) &&
      (r != [] && step > 0 ==> r[0] == xs[first]) &&
      (r != [] && step < 0 ==> r[0] == xs[last])
  {
  }

  /** With step 1 over absent bounds a stepped slice is the whole array. */
  lemma UnitStepUpCovers(xs: seq<Value>)
    ensures Stepped(xs, None, None, 1) == xs
  {
    var up := UpIndices(0, |xs| - 1, 1);
    UpIndicesCount(0, |xs| - 1);
    forall k | 0 <= k < |up| ensures up[k] == k {
      UpIndicesAt(0, |xs| - 1, k);
    }
  }

  /** With step -1 over absent bounds a stepped slice is the array reversed. */
  lemma UnitStepDownReverses(xs: seq<Value>)
    ensures |Stepped(xs, None, None, -1)| == |xs|
    ensures forall k :: 0 <= k < |xs| ==> Stepped(xs, None, None, -1)[k] == xs[|xs| - 1 - k]
  {
    var down := DownIndices(|xs| - 1, 0, -1);
    DownIndicesCount(|xs| - 1, 0);
    forall k | 0 <= k < |down| ensures down[k] == |xs| - 1 - k {
      DownIndicesAt(|xs| - 1, 0, k);
    }
  }

  lemma {:induction false} UpIndicesCount(i: int, last: int)
    ensures |UpIndices(i, last, 1)| == if i > last then 0 else last - i + 1
    decreases last - i + 1
  {
    if i <= last {
      UpIndicesCount(i + 1, last);
    }
  }

  lemma {:induction false} UpIndicesAt(i: int, last: int, k: nat)
    requires k < |UpIndices(i, last, 1)|
    ensures UpIndices(i, last, 1)[k] == i + k
    decreases last - i + 1
  {
    if k > 0 {
      UpIndicesAt(i + 1, last, k - 1);
    }
  }

  lemma {:induction false} DownIndicesCount(i: int, first: int)
    ensures |DownIndices(i, first, -1)| == if i < first then 0 else i - first + 1
    decreases i - first + 1
  {
    if i >= first {
      DownIndicesCount(i - 1, first);
    }
  }

  lemma {:induction false} DownIndicesAt(i: int, first: int, k: nat)
    requires k < |DownIndices(i, first, -1)|
    ensures DownIndices(i, first, -1)[k] == i - k
    decreases i - first + 1
  {
    if k > 0 {
      DownIndicesAt(i - 1, first, k - 1);
    }
  }

  /** The element lists of the array items, in order; other items are dropped as `filter(isArray)` drops them. */
  function ArrayContents(store: Store, items: seq<Value>): (r: seq<seq<Value>>)
    ensures |r| <= |items|
  {
    if items == [] then []
    else (if IsArray(store, items[0]) then [store[items[0].addr].items] else []) + ArrayContents(store, items[1..])
  }

  function Flatten(xss: seq<seq<Value>>): seq<Value> {
    if xss == [] then [] else xss[0] + Flatten(xss[1..])
  }

  /** Every array sliced by `slice(start, stop)`, the pieces concatenated. */
  function PlainSlices(lists: seq<seq<Value>>, start: Option<int>, stop: Option<int>): (r: seq<seq<Value>>)
    ensures |r| == |lists| && forall i :: 0 <= i < |lists| ==> r[i] == JsSlice(lists[i], start, stop)
  {
    seq(|lists|, i requires 0 <= i < |lists| => JsSlice(lists[i], start, stop))
  }

  /** Every array stepped through, the pieces concatenated. */
  function SteppedSlices(lists: seq<seq<Value>>, start: Option<int>, stop: Option<int>, step: int): (r: seq<seq<Value>>)
    requires step != 0
    ensures |r| == |lists| && forall i :: 0 <= i < |lists| ==> r[i] == Stepped(lists[i], start, stop, step)
  {
    seq(|lists|, i requires 0 <= i < |lists| => Stepped(lists[i], start, stop, step))
  }

  // ---- the loops ----

  lemma {:induction false} FlattenSnoc(xss: seq<seq<Value>>, xs: seq<Value>)
    ensures Flatten(xss + [xs]) == Flatten(xss) + xs
  {
    if xss == [] {
      assert [xs][1..] == [];
      assert Flatten([xs]) == xs + Flatten([]);
    } else {
      assert (xss + [xs])[1..] == xss[1..] + [xs];
      FlattenSnoc(xss[1..], xs);
    }
  }

  /** One more piece of a prefix adds its elements at the end. */
  lemma FlattenPrefix(xss: seq<seq<Value>>, k: nat)
    requires k < |xss|
    ensures Flatten(xss[..k + 1]) == Flatten(xss[..k]) + xss[k]
  {
    FlattenSnoc(xss[..k], xss[k]);
    assert xss[..k + 1] == xss[..k] + [xss[k]];
  }

  /** `item.slice(start, stop)` pushed for every array in turn. */
  method SliceEach(lists: seq<seq<Value>>, start: Option<int>, stop: Option<int>) returns (items: seq<Value>)
    ensures items == Flatten(PlainSlices(lists, start, stop))
  {
    ghost var pieces := PlainSlices(lists, start, stop);
    items := [];
    for k := 0 to |lists|
      invariant items == Flatten(pieces[..k])
    {
      FlattenPrefix(pieces, k);
      items := items + JsSlice(lists[k], start, stop);
    }
    assert pieces[..|pieces|] == pieces;
  }

  /** The stepping loops run over every array in turn. */
  method StepEach(lists: seq<seq<Value>>, start: Option<int>, stop: Option<int>, step: int) returns (items: seq<Value>)
    requires step != 0
    ensures items == Flatten(SteppedSlices(lists, start, stop, step))
  {
    ghost var pieces := SteppedSlices(lists, start, stop, step);
    items := [];
    for k := 0 to |lists|
      invariant items == Flatten(pieces[..k])
    {
      var piece := StepThrough(lists[k], start, stop, step);
      FlattenPrefix(pieces, k);
      items := items + piece;
    }
    assert pieces[..|pieces|] == pieces;
  }

  /** The elements the upward stepping loop pushes from index `i` on. */
  function UpFrom(xs: seq<Value>, i: int, last: int, step: int): (r: seq<Value>)
    requires step > 0 && 0 <= i && last < |xs|
    decreases last - i + 1
  {
    if i > last then [] else [xs[i]] + UpFrom(xs, i + step, last, step)
  }

  /** The elements the downward stepping loop pushes from index `i` on. */
  function DownFrom(xs: seq<Value>, i: int, first: int, step: int): (r: seq<Value>)
    requires step < 0 && 0 <= first && i < |xs|
    decreases i - first + 1
  {
    if i < first then [] else [xs[i]] + DownFrom(xs, i + step, first, step)
  }

  /** What the upward loop pushes is the array read at the indexes it visits. */
  lemma {:induction false} UpFromPicks(xs: seq<Value>, i: int, last: int, step: int)
    requires step > 0 && 0 <= i && last < |xs|
    ensures UpFrom(xs, i, last, step) == Pick(xs, UpIndices(i, last, step))
    decreases last - i + 1
  {
    if i <= last {
      var rest := UpIndices(i + step, last, step);
      UpFromPicks(xs, i + step, last, step);
      assert UpIndices(i, last, step) == [i] + rest;
      PickCons(xs, i, rest);
      assert UpFrom(xs, i, last, step) == [xs[i]] + UpFrom(xs, i + step, last, step);
    }
  }

  /** What the downward loop pushes is the array read at the indexes it visits. */
  lemma {:induction false} DownFromPicks(xs: seq<Value>, i: int, first: int, step: int)
    requires step < 0 && 0 <= first && i < |xs|
    ensures DownFrom(xs, i, first, step) == Pick(xs, DownIndices(i, first, step))
    decreases i - first + 1
  {
    if i >= first {
      var rest := DownIndices(i + step, first, step);
      DownFromPicks(xs, i + step, first, step);
      assert DownIndices(i, first, step) == [i] + rest;
      PickCons(xs, i, rest);
      assert DownFrom(xs, i, first, step) == [xs[i]] + DownFrom(xs, i + step, first, step);
    }
  }

  lemma PickCons(xs: seq<Value>, i: int, rest: seq<int>)
    requires 0 <= i < |xs| && forall k :: 0 <= k < |rest| ==> 0 <= rest[k] < |xs|
    ensures Pick(xs, [i] + rest) == [xs[i]] + Pick(xs, rest)
  {
    var idx := [i] + rest;
    var l, r := Pick(xs, idx), [xs[i]] + Pick(xs, rest);
    assert |l| == |r|;
    forall k | 0 <= k < |l| ensures l[k] == r[k] {
      if k > 0 {
        assert idx[k] == rest[k - 1];
      }
    }
  }

  /** The stepping `for` loops over one array, pushing `item[i]` at every visited index. */
  method StepThrough(xs: seq<Value>, start: Option<int>, stop: Option<int>, step: int) returns (result: seq<Value>)
    requires step != 0
    ensures result == Stepped(xs, start, stop, step)
  {
    var first := FirstIndex(start, |xs|);
    var last := LastIndex(stop, |xs|);
    if step > 0 {
      result := StepUp(xs, first, last, step);
      UpFromPicks(xs, first, last, step);
    } else {
      result := StepDown(xs, first, last, step);
      DownFromPicks(xs, last, first, step);
    }
  }

  /** `for (let i = first; i <= last; i += step) result.push(item[i])`. */
  method StepUp(xs: seq<Value>, first: int, last: int, step: int) returns (result: seq<Value>)
    requires step > 0 && 0 <= first && last < |xs|
    ensures result == UpFrom(xs, first, last, step)
  {
    result := [];
    var i := first;
    while i <= last
      invariant first <= i
      invariant result + UpFrom(xs, i, last, step) == UpFrom(xs, first, last, step)
      decreases last - i
    {
      assert result + [xs[i]] + UpFrom(xs, i + step, last, step) == result + ([xs[i]] + UpFrom(xs, i + step, last, step));
      result := result + [xs[i]];
      i := i + step;
    }
    assert result + [] == result;
  }

  /** `for (let i = last; i >= first; i += step) result.push(item[i])`, with a negative step. */
  method StepDown(xs: seq<Value>, first: int, last: int, step: int) returns (result: seq<Value>)
    requires step < 0 && 0 <= first && last < |xs|
    ensures result == DownFrom(xs, last, first, step)
  {
    result := [];
    var i := last;
    while i >= first
      invariant i <= last
      invariant result + DownFrom(xs, i, first, step) == DownFrom(xs, last, first, step)
      decreases i - first
    {
      assert result + [xs[i]] + DownFrom(xs, i + step, first, step) == result + ([xs[i]] + DownFrom(xs, i + step, first, step));
      result := result + [xs[i]];
      i := i + step;
    }
    assert result + [] == result;
  }
}
