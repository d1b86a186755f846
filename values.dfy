/**
 * The data a query runs over. Arrays and objects live in a store (an arena of
 * nodes addressed by number), so that object identity, sharing and cycles can
 * be expressed: a `Ref` is a reference to a node, as a JavaScript object
 * reference is.
 */
module Values {
  import opened Base

  datatype Value =
    | Undefined
    | Null
    | Bool(b: bool)
    | Num(n: real)
    | Str(s: string)
    | Ref(addr: nat)

  /** An array node holds its elements in order; an object node its own keys in insertion order. */
  datatype Node = ArrNode(items: seq<Value>) | ObjNode(fields: seq<(string, Value)>)

  type Store = map<nat, Node>

  /** One (key, value) pair as the iteration helpers hand it out. */
  datatype Entry = Entry(key: Value, val: Value)

  /** A property key as the selector hands it to `collection[key]`. */
  datatype PropKey = Name(name: string) | Number(num: real)

  predicate IsNullish(v: Value) { v.Undefined? || v.Null? }

  /** JavaScript truthiness of a value; every reference is truthy. */
  predicate Truthy(v: Value) {
    match v
    case Undefined => false
    case Null => false
    case Bool(b) => b
    case Num(n) => n != 0.0
    case Str(s) => s != ""
    case Ref(_) => true
  }

  predicate IsMappable(store: Store, v: Value) { v.Ref? && v.addr in store }

  predicate IsArray(store: Store, v: Value) { IsMappable(store, v) && store[v.addr].ArrNode? }

  /** The entries of a mappable value: array elements keyed by index, object fields keyed by name. */
  function Entries(store: Store, v: Value): (r: seq<Entry>)
    ensures !IsMappable(store, v) ==> r == []
    ensures IsArray(store, v) ==>
      |r| == |store[v.addr].items| &&
      forall i :: 0 <= i < |r| ==> r[i] == Entry(Num(i as real), store[v.addr].items[i])
    ensures IsMappable(store, v) && store[v.addr].ObjNode? ==>
      |r| == |store[v.addr].fields| &&
      forall i :: 0 <= i < |r| ==>
        r[i] == Entry(Str(store[v.addr].fields[i].0), store[v.addr].fields[i].1)
  {
    if !IsMappable(store, v) then []
    else match store[v.addr]
      case ArrNode(xs) => seq(|xs|, i requires 0 <= i < |xs| => Entry(Num(i as real), xs[i]))
      case ObjNode(fs) => seq(|fs|, i requires 0 <= i < |fs| => Entry(Str(fs[i].0), fs[i].1))
  }

  function KeysOf(store: Store, v: Value): (r: seq<Value>)
    ensures |r| == |Entries(store, v)|
    ensures forall i :: 0 <= i < |r| ==> r[i] == Entries(store, v)[i].key
  {
    var es := Entries(store, v);
    seq(|es|, i requires 0 <= i < |es| => es[i].key)
  }

  function ValuesOf(store: Store, v: Value): (r: seq<Value>)
    ensures |r| == |Entries(store, v)|
    ensures forall i :: 0 <= i < |r| ==> r[i] == Entries(store, v)[i].val
  {
    var es := Entries(store, v);
    seq(|es|, i requires 0 <= i < |es| => es[i].val)
  }

  /** `filter(isNotUndefinedOrNull)`: drops null and undefined, keeps the rest in order. */
  function Compact(xs: seq<Value>): (r: seq<Value>)
    ensures |r| <= |xs|
    ensures forall v :: v in r <==> v in xs && !IsNullish(v)
  {
    if xs == [] then []
    else (if IsNullish(xs[0]) then [] else [xs[0]]) + Compact(xs[1..])
  }

  lemma {:induction false} CompactAppend(a: seq<Value>, b: seq<Value>)
    ensures Compact(a + b) == Compact(a) + Compact(b)
  {
    if a == [] {
      assert a + b == b;
    } else {
      assert (a + b)[1..] == a[1..] + b;
      CompactAppend(a[1..], b);
    }
  }

  lemma {:induction false} CompactIdle(xs: seq<Value>)
    requires forall i :: 0 <= i < |xs| ==> !IsNullish(xs[i])
    ensures Compact(xs) == xs
  {
    if xs != [] {
      CompactIdle(xs[1..]);
    }
  }

  // ---- decimal spelling of array indices ----

  predicate IsDigit(c: char) { '0' <= c <= '9' }

  function DigitChar(d: nat): (c: char)
    requires d < 10
    ensures IsDigit(c) && c as int - '0' as int == d
  {
    (('0' as int) + d) as char
  }

  /** The decimal spelling of a natural number, as `String(n)` writes it. */
  function NatToString(n: nat): (r: string)
    ensures |r| > 0
    ensures forall i :: 0 <= i < |r| ==> IsDigit(r[i])
    ensures r[0] == '0' <==> n == 0
    ensures n == 0 ==> r == "0"
  {
    if n < 10 then [DigitChar(n)] else NatToString(n / 10) + [DigitChar(n % 10)]
  }

  function IntToString(i: int): string {
    if i < 0 then "-" + NatToString(-i) else NatToString(i)
  }

  /** The value of a run of decimal digits; a character that is not a digit counts as 0. */
  function DigitsValue(s: string): nat {
    if s == [] then 0
    else
      var c := s[|s| - 1];
      DigitsValue(s[..|s| - 1]) * 10 + (if IsDigit(c) then c as int - '0' as int else 0)
  }

  function Pow10(n: nat): (r: nat)
    ensures r > 0
  {
    if n == 0 then 1 else 10 * Pow10(n - 1)
  }

  /** Where the first period of `t` is, or `|t|` when there is none. */
  function PeriodAt(t: string): (k: nat)
    ensures k <= |t| && (k < |t| ==> t[k] == '.')
    ensures forall i :: 0 <= i < k ==> t[i] != '.'
  {
    if t == [] then 0 else if t[0] == '.' then 0 else 1 + PeriodAt(t[1..])
  }

  /**
   * `Number(text)` for the text of a number token: an optional minus, digits, and at
   * most one period with the fraction digits after it.
   */
  function NumberValue(t: string): real {
    if |t| > 0 && t[0] == '-' then -UnsignedValue(t[1..]) else UnsignedValue(t)
  }

  function UnsignedValue(t: string): real {
    var k := PeriodAt(t);
    DigitsValue(t[..k]) as real +
      (if k < |t| then DigitsValue(t[k + 1..]) as real / Pow10(|t| - k - 1) as real else 0.0)
  }

  /** The decimal spelling of an integer reads back as that integer. */
  lemma NumberValueOfInt(i: int)
    ensures NumberValue(IntToString(i)) == i as real
  {
    var n: nat := if i < 0 then -i else i;
    var d := NatToString(n);
    DigitsValueOfNat(n);
    assert PeriodAt(d) == |d|;
    assert d[..|d|] == d;
    if i < 0 {
      assert IntToString(i)[1..] == d;
    } else {
      assert IsDigit(d[0]);
    }
  }

  /** A property name that denotes an array index: canonical decimal digits, no leading zero. */
  function IndexOfName(s: string): (r: Option<nat>)
    ensures r.Some? ==> |s| > 0 && forall i :: 0 <= i < |s| ==> IsDigit(s[i])
    ensures r.Some? && |s| > 1 ==> s[0] != '0'
  {
    if |s| > 0 && (forall i :: 0 <= i < |s| ==> IsDigit(s[i])) && (s[0] != '0' || |s| == 1)
    then Some(DigitsValue(s))
    else None
  }

  lemma {:induction false} DigitsValueOfNat(n: nat)
    ensures DigitsValue(NatToString(n)) == n
  {
    if n >= 10 {
      var p := NatToString(n / 10);
      var s := p + [DigitChar(n % 10)];
      assert s[..|s| - 1] == p;
      DigitsValueOfNat(n / 10);
    }
  }

  /** The spelling of index `n` is a name that selects index `n`. */
  lemma IndexNameRoundTrip(n: nat)
    ensures IndexOfName(NatToString(n)) == Some(n)
  {
    DigitsValueOfNat(n);
  }

  predicate IsIntegral(r: real) { r.Floor as real == r }

  function Lookup(fields: seq<(string, Value)>, k: string): (r: Value)
    ensures r != Undefined ==> exists i :: 0 <= i < |fields| && fields[i] == (k, r)
    ensures (forall i :: 0 <= i < |fields| ==> fields[i].0 != k) ==> r == Undefined
  {
    if fields == [] then Undefined
    else if fields[0].0 == k then fields[0].1
    else Lookup(fields[1..], k)
  }

  /**
   * `select(collection, key)`: `collection[key]` for arrays and objects, undefined for
   * every other value. An array answers `length` and its index spellings; a number key
   * is turned into its decimal spelling.
   */
  function Select(store: Store, item: Value, key: PropKey): (r: Value)
    ensures !IsMappable(store, item) ==> r == Undefined
    ensures IsArray(store, item) ==>
      var xs := store[item.addr].items;
      (key == Name("length") ==> r == Num(|xs| as real)) &&
      (forall i :: 0 <= i < |xs| && key == Number(i as real) ==> r == xs[i]) &&
      (r == Undefined || r == Num(|xs| as real) || r in xs)
    ensures IsMappable(store, item) && store[item.addr].ObjNode? ==>
      r == match key
           case Name(s) => Lookup(store[item.addr].fields, s)
           case Number(x) => if IsIntegral(x) then Lookup(store[item.addr].fields, IntToString(x.Floor)) else Undefined
  {
    if !IsMappable(store, item) then Undefined
    else match store[item.addr]
      case ArrNode(xs) =>
        (match key
          case Name(s) =>
            if s == "length" then Num(|xs| as real)
            else (match IndexOfName(s)
              case Some(i) => if i < |xs| then xs[i] else Undefined
              case None => Undefined)
          case Number(x) =>
            if IsIntegral(x) && 0 <= x.Floor < |xs| then xs[x.Floor] else Undefined)
      case ObjNode(fs) =>
        (match key
          case Name(s) => Lookup(fs, s)
          case Number(x) => if IsIntegral(x) then Lookup(fs, IntToString(x.Floor)) else Undefined)
  }

  /** Selecting an element by its index name or by its number gives the same element. */
  lemma SelectIndexAgrees(store: Store, item: Value, i: nat)
    requires IsArray(store, item) && i < |store[item.addr].items|
    ensures Select(store, item, Name(NatToString(i))) == store[item.addr].items[i]
    ensures Select(store, item, Number(i as real)) == store[item.addr].items[i]
  {
    IndexNameRoundTrip(i);
    assert NatToString(i) != "length" by {
      assert IsDigit(NatToString(i)[0]);
    }
  }

  /**
   * `ensureArray`: an array result is taken element by element, any other value is
   * wrapped; null and undefined are removed either way.
   */
  function EnsureArray(store: Store, v: Value): (r: seq<Value>)
    ensures IsArray(store, v) ==> r == Compact(store[v.addr].items)
    ensures !IsArray(store, v) ==> r == (if IsNullish(v) then [] else [v])
  {
    if IsArray(store, v) then Compact(store[v.addr].items) else Compact([v])
  }
}
