/**
 * The tree the lexer builds and the evaluator runs: one constructor per node class
 * of the taxonomy, plus the three node kinds the lexer creates for maps, regular
 * expressions and hashmaps. An operator node carries the operator's name, arity
 * and implementation with its operands.
 */
module Ast {
  import opened Base
  import opened Values
  import Operators

  datatype Unit =
    | Statement(units: seq<Unit>)
    | Root
    | Scope
    | Key
    | Index
    | Literal(value: Value)
    | Descend(sel: Selector)
    | Recursive(rsel: RSelector)
    | Slice(parts: seq<Unit>)
    | Union(parts: seq<Unit>)
    | Filter(pred: Unit)
    | Operand(name: string, arity: int, impl: Operators.Impl, left: Option<Unit>, right: Option<Unit>)
    | Mapper(body: Unit)
    | RegularExpression(source: string, flags: string)
    | Hashmap(from: seq<Unit>, entries: seq<seq<Unit>>)

  /** What a Descend selects by: a property key, or a sub-query run on each item. */
  datatype Selector = ByKey(key: Value) | ByUnit(unit: Unit)

  /** What a Recursive collects: the values under a property name, or a sub-query's results. */
  datatype RSelector = ByName(name: string) | ByPattern(unit: Unit)

  /** The `units` list of a statement under construction, with `push`, `length` and `reset`. */
  class StatementNode {
    var units: seq<Unit>

    constructor ()
      ensures units == []
    {
      units := [];
    }

    method Push(u: Unit)
      modifies this
      ensures units == old(units) + [u]
      ensures Length() == old(Length()) + 1 && units[Length() - 1] == u
    {
      units := units + [u];
    }

    function Length(): (n: nat)
      reads this
      ensures n == |units|
    {
      |units|
    }

    method Reset()
      modifies this
      ensures units == [] && Length() == 0
    {
      units := [];
    }

    /** The statement node as a tree value. */
    function Node(): (u: Unit)
      reads this
      ensures u.Statement? && u.units == units
    {
      Statement(units)
    }
  }

  /**
   * The `units` field as `new Statement(statementType)` in the lexer leaves it: the
   * constructor's only parameter is `units`, so it holds the statement type's text until
   * the first `reset` puts a list there.
   */
  datatype UnitsAsWritten = TypeText(text: string) | UnitList(items: seq<Unit>)

  /** `length` as written: the text's length, or the list's. */
  function LengthAsWritten(us: UnitsAsWritten): nat {
    match us
    case TypeText(t) => |t|
    case UnitList(xs) => |xs|
  }

  /** `push` as written: a text has no `push`, so the call throws (None). */
  function PushAsWritten(us: UnitsAsWritten, u: Unit): Option<UnitsAsWritten> {
    match us
    case TypeText(_) => None
    case UnitList(xs) => Some(UnitList(xs + [u]))
  }

  /**
   * As written, a fresh root statement has length 4 and its first `push` throws; only a
   * statement that was reset holds a list.
   */
  lemma StatementTypeAsUnitsAsWritten(u: Unit)
    ensures LengthAsWritten(TypeText("root")) == 4
    ensures forall t :: PushAsWritten(TypeText(t), u) == None
    ensures PushAsWritten(UnitList([]), u) == Some(UnitList([u]))
  {
    assert [] + [u] == [u];
  }
}
