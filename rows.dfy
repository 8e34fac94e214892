/**
 * Cell values and rows as JavaScript objects hold them.
 * A row is an ordered record: `keys` is the enumeration order of
 * `Object.keys`, `cells` the values. Reading a key the row lacks gives
 * `undefined`, as `row[k]` does.
 */
module Rows {

  /** The dynamic value of one cell, as a closed sum type. */
  datatype Value = Str(s: string) | Num(n: real) | Bool(b: bool) | Null | Undefined

  datatype Row = Row(keys: seq<string>, cells: map<string, Value>)

  /** Every key is listed once, and the listed keys are exactly the cells. */
  ghost predicate Valid(row: Row)
  {
    && (forall i, j :: 0 <= i < j < |row.keys| ==> row.keys[i] != row.keys[j])
    && (forall k :: k in row.cells <==> k in row.keys)
  }

  /** `row[k]` */
  function Get(row: Row, k: string): (v: Value)
    ensures k in row.cells ==> v == row.cells[k]
    ensures k !in row.cells ==> v == Undefined
  {
    if k in row.cells then row.cells[k] else Undefined
  }

  /** `row[k] = v`: an existing key keeps its place, a new one is appended. */
  function Set(row: Row, k: string, v: Value): (r: Row)
    ensures Valid(row) ==> Valid(r)
    ensures Get(r, k) == v
    ensures forall j :: j != k ==> Get(r, j) == Get(row, j)
    ensures r.cells.Keys == row.cells.Keys + {k}
    ensures r.keys == if k in row.cells then row.keys else row.keys + [k]
  {
    Row(if k in row.cells then row.keys else row.keys + [k], row.cells[k := v])
  }

  /** Writing back the value a present key already holds changes nothing. */
  lemma {:induction false} SetSameValue(row: Row, k: string)
    requires k in row.cells
    ensures Set(row, k, Get(row, k)) == row
  {
    assert Set(row, k, Get(row, k)).cells == row.cells;
  }

  /** A second write to the same key overrides the first. */
  lemma {:induction false} SetSet(row: Row, k: string, v: Value, w: Value)
    ensures Set(Set(row, k, v), k, w) == Set(row, k, w)
  {
    assert Set(Set(row, k, v), k, w).cells == Set(row, k, w).cells;
  }

  /**
   * JavaScript truthiness (`!!v`): everything but the falsy values `""`,
   * `0`, `false`, `null` and `undefined` (`-0` is the real zero here).
   */
  predicate Truthy(v: Value): (t: bool)
    ensures t <==> v !in {Str(""), Num(0.0), Bool(false), Null, Undefined}
  {
    match v
    case Str(s) => s != ""
    case Num(n) => n != 0.0
    case Bool(b) => b
    case Null => false
    case Undefined => false
  }

  /** `v == null`, which holds for both `null` and `undefined`. */
  predicate IsNullish(v: Value): (n: bool)
    ensures n <==> v == Null || v == Undefined
    ensures n ==> !Truthy(v)
  {
    v.Null? || v.Undefined?
  }

  /** `a ?? b` */
  function Coalesce(a: Value, b: Value): (r: Value)
    ensures !IsNullish(a) ==> r == a
    ensures IsNullish(a) ==> r == b
  {
    if IsNullish(a) then b else a
  }
}
