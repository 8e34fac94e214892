/**
 * The correction data model: rules of the catalog, the per-column
 * bindings that refer to them by id, and the profile that lists the columns.
 */
module Types {
  import opened Wrappers
  import opened Rows

  /**
   * A catalog rule. It is identified by `id` alone and belongs to no column.
   * The condition, when present, reads only the row; the transform gets the
   * current value and the row.
   */
  datatype Rule = Rule(
    id: int,
    description: string,
    condition: Option<Row -> bool>,
    transform: (Value, Row) -> Value)

  /** A column's reference to a catalog rule; `order` decides when it runs. */
  datatype Binding = Binding(ruleId: int, order: real)

  /** `type` of the source is optional; it is named `typeName` here. */
  datatype Column = Column(key: string, typeName: Option<string>, rules: seq<Binding>)

  datatype Profile = Profile(name: string, description: Option<string>, columns: seq<Column>)

  /** Whether a rule runs on a row: an absent condition always holds. */
  predicate Applies(rule: Rule, row: Row): (a: bool)
    ensures rule.condition.None? ==> a
    ensures rule.condition.Some? ==> (a <==> rule.condition.value(row))
  {
    match rule.condition
    case None => true
    case Some(cond) => cond(row)
  }
}
