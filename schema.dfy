/**
 * The schema graph and the join plan: the records shared by the builder,
 * the planner and the emitter.
 */
module Schema {
  import opened Text

  /** A foreign key; the column lists pair up by position. */
  datatype ForeignKey = ForeignKey(
    fromTable: string,
    fromCols: seq<string>,
    toTable: string,
    toCols: seq<string>,
    constraintName: Option<string>)

  /** A table under its normalised name; `qualifiedName` is the name as it appeared ("" when unset). */
  datatype Table = Table(
    name: string,
    qualifiedName: string,
    columns: seq<string>,
    primaryKey: seq<string>,
    fks: seq<ForeignKey>)

  datatype Stats = Stats(tableCount: nat, fkCount: nat)

  /**
   * The graph: the table record, with `order` the insertion order of its
   * keys (the order in which the record's values are enumerated).
   */
  datatype SchemaGraph = SchemaGraph(tables: map<string, Table>, order: seq<string>, stats: Stats)

  /** Every table sits under its own name, and `order` lists each key exactly once. */
  ghost predicate WellKeyed(tables: map<string, Table>, order: seq<string>)
  {
    NoDup(order)
    && (forall k :: k in tables <==> k in order)
    && (forall k :: k in tables ==> tables[k].name == k)
  }

  /** One selected output column: a column name, or `*` for the whole table. */
  datatype Selection = Selection(table: string, column: string)

  datatype JoinStep = JoinStep(from: string, to: string, fk: ForeignKey)

  datatype Plan = Plan(
    base: string,
    steps: seq<JoinStep>,
    tableAlias: map<string, string>,
    select: seq<Selection>,
    warnings: seq<string>)
}
