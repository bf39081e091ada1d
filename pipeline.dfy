/**
 * `generateSql`: plans the joins and renders the plan, or returns a
 * placeholder comment when there is nothing to plan; and what the rendered
 * joins promise about the aliases they use.
 */
module Pipeline {
  import opened Text
  import opened Schema
  import opened Search
  import opened Planner
  import opened JoinPlan
  import opened Emitter

  /** The SQL text and the warnings to show next to it. */
  datatype Output = Output(sql: string, warnings: seq<string>)

  const Placeholder := "-- select columns to start"

  /** `generateSql`. */
  function GenerateSql(schema: Option<SchemaGraph>, base: Option<string>, sels: seq<string>): Output
  {
    match PlanOf(schema, base, sels)
    case None => Output(Placeholder, [])
    case Some(p) => Output(Sql(p), p.warnings)
  }

  /**
   * Without a schema, a (non-empty) base or a selection the output is the
   * placeholder with no warnings; otherwise it is the rendered plan, with the
   * plan's warnings in order, and it ends with `;`, which the placeholder
   * does not.
   */
  lemma GenerateCases(schema: Option<SchemaGraph>, base: Option<string>, sels: seq<string>)
    ensures var out := GenerateSql(schema, base, sels);
      if schema.None? || base.None? || base.value == "" || |sels| == 0 then
        out == Output(Placeholder, [])
      else
        var p := PlanFrom(schema.value, base.value, sels);
        out == Output(Sql(p), p.warnings)
    ensures var sql := GenerateSql(schema, base, sels).sql;
      |sql| > 0 && (sql[|sql| - 1] == ';' <==> PlanOf(schema, base, sels).Some?)
  {
    match PlanOf(schema, base, sels)
    case None =>
      assert Placeholder[|Placeholder| - 1] == 't';
    case Some(p) =>
      SqlEnds(p);
  }

  /**
   * The warnings returned name exactly the selected tables other than the
   * base that no foreign-key walk reaches, once each.
   */
  lemma GenerateWarnings(g: SchemaGraph, base: string, sels: seq<string>)
    requires base != "" && |sels| > 0
    ensures var ws := GenerateSql(Some(g), Some(base), sels).warnings;
      NoDup(ws)
      && (forall w :: w in ws ==> exists t :: w == NoPathWarning(base, t))
      && (forall t :: NoPathWarning(base, t) in ws <==> t in Targets(base, sels) && !Reachable(GraphAdjacency(g), base, t))
  {
    PlanWarnings(g, base, sels);
  }

  /**
   * In the rendered plan the base is aliased `t0`, and every JOIN line
   * introduces its table under an alias of its own: a real alias, never
   * `t0`, and never one an earlier line introduced.
   */
  lemma JoinAliasesFresh(g: SchemaGraph, base: string, sels: seq<string>)
    ensures var p := PlanFrom(g, base, sels);
      AliasOf(p.tableAlias, base) == "t0"
      && (forall i :: 0 <= i < |p.steps| ==>
            p.steps[i].from in p.tableAlias && p.steps[i].to in p.tableAlias
            && AliasOf(p.tableAlias, p.steps[i].to) != "t0")
      && (forall i, j :: 0 <= i < j < |p.steps| ==>
            AliasOf(p.tableAlias, p.steps[i].to) != AliasOf(p.tableAlias, p.steps[j].to))
  {
    var p := PlanFrom(g, base, sels);
    var a := p.tableAlias;
    OrderedNewTables(g, base, sels);
    StepAliases(base, Ordered(g, base, sels), p.steps, a);
    AliasesRendered(base, p.steps, a);
  }

  /** Aliases present in the map render as themselves. */
  lemma AliasesRendered(base: string, steps: seq<JoinStep>, a: map<string, string>)
    requires base in a && a[base] == "t0"
    requires forall i :: 0 <= i < |steps| ==> steps[i].from in a && steps[i].to in a && a[steps[i].to] != "t0"
    requires forall i, j :: 0 <= i < j < |steps| ==> a[steps[i].to] != a[steps[j].to]
    ensures AliasOf(a, base) == "t0"
    ensures forall i :: 0 <= i < |steps| ==> AliasOf(a, steps[i].to) != "t0"
    ensures forall i, j :: 0 <= i < j < |steps| ==> AliasOf(a, steps[i].to) != AliasOf(a, steps[j].to)
  {
  }

  /**
   * A selected column of a table no foreign-key walk reaches stays in the
   * select list, under no alias: it renders as `undefined.` and the quoted
   * column, next to the warning that its columns are omitted.
   */
  lemma UnreachedColumnsKept(g: SchemaGraph, base: string, sels: seq<string>, t: string, c: string)
    requires t != "" && t != base && c != "" && c != "*"
    requires Mentions(sels, t, c) && !Mentions(sels, t, "*")
    requires !Reachable(GraphAdjacency(g), base, t)
    ensures Selection(t, c) in PlanFrom(g, base, sels).select
    ensures SelectItem(PlanFrom(g, base, sels).tableAlias, Selection(t, c)) == "undefined." + Idents.QuoteIdent(c)
  {
    var p := PlanFrom(g, base, sels);
    ReachedIff(g, base, t);
    UnreachedUnaliased(g, base, sels, t);
    assert p.select == ExpandSelections(sels);
    SelectedIff(sels, t, c);
    UnaliasedItem(p.tableAlias, Selection(t, c));
  }
}
