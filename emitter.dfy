/**
 * The SQL emitter: renders a plan as `SELECT … FROM … LEFT JOIN … ON …`,
 * one line per part, joined by newlines and closed by `;`.
 */
module Emitter {
  import opened Text
  import opened Schema
  import opened Idents

  /** `plan.tableAlias[t]` in a template: a table without an alias renders as `undefined`. */
  function AliasOf(alias: map<string, string>, t: string): string
  {
    if t in alias then alias[t] else "undefined"
  }

  /** One select item: `alias.*` for the whole table, else `alias.` and the quoted column. */
  function SelectItem(alias: map<string, string>, s: Selection): string
  {
    if s.column == "*" then AliasOf(alias, s.table) + ".*"
    else AliasOf(alias, s.table) + "." + QuoteIdent(s.column)
  }

  /** A column of a table without an alias renders as `undefined.` and the quoted column. */
  lemma UnaliasedItem(alias: map<string, string>, s: Selection)
    requires s.table !in alias && s.column != "*"
    ensures SelectItem(alias, s) == "undefined." + QuoteIdent(s.column)
  {
    assert "undefined" + "." == "undefined.";
  }

  /** `plan.select.map(...)`. */
  function SelectParts(alias: map<string, string>, select: seq<Selection>): (parts: seq<string>)
    ensures |parts| == |select|
    ensures forall i :: 0 <= i < |select| ==> parts[i] == SelectItem(alias, select[i])
  {
    seq(|select|, i requires 0 <= i < |select| => SelectItem(alias, select[i]))
  }

  /** The lines before the joins: `SELECT`, the select list, `FROM` and the base with its alias. */
  function Header(plan: Plan): seq<string>
  {
    ["SELECT", "  " + Join(SelectParts(plan.tableAlias, plan.select), ",\n  "),
     "FROM", "  " + QuoteIdent(plan.base) + " AS " + AliasOf(plan.tableAlias, plan.base)]
  }

  /** The number of column pairs of a foreign key: the shorter of its two column lists. */
  function Pairs(fk: ForeignKey): nat
  {
    if |fk.fromCols| <= |fk.toCols| then |fk.fromCols| else |fk.toCols|
  }

  /**
   * Equality `i` of an ON clause: a forward step (walked towards the
   * referenced table) pairs `fromCols[i]` on the left with `toCols[i]` on the
   * right; a reverse step pairs `toCols[i]` with `fromCols[i]`.
   */
  function Equality(fromAlias: string, toAlias: string, fk: ForeignKey, forward: bool, i: nat): string
    requires i < Pairs(fk)
  {
    var lcol := if forward then fk.fromCols[i] else fk.toCols[i];
    var rcol := if forward then fk.toCols[i] else fk.fromCols[i];
    fromAlias + "." + QuoteIdent(lcol) + " = " + toAlias + "." + QuoteIdent(rcol)
  }

  /** The equalities of an ON clause, one per column pair. */
  function OnParts(fromAlias: string, toAlias: string, fk: ForeignKey, forward: bool): (parts: seq<string>)
    ensures |parts| == Pairs(fk)
    ensures forall i :: 0 <= i < Pairs(fk) ==> parts[i] == Equality(fromAlias, toAlias, fk, forward, i)
  {
    seq(Pairs(fk), i requires 0 <= i < Pairs(fk) => Equality(fromAlias, toAlias, fk, forward, i))
  }

  /** The ON clause: the equalities joined by ` AND `, or `1=1` when there are none. */
  function OnClause(parts: seq<string>): string
  {
    if |parts| > 0 then Join(parts, " AND ") else "1=1"
  }

  /** The JOIN line of one step. */
  function JoinLine(alias: map<string, string>, step: JoinStep): string
  {
    var fromAlias := AliasOf(alias, step.from);
    var toAlias := AliasOf(alias, step.to);
    var forward := step.to == step.fk.toTable;
    "LEFT JOIN " + QuoteIdent(step.to) + " AS " + toAlias + " ON "
      + OnClause(OnParts(fromAlias, toAlias, step.fk, forward))
  }

  /** The JOIN lines, one per step in step order. */
  function JoinLines(alias: map<string, string>, steps: seq<JoinStep>): (lines: seq<string>)
    ensures |lines| == |steps|
    ensures forall i :: 0 <= i < |steps| ==> lines[i] == JoinLine(alias, steps[i])
  {
    seq(|steps|, i requires 0 <= i < |steps| => JoinLine(alias, steps[i]))
  }

  /** `emitSQL`: the lines joined by newlines, then `;`. */
  function Sql(plan: Plan): string
  {
    Join(Header(plan) + JoinLines(plan.tableAlias, plan.steps), "\n") + ";"
  }

  /** One turn of the loop over the steps: the ON equalities pushed one pair at a time, then the JOIN line. */
  method EmitJoin(a: map<string, string>, step: JoinStep) returns (line: string)
    ensures line == JoinLine(a, step)
  {
    var fk := step.fk;
    var fromAlias := AliasOf(a, step.from);
    var toAlias := AliasOf(a, step.to);
    var forward := step.to == fk.toTable;
    ghost var spec := OnParts(fromAlias, toAlias, fk, forward);
    var onParts: seq<string> := [];
    var pairs := if |fk.fromCols| <= |fk.toCols| then |fk.fromCols| else |fk.toCols|;
    for i := 0 to pairs
      invariant onParts == spec[..i]
    {
      var lcol := if forward then fk.fromCols[i] else fk.toCols[i];
      var rcol := if forward then fk.toCols[i] else fk.fromCols[i];
      onParts := onParts + [fromAlias + "." + QuoteIdent(lcol) + " = " + toAlias + "." + QuoteIdent(rcol)];
      assert spec[..i + 1] == spec[..i] + [spec[i]];
    }
    assert onParts == spec;
    var onClause := if |onParts| > 0 then Join(onParts, " AND ") else "1=1";
    line := "LEFT JOIN " + QuoteIdent(step.to) + " AS " + toAlias + " ON " + onClause;
  }

  /** `emitSQL`, as the program computes it: the header lines, then the loop over the steps. */
  method EmitSql(plan: Plan) returns (sql: string)
    ensures sql == Sql(plan)
  {
    var a := plan.tableAlias;
    var lines: seq<string> := [];
    var selectParts := SelectParts(a, plan.select);
    lines := lines + ["SELECT"];
    lines := lines + ["  " + Join(selectParts, ",\n  ")];
    lines := lines + ["FROM"];
    lines := lines + ["  " + QuoteIdent(plan.base) + " AS " + AliasOf(a, plan.base)];
    for k := 0 to |plan.steps|
      invariant lines == Header(plan) + JoinLines(a, plan.steps[..k])
    {
      var line := EmitJoin(a, plan.steps[k]);
      lines := lines + [line];
      assert JoinLines(a, plan.steps[..k + 1]) == JoinLines(a, plan.steps[..k]) + [line];
    }
    assert plan.steps[..|plan.steps|] == plan.steps;
    sql := Join(lines, "\n") + ";";
  }

  // ---------------------------------------------------------------- what the output says

  /** The foreign key read the other way round: its two column lists swapped. */
  function Flip(fk: ForeignKey): ForeignKey
  {
    fk.(fromCols := fk.toCols, toCols := fk.fromCols)
  }

  /** A reverse step renders its equalities as a forward step over the swapped key would. */
  lemma OnFlip(fromAlias: string, toAlias: string, fk: ForeignKey)
    ensures OnParts(fromAlias, toAlias, fk, false) == OnParts(fromAlias, toAlias, Flip(fk), true)
    ensures OnParts(fromAlias, toAlias, Flip(fk), false) == OnParts(fromAlias, toAlias, fk, true)
  {
  }

  lemma JoinLength(parts: seq<string>, sep: string)
    requires |parts| > 0
    ensures |Join(parts, sep)| >= |parts[0]|
  {
  }

  /** The ON clause is the literal `1=1` exactly when the key has no column pair. */
  lemma OnTrivial(fromAlias: string, toAlias: string, fk: ForeignKey, forward: bool)
    ensures OnClause(OnParts(fromAlias, toAlias, fk, forward)) == "1=1" <==> Pairs(fk) == 0
  {
    var parts := OnParts(fromAlias, toAlias, fk, forward);
    if |parts| > 0 {
      JoinLength(parts, " AND ");
      assert |parts[0]| >= 5;
    }
  }

  /** Each line preceded by a newline. */
  function NewlineEach(lines: seq<string>): string
  {
    if |lines| == 0 then "" else "\n" + lines[0] + NewlineEach(lines[1..])
  }

  lemma {:induction false} JoinNewlines(head: string, lines: seq<string>)
    ensures Join([head] + lines, "\n") == head + NewlineEach(lines)
    decreases |lines|
  {
    if |lines| > 0 {
      assert ([head] + lines)[1..] == lines;
      JoinNewlines(lines[0], lines[1..]);
      assert [lines[0]] + lines[1..] == lines;
    }
  }

  /** The text opens with the `SELECT` line and closes with `;`. */
  lemma SqlEnds(plan: Plan)
    ensures StartsWith(Sql(plan), "SELECT\n") && Sql(plan)[|Sql(plan)| - 1] == ';'
  {
    var h := Header(plan);
    var rest := h[1..] + JoinLines(plan.tableAlias, plan.steps);
    assert h + JoinLines(plan.tableAlias, plan.steps) == [h[0]] + rest;
    JoinNewlines(h[0], rest);
    assert NewlineEach(rest)[0] == '\n';
  }
}
