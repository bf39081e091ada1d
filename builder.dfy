/**
 * The schema graph builder: CREATE TABLE and ALTER TABLE ... ADD CONSTRAINT
 * statements folded into a record of tables keyed by normalised name, then
 * deduplicated, sorted and counted.
 *
 * The parser's output is replaced by the closed `Statement` datatype. The
 * builder itself is the class `GraphBuilder`, whose methods update the table
 * record in place; each method is proved against the pure function of the
 * same step (`Ensure`, `ApplyCreate`, `ApplyAlter`, `Finished`), and the
 * properties of the whole build are proved about `BuildGraph`.
 */
module Builder {
  import opened Text
  import opened Idents
  import opened Schema

  // ---------------------------------------------------------------- statements

  /** A table reference; `schema` is "" when the statement names none, `name` is "" when it is missing. */
  datatype QName = QName(schema: string, name: string)

  datatype Constraint =
    | PrimaryKeyConstraint(columns: seq<string>)
    | ForeignKeyConstraint(columns: seq<string>, references: QName, refColumns: seq<string>, constraintName: string)
    | OtherConstraint

  datatype Change = AddConstraint(constraint: Constraint) | OtherChange

  /** Column names are raw; "" stands for a column without a name. */
  datatype Statement =
    | CreateTable(table: QName, columns: seq<string>, constraints: seq<Constraint>)
    | AlterTable(table: QName, changes: seq<Change>)
    | OtherStatement

  /** `schema ? \`${schema}.${name}\` : name`. */
  function Qualified(q: QName): string
  {
    if q.schema != "" then q.schema + "." + q.name else q.name
  }

  function NormalizeAll(xs: seq<string>): (r: seq<string>)
    ensures |r| == |xs|
    ensures forall i :: 0 <= i < |xs| ==> r[i] == Normalize(xs[i])
  {
    seq(|xs|, i requires 0 <= i < |xs| => Normalize(xs[i]))
  }

  /** `.filter(Boolean)` on names: the empty ones are dropped. */
  function NonEmpty(xs: seq<string>): seq<string>
  {
    Filter(xs, x => x != "")
  }

  // ---------------------------------------------------------------- the table record, as a value

  datatype Registry = Registry(tables: map<string, Table>, order: seq<string>)

  ghost predicate Valid(r: Registry)
  {
    WellKeyed(r.tables, r.order)
  }

  const Empty := Registry(map[], [])

  /** Everything but `qualifiedName` agrees. */
  predicate SameContent(a: Table, b: Table)
  {
    a.name == b.name && a.columns == b.columns && a.primaryKey == b.primaryKey && a.fks == b.fks
  }

  /**
   * `ensureTable(qualified)`: the entry under `normalize(qualified)` is kept
   * if present (only an empty `qualifiedName` is filled in), and created
   * empty otherwise, appended to the key order.
   */
  function Ensure(r: Registry, qualified: string): (r': Registry)
    ensures Normalize(qualified) in r'.tables
    ensures r'.tables.Keys == r.tables.Keys + {Normalize(qualified)}
    ensures r'.order == if Normalize(qualified) in r.tables then r.order else r.order + [Normalize(qualified)]
    ensures forall k :: k in r.tables ==> SameContent(r'.tables[k], r.tables[k])
    ensures forall k :: k in r.tables && k != Normalize(qualified) ==> r'.tables[k] == r.tables[k]
    ensures Normalize(qualified) in r.tables ==>
      r'.tables[Normalize(qualified)].qualifiedName ==
        if r.tables[Normalize(qualified)].qualifiedName == "" then qualified else r.tables[Normalize(qualified)].qualifiedName
    ensures Normalize(qualified) !in r.tables ==>
      r'.tables[Normalize(qualified)] == Table(Normalize(qualified), qualified, [], [], [])
  {
    var key := Normalize(qualified);
    if key in r.tables then
      var existing := r.tables[key];
      if existing.qualifiedName == "" then Registry(r.tables[key := existing.(qualifiedName := qualified)], r.order)
      else r
    else
      Registry(r.tables[key := Table(key, qualified, [], [], [])], r.order + [key])
  }

  /** Ensuring an entry keeps the record well keyed. */
  lemma EnsureKeepsValid(r: Registry, qualified: string)
    requires Valid(r)
    ensures Valid(Ensure(r, qualified))
  {
    var key := Normalize(qualified);
    if key !in r.tables {
      assert key !in r.order;
    }
  }

  /** The registry with the entry under `key` replaced by `t`. */
  function Put(r: Registry, key: string, t: Table): (r': Registry)
    requires key in r.tables
    ensures r'.tables.Keys == r.tables.Keys && r'.order == r.order
    ensures Valid(r) && t.name == key ==> Valid(r')
  {
    Registry(r.tables[key := t], r.order)
  }

  /** Only the primary key and the foreign keys of the entry under `key` may differ. */
  ghost predicate OnlyConstraintsOf(r: Registry, r': Registry, key: string)
    requires key in r.tables
  {
    r'.tables.Keys == r.tables.Keys && r'.order == r.order
    && (forall k :: k in r.tables && k != key ==> r'.tables[k] == r.tables[k])
    && r'.tables[key].name == r.tables[key].name
    && r'.tables[key].qualifiedName == r.tables[key].qualifiedName
    && r'.tables[key].columns == r.tables[key].columns
  }

  lemma OnlyConstraintsKeepValid(r: Registry, r': Registry, key: string)
    requires key in r.tables && Valid(r) && OnlyConstraintsOf(r, r', key)
    ensures Valid(r')
  {
  }

  /** The foreign key an inline FOREIGN KEY adds to the table named `owner`: columns normalised in order, no constraint name. */
  function InlineForeignKey(owner: string, cols: seq<string>, ref: QName, refCols: seq<string>): ForeignKey
  {
    ForeignKey(owner, NormalizeAll(cols), Normalize(Qualified(ref)), NormalizeAll(refCols), None)
  }

  /**
   * An inline constraint of CREATE TABLE: a primary key replaces the table's
   * key with its columns normalised and deduplicated; a foreign key naming
   * its referenced table is appended; anything else changes nothing.
   */
  function ApplyInline(r: Registry, key: string, c: Constraint): (r': Registry)
    requires key in r.tables
    ensures OnlyConstraintsOf(r, r', key)
  {
    var t := r.tables[key];
    match c
    case PrimaryKeyConstraint(cols) =>
      Put(r, key, t.(primaryKey := Distinct(NormalizeAll(cols))))
    case ForeignKeyConstraint(cols, ref, refCols, _) =>
      if ref.name == "" then r
      else Put(r, key, t.(fks := t.fks + [InlineForeignKey(t.name, cols, ref, refCols)]))
    case OtherConstraint => r
  }

  /**
   * The effect of one inline constraint on its table: a primary key replaces
   * the key, a foreign key naming its target is appended, owned by the
   * table's name, and anything else leaves the record as it was.
   */
  lemma InlineEffect(r: Registry, key: string, c: Constraint)
    requires key in r.tables
    ensures var t := r.tables[key]; var r' := ApplyInline(r, key, c);
      && (c.PrimaryKeyConstraint? ==> r'.tables[key] == t.(primaryKey := Distinct(NormalizeAll(c.columns))))
      && (c.ForeignKeyConstraint? && c.references.name != "" ==>
            r'.tables[key] == t.(fks := t.fks +
              [ForeignKey(t.name, NormalizeAll(c.columns), Normalize(Qualified(c.references)), NormalizeAll(c.refColumns), None)]))
      && (c.OtherConstraint? || (c.ForeignKeyConstraint? && c.references.name == "") ==> r' == r)
  {
  }

  /** The foreign key one inline constraint adds: one for a FOREIGN KEY that names its referenced table, none otherwise. */
  function InlineAdded(owner: string, c: Constraint): seq<ForeignKey>
  {
    if c.ForeignKeyConstraint? && c.references.name != "" then [InlineForeignKey(owner, c.columns, c.references, c.refColumns)] else []
  }

  /** The foreign keys a list of inline constraints adds, in order. */
  function InlineFks(owner: string, cs: seq<Constraint>): seq<ForeignKey>
    decreases |cs|
  {
    if |cs| == 0 then [] else InlineAdded(owner, cs[0]) + InlineFks(owner, cs[1..])
  }

  /** An added foreign key comes from exactly one FOREIGN KEY constraint of the list that names its target. */
  lemma {:induction false} InlineFksFrom(owner: string, cs: seq<Constraint>, fk: ForeignKey)
    ensures fk in InlineFks(owner, cs) <==>
      exists i :: 0 <= i < |cs| && cs[i].ForeignKeyConstraint? && cs[i].references.name != ""
        && fk == InlineForeignKey(owner, cs[i].columns, cs[i].references, cs[i].refColumns)
    decreases |cs|
  {
    if |cs| > 0 {
      InlineFksFrom(owner, cs[1..], fk);
      if exists i :: (1 <= i < |cs| && cs[i].ForeignKeyConstraint? && cs[i].references.name != ""
                      && fk == InlineForeignKey(owner, cs[i].columns, cs[i].references, cs[i].refColumns)) {
        var i :| 1 <= i < |cs| && cs[i].ForeignKeyConstraint? && cs[i].references.name != ""
          && fk == InlineForeignKey(owner, cs[i].columns, cs[i].references, cs[i].refColumns);
        assert cs[1..][i - 1] == cs[i];
      }
      if exists i :: (0 <= i < |cs[1..]| && cs[1..][i].ForeignKeyConstraint? && cs[1..][i].references.name != ""
                      && fk == InlineForeignKey(owner, cs[1..][i].columns, cs[1..][i].references, cs[1..][i].refColumns)) {
        var i :| 0 <= i < |cs[1..]| && cs[1..][i].ForeignKeyConstraint? && cs[1..][i].references.name != ""
          && fk == InlineForeignKey(owner, cs[1..][i].columns, cs[1..][i].references, cs[1..][i].refColumns);
        assert cs[i + 1] == cs[1..][i];
      }
    }
  }

  /** No constraint of the list is a primary key. */
  predicate NoPrimaryKey(cs: seq<Constraint>)
  {
    forall j :: 0 <= j < |cs| ==> !cs[j].PrimaryKeyConstraint?
  }

  function ApplyInlines(r: Registry, key: string, cs: seq<Constraint>): (r': Registry)
    requires key in r.tables
    ensures OnlyConstraintsOf(r, r', key)
    decreases |cs|
  {
    if |cs| == 0 then r else ApplyInlines(ApplyInline(r, key, cs[0]), key, cs[1..])
  }

  /** One inline constraint keeps the table's name and appends what `InlineAdded` gives to its foreign keys. */
  lemma InlineStep(r: Registry, key: string, c: Constraint)
    requires key in r.tables
    ensures ApplyInline(r, key, c).tables[key].name == r.tables[key].name
    ensures ApplyInline(r, key, c).tables[key].fks == r.tables[key].fks + InlineAdded(r.tables[key].name, c)
  {
    InlineEffect(r, key, c);
  }

  /** The inline constraints in order append the foreign keys they name to the table's. */
  lemma {:induction false} InlinesAppend(r: Registry, key: string, cs: seq<Constraint>)
    requires key in r.tables
    ensures ApplyInlines(r, key, cs).tables[key].fks == r.tables[key].fks + InlineFks(r.tables[key].name, cs)
    decreases |cs|
  {
    if |cs| == 0 {
      assert r.tables[key].fks + [] == r.tables[key].fks;
    } else {
      var r1 := ApplyInline(r, key, cs[0]);
      InlineStep(r, key, cs[0]);
      InlinesAppend(r1, key, cs[1..]);
      InlineFksCons(r.tables[key].fks, r.tables[key].name, cs);
    }
  }

  lemma InlineFksCons(fks: seq<ForeignKey>, owner: string, cs: seq<Constraint>)
    requires |cs| > 0
    ensures (fks + InlineAdded(owner, cs[0])) + InlineFks(owner, cs[1..]) == fks + InlineFks(owner, cs)
  {
  }

  /** Without a primary key among the inline constraints the table's key is kept. */
  lemma {:induction false} InlinesKeepKey(r: Registry, key: string, cs: seq<Constraint>)
    requires key in r.tables && NoPrimaryKey(cs)
    ensures ApplyInlines(r, key, cs).tables[key].primaryKey == r.tables[key].primaryKey
    decreases |cs|
  {
    if |cs| > 0 {
      var r1 := ApplyInline(r, key, cs[0]);
      assert !cs[0].PrimaryKeyConstraint?;
      InlineEffect(r, key, cs[0]);
      assert r1.tables[key].primaryKey == r.tables[key].primaryKey;
      forall j | 0 <= j < |cs[1..]| ensures !cs[1..][j].PrimaryKeyConstraint? {
        assert cs[1..][j] == cs[j + 1];
      }
      InlinesKeepKey(r1, key, cs[1..]);
      assert ApplyInlines(r, key, cs) == ApplyInlines(r1, key, cs[1..]);
    }
  }

  /** The last primary key among the inline constraints is the table's key. */
  lemma {:induction false} InlinesLastPrimaryKey(r: Registry, key: string, cs: seq<Constraint>, i: nat)
    requires key in r.tables
    requires i < |cs| && cs[i].PrimaryKeyConstraint? && NoPrimaryKey(cs[i + 1..])
    ensures ApplyInlines(r, key, cs).tables[key].primaryKey == Distinct(NormalizeAll(cs[i].columns))
    decreases i
  {
    var r1 := ApplyInline(r, key, cs[0]);
    assert ApplyInlines(r, key, cs) == ApplyInlines(r1, key, cs[1..]);
    if i == 0 {
      InlineEffect(r, key, cs[0]);
      assert cs[1..] == cs[i + 1..];
      InlinesKeepKey(r1, key, cs[1..]);
    } else {
      assert cs[1..][i - 1] == cs[i] && cs[1..][i..] == cs[i + 1..];
      InlinesLastPrimaryKey(r1, key, cs[1..], i - 1);
    }
  }

  /** A change of ALTER TABLE; only `add constraint` of a primary or foreign key has an effect. */
  function ApplyChange(r: Registry, key: string, qualified: string, ch: Change): (r': Registry)
    requires key in r.tables
    ensures OnlyConstraintsOf(r, r', key)
  {
    var t := r.tables[key];
    match ch
    case OtherChange => r
    case AddConstraint(PrimaryKeyConstraint(cols)) =>
      Put(r, key, t.(primaryKey := Distinct(NormalizeAll(NonEmpty(cols)))))
    case AddConstraint(ForeignKeyConstraint(cols, ref, refCols, name)) =>
      if ref.name == "" then r
      else
        var fk := ForeignKey(Normalize(qualified), NormalizeAll(NonEmpty(cols)), Normalize(Qualified(ref)),
                             NormalizeAll(NonEmpty(refCols)), if name != "" then Some(name) else None);
        Put(r, key, t.(fks := t.fks + [fk]))
    case AddConstraint(OtherConstraint) => r
  }

  function ApplyChanges(r: Registry, key: string, qualified: string, chs: seq<Change>): (r': Registry)
    requires key in r.tables
    ensures OnlyConstraintsOf(r, r', key)
    decreases |chs|
  {
    if |chs| == 0 then r else ApplyChanges(ApplyChange(r, key, qualified, chs[0]), key, qualified, chs[1..])
  }

  /**
   * CREATE TABLE: skipped without a name; otherwise the entry is ensured, its
   * columns become the set union of the old ones and the new named ones (old
   * first, in first-occurrence order), then the inline constraints apply.
   */
  function ApplyCreate(r: Registry, q: QName, cols: seq<string>, cs: seq<Constraint>): (r': Registry)
    ensures q.name == "" ==> r' == r
    ensures q.name != "" ==>
      && r'.tables.Keys == r.tables.Keys + {Normalize(Qualified(q))}
      && (forall k :: k in r.tables && k != Normalize(Qualified(q)) ==> r'.tables[k] == r.tables[k])
  {
    if q.name == "" then r
    else
      var qualified := Qualified(q);
      var key := Normalize(qualified);
      var r1 := Ensure(r, qualified);
      var t := r1.tables[key];
      ApplyInlines(Put(r1, key, t.(columns := Distinct(t.columns + NormalizeAll(NonEmpty(cols))))), key, cs)
  }

  /** CREATE TABLE merges columns: the entry's columns are the old ones together with the new named ones. */
  lemma CreateMergesColumns(r: Registry, q: QName, cols: seq<string>, cs: seq<Constraint>)
    requires q.name != ""
    ensures var key := Normalize(Qualified(q));
      forall c :: c in ApplyCreate(r, q, cols, cs).tables[key].columns <==>
        (key in r.tables && c in r.tables[key].columns) || c in NormalizeAll(NonEmpty(cols))
  {
    var qualified := Qualified(q);
    var key := Normalize(qualified);
    var r1 := Ensure(r, qualified);
    var t := r1.tables[key];
    var merged := Distinct(t.columns + NormalizeAll(NonEmpty(cols)));
    var r2 := Put(r1, key, t.(columns := merged));
    assert ApplyInlines(r2, key, cs).tables[key].columns == merged;
    assert key !in r.tables ==> t.columns == [];
  }

  /**
   * The inline constraints of CREATE TABLE: the foreign keys they name are
   * appended to the ensured entry's, owned by its name; the last primary key
   * among them replaces the key, which is kept when there is none.
   */
  lemma CreateConstraints(r: Registry, q: QName, cols: seq<string>, cs: seq<Constraint>)
    requires q.name != ""
    ensures var key := Normalize(Qualified(q));
      var e := Ensure(r, Qualified(q)).tables[key];
      var t := ApplyCreate(r, q, cols, cs).tables[key];
      && t.name == e.name && t.qualifiedName == e.qualifiedName
      && t.fks == e.fks + InlineFks(e.name, cs)
      && (NoPrimaryKey(cs) ==> t.primaryKey == e.primaryKey)
      && (forall i :: 0 <= i < |cs| && cs[i].PrimaryKeyConstraint? && NoPrimaryKey(cs[i + 1..]) ==>
            t.primaryKey == Distinct(NormalizeAll(cs[i].columns)))
  {
    var qualified := Qualified(q);
    var key := Normalize(qualified);
    var r1 := Ensure(r, qualified);
    var t := r1.tables[key];
    var r2 := Put(r1, key, t.(columns := Distinct(t.columns + NormalizeAll(NonEmpty(cols)))));
    assert ApplyCreate(r, q, cols, cs) == ApplyInlines(r2, key, cs);
    InlinesAppend(r2, key, cs);
    if NoPrimaryKey(cs) {
      InlinesKeepKey(r2, key, cs);
    }
    forall i | 0 <= i < |cs| && cs[i].PrimaryKeyConstraint? && NoPrimaryKey(cs[i + 1..])
      ensures ApplyInlines(r2, key, cs).tables[key].primaryKey == Distinct(NormalizeAll(cs[i].columns))
    {
      InlinesLastPrimaryKey(r2, key, cs, i);
    }
  }

  /** In a well-keyed record the ensured entry is owned by its key. */
  lemma EnsuredOwner(r: Registry, qualified: string)
    requires Valid(r)
    ensures Ensure(r, qualified).tables[Normalize(qualified)].name == Normalize(qualified)
  {
  }

  /** The foreign keys a single inline constraint adds. */
  lemma InlineFksSingle(owner: string, c: Constraint)
    ensures InlineFks(owner, [c]) == InlineAdded(owner, c)
  {
    assert [c][1..] == [];
  }

  /** The columns of a key, normalised and deduplicated: exactly the normalised listed columns, once each. */
  lemma NormalizedKey(xs: seq<string>)
    ensures NoDup(Distinct(NormalizeAll(xs)))
    ensures forall c :: c in Distinct(NormalizeAll(xs)) <==> exists x :: x in xs && c == Normalize(x)
  {
    forall c | c in NormalizeAll(xs) ensures exists x :: x in xs && c == Normalize(x) {
      var i :| 0 <= i < |xs| && NormalizeAll(xs)[i] == c;
      assert xs[i] in xs;
    }
    forall x | x in xs ensures Normalize(x) in NormalizeAll(xs) {
      var i :| 0 <= i < |xs| && xs[i] == x;
      assert NormalizeAll(xs)[i] == Normalize(x);
    }
  }

  /**
   * An inline PRIMARY KEY replaces the key with its columns normalised and
   * deduplicated (every listed column counts, named or not); the foreign
   * keys are the ensured entry's.
   */
  lemma InlinePrimaryKeyReplaces(r: Registry, q: QName, cols: seq<string>, pkCols: seq<string>)
    requires q.name != ""
    ensures var key := Normalize(Qualified(q));
      var t := ApplyCreate(r, q, cols, [PrimaryKeyConstraint(pkCols)]).tables[key];
      && t.primaryKey == Distinct(NormalizeAll(pkCols))
      && NoDup(t.primaryKey)
      && (forall c :: c in t.primaryKey <==> exists x :: x in pkCols && c == Normalize(x))
      && t.fks == Ensure(r, Qualified(q)).tables[key].fks
  {
    var cs := [PrimaryKeyConstraint(pkCols)];
    assert NoPrimaryKey(cs[1..]);
    var key := Normalize(Qualified(q));
    var e := Ensure(r, Qualified(q)).tables[key];
    CreateConstraints(r, q, cols, cs);
    InlineFksSingle(e.name, cs[0]);
    assert e.fks + [] == e.fks;
    NormalizedKey(pkCols);
  }

  /**
   * An inline FOREIGN KEY naming its referenced table appends exactly one
   * foreign key, owned by the entry's name (its key, in a well-keyed record),
   * with the listed columns normalised in order and no constraint name; the
   * primary key is the ensured entry's.
   */
  lemma InlineForeignKeyAppends(r: Registry, q: QName, cols: seq<string>, fromCols: seq<string>, ref: QName,
                                refCols: seq<string>, name: string)
    requires q.name != "" && ref.name != ""
    ensures var key := Normalize(Qualified(q));
      var e := Ensure(r, Qualified(q)).tables[key];
      var t := ApplyCreate(r, q, cols, [ForeignKeyConstraint(fromCols, ref, refCols, name)]).tables[key];
      && t.fks == e.fks + [ForeignKey(e.name, NormalizeAll(fromCols), Normalize(Qualified(ref)), NormalizeAll(refCols), None)]
      && t.primaryKey == e.primaryKey
      && (Valid(r) ==> e.name == key)
  {
    var cs := [ForeignKeyConstraint(fromCols, ref, refCols, name)];
    assert NoPrimaryKey(cs);
    var key := Normalize(Qualified(q));
    var e := Ensure(r, Qualified(q)).tables[key];
    CreateConstraints(r, q, cols, cs);
    InlineFksSingle(e.name, cs[0]);
    if Valid(r) {
      EnsuredOwner(r, Qualified(q));
    }
  }

  /** An inline FOREIGN KEY without a referenced table name is skipped. */
  lemma InlineForeignKeyWithoutTargetSkipped(r: Registry, q: QName, cols: seq<string>, fromCols: seq<string>, ref: QName,
                                             refCols: seq<string>, name: string)
    requires ref.name == ""
    ensures ApplyCreate(r, q, cols, [ForeignKeyConstraint(fromCols, ref, refCols, name)]) == ApplyCreate(r, q, cols, [])
  {
    var cs := [ForeignKeyConstraint(fromCols, ref, refCols, name)];
    assert cs[1..] == [];
  }

  /** ALTER TABLE: skipped without a name; otherwise the entry is ensured and the changes apply in order. */
  function ApplyAlter(r: Registry, q: QName, chs: seq<Change>): (r': Registry)
    ensures q.name == "" ==> r' == r
    ensures q.name != "" ==>
      var key := Normalize(Qualified(q));
      && r'.tables.Keys == r.tables.Keys + {key}
      && r'.order == Ensure(r, Qualified(q)).order
      && (forall k :: k in r.tables && k != key ==> r'.tables[k] == r.tables[k])
  {
    if q.name == "" then r
    else
      var qualified := Qualified(q);
      ApplyChanges(Ensure(r, qualified), Normalize(qualified), qualified, chs)
  }

  function ApplyStatement(r: Registry, s: Statement): Registry
  {
    match s
    case CreateTable(q, cols, cs) => ApplyCreate(r, q, cols, cs)
    case AlterTable(q, chs) => ApplyAlter(r, q, chs)
    case OtherStatement => r
  }

  function ApplyAll(r: Registry, stmts: seq<Statement>): Registry
    decreases |stmts|
  {
    if |stmts| == 0 then r else ApplyAll(ApplyStatement(r, stmts[0]), stmts[1..])
  }

  /** Every statement keeps each table under its own name and the key order complete and duplicate-free. */
  lemma StatementKeepsValid(r: Registry, s: Statement)
    requires Valid(r)
    ensures Valid(ApplyStatement(r, s))
  {
    match s
    case CreateTable(q, cols, cs) =>
      if q.name != "" {
        var qualified := Qualified(q);
        var key := Normalize(qualified);
        var r1 := Ensure(r, qualified);
        EnsureKeepsValid(r, qualified);
        var t := r1.tables[key];
        var r2 := Put(r1, key, t.(columns := Distinct(t.columns + NormalizeAll(NonEmpty(cols)))));
        OnlyConstraintsKeepValid(r2, ApplyInlines(r2, key, cs), key);
      }
    case AlterTable(q, chs) =>
      if q.name != "" {
        var qualified := Qualified(q);
        var key := Normalize(qualified);
        var r1 := Ensure(r, qualified);
        EnsureKeepsValid(r, qualified);
        OnlyConstraintsKeepValid(r1, ApplyChanges(r1, key, qualified, chs), key);
      }
    case OtherStatement =>
  }

  lemma {:induction false} AllKeepValid(r: Registry, stmts: seq<Statement>)
    requires Valid(r)
    ensures Valid(ApplyAll(r, stmts))
    decreases |stmts|
  {
    if |stmts| > 0 {
      StatementKeepsValid(r, stmts[0]);
      AllKeepValid(ApplyStatement(r, stmts[0]), stmts[1..]);
    }
  }

  /** A CREATE TABLE or ALTER TABLE that names its table. */
  predicate NamesTable(s: Statement)
  {
    (s.CreateTable? || s.AlterTable?) && s.table.name != ""
  }

  /** The keys of the tables a statement list names: their normalised qualified names. */
  function StatementKeys(stmts: seq<Statement>): set<string>
  {
    set i | 0 <= i < |stmts| && NamesTable(stmts[i]) :: Normalize(Qualified(stmts[i].table))
  }

  lemma StatementKeysSplit(stmts: seq<Statement>)
    requires |stmts| > 0
    ensures StatementKeys(stmts) ==
      (if NamesTable(stmts[0]) then {Normalize(Qualified(stmts[0].table))} else {}) + StatementKeys(stmts[1..])
  {
    var rest := stmts[1..];
    forall k | k in StatementKeys(rest) ensures k in StatementKeys(stmts) {
      var i :| 0 <= i < |rest| && NamesTable(rest[i]) && k == Normalize(Qualified(rest[i].table));
      assert rest[i] == stmts[i + 1];
    }
    forall k | k in StatementKeys(stmts) && k !in StatementKeys(rest)
      ensures NamesTable(stmts[0]) && k == Normalize(Qualified(stmts[0].table))
    {
      var i :| 0 <= i < |stmts| && NamesTable(stmts[i]) && k == Normalize(Qualified(stmts[i].table));
      if i > 0 {
        assert stmts[i] == rest[i - 1];
      }
    }
  }

  /** The statement fold adds exactly the keys of the tables the statements name. */
  lemma {:induction false} ApplyAllKeys(r: Registry, stmts: seq<Statement>)
    ensures ApplyAll(r, stmts).tables.Keys == r.tables.Keys + StatementKeys(stmts)
    decreases |stmts|
  {
    if |stmts| > 0 {
      ApplyAllKeys(ApplyStatement(r, stmts[0]), stmts[1..]);
      StatementKeysSplit(stmts);
    }
  }

  // ---------------------------------------------------------------- finalisation

  /** The comparator's key: `fromTable`, `toTable`, then both column lists joined by `,`; the constraint name is not part of it. */
  function FkKey(fk: ForeignKey): seq<string>
  {
    [fk.fromTable, fk.toTable, Join(fk.fromCols, ","), Join(fk.toCols, ",")]
  }

  /** The finalisation of one table: `[...new Set(xs)].sort()` on columns and primary key, `fks.sort(cmp)`. */
  function FinalizeTable(t: Table): Table
  {
    t.(columns := SortedSet(t.columns), primaryKey := SortedSet(t.primaryKey), fks := SortBy(t.fks, FkKey))
  }

  /**
   * After finalisation the columns and the primary key are strictly ascending
   * with the same elements, and the foreign keys are a permutation sorted by
   * `FkKey`, stable among equal keys.
   */
  lemma FinalizeTableSorted(t: Table)
    ensures var t' := FinalizeTable(t);
      && t'.name == t.name && t'.qualifiedName == t.qualifiedName
      && StrictlySorted(t'.columns) && (forall c :: c in t'.columns <==> c in t.columns)
      && StrictlySorted(t'.primaryKey) && (forall c :: c in t'.primaryKey <==> c in t.primaryKey)
      && SortedBy(t'.fks, FkKey) && multiset(t'.fks) == multiset(t.fks)
      && (forall k :: KeyRun(t'.fks, FkKey, k) == KeyRun(t.fks, FkKey, k))
  {
    SortByFacts(t.fks, FkKey);
  }

  function FinalTables(tables: map<string, Table>): (ts: map<string, Table>)
    ensures ts.Keys == tables.Keys
    ensures forall k :: k in tables ==> ts[k] == FinalizeTable(tables[k])
  {
    map k | k in tables :: FinalizeTable(tables[k])
  }

  /** The record after the finalisation loop has visited the keys `ks`, in that order. */
  function FinalizeEntries(tables: map<string, Table>, ks: seq<string>): (m: map<string, Table>)
    requires forall k :: k in ks ==> k in tables
    ensures m.Keys == tables.Keys
  {
    if |ks| == 0 then tables
    else
      var m := FinalizeEntries(tables, ks[..|ks| - 1]);
      var k := ks[|ks| - 1];
      m[k := FinalizeTable(m[k])]
  }

  /** An entry the loop has not visited is untouched. */
  lemma {:induction false} FinalizeEntriesUnvisited(tables: map<string, Table>, ks: seq<string>, k: string)
    requires forall x :: x in ks ==> x in tables
    requires k in tables && k !in ks
    ensures FinalizeEntries(tables, ks)[k] == tables[k]
  {
    if |ks| > 0 {
      FinalizeEntriesUnvisited(tables, ks[..|ks| - 1], k);
    }
  }

  /** One more step of the loop finalises the next key's raw table. */
  lemma FinalizeEntriesStep(tables: map<string, Table>, order: seq<string>, i: nat)
    requires i < |order| && NoDup(order) && forall k :: k in order ==> k in tables
    ensures FinalizeEntries(tables, order[..i])[order[i]] == tables[order[i]]
    ensures FinalizeEntries(tables, order[..i + 1]) ==
      FinalizeEntries(tables, order[..i])[order[i] := FinalizeTable(tables[order[i]])]
  {
    assert order[i] !in order[..i];
    FinalizeEntriesUnvisited(tables, order[..i], order[i]);
    assert order[..i + 1][..i] == order[..i];
  }

  /** Visiting every key once finalises every table. */
  lemma {:induction false} FinalizeEntriesAll(tables: map<string, Table>, ks: seq<string>)
    requires forall x :: x in ks ==> x in tables
    requires NoDup(ks)
    ensures forall k :: k in tables ==>
      FinalizeEntries(tables, ks)[k] == if k in ks then FinalizeTable(tables[k]) else tables[k]
  {
    if |ks| > 0 {
      var init := ks[..|ks| - 1];
      var last := ks[|ks| - 1];
      assert ks == init + [last];
      FinalizeEntriesAll(tables, init);
      assert last !in init;
    }
  }

  /** After the loop every table is finalised, and the count over the raw lists is the count over the sorted ones. */
  lemma LoopFinalises(tables: map<string, Table>, order: seq<string>)
    requires NoDup(order) && forall k :: k in tables <==> k in order
    ensures FinalizeEntries(tables, order) == FinalTables(tables)
    ensures FkTotal(tables, order) == FkTotal(FinalTables(tables), order)
  {
    FinalizeEntriesAll(tables, order);
    FkTotalFinal(tables, order);
  }

  /** The running `fkCount`: the foreign keys of the tables listed in `order`. */
  function FkTotal(tables: map<string, Table>, order: seq<string>): nat
    requires forall k :: k in order ==> k in tables
  {
    if |order| == 0 then 0
    else FkTotal(tables, order[..|order| - 1]) + |tables[order[|order| - 1]].fks|
  }

  lemma FkTotalStep(tables: map<string, Table>, order: seq<string>, i: nat)
    requires i < |order| && forall k :: k in order ==> k in tables
    ensures FkTotal(tables, order[..i + 1]) == FkTotal(tables, order[..i]) + |tables[order[i]].fks|
  {
    assert order[..i + 1][..i] == order[..i];
  }

  /** A well-keyed record has as many keys as its key order has entries. */
  lemma KeyCount(tables: map<string, Table>, order: seq<string>)
    requires WellKeyed(tables, order)
    ensures |tables.Keys| == |order|
  {
    NoDupCard(order);
    assert tables.Keys == set k | k in order;
  }

  /** Sorting the foreign-key lists keeps every list's length, hence the total. */
  lemma {:induction false} FkTotalFinal(tables: map<string, Table>, order: seq<string>)
    requires forall k :: k in order ==> k in tables
    ensures FkTotal(FinalTables(tables), order) == FkTotal(tables, order)
  {
    if |order| > 0 {
      FkTotalFinal(tables, order[..|order| - 1]);
      var t := tables[order[|order| - 1]];
      FinalizeTableSorted(t);
      assert |multiset(FinalizeTable(t).fks)| == |multiset(t.fks)|;
    }
  }

  function Finished(r: Registry): (g: SchemaGraph)
    requires Valid(r)
    ensures WellKeyed(g.tables, g.order)
  {
    var ts := FinalTables(r.tables);
    SchemaGraph(ts, r.order, Stats(|r.order|, FkTotal(ts, r.order)))
  }

  /**
   * `buildGraphFromDDL` over a statement list: every table sits under its
   * normalised name, with sorted duplicate-free columns and primary key and
   * foreign keys sorted by `FkKey`; the stats count the tables and the
   * foreign keys.
   */
  function BuildGraph(stmts: seq<Statement>): (g: SchemaGraph)
    ensures WellKeyed(g.tables, g.order)
    ensures forall k :: k in g.tables ==>
      StrictlySorted(g.tables[k].columns) && StrictlySorted(g.tables[k].primaryKey) && SortedBy(g.tables[k].fks, FkKey)
    ensures g.stats.tableCount == |g.tables.Keys|
    ensures g.stats.fkCount == FkTotal(g.tables, g.order)
  {
    var r := ApplyAll(Empty, stmts);
    AllKeepValid(Empty, stmts);
    var g := Finished(r);
    KeyCount(g.tables, g.order);
    assert forall k :: k in g.tables ==>
      StrictlySorted(g.tables[k].columns) && StrictlySorted(g.tables[k].primaryKey) && SortedBy(g.tables[k].fks, FkKey) by {
      forall k | k in g.tables {
        FinalizeTableSorted(r.tables[k]);
      }
    }
    g
  }

  /**
   * The built graph holds exactly one table per normalised name that a
   * CREATE TABLE or ALTER TABLE names; a foreign key's reference adds none.
   */
  lemma BuildGraphKeys(stmts: seq<Statement>)
    ensures BuildGraph(stmts).tables.Keys == StatementKeys(stmts)
  {
    ApplyAllKeys(Empty, stmts);
    BuildGraphIsFinished(stmts);
  }

  lemma BuildGraphIsFinished(stmts: seq<Statement>)
    ensures Valid(ApplyAll(Empty, stmts)) && BuildGraph(stmts) == Finished(ApplyAll(Empty, stmts))
  {
    AllKeepValid(Empty, stmts);
  }

  // ---------------------------------------------------------------- properties of single statements

  /** A simple name and the same name under `public.` share one key, the name itself; no `public.`-key arises. */
  lemma PublicAndBareShareKey(n: string)
    requires !NeedsQuote(n)
    ensures Normalize(Qualified(QName("", n))) == n
    ensures Normalize(Qualified(QName("public", n))) == n
  {
    SimpleIsNormal(n);
    PublicLower();
    assert "public" + "." == "public.";
    NormalizePublic("public.", n);
  }

  /** An ALTER TABLE with one change is that change applied to the ensured entry. */
  lemma OneChange(r: Registry, q: QName, ch: Change)
    requires q.name != ""
    ensures ApplyAlter(r, q, [ch]) == ApplyChange(Ensure(r, Qualified(q)), Normalize(Qualified(q)), Qualified(q), ch)
  {
    var qualified := Qualified(q);
    var key := Normalize(qualified);
    var r1 := Ensure(r, qualified);
    assert [ch][1..] == [];
    assert ApplyChanges(r1, key, qualified, [ch]) == ApplyChanges(ApplyChange(r1, key, qualified, ch), key, qualified, []);
  }

  /** The named columns, normalised: exactly the normalised non-empty names. */
  lemma NamedColumns(cols: seq<string>)
    ensures forall c :: c in NormalizeAll(NonEmpty(cols)) <==> exists x :: x in cols && x != "" && c == Normalize(x)
  {
    forall c | c in NormalizeAll(NonEmpty(cols)) ensures exists x :: x in cols && x != "" && c == Normalize(x) {
      NamedColumnFrom(cols, c);
    }
    forall x | x in cols && x != "" ensures Normalize(x) in NormalizeAll(NonEmpty(cols)) {
      NamedColumnTo(cols, x);
    }
  }

  lemma NamedColumnFrom(cols: seq<string>, c: string)
    requires c in NormalizeAll(NonEmpty(cols))
    ensures exists x :: x in cols && x != "" && c == Normalize(x)
  {
    var named := NonEmpty(cols);
    var i :| 0 <= i < |named| && NormalizeAll(named)[i] == c;
    var x := named[i];
    assert x in named;
    assert x in cols && x != "" && c == Normalize(x);
  }

  lemma NamedColumnTo(cols: seq<string>, x: string)
    requires x in cols && x != ""
    ensures Normalize(x) in NormalizeAll(NonEmpty(cols))
  {
    var named := NonEmpty(cols);
    assert x in named;
    var i :| 0 <= i < |named| && named[i] == x;
    assert NormalizeAll(named)[i] == Normalize(x);
  }

  /** ALTER TABLE ... ADD PRIMARY KEY replaces the key with the named columns, normalised and deduplicated; nothing else changes. */
  lemma AlterPrimaryKeyReplaces(r: Registry, q: QName, cols: seq<string>)
    requires q.name != ""
    ensures var key := Normalize(Qualified(q));
      var r' := ApplyAlter(r, q, [AddConstraint(PrimaryKeyConstraint(cols))]);
      && NoDup(r'.tables[key].primaryKey)
      && (forall c :: c in r'.tables[key].primaryKey <==> exists x :: x in cols && x != "" && c == Normalize(x))
      && r'.tables[key].fks == Ensure(r, Qualified(q)).tables[key].fks
      && r'.tables[key].columns == Ensure(r, Qualified(q)).tables[key].columns
  {
    NamedColumns(cols);
    OneChange(r, q, AddConstraint(PrimaryKeyConstraint(cols)));
  }

  /**
   * ALTER TABLE ... ADD FOREIGN KEY with a referenced table appends exactly one
   * foreign key from the owner's normalised name to the normalised reference,
   * with the named columns normalised in declared order.
   */
  lemma AlterForeignKeyAppends(r: Registry, q: QName, cols: seq<string>, ref: QName, refCols: seq<string>, name: string)
    requires q.name != "" && ref.name != ""
    ensures var key := Normalize(Qualified(q));
      var r' := ApplyAlter(r, q, [AddConstraint(ForeignKeyConstraint(cols, ref, refCols, name))]);
      r'.tables[key] == Ensure(r, Qualified(q)).tables[key].(fks := Ensure(r, Qualified(q)).tables[key].fks +
        [ForeignKey(key, NormalizeAll(NonEmpty(cols)), Normalize(Qualified(ref)), NormalizeAll(NonEmpty(refCols)),
                    if name != "" then Some(name) else None)])
  {
    var key := Normalize(Qualified(q));
    var ch := AddConstraint(ForeignKeyConstraint(cols, ref, refCols, name));
    OneChange(r, q, ch);
  }

  /** A foreign key without a referenced table name is skipped. */
  lemma AlterForeignKeyWithoutTargetSkipped(r: Registry, q: QName, cols: seq<string>, ref: QName, refCols: seq<string>, name: string)
    requires q.name != "" && ref.name == ""
    ensures ApplyAlter(r, q, [AddConstraint(ForeignKeyConstraint(cols, ref, refCols, name))]) == Ensure(r, Qualified(q))
  {
    var key := Normalize(Qualified(q));
    var ch := AddConstraint(ForeignKeyConstraint(cols, ref, refCols, name));
    OneChange(r, q, ch);
  }

  /** Changes other than `add constraint` are skipped. */
  lemma OtherChangesSkipped(r: Registry, q: QName, n: nat)
    requires q.name != ""
    ensures ApplyAlter(r, q, seq(n, _ => OtherChange)) == Ensure(r, Qualified(q))
  {
    var key := Normalize(Qualified(q));
    OtherChangesIdle(Ensure(r, Qualified(q)), key, Qualified(q), n);
  }

  lemma {:induction false} OtherChangesIdle(r: Registry, key: string, qualified: string, n: nat)
    requires key in r.tables
    ensures ApplyChanges(r, key, qualified, seq(n, _ => OtherChange)) == r
  {
    if n > 0 {
      assert seq(n, _ => OtherChange)[1..] == seq(n - 1, _ => OtherChange);
      OtherChangesIdle(r, key, qualified, n - 1);
    }
  }

  // ---------------------------------------------------------------- a whole build

  /**
   * A schema in the shape of the two-table fixture: a table `qc` with column
   * and primary key `pk`, a table `qo` with column `pk`, and an ALTER TABLE
   * adding the foreign key `qo(pk) REFERENCES qc(pk)`.
   */
  function MiniStatements(qc: QName, qo: QName, pk: string, name: string): seq<Statement>
  {
    [ CreateTable(qc, [pk], [PrimaryKeyConstraint([pk])]),
      CreateTable(qo, [pk], []),
      AlterTable(qo, [AddConstraint(ForeignKeyConstraint([pk], qc, [pk], name))]) ]
  }

  lemma SimpleColumns(pk: string)
    requires !NeedsQuote(pk)
    ensures NormalizeAll(NonEmpty([pk])) == [pk] && NormalizeAll([pk]) == [pk]
    ensures Distinct([pk]) == [pk] && Distinct([] + [pk]) == [pk]
    ensures SortedSet([pk]) == [pk]
  {
    SimpleIsNormal(pk);
    assert NonEmpty([pk]) == [pk];
    assert [] + [pk] == [pk];
    assert Distinct([pk]) == [pk] by {
      assert [pk][..0] == [];
    }
  }

  /** CREATE TABLE of a new name, without constraints, adds one entry holding its named columns. */
  lemma CreateNew(r: Registry, q: QName, cols: seq<string>)
    requires q.name != "" && Normalize(Qualified(q)) !in r.tables
    ensures var key := Normalize(Qualified(q));
      ApplyCreate(r, q, cols, []) ==
        Registry(r.tables[key := Table(key, Qualified(q), Distinct(NormalizeAll(NonEmpty(cols))), [], [])], r.order + [key])
  {
    var key := Normalize(Qualified(q));
    var e := Ensure(r, Qualified(q));
    assert e == Registry(r.tables[key := Table(key, Qualified(q), [], [], [])], r.order + [key]);
    var t := e.tables[key];
    var merged := Distinct(t.columns + NormalizeAll(NonEmpty(cols)));
    assert t.columns + NormalizeAll(NonEmpty(cols)) == NormalizeAll(NonEmpty(cols));
    var e2 := Put(e, key, t.(columns := merged));
    assert ApplyCreate(r, q, cols, []) == ApplyInlines(e2, key, []);
    assert ApplyInlines(e2, key, []) == e2;
    assert t.(columns := merged) == Table(key, Qualified(q), merged, [], []);
    UpdateTwice(r.tables, key, Table(key, Qualified(q), [], [], []), Table(key, Qualified(q), merged, [], []));
  }

  lemma UpdateTwice(m: map<string, Table>, k: string, a: Table, b: Table)
    ensures m[k := a][k := b] == m[k := b]
  {
  }

  /** The record holds exactly the entries `t1` under `c` and `t2` under `o`, in that order. */
  ghost predicate HoldsTwo(r: Registry, c: string, t1: Table, o: string, t2: Table)
  {
    r.tables.Keys == {c, o} && c in r.tables && o in r.tables
    && r.tables[c] == t1 && r.tables[o] == t2 && r.order == [c, o]
  }

  /** CREATE TABLE of a new name with an inline primary key adds one entry holding its named columns and that key. */
  lemma CreateNewKeyed(r: Registry, q: QName, cols: seq<string>, pkCols: seq<string>)
    requires q.name != "" && Normalize(Qualified(q)) !in r.tables
    ensures var key := Normalize(Qualified(q));
      var r' := ApplyCreate(r, q, cols, [PrimaryKeyConstraint(pkCols)]);
      && r'.tables.Keys == r.tables.Keys + {key} && r'.order == r.order + [key]
      && r'.tables[key] == Table(key, Qualified(q), Distinct(NormalizeAll(NonEmpty(cols))), Distinct(NormalizeAll(pkCols)), [])
  {
    var key := Normalize(Qualified(q));
    var named := NormalizeAll(NonEmpty(cols));
    var e := Ensure(r, Qualified(q));
    var t := e.tables[key];
    assert t == Table(key, Qualified(q), [], [], []);
    assert t.columns + named == named;
    var e2 := Put(e, key, t.(columns := Distinct(named)));
    var e3 := ApplyInline(e2, key, PrimaryKeyConstraint(pkCols));
    assert e3.tables[key] == Table(key, Qualified(q), Distinct(named), Distinct(NormalizeAll(pkCols)), []);
    assert [PrimaryKeyConstraint(pkCols)][1..] == [];
    assert ApplyInlines(e2, key, [PrimaryKeyConstraint(pkCols)]) == ApplyInlines(e3, key, []);
  }

  /** The first CREATE TABLE, with its inline primary key, on the empty record. */
  lemma MiniCreateFirst(r0: Registry, qc: QName, pk: string)
    requires r0.tables == map[] && r0.order == [] && qc.name != "" && !NeedsQuote(pk)
    ensures var c := Normalize(Qualified(qc));
      var r := ApplyStatement(r0, CreateTable(qc, [pk], [PrimaryKeyConstraint([pk])]));
      r.tables.Keys == {c} && c in r.tables && r.tables[c] == Table(c, Qualified(qc), [pk], [pk], []) && r.order == [c]
  {
    SimpleColumns(pk);
    CreateNewKeyed(r0, qc, [pk], [pk]);
    assert [] + [Normalize(Qualified(qc))] == [Normalize(Qualified(qc))];
  }

  /** The second CREATE TABLE adds the second entry after the first. */
  lemma MiniCreateSecond(r: Registry, c: string, qo: QName, pk: string, t1: Table)
    requires qo.name != "" && !NeedsQuote(pk) && c != Normalize(Qualified(qo))
    requires r.tables.Keys == {c} && c in r.tables && r.tables[c] == t1 && r.order == [c]
    ensures var o := Normalize(Qualified(qo));
      HoldsTwo(ApplyStatement(r, CreateTable(qo, [pk], [])), c, t1, o, Table(o, Qualified(qo), [pk], [], []))
  {
    var o := Normalize(Qualified(qo));
    SimpleColumns(pk);
    CreateNew(r, qo, [pk]);
    assert r.order + [o] == [c, o];
  }

  /** The ALTER TABLE appends the foreign key to the second entry. */
  lemma MiniAlter(r: Registry, qc: QName, qo: QName, pk: string, name: string, t1: Table, t2: Table, t2': Table)
    requires qc.name != "" && qo.name != "" && NormalizeAll(NonEmpty([pk])) == [pk]
    requires var c := Normalize(Qualified(qc)); var o := Normalize(Qualified(qo));
      c != o && t2.name == o && t2.qualifiedName == Qualified(qo) && HoldsTwo(r, c, t1, o, t2)
      && t2' == t2.(fks := t2.fks + [ForeignKey(o, [pk], c, [pk], if name != "" then Some(name) else None)])
    ensures HoldsTwo(ApplyStatement(r, AlterTable(qo, [AddConstraint(ForeignKeyConstraint([pk], qc, [pk], name))])),
                     Normalize(Qualified(qc)), t1, Normalize(Qualified(qo)), t2')
  {
    var c := Normalize(Qualified(qc));
    var o := Normalize(Qualified(qo));
    var chs := [AddConstraint(ForeignKeyConstraint([pk], qc, [pk], name))];
    var r' := ApplyAlter(r, qo, chs);
    assert ApplyStatement(r, AlterTable(qo, chs)) == r';
    assert Qualified(qo) != "";
    assert Ensure(r, Qualified(qo)) == r;
    AlterForeignKeyAppends(r, qo, [pk], qc, [pk], name);
    assert r'.tables[o] == t2';
    assert r'.tables[c] == t1;
    assert r'.order == [c, o];
    AddPresent(r.tables.Keys, o);
    assert HoldsTwo(r', c, t1, o, t2');
  }

  lemma AddPresent<T>(s: set<T>, x: T)
    requires x in s
    ensures s + {x} == s
  {
  }

  /** Three statements applied one after the other. */
  lemma ApplyThree(r: Registry, s0: Statement, s1: Statement, s2: Statement)
    ensures ApplyAll(r, [s0, s1, s2]) == ApplyStatement(ApplyStatement(ApplyStatement(r, s0), s1), s2)
  {
    var r1 := ApplyStatement(r, s0);
    var r2 := ApplyStatement(r1, s1);
    assert [s0, s1, s2][1..] == [s1, s2];
    assert ApplyAll(r, [s0, s1, s2]) == ApplyAll(r1, [s1, s2]);
    assert [s1, s2][1..] == [s2];
    assert ApplyAll(r1, [s1, s2]) == ApplyAll(r2, [s2]);
    assert [s2][1..] == [];
    assert ApplyAll(r2, [s2]) == ApplyAll(ApplyStatement(r2, s2), []);
  }

  /** The two CREATE TABLEs on the empty record. */
  lemma MiniCreates(r0: Registry, qc: QName, qo: QName, pk: string)
    requires r0.tables == map[] && r0.order == [] && qc.name != "" && qo.name != "" && !NeedsQuote(pk)
    requires Normalize(Qualified(qc)) != Normalize(Qualified(qo))
    ensures var c := Normalize(Qualified(qc)); var o := Normalize(Qualified(qo));
      HoldsTwo(ApplyStatement(ApplyStatement(r0, CreateTable(qc, [pk], [PrimaryKeyConstraint([pk])])), CreateTable(qo, [pk], [])),
               c, Table(c, Qualified(qc), [pk], [pk], []), o, Table(o, Qualified(qo), [pk], [], []))
  {
    MiniCreateFirst(r0, qc, pk);
    var c := Normalize(Qualified(qc));
    MiniCreateSecond(ApplyStatement(r0, CreateTable(qc, [pk], [PrimaryKeyConstraint([pk])])), c, qo, pk,
                     Table(c, Qualified(qc), [pk], [pk], []));
  }

  /** The record after the three statements, before finalisation. */
  lemma MiniRegistry(r0: Registry, qc: QName, qo: QName, pk: string, name: string)
    requires r0.tables == map[] && r0.order == [] && qc.name != "" && qo.name != "" && !NeedsQuote(pk)
    requires Normalize(Qualified(qc)) != Normalize(Qualified(qo))
    ensures var c := Normalize(Qualified(qc)); var o := Normalize(Qualified(qo));
      HoldsTwo(ApplyAll(r0, MiniStatements(qc, qo, pk, name)), c, Table(c, Qualified(qc), [pk], [pk], []),
               o, Table(o, Qualified(qo), [pk], [], [ForeignKey(o, [pk], c, [pk], if name != "" then Some(name) else None)]))
  {
    var stmts := MiniStatements(qc, qo, pk, name);
    MiniCreates(r0, qc, qo, pk);
    SimpleColumns(pk);
    ApplyThree(r0, stmts[0], stmts[1], stmts[2]);
    assert stmts == [stmts[0], stmts[1], stmts[2]];
    MiniLast(ApplyStatement(ApplyStatement(r0, stmts[0]), stmts[1]), qc, qo, pk, name);
  }

  /** The ALTER TABLE on the record the two CREATE TABLEs leave. */
  lemma MiniLast(r2: Registry, qc: QName, qo: QName, pk: string, name: string)
    requires qc.name != "" && qo.name != "" && NormalizeAll(NonEmpty([pk])) == [pk]
    requires Normalize(Qualified(qc)) != Normalize(Qualified(qo))
    requires var c := Normalize(Qualified(qc)); var o := Normalize(Qualified(qo));
      HoldsTwo(r2, c, Table(c, Qualified(qc), [pk], [pk], []), o, Table(o, Qualified(qo), [pk], [], []))
    ensures var c := Normalize(Qualified(qc)); var o := Normalize(Qualified(qo));
      HoldsTwo(ApplyStatement(r2, MiniStatements(qc, qo, pk, name)[2]), c, Table(c, Qualified(qc), [pk], [pk], []),
               o, Table(o, Qualified(qo), [pk], [], [ForeignKey(o, [pk], c, [pk], if name != "" then Some(name) else None)]))
  {
    var c := Normalize(Qualified(qc));
    var o := Normalize(Qualified(qo));
    var t2 := Table(o, Qualified(qo), [pk], [], []);
    var fk := ForeignKey(o, [pk], c, [pk], if name != "" then Some(name) else None);
    assert MiniStatements(qc, qo, pk, name)[2] == AlterTable(qo, [AddConstraint(ForeignKeyConstraint([pk], qc, [pk], name))]);
    assert t2.fks + [fk] == [fk];
    assert t2.(fks := t2.fks + [fk]) == Table(o, Qualified(qo), [pk], [], [fk]);
    MiniAlter(r2, qc, qo, pk, name, Table(c, Qualified(qc), [pk], [pk], []), t2, Table(o, Qualified(qo), [pk], [], [fk]));
  }

  /**
   * Building that schema gives exactly the two keys of the two names, the
   * first table's primary key `[pk]`, exactly one foreign key on the second,
   * from its `[pk]` to the first's `[pk]`, and the stats two tables and one
   * foreign key.
   */
  lemma MiniSchema(qc: QName, qo: QName, pk: string, name: string)
    requires qc.name != "" && qo.name != "" && !NeedsQuote(pk)
    requires Normalize(Qualified(qc)) != Normalize(Qualified(qo))
    ensures var c := Normalize(Qualified(qc)); var o := Normalize(Qualified(qo));
      var g := BuildGraph(MiniStatements(qc, qo, pk, name));
      && g.tables.Keys == {c, o}
      && g.tables[c].primaryKey == [pk]
      && g.tables[o].fks == [ForeignKey(o, [pk], c, [pk], if name != "" then Some(name) else None)]
      && g.stats == Stats(2, 1)
  {
    var c := Normalize(Qualified(qc));
    var o := Normalize(Qualified(qo));
    var stmts := MiniStatements(qc, qo, pk, name);
    var fk := ForeignKey(o, [pk], c, [pk], if name != "" then Some(name) else None);
    var t1 := Table(c, Qualified(qc), [pk], [pk], []);
    var t2 := Table(o, Qualified(qo), [pk], [], [fk]);
    MiniRegistry(Empty, qc, qo, pk, name);
    SimpleColumns(pk);
    FinishedTwo(ApplyAll(Empty, stmts), c, t1, o, t2);
    SortBySingle(fk, FkKey);
    BuildGraphIsFinished(stmts);
    var g := Finished(ApplyAll(Empty, stmts));
    assert g.tables[c].primaryKey == SortedSet([pk]);
    assert g.tables[o].fks == SortBy([fk], FkKey);
    assert g == BuildGraph(MiniStatements(qc, qo, pk, name));
    assert g.tables.Keys == {c, o};
    assert g.tables[c].primaryKey == [pk];
    assert g.tables[o].fks == [fk];
    assert |t1.fks| + |t2.fks| == 1;
  }

  /** Finalising a record of two entries finalises both and counts their foreign keys. */
  lemma FinishedTwo(r: Registry, c: string, t1: Table, o: string, t2: Table)
    requires HoldsTwo(r, c, t1, o, t2) && c != o && t1.name == c && t2.name == o
    ensures Valid(r)
    ensures var g := Finished(r);
      && g.tables.Keys == {c, o} && g.tables[c] == FinalizeTable(t1) && g.tables[o] == FinalizeTable(t2)
      && g.stats == Stats(2, |t1.fks| + |t2.fks|)
  {
    TwoValid(r, c, t1, o, t2);
    CountTwo(FinalTables(r.tables), c, o);
  }

  lemma TwoValid(r: Registry, c: string, t1: Table, o: string, t2: Table)
    requires HoldsTwo(r, c, t1, o, t2) && c != o && t1.name == c && t2.name == o
    ensures Valid(r)
  {
    assert [c, o][..1] == [c];
  }

  lemma CountTwo(ts: map<string, Table>, c: string, o: string)
    requires c in ts && o in ts
    ensures FkTotal(ts, [c, o]) == |ts[c].fks| + |ts[o].fks|
  {
    assert [c][..0] == [];
    assert FkTotal(ts, [c]) == |ts[c].fks|;
    assert [c, o][..1] == [c];
  }

  /**
   * The fixture itself: `public.C` and a bare `O` are keyed `C` and `O`, so the
   * build has no `public.`-key, and the foreign key points at `C`.
   */
  lemma MiniFixture(c: string, o: string, pk: string, name: string)
    requires !NeedsQuote(c) && !NeedsQuote(o) && !NeedsQuote(pk) && c != o
    ensures var g := BuildGraph(MiniStatements(QName("public", c), QName("", o), pk, name));
      && g.tables.Keys == {c, o}
      && g.tables[c].primaryKey == [pk]
      && g.tables[o].fks == [ForeignKey(o, [pk], c, [pk], if name != "" then Some(name) else None)]
      && g.stats == Stats(2, 1)
  {
    PublicAndBareShareKey(c);
    PublicAndBareShareKey(o);
    MiniSchema(QName("public", c), QName("", o), pk, name);
  }

  // ---------------------------------------------------------------- the builder, in place

  class GraphBuilder {
    var tables: map<string, Table>
    var order: seq<string>

    function State(): Registry
      reads this
    {
      Registry(tables, order)
    }

    constructor ()
      ensures State() == Empty
    {
      tables := map[];
      order := [];
    }

    /** `ensureTable`: returns the key of the entry, creating it if missing. */
    method EnsureTable(qualified: string) returns (key: string)
      modifies this
      ensures key == Normalize(qualified) && key in tables
      ensures State() == Ensure(old(State()), qualified)
    {
      key := Normalize(qualified);
      if key in tables {
        var existing := tables[key];
        if existing.qualifiedName == "" {
          tables := tables[key := existing.(qualifiedName := qualified)];
        }
      } else {
        tables := tables[key := Table(key, qualified, [], [], [])];
        order := order + [key];
      }
    }

    /** One inline constraint of CREATE TABLE, on the entry under `key`. */
    method AddInlineConstraint(key: string, c: Constraint)
      requires key in tables
      modifies this
      ensures State() == ApplyInline(old(State()), key, c)
      ensures c.PrimaryKeyConstraint? ==> tables[key].primaryKey == Distinct(NormalizeAll(c.columns))
      ensures c.ForeignKeyConstraint? && c.references.name != "" ==>
        tables[key].fks == old(tables[key].fks) + [InlineForeignKey(old(tables[key].name), c.columns, c.references, c.refColumns)]
    {
      var t := tables[key];
      match c {
        case PrimaryKeyConstraint(cols) =>
          tables := tables[key := t.(primaryKey := Distinct(NormalizeAll(cols)))];
        case ForeignKeyConstraint(cols, ref, refCols, _) =>
          if ref.name != "" {
            var fk := InlineForeignKey(t.name, cols, ref, refCols);
            tables := tables[key := t.(fks := t.fks + [fk])];
          }
        case OtherConstraint =>
      }
    }

    /** One CREATE TABLE statement. */
    method AddCreateTable(table: QName, columns: seq<string>, constraints: seq<Constraint>)
      modifies this
      ensures State() == ApplyCreate(old(State()), table, columns, constraints)
    {
      if table.name == "" {
        return;
      }
      var qualified := Qualified(table);
      var key := EnsureTable(qualified);
      var t := tables[key];
      tables := tables[key := t.(columns := Distinct(t.columns + NormalizeAll(NonEmpty(columns))))];
      var i := 0;
      while i < |constraints|
        invariant 0 <= i <= |constraints| && key in tables
        invariant ApplyInlines(State(), key, constraints[i..]) == ApplyCreate(old(State()), table, columns, constraints)
      {
        AddInlineConstraint(key, constraints[i]);
        assert constraints[i..][1..] == constraints[i + 1..];
        i := i + 1;
      }
    }

    /** One change of ALTER TABLE, on the entry under `key`. */
    method AddChange(key: string, qualified: string, ch: Change)
      requires key in tables
      modifies this
      ensures State() == ApplyChange(old(State()), key, qualified, ch)
    {
      var t := tables[key];
      match ch {
        case OtherChange =>
        case AddConstraint(PrimaryKeyConstraint(cols)) =>
          tables := tables[key := t.(primaryKey := Distinct(NormalizeAll(NonEmpty(cols))))];
        case AddConstraint(ForeignKeyConstraint(cols, ref, refCols, name)) =>
          if ref.name != "" {
            var fk := ForeignKey(Normalize(qualified), NormalizeAll(NonEmpty(cols)), Normalize(Qualified(ref)),
                                 NormalizeAll(NonEmpty(refCols)), if name != "" then Some(name) else None);
            tables := tables[key := t.(fks := t.fks + [fk])];
          }
        case AddConstraint(OtherConstraint) =>
      }
    }

    /** One ALTER TABLE statement. */
    method AddAlterTable(table: QName, changes: seq<Change>)
      modifies this
      ensures State() == ApplyAlter(old(State()), table, changes)
    {
      if table.name == "" {
        return;
      }
      var qualified := Qualified(table);
      var key := EnsureTable(qualified);
      var i := 0;
      while i < |changes|
        invariant 0 <= i <= |changes| && key in tables
        invariant ApplyChanges(State(), key, qualified, changes[i..]) == ApplyAlter(old(State()), table, changes)
      {
        AddChange(key, qualified, changes[i]);
        assert changes[i..][1..] == changes[i + 1..];
        i := i + 1;
      }
    }

    /** The finalisation loop: each table, in key order, is deduplicated and sorted, and `fkCount` accumulates. */
    method Finish() returns (g: SchemaGraph)
      requires Valid(State())
      modifies this
      ensures g == Finished(old(State()))
      ensures tables == g.tables && order == g.order
    {
      ghost var raw := tables;
      var fkCount := 0;
      var i := 0;
      while i < |order|
        invariant 0 <= i <= |order| && order == old(order) && NoDup(order)
        invariant forall k :: k in raw <==> k in order
        invariant tables == FinalizeEntries(raw, order[..i])
        invariant fkCount == FkTotal(raw, order[..i])
      {
        var key := order[i];
        FinalizeEntriesStep(raw, order, i);
        tables := tables[key := FinalizeTable(tables[key])];
        fkCount := fkCount + |tables[key].fks|;
        FkTotalStep(raw, order, i);
        i := i + 1;
      }
      assert order[..i] == order;
      LoopFinalises(raw, order);
      g := SchemaGraph(tables, order, Stats(|order|, fkCount));
    }
  }

  /** `buildGraphFromDDL`: one pass over the statements, then the finalisation loop. */
  method BuildGraphFromStatements(stmts: seq<Statement>) returns (g: SchemaGraph)
    ensures g == BuildGraph(stmts)
  {
    var b := new GraphBuilder();
    var i := 0;
    while i < |stmts|
      invariant 0 <= i <= |stmts|
      invariant Valid(b.State())
      invariant ApplyAll(b.State(), stmts[i..]) == ApplyAll(Empty, stmts)
    {
      StatementKeepsValid(b.State(), stmts[i]);
      match stmts[i] {
        case CreateTable(q, cols, cs) => b.AddCreateTable(q, cols, cs);
        case AlterTable(q, chs) => b.AddAlterTable(q, chs);
        case OtherStatement =>
      }
      assert stmts[i..][1..] == stmts[i + 1..];
      i := i + 1;
    }
    g := b.Finish();
  }
}
