/**
 * The selection toggle reducer: the list of selected ids, each `table.col`
 * or `table.*`, after the user toggles one id. A table's star and its
 * column ids exclude each other, and the result is sorted and duplicate-free.
 */
module Selections {
  import opened Text

  /** The id names a whole table: its column part (`split('.', 2)[1]`) is `*`. */
  predicate IsStar(id: string)
  {
    ColumnPart(id) == Some("*")
  }

  /** The prefix `table.` shared by every id of the table that `id` names. */
  function TablePrefix(id: string): string
  {
    TablePart(id) + "."
  }

  /**
   * `toggleSelectionReducer(prev, id)`: a selected id is removed (every copy);
   * a new `T.*` is added and every other `T.`-id dropped; a new column id is
   * added and `T.*` dropped. The result is strictly ascending.
   */
  function ToggleSelection(prev: seq<string>, id: string): (next: seq<string>)
    ensures StrictlySorted(next)
    ensures id in prev ==> forall x :: x in next <==> x in prev && x != id
    ensures id !in prev && IsStar(id) ==>
      forall x :: x in next <==> x == id || (x in prev && !StartsWith(x, TablePrefix(id)))
    ensures id !in prev && !IsStar(id) ==>
      forall x :: x in next <==> x == id || (x in prev && x != TablePart(id) + ".*")
  {
    var table := TablePart(id);
    var isStar := ColumnPart(id) == Some("*");
    var isSelected := id in prev;
    StarOfTable(table);
    var next := if isSelected then Filter(prev, x => x != id) else prev + [id];
    var next' :=
      if isSelected then next
      else if isStar then Filter(next, x => !StartsWith(x, table + ".") || x == id)
      else Filter(next, x => x != table + ".*");
    SortedSet(next')
  }

  /** `t.*` is the star id of table `t`. */
  lemma StarOfTable(t: string)
    requires '.' !in t
    ensures TablePart(t + ".*") == t && IsStar(t + ".*")
  {
    PartsOfQualified(t, "*");
    assert t + ".*" == t + "." + "*";
    assert Join(["*"], ['.']) == "*";
    SplitJoin(["*"], '.');
  }

  /** A newly toggled id is always selected afterwards. */
  lemma ToggleAddsNew(prev: seq<string>, id: string)
    requires id !in prev
    ensures id in ToggleSelection(prev, id)
  {
  }

  /** Ids of other tables are never removed (nor is anything but the toggled id's table touched). */
  lemma ToggleKeepsOtherTables(prev: seq<string>, id: string, x: string)
    requires x in prev && x != id && !StartsWith(x, TablePrefix(id))
    ensures x in ToggleSelection(prev, id)
  {
    if id !in prev && !IsStar(id) {
      assert StartsWith(TablePart(id) + ".*", TablePrefix(id));
    }
  }

  /** The result holds nothing that was neither selected before nor toggled. */
  lemma ToggleInventsNothing(prev: seq<string>, id: string, x: string)
    requires x in ToggleSelection(prev, id)
    ensures x in prev || x == id
  {
  }

  /** Toggling an id of a table that had no selection, twice, gives back the sorted selection. */
  lemma ToggleTwice(prev: seq<string>, id: string)
    requires id !in prev
    requires forall x :: x in prev ==> !StartsWith(x, TablePrefix(id))
    ensures ToggleSelection(ToggleSelection(prev, id), id) == SortedSet(prev)
  {
    var once := ToggleSelection(prev, id);
    if !IsStar(id) {
      assert StartsWith(TablePart(id) + ".*", TablePrefix(id));
    }
    assert forall x :: x in once <==> x == id || x in prev;
    var twice := ToggleSelection(once, id);
    assert forall x :: x in twice <==> x in prev;
    StrictlySortedUnique(twice, SortedSet(prev));
  }

  /** Every id of table `t` other than its star starts with `t.` and differs from `t.*`. */
  lemma ColumnOfTable(t: string, c: string)
    requires c != "*"
    ensures StartsWith(t + "." + c, t + ".") && t + "." + c != t + ".*"
  {
    assert (t + "." + c)[..|t| + 1] == t + ".";
    assert (t + "." + c)[|t| + 1..] == c;
    assert (t + ".*")[|t| + 1..] == "*";
  }

  /** A table's star, toggled on over columns of that table only, leaves the star alone. */
  lemma ToggleStarClearsTable(prev: seq<string>, t: string)
    requires '.' !in t
    requires forall x :: x in prev ==> StartsWith(x, t + ".") && x != t + ".*"
    ensures ToggleSelection(prev, t + ".*") == [t + ".*"]
  {
    StarOfTable(t);
    StrictlySortedUnique(ToggleSelection(prev, t + ".*"), [t + ".*"]);
  }

  /** Toggling the only selected id leaves nothing selected. */
  lemma ToggleRemoveOnly(id: string)
    ensures ToggleSelection([id], id) == []
  {
    StrictlySortedUnique(ToggleSelection([id], id), []);
  }

  /**
   * Toggling a table's star twice over columns of that table clears the
   * selection instead of restoring it: the first toggle drops the columns.
   */
  lemma ToggleStarTwiceClears(prev: seq<string>, t: string)
    requires '.' !in t
    requires forall x :: x in prev ==> StartsWith(x, t + ".") && x != t + ".*"
    ensures ToggleSelection(ToggleSelection(prev, t + ".*"), t + ".*") == []
  {
    ToggleStarClearsTable(prev, t);
    ToggleRemoveOnly(t + ".*");
  }

  /** Star replaces the table's columns: `['orders.order_id', 'orders.ship_name']` toggled with `orders.*` is `['orders.*']`. */
  lemma ToggleStarExample()
    ensures ToggleSelection(["orders" + "." + "order_id", "orders" + "." + "ship_name"], "orders" + ".*") == ["orders" + ".*"]
  {
    ColumnOfTable("orders", "order_id");
    ColumnOfTable("orders", "ship_name");
    ToggleStarClearsTable(["orders" + "." + "order_id", "orders" + "." + "ship_name"], "orders");
  }

  /** A column of a table replaces that table's star. */
  lemma ToggleColumnReplacesStar(t: string, c: string)
    requires '.' !in t && '.' !in c && c != "*"
    ensures ToggleSelection([t + ".*"], t + "." + c) == [t + "." + c]
  {
    var id := t + "." + c;
    PartsOfQualified(t, c);
    assert Join([c], ['.']) == c;
    SplitJoin([c], '.');
    assert !IsStar(id);
    ColumnOfTable(t, c);
    StrictlySortedUnique(ToggleSelection([t + ".*"], id), [id]);
  }

  /** A column replaces the star: `['orders.*']` toggled with `orders.order_id` is `['orders.order_id']`. */
  lemma ToggleColumnExample()
    ensures ToggleSelection(["orders" + ".*"], "orders" + "." + "order_id") == ["orders" + "." + "order_id"]
  {
    ToggleColumnReplacesStar("orders", "order_id");
  }

  /** Toggling a selected id removes it: `['orders.order_id']` becomes `[]`. */
  lemma ToggleRemoveExample()
    ensures ToggleSelection(["orders" + "." + "order_id"], "orders" + "." + "order_id") == []
  {
    ToggleRemoveOnly("orders" + "." + "order_id");
  }

  /** Toggling twice does not always restore the selection: `['orders.id']` toggled twice with `orders.*` is `[]`. */
  lemma ToggleTwiceLosesColumns()
    ensures ToggleSelection(ToggleSelection(["orders" + "." + "id"], "orders" + ".*"), "orders" + ".*") == []
  {
    ColumnOfTable("orders", "id");
    ToggleStarTwiceClears(["orders" + "." + "id"], "orders");
  }
}
