/**
 * The first half of the join planner: the two-way foreign-key adjacency and
 * the breadth-first search from the base table, with parent links and the
 * paths they spell.
 */
module Search {
  import opened Text
  import opened Schema

  /** One foreign key, walked from `from` to `to` (forwards or backwards). */
  datatype Edge = Edge(via: ForeignKey, from: string, to: string)

  // ---------------------------------------------------------------- adjacency

  /** The edges that foreign key `fk` of table `t` adds to the list of node `n`: the forward one, then the reverse one. */
  function FkEdges(t: Table, fk: ForeignKey, n: string): seq<Edge>
  {
    (if t.name == n then [Edge(fk, t.name, fk.toTable)] else [])
    + (if fk.toTable == n then [Edge(fk, fk.toTable, t.name)] else [])
  }

  /** The edges the foreign keys `fks` of `t` add to the list of `n`, in push order. */
  function TableEdges(t: Table, fks: seq<ForeignKey>, n: string): seq<Edge>
  {
    if |fks| == 0 then [] else TableEdges(t, fks[..|fks| - 1], n) + FkEdges(t, fks[|fks| - 1], n)
  }

  /** The adjacency list of `n` after walking the tables `ts` in order. */
  function AllEdges(ts: seq<Table>, n: string): seq<Edge>
  {
    if |ts| == 0 then [] else AllEdges(ts[..|ts| - 1], n) + TableEdges(ts[|ts| - 1], ts[|ts| - 1].fks, n)
  }

  /** `adj.get(n) || []`. */
  function Lookup(adj: map<string, seq<Edge>>, n: string): seq<Edge>
  {
    if n in adj then adj[n] else []
  }

  /** Every edge in the list of `n` starts at `n`. */
  ghost predicate FromKeyed(adj: map<string, seq<Edge>>)
  {
    forall n, e :: e in Lookup(adj, n) ==> e.from == n
  }

  /** The tables stored under `keys`, in that order, skipping keys without an entry. */
  function TablesAt(tables: map<string, Table>, keys: seq<string>): (ts: seq<Table>)
    ensures |ts| <= |keys|
    ensures forall t :: t in ts <==> exists k :: k in keys && k in tables && tables[k] == t
  {
    if |keys| == 0 then []
    else
      var rest := TablesAt(tables, keys[1..]);
      assert keys == [keys[0]] + keys[1..];
      (if keys[0] in tables then [tables[keys[0]]] else []) + rest
  }

  /** `Object.values(graph.tables)`: the tables in the order the record enumerates its keys. */
  function Values(g: SchemaGraph): seq<Table>
  {
    TablesAt(g.tables, g.order)
  }

  /** `e` is the forward edge of `fk` leaving `n`, or its reverse edge leaving `n`. */
  predicate Contributes(t: Table, fk: ForeignKey, n: string, e: Edge)
  {
    (e == Edge(fk, t.name, fk.toTable) && t.name == n) || (e == Edge(fk, fk.toTable, t.name) && fk.toTable == n)
  }

  lemma {:induction false} TableEdgesIff(t: Table, fks: seq<ForeignKey>, n: string, e: Edge)
    ensures e in TableEdges(t, fks, n) <==> exists fk :: fk in fks && Contributes(t, fk, n, e)
  {
    if |fks| > 0 {
      var init, last := fks[..|fks| - 1], fks[|fks| - 1];
      TableEdgesIff(t, init, n, e);
      assert fks == init + [last];
      assert e in FkEdges(t, last, n) <==> Contributes(t, last, n, e);
      if e in FkEdges(t, last, n) {
        assert last in fks;
      }
    }
  }

  /**
   * The adjacency holds an edge at `n` exactly when some table's foreign key
   * leaves `n` (the forward edge) or points at `n` (the reverse edge).
   */
  lemma {:induction false} AllEdgesIff(ts: seq<Table>, n: string, e: Edge)
    ensures e in AllEdges(ts, n) <==> exists t, fk :: t in ts && fk in t.fks && Contributes(t, fk, n, e)
  {
    if |ts| > 0 {
      var last := ts[|ts| - 1];
      AllEdgesIff(ts[..|ts| - 1], n, e);
      TableEdgesIff(last, last.fks, n, e);
      assert ts == ts[..|ts| - 1] + [last];
    }
  }

  /** Every edge in the list of `n` starts at `n`. */
  lemma AllEdgesFrom(ts: seq<Table>, n: string, e: Edge)
    requires e in AllEdges(ts, n)
    ensures e.from == n
  {
    AllEdgesIff(ts, n, e);
  }

  /** The tables of `ts` and the tables their foreign keys point at. */
  function Nodes(ts: seq<Table>): set<string>
  {
    (set t | t in ts :: t.name) + (set t, fk | t in ts && fk in t.fks :: fk.toTable)
  }

  /** Only tables of `ts` and the tables they point at have a list, and every edge joins two of them. */
  lemma AllEdgesNodes(ts: seq<Table>)
    ensures forall n :: |AllEdges(ts, n)| > 0 ==> n in Nodes(ts)
    ensures forall n, e :: e in AllEdges(ts, n) ==> e.from in Nodes(ts) && e.to in Nodes(ts)
  {
    forall n, e | e in AllEdges(ts, n)
      ensures n in Nodes(ts) && e.from in Nodes(ts) && e.to in Nodes(ts)
    {
      AllEdgesIff(ts, n, e);
    }
    forall n | |AllEdges(ts, n)| > 0
      ensures n in Nodes(ts)
    {
      assert AllEdges(ts, n)[0] in AllEdges(ts, n);
    }
  }

  /** The adjacency the building loop produces, as a record from each table to its list. */
  function Adjacency(ts: seq<Table>): (adj: map<string, seq<Edge>>)
    ensures forall n :: Lookup(adj, n) == AllEdges(ts, n)
  {
    AllEdgesNodes(ts);
    map n | n in Nodes(ts) :: AllEdges(ts, n)
  }

  lemma AdjacencyFromKeyed(ts: seq<Table>)
    ensures FromKeyed(Adjacency(ts))
  {
    forall n, e | e in Lookup(Adjacency(ts), n)
      ensures e.from == n
    {
      AllEdgesFrom(ts, n, e);
    }
  }

  lemma PushLookup(adj: map<string, seq<Edge>>, k: string, e: Edge, n: string)
    ensures Lookup(adj[k := Lookup(adj, k) + [e]], n) == Lookup(adj, n) + (if n == k then [e] else [])
  {
  }

  /** The two pushes for one foreign key extend the list of `n` by exactly the edges the key adds there. */
  lemma PushedBoth(adj0: map<string, seq<Edge>>, adj1: map<string, seq<Edge>>, adj2: map<string, seq<Edge>>,
                   adj: map<string, seq<Edge>>, t: Table, fk: ForeignKey, n: string)
    requires t.name in adj0 && adj1 == adj0[t.name := adj0[t.name] + [Edge(fk, t.name, fk.toTable)]]
    requires adj2 == if fk.toTable in adj1 then adj1 else adj1[fk.toTable := []]
    requires adj == adj2[fk.toTable := adj2[fk.toTable] + [Edge(fk, fk.toTable, t.name)]]
    ensures Lookup(adj, n) == Lookup(adj0, n) + FkEdges(t, fk, n)
  {
    PushLookup(adj0, t.name, Edge(fk, t.name, fk.toTable), n);
    assert Lookup(adj2, n) == Lookup(adj1, n);
    PushLookup(adj2, fk.toTable, Edge(fk, fk.toTable, t.name), n);
  }

  lemma Regroup<T>(x: seq<T>, a: seq<T>, b: seq<T>, c: seq<T>, bc: seq<T>)
    requires x == (a + b) + c && bc == b + c
    ensures x == a + bc
  {
  }

  lemma {:induction false} TableEdgesSnoc(t: Table, fks: seq<ForeignKey>, j: nat, n: string)
    requires j < |fks|
    ensures TableEdges(t, fks[..j + 1], n) == TableEdges(t, fks[..j], n) + FkEdges(t, fks[j], n)
  {
    assert fks[..j + 1][..j] == fks[..j];
  }

  lemma {:induction false} AllEdgesSnoc(ts: seq<Table>, i: nat, n: string)
    requires i < |ts|
    ensures AllEdges(ts[..i + 1], n) == AllEdges(ts[..i], n) + TableEdges(ts[i], ts[i].fks, n)
  {
    assert ts[..i + 1][..i] == ts[..i];
  }

  /** Building the adjacency (both directions of every foreign key, in table and key order). */
  method BuildAdjacency(ts: seq<Table>) returns (adj: map<string, seq<Edge>>)
    ensures forall n :: Lookup(adj, n) == AllEdges(ts, n)
  {
    adj := map[];
    for i := 0 to |ts|
      invariant forall n :: Lookup(adj, n) == AllEdges(ts[..i], n)
    {
      var t := ts[i];
      if t.name !in adj {
        adj := adj[t.name := []];
      }
      for j := 0 to |t.fks|
        invariant t.name in adj
        invariant forall n :: Lookup(adj, n) == AllEdges(ts[..i], n) + TableEdges(t, t.fks[..j], n)
      {
        var fk := t.fks[j];
        var forward, reverse := Edge(fk, t.name, fk.toTable), Edge(fk, fk.toTable, t.name);
        ghost var adj0 := adj;
        adj := adj[t.name := adj[t.name] + [forward]];
        ghost var adj1 := adj;
        if fk.toTable !in adj {
          adj := adj[fk.toTable := []];
        }
        ghost var adj2 := adj;
        adj := adj[fk.toTable := adj[fk.toTable] + [reverse]];
        forall n ensures Lookup(adj, n) == AllEdges(ts[..i], n) + TableEdges(t, t.fks[..j + 1], n) {
          PushedBoth(adj0, adj1, adj2, adj, t, fk, n);
          TableEdgesSnoc(t, t.fks, j, n);
          Regroup(Lookup(adj, n), AllEdges(ts[..i], n), TableEdges(t, t.fks[..j], n), FkEdges(t, fk, n),
            TableEdges(t, t.fks[..j + 1], n));
        }
      }
      forall n ensures Lookup(adj, n) == AllEdges(ts[..i + 1], n) {
        AllEdgesSnoc(ts, i, n);
        assert t.fks[..|t.fks|] == t.fks;
      }
    }
    assert ts[..|ts|] == ts;
  }

  // ---------------------------------------------------------------- breadth-first search

  /** The parent entry of a discovered table: the table it was reached from and the edge used. */
  datatype Parent = Parent(prev: string, edge: Edge)

  /** The search: the queue and the `depth` and `parent` maps. */
  datatype State = State(queue: seq<string>, depth: map<string, nat>, parent: map<string, Parent>)

  /** Sort key of a neighbour: by `to`, then by `from`. */
  function NeighbourKey(e: Edge): seq<string>
  {
    [e.to, e.from]
  }

  /** The tables the edges `es` lead to. */
  ghost function EdgeHeads(es: seq<Edge>): set<string>
  {
    set e | e in es :: e.to
  }

  /** Every table some edge of the adjacency leads to. */
  ghost function Heads(adj: map<string, seq<Edge>>): set<string>
  {
    set n, e | n in adj && e in adj[n] :: e.to
  }

  /** Every queued table has a depth. */
  ghost predicate QueuedHaveDepth(s: State)
  {
    forall q :: q in s.queue ==> q in s.depth
  }

  /** The start: only the base, at depth 0, queued. */
  function Start(base: string): State
  {
    State([base], map[base := 0], map[])
  }

  /**
   * The inner loop over the sorted neighbours `nbrs` of `cur`: each one not
   * yet given a depth gets depth `d` and parent `cur`, and is queued.
   */
  function Discover(cur: string, d: nat, nbrs: seq<Edge>, s: State): State
    decreases |nbrs|
  {
    if |nbrs| == 0 then s else Discover(cur, d, nbrs[1..], Visit(cur, d, nbrs[0], s))
  }

  /** One turn of the inner loop: a neighbour without a depth gets depth `d` and parent `cur`, and is queued. */
  function Visit(cur: string, d: nat, e: Edge, s: State): State
  {
    if e.to in s.depth then s
    else State(s.queue + [e.to], s.depth[e.to := d], s.parent[e.to := Parent(cur, e)])
  }

  lemma DiscoverAt(cur: string, d: nat, nbrs: seq<Edge>, i: nat, s: State)
    requires i < |nbrs|
    ensures Discover(cur, d, nbrs[i..], s) == Discover(cur, d, nbrs[i + 1..], Visit(cur, d, nbrs[i], s))
  {
    assert nbrs[i..][1..] == nbrs[i + 1..];
  }

  /** Discovery only adds tables, only ones the edges lead to, and queues whatever it adds. */
  lemma {:induction false} DiscoverGrows(cur: string, d: nat, nbrs: seq<Edge>, s: State)
    ensures s.depth.Keys <= Discover(cur, d, nbrs, s).depth.Keys <= s.depth.Keys + EdgeHeads(nbrs)
    ensures Discover(cur, d, nbrs, s).depth.Keys == s.depth.Keys ==> Discover(cur, d, nbrs, s).queue == s.queue
    ensures QueuedHaveDepth(s) ==> QueuedHaveDepth(Discover(cur, d, nbrs, s))
    decreases |nbrs|
  {
    if |nbrs| > 0 {
      var e := nbrs[0];
      DiscoverGrows(cur, d, nbrs[1..], Visit(cur, d, e, s));
      assert EdgeHeads(nbrs) == {e.to} + EdgeHeads(nbrs[1..]);
    }
  }

  /** One turn of the outer loop: dequeue the head and discover its neighbours, sorted by `NeighbourKey`. */
  function Step(adj: map<string, seq<Edge>>, s: State): State
    requires |s.queue| > 0 && s.queue[0] in s.depth
  {
    var cur := s.queue[0];
    Discover(cur, s.depth[cur] + 1, SortBy(Lookup(adj, cur), NeighbourKey), s.(queue := s.queue[1..]))
  }

  lemma StepIs(adj: map<string, seq<Edge>>, s: State, cur: string, d: nat, nbrs: seq<Edge>, rest: State)
    requires |s.queue| > 0 && cur == s.queue[0] && cur in s.depth && d == s.depth[cur] + 1
    requires nbrs == SortBy(Lookup(adj, cur), NeighbourKey) && rest == s.(queue := s.queue[1..])
    ensures Step(adj, s) == Discover(cur, d, nbrs, rest)
  {
  }

  lemma DiffShrinks(u: set<string>, k: set<string>, k': set<string>)
    requires k <= k' <= k + u && k' != k
    ensures |u - k'| < |u - k|
  {
    var x :| x in k' && x !in k;
    var a, b := u - k, u - k';
    assert x in a - b;
    assert a == b + (a - b) && b * (a - b) == {};
    assert |a| == |b| + |a - b|;
  }

  /** The sorted neighbours of a table lead only to tables in `Heads(adj)`. */
  lemma NeighbourHeads(adj: map<string, seq<Edge>>, cur: string)
    ensures EdgeHeads(SortBy(Lookup(adj, cur), NeighbourKey)) <= Heads(adj)
  {
    var nbrs := SortBy(Lookup(adj, cur), NeighbourKey);
    SortByFacts(Lookup(adj, cur), NeighbourKey);
    forall e | e in nbrs ensures e.to in Heads(adj) {
      assert e in multiset(Lookup(adj, cur));
    }
  }

  /** A turn either gives a new table a depth, or shortens the queue. */
  lemma StepProgress(adj: map<string, seq<Edge>>, s: State)
    requires |s.queue| > 0 && QueuedHaveDepth(s)
    ensures QueuedHaveDepth(Step(adj, s))
    ensures Step(adj, s).depth.Keys == s.depth.Keys ==> |Step(adj, s).queue| < |s.queue|
    ensures Step(adj, s).depth.Keys != s.depth.Keys ==> |Heads(adj) - Step(adj, s).depth.Keys| < |Heads(adj) - s.depth.Keys|
  {
    var cur := s.queue[0];
    var rest := s.(queue := s.queue[1..]);
    var nbrs := SortBy(Lookup(adj, cur), NeighbourKey);
    StepIs(adj, s, cur, s.depth[cur] + 1, nbrs, rest);
    var r := Step(adj, s);
    assert r == Discover(cur, s.depth[cur] + 1, nbrs, rest);
    DiscoverGrows(cur, s.depth[cur] + 1, nbrs, rest);
    assert QueuedHaveDepth(rest);
    assert QueuedHaveDepth(r);
    if r.depth.Keys != s.depth.Keys {
      NeighbourHeads(adj, cur);
      DiffShrinks(Heads(adj), s.depth.Keys, r.depth.Keys);
    }
  }

  /** The outer loop, run until the queue is empty. */
  function Explore(adj: map<string, seq<Edge>>, s: State): (r: State)
    requires QueuedHaveDepth(s)
    ensures r.queue == []
    decreases |Heads(adj) - s.depth.Keys|, |s.queue|
  {
    if |s.queue| == 0 then s
    else
      StepProgress(adj, s);
      Explore(adj, Step(adj, s))
  }

  lemma ExploreStep(adj: map<string, seq<Edge>>, s: State)
    requires |s.queue| > 0 && QueuedHaveDepth(s)
    ensures QueuedHaveDepth(Step(adj, s))
    ensures Explore(adj, s) == Explore(adj, Step(adj, s))
  {
    StepProgress(adj, s);
  }

  /** The search reads the adjacency only through `Lookup`. */
  lemma {:induction false} ExploreSame(adj: map<string, seq<Edge>>, adj': map<string, seq<Edge>>, s: State)
    requires forall n :: Lookup(adj, n) == Lookup(adj', n)
    requires QueuedHaveDepth(s)
    ensures Explore(adj, s) == Explore(adj', s)
    decreases |Heads(adj) - s.depth.Keys|, |s.queue|
  {
    if |s.queue| > 0 {
      StepProgress(adj, s);
      StepProgress(adj', s);
      assert Step(adj, s) == Step(adj', s);
      ExploreSame(adj, adj', Step(adj, s));
    }
  }

  /** The inner loop of the search: visits the sorted neighbours `nbrs` of `cur` in order. */
  method VisitNeighbours(cur: string, nextDepth: nat, nbrs: seq<Edge>,
                         queue0: seq<string>, depth0: map<string, nat>, parent0: map<string, Parent>)
    returns (queue: seq<string>, depth: map<string, nat>, parent: map<string, Parent>)
    ensures State(queue, depth, parent) == Discover(cur, nextDepth, nbrs, State(queue0, depth0, parent0))
  {
    queue, depth, parent := queue0, depth0, parent0;
    assert nbrs[0..] == nbrs;
    for i := 0 to |nbrs|
      invariant Discover(cur, nextDepth, nbrs[i..], State(queue, depth, parent))
        == Discover(cur, nextDepth, nbrs, State(queue0, depth0, parent0))
    {
      var e := nbrs[i];
      DiscoverAt(cur, nextDepth, nbrs, i, State(queue, depth, parent));
      if e.to !in depth {
        depth := depth[e.to := nextDepth];
        parent := parent[e.to := Parent(cur, e)];
        queue := queue + [e.to];
      }
    }
  }

  /** The search from `base`, with its queue and its `depth` and `parent` maps. */
  method Bfs(adj: map<string, seq<Edge>>, base: string) returns (depth: map<string, nat>, parent: map<string, Parent>)
    ensures State([], depth, parent) == Explore(adj, Start(base))
  {
    var queue := [base];
    depth := map[base := 0];
    parent := map[];
    while |queue| > 0
      invariant QueuedHaveDepth(State(queue, depth, parent))
      invariant Explore(adj, State(queue, depth, parent)) == Explore(adj, Start(base))
      decreases |Heads(adj) - depth.Keys|, |queue|
    {
      ghost var s := State(queue, depth, parent);
      StepProgress(adj, s);
      ExploreStep(adj, s);
      var cur := queue[0];
      queue := queue[1..];
      var nextDepth := depth[cur] + 1;
      var nbrs := SortBy(Lookup(adj, cur), NeighbourKey);
      StepIs(adj, s, cur, nextDepth, nbrs, State(queue, depth, parent));
      queue, depth, parent := VisitNeighbours(cur, nextDepth, nbrs, queue, depth, parent);
      assert State(queue, depth, parent) == Step(adj, s);
    }
  }

  // ---------------------------------------------------------------- what the search computes

  /** The edges of `es` that lead to `t`, in order. */
  function EdgesTo(es: seq<Edge>, t: string): seq<Edge>
  {
    if |es| == 0 then [] else (if es[0].to == t then [es[0]] else []) + EdgesTo(es[1..], t)
  }

  /** The base has depth 0 and no parent; every other table with a depth has a parent, and only those. */
  ghost predicate Rooted(base: string, s: State)
  {
    base in s.depth && s.depth[base] == 0 && base !in s.parent
    && (forall t :: t in s.parent <==> t in s.depth && t != base)
  }

  /**
   * `t` was reached from its parent one level deeper, along the first edge
   * of the parent's list that leads to `t`.
   */
  ghost predicate ParentOk(adj: map<string, seq<Edge>>, s: State, t: string)
  {
    t in s.parent && t in s.depth
    && var p := s.parent[t];
    p.prev in s.depth && s.depth[t] == s.depth[p.prev] + 1
    && |EdgesTo(Lookup(adj, p.prev), t)| > 0 && p.edge == EdgesTo(Lookup(adj, p.prev), t)[0]
  }

  ghost predicate ParentsOk(adj: map<string, seq<Edge>>, s: State)
  {
    forall t :: t in s.parent ==> ParentOk(adj, s, t)
  }

  /** Every neighbour of `n` has a depth, at most one more than `n`'s. */
  ghost predicate ClosedAt(adj: map<string, seq<Edge>>, depth: map<string, nat>, n: string)
  {
    n in depth && forall e :: e in Lookup(adj, n) ==> e.to in depth && depth[e.to] <= depth[n] + 1
  }

  /**
   * The tables with a depth are the processed ones (`done`) and the queued
   * ones; the queue holds each once, in ascending depth spanning at most one
   * level, and no processed table is deeper than a queued one.
   */
  ghost predicate Layered(s: State, done: set<string>)
  {
    NoDup(s.queue)
    && (forall k :: k in s.depth <==> k in done || k in s.queue)
    && (forall q :: q in s.queue ==> q !in done)
    && (forall i, j :: 0 <= i <= j < |s.queue| ==> s.depth[s.queue[i]] <= s.depth[s.queue[j]] <= s.depth[s.queue[i]] + 1)
    && (forall n, q :: n in done && q in s.queue ==> s.depth[n] <= s.depth[q])
  }

  /** The invariant of the outer loop, with `done` the tables already dequeued. */
  ghost predicate Inv(adj: map<string, seq<Edge>>, base: string, s: State, done: set<string>)
  {
    Rooted(base, s) && ParentsOk(adj, s) && Layered(s, done)
    && (forall n :: n in done ==> ClosedAt(adj, s.depth, n))
  }

  /** The finished search: queue empty, rooted at the base, parents consistent, every table with a depth closed. */
  ghost predicate Searched(adj: map<string, seq<Edge>>, base: string, r: State)
  {
    r.queue == [] && Rooted(base, r) && ParentsOk(adj, r)
    && (forall n :: n in r.depth ==> ClosedAt(adj, r.depth, n))
  }

  /**
   * The queue while `cur` (already in `done`) is being visited: each table
   * once, in ascending depth, all at depth `d - 1` or `d`, and no processed
   * table deeper than `d - 1`.
   */
  ghost predicate QueueAt(s: State, done: set<string>, d: nat)
  {
    NoDup(s.queue)
    && (forall x :: x in s.depth <==> x in done || x in s.queue)
    && (forall q :: q in s.queue ==> q !in done)
    && (forall i, j :: 0 <= i <= j < |s.queue| ==> s.depth[s.queue[i]] <= s.depth[s.queue[j]])
    && (forall q :: q in s.queue ==> d - 1 <= s.depth[q] <= d)
    && (forall n :: n in done ==> s.depth[n] <= d - 1)
  }

  /** Every processed table other than `cur` is closed. */
  ghost predicate ClosedBut(adj: map<string, seq<Edge>>, depth: map<string, nat>, done: set<string>, cur: string)
  {
    forall n :: n in done && n != cur ==> ClosedAt(adj, depth, n)
  }

  /** The first `k` neighbours of `all` lead to tables with a depth of at most `d`. */
  ghost predicate VisitedUpTo(depth: map<string, nat>, all: seq<Edge>, k: nat, d: nat)
    requires k <= |all|
  {
    forall e :: e in all[..k] ==> e.to in depth && depth[e.to] <= d
  }

  /**
   * The invariant of the inner loop while visiting `cur` (already in
   * `done`, at depth `d - 1`), whose sorted neighbours are `all`, the first
   * `k` of them visited.
   */
  ghost predicate VisitInv(adj: map<string, seq<Edge>>, base: string, cur: string, d: nat, all: seq<Edge>, k: nat,
                           s: State, done: set<string>)
  {
    k <= |all| && d >= 1 && cur in done && cur in s.depth && s.depth[cur] == d - 1
    && Rooted(base, s) && ParentsOk(adj, s) && QueueAt(s, done, d)
    && ClosedBut(adj, s.depth, done, cur) && VisitedUpTo(s.depth, all, k, d)
  }

  /** The first edge to `t` is the first one of the list whose target is `t`. */
  lemma {:induction false} FirstEdgeTo(es: seq<Edge>, k: nat, t: string)
    requires k < |es| && es[k].to == t
    requires forall j :: 0 <= j < k ==> es[j].to != t
    ensures |EdgesTo(es, t)| > 0 && EdgesTo(es, t)[0] == es[k]
  {
    if k > 0 {
      FirstEdgeTo(es[1..], k - 1, t);
    }
  }

  /** Visiting a neighbour that already has a depth changes nothing and keeps the inner invariant. */
  lemma VisitSeen(adj: map<string, seq<Edge>>, base: string, cur: string, d: nat, all: seq<Edge>, k: nat,
                  s: State, done: set<string>)
    requires k < |all| && VisitInv(adj, base, cur, d, all, k, s, done) && all[k].to in s.depth
    ensures VisitInv(adj, base, cur, d, all, k + 1, Visit(cur, d, all[k], s), done)
  {
    assert all[..k + 1] == all[..k] + [all[k]];
  }

  /** Visiting a neighbour without a depth gives it depth `d` and parent `cur` and keeps the inner invariant. */
  lemma VisitNew(adj: map<string, seq<Edge>>, base: string, cur: string, d: nat, all: seq<Edge>, k: nat,
                 s: State, done: set<string>)
    requires k < |all| && VisitInv(adj, base, cur, d, all, k, s, done) && all[k].to !in s.depth
    requires forall t :: EdgesTo(all, t) == EdgesTo(Lookup(adj, cur), t)
    ensures VisitInv(adj, base, cur, d, all, k + 1, Visit(cur, d, all[k], s), done)
  {
    forall j | 0 <= j < k ensures all[j].to in s.depth {
      assert all[j] in all[..k];
    }
    NewParents(adj, base, cur, d, all, k, s);
    NewLayers(cur, d, all[k], s, done);
    NewClosed(adj, cur, d, all, k, s, done);
  }

  lemma NewParents(adj: map<string, seq<Edge>>, base: string, cur: string, d: nat, all: seq<Edge>, k: nat, s: State)
    requires k < |all| && Rooted(base, s) && ParentsOk(adj, s)
    requires d >= 1 && cur in s.depth && s.depth[cur] == d - 1
    requires all[k].to !in s.depth && forall j :: 0 <= j < k ==> all[j].to in s.depth
    requires forall t :: EdgesTo(all, t) == EdgesTo(Lookup(adj, cur), t)
    ensures Rooted(base, Visit(cur, d, all[k], s)) && ParentsOk(adj, Visit(cur, d, all[k], s))
  {
    var e := all[k];
    var t := e.to;
    var s' := Visit(cur, d, e, s);
    assert s' == State(s.queue + [t], s.depth[t := d], s.parent[t := Parent(cur, e)]);
    FirstEdgeTo(all, k, t);
    assert ParentOk(adj, s', t);
    forall u | u in s'.parent ensures ParentOk(adj, s', u) {
      if u != t {
        assert ParentOk(adj, s, u);
      }
    }
  }

  lemma NewLayers(cur: string, d: nat, e: Edge, s: State, done: set<string>)
    requires e.to !in s.depth && d >= 1 && QueueAt(s, done, d)
    ensures QueueAt(Visit(cur, d, e, s), done, d)
    ensures forall x :: x in s.depth ==> x in Visit(cur, d, e, s).depth && Visit(cur, d, e, s).depth[x] == s.depth[x]
  {
    var t := e.to;
    var s' := Visit(cur, d, e, s);
    assert s' == State(s.queue + [t], s.depth[t := d], s.parent[t := Parent(cur, e)]);
    assert t !in s.queue;
  }

  lemma NewClosed(adj: map<string, seq<Edge>>, cur: string, d: nat, all: seq<Edge>, k: nat, s: State, done: set<string>)
    requires k < |all| && all[k].to !in s.depth
    requires ClosedBut(adj, s.depth, done, cur) && VisitedUpTo(s.depth, all, k, d)
    ensures ClosedBut(adj, Visit(cur, d, all[k], s).depth, done, cur)
    ensures VisitedUpTo(Visit(cur, d, all[k], s).depth, all, k + 1, d)
  {
    var t := all[k].to;
    var s' := Visit(cur, d, all[k], s);
    assert s'.depth == s.depth[t := d];
    forall n | n in done && n != cur ensures ClosedAt(adj, s'.depth, n) {
      assert ClosedAt(adj, s.depth, n);
    }
    assert all[..k + 1] == all[..k] + [all[k]];
  }

  lemma {:induction false} DiscoverInv(adj: map<string, seq<Edge>>, base: string, cur: string, d: nat, all: seq<Edge>,
                                       k: nat, s: State, done: set<string>)
    requires VisitInv(adj, base, cur, d, all, k, s, done)
    requires forall t :: EdgesTo(all, t) == EdgesTo(Lookup(adj, cur), t)
    ensures VisitInv(adj, base, cur, d, all, |all|, Discover(cur, d, all[k..], s), done)
    decreases |all| - k
  {
    if k < |all| {
      DiscoverAt(cur, d, all, k, s);
      if all[k].to in s.depth {
        VisitSeen(adj, base, cur, d, all, k, s, done);
      } else {
        VisitNew(adj, base, cur, d, all, k, s, done);
      }
      DiscoverInv(adj, base, cur, d, all, k + 1, Visit(cur, d, all[k], s), done);
    } else {
      assert all[k..] == [];
    }
  }

  /** For edges that all start at `n`, the ones leading to `t` are those whose sort key is `[t, n]`. */
  lemma {:induction false} EdgesToKeyRun(es: seq<Edge>, n: string, t: string)
    requires forall e :: e in es ==> e.from == n
    ensures EdgesTo(es, t) == KeyRun(es, NeighbourKey, [t, n])
  {
    if |es| > 0 {
      EdgesToKeyRun(es[1..], n, t);
      KeyRunCons(es[0], es[1..], NeighbourKey, [t, n]);
      assert es == [es[0]] + es[1..];
    }
  }

  /**
   * Sorting the neighbours of `cur` keeps the edges leading to any one
   * table in their adjacency order (the sort is stable, and they share a key).
   */
  lemma NeighboursStable(adj: map<string, seq<Edge>>, cur: string)
    requires FromKeyed(adj)
    ensures forall t :: EdgesTo(SortBy(Lookup(adj, cur), NeighbourKey), t) == EdgesTo(Lookup(adj, cur), t)
  {
    var es := Lookup(adj, cur);
    var sorted := SortBy(es, NeighbourKey);
    SortByFacts(es, NeighbourKey);
    forall e | e in sorted ensures e.from == cur {
      assert e in multiset(es);
    }
    forall t ensures EdgesTo(sorted, t) == EdgesTo(es, t) {
      EdgesToKeyRun(es, cur, t);
      EdgesToKeyRun(sorted, cur, t);
    }
  }

  /** Dequeuing the head sets up the inner invariant. */
  lemma StartVisit(adj: map<string, seq<Edge>>, base: string, s: State, done: set<string>)
    requires Inv(adj, base, s, done) && |s.queue| > 0
    ensures VisitInv(adj, base, s.queue[0], s.depth[s.queue[0]] + 1, SortBy(Lookup(adj, s.queue[0]), NeighbourKey), 0,
                     s.(queue := s.queue[1..]), done + {s.queue[0]})
  {
    StartQueue(s, done);
  }

  lemma StartQueue(s: State, done: set<string>)
    requires Layered(s, done) && |s.queue| > 0
    ensures QueueAt(s.(queue := s.queue[1..]), done + {s.queue[0]}, s.depth[s.queue[0]] + 1)
  {
    var cur := s.queue[0];
    var rest := s.(queue := s.queue[1..]);
    var d := s.depth[cur] + 1;
    assert s.queue == [cur] + rest.queue;
    forall q | q in rest.queue ensures d - 1 <= s.depth[q] <= d {
      var j :| 0 <= j < |rest.queue| && rest.queue[j] == q;
      assert s.queue[j + 1] == q;
    }
    forall i, j | 0 <= i <= j < |rest.queue| ensures s.depth[rest.queue[i]] <= s.depth[rest.queue[j]] {
      assert rest.queue[i] == s.queue[i + 1] && rest.queue[j] == s.queue[j + 1];
    }
  }

  /** Once every neighbour is visited, `cur` is closed and the outer invariant holds with `cur` processed. */
  lemma EndVisit(adj: map<string, seq<Edge>>, base: string, cur: string, d: nat, all: seq<Edge>, r: State,
                 done: set<string>)
    requires VisitInv(adj, base, cur, d, all, |all|, r, done)
    requires multiset(all) == multiset(Lookup(adj, cur))
    ensures Inv(adj, base, r, done)
  {
    assert all[..|all|] == all;
    forall e | e in Lookup(adj, cur) ensures e.to in r.depth && r.depth[e.to] <= r.depth[cur] + 1 {
      assert e in multiset(all);
    }
    assert ClosedAt(adj, r.depth, cur);
  }

  /** One turn of the outer loop keeps its invariant, with the dequeued table now processed. */
  lemma StepInv(adj: map<string, seq<Edge>>, base: string, s: State, done: set<string>)
    requires FromKeyed(adj) && Inv(adj, base, s, done) && |s.queue| > 0
    ensures Inv(adj, base, Step(adj, s), done + {s.queue[0]})
  {
    var cur := s.queue[0];
    var d := s.depth[cur] + 1;
    var all := SortBy(Lookup(adj, cur), NeighbourKey);
    var rest := s.(queue := s.queue[1..]);
    StartVisit(adj, base, s, done);
    NeighboursStable(adj, cur);
    DiscoverInv(adj, base, cur, d, all, 0, rest, done + {cur});
    assert all[0..] == all;
    StepIs(adj, s, cur, d, all, rest);
    SortByFacts(Lookup(adj, cur), NeighbourKey);
    EndVisit(adj, base, cur, d, all, Step(adj, s), done + {cur});
  }

  lemma {:induction false} ExploreInv(adj: map<string, seq<Edge>>, base: string, s: State, done: set<string>)
    requires FromKeyed(adj) && Inv(adj, base, s, done) && QueuedHaveDepth(s)
    ensures Searched(adj, base, Explore(adj, s))
    decreases |Heads(adj) - s.depth.Keys|, |s.queue|
  {
    if |s.queue| > 0 {
      StepProgress(adj, s);
      StepInv(adj, base, s, done);
      ExploreStep(adj, s);
      ExploreInv(adj, base, Step(adj, s), done + {s.queue[0]});
    }
  }

  /**
   * The search from `base` ends rooted at `base`, with consistent parents
   * (one level up, along the first edge of the parent's list to the child)
   * and every table with a depth closed: each of its neighbours has a
   * depth at most one more.
   */
  lemma BfsSearched(adj: map<string, seq<Edge>>, base: string)
    requires FromKeyed(adj)
    ensures Searched(adj, base, Explore(adj, Start(base)))
  {
    ExploreInv(adj, base, Start(base), {});
  }

  // ---------------------------------------------------------------- paths

  /** `path` walks the adjacency from `a` to `b`, each edge taken from the list of the table it leaves. */
  ghost predicate IsWalk(adj: map<string, seq<Edge>>, path: seq<Edge>, a: string, b: string)
  {
    if |path| == 0 then a == b
    else
      (path[0].from == a && path[|path| - 1].to == b
       && (forall i :: 0 <= i < |path| ==> path[i] in Lookup(adj, path[i].from))
       && (forall i :: 0 <= i < |path| - 1 ==> path[i].to == path[i + 1].from))
  }

  lemma {:induction false} EdgesToMember(es: seq<Edge>, t: string, e: Edge)
    requires e in EdgesTo(es, t)
    ensures e in es && e.to == t
  {
    if |es| > 0 && e != es[0] {
      EdgesToMember(es[1..], t, e);
    } else if |es| > 0 && e == es[0] && es[0].to != t {
      EdgesToMember(es[1..], t, e);
    }
  }

  /** Parent links that lead back to the base, one level up at a time. */
  ghost predicate ParentChain(base: string, depth: map<string, nat>, parent: map<string, Parent>)
  {
    base in depth
    && forall t :: t in depth && t != base ==>
      t in parent && parent[t].prev in depth && depth[parent[t].prev] < depth[t]
      && parent[t].edge.to == t && parent[t].edge.from == parent[t].prev
  }

  /**
   * The path loop: the parent edges followed from `t` back to the base,
   * reversed so that it runs from the base to `t`.
   */
  function PathTo(base: string, depth: map<string, nat>, parent: map<string, Parent>, t: string): seq<Edge>
    requires ParentChain(base, depth, parent) && t in depth
    decreases depth[t]
  {
    if t == base then [] else PathTo(base, depth, parent, parent[t].prev) + [parent[t].edge]
  }

  /** A finished search has parent links back to the base. */
  lemma SearchedChain(adj: map<string, seq<Edge>>, base: string, r: State)
    requires FromKeyed(adj) && Searched(adj, base, r)
    ensures ParentChain(base, r.depth, r.parent)
    ensures forall t :: t in r.parent ==> r.parent[t].edge in Lookup(adj, r.parent[t].prev)
  {
    forall t | t in r.parent
      ensures r.parent[t].edge in Lookup(adj, r.parent[t].prev) && r.parent[t].edge.to == t
    {
      assert ParentOk(adj, r, t);
      var p := r.parent[t];
      assert p.edge in EdgesTo(Lookup(adj, p.prev), t);
      EdgesToMember(Lookup(adj, p.prev), t, p.edge);
    }
  }

  /**
   * The reconstructed path to a table with a depth is a walk from the base
   * as long as that depth, made of the tables' parent edges.
   */
  lemma {:induction false} PathToWalk(adj: map<string, seq<Edge>>, base: string, r: State, t: string)
    requires FromKeyed(adj) && Searched(adj, base, r) && t in r.depth
    ensures ParentChain(base, r.depth, r.parent)
    ensures |PathTo(base, r.depth, r.parent, t)| == r.depth[t]
    ensures IsWalk(adj, PathTo(base, r.depth, r.parent, t), base, t)
    ensures forall e :: e in PathTo(base, r.depth, r.parent, t) ==> e.to in r.parent && r.parent[e.to].edge == e
    decreases r.depth[t]
  {
    SearchedChain(adj, base, r);
    if t != base {
      var p := r.parent[t];
      assert ParentOk(adj, r, t);
      PathToWalk(adj, base, r, p.prev);
      var pre := PathTo(base, r.depth, r.parent, p.prev);
      assert PathTo(base, r.depth, r.parent, t) == pre + [p.edge];
      WalkSnoc(adj, pre, base, p.edge);
    } else {
      assert PathTo(base, r.depth, r.parent, t) == [];
    }
  }

  /** A walk to the start of an edge of the graph, extended by that edge. */
  lemma WalkSnoc(adj: map<string, seq<Edge>>, w: seq<Edge>, a: string, e: Edge)
    requires IsWalk(adj, w, a, e.from) && e in Lookup(adj, e.from)
    ensures IsWalk(adj, w + [e], a, e.to)
  {
    var w' := w + [e];
    assert w'[|w'| - 1] == e;
    forall i | 0 <= i < |w'|
      ensures w'[i] in Lookup(adj, w'[i].from)
    {
      if i < |w| {
        assert w'[i] == w[i];
      }
    }
    if |w| > 0 {
      assert w'[0] == w[0];
      forall i | 0 <= i < |w'| - 1
        ensures w'[i].to == w'[i + 1].from
      {
        if i < |w| - 1 {
          assert w'[i] == w[i] && w'[i + 1] == w[i + 1];
        }
      }
    }
  }

  /** Every table a path passes through, other than the base, reaches the path by its own parent edge. */
  lemma {:induction false} PathPrefix(base: string, depth: map<string, nat>, parent: map<string, Parent>,
                                      t: string, v: Edge)
    requires ParentChain(base, depth, parent) && t in depth
    requires v in PathTo(base, depth, parent, t) && v.from != base
    ensures v.from in parent && parent[v.from].edge in PathTo(base, depth, parent, t)
    decreases depth[t]
  {
    if t != base {
      var prev := parent[t].prev;
      var pre := PathTo(base, depth, parent, prev);
      assert PathTo(base, depth, parent, t) == pre + [parent[t].edge];
      if v in pre {
        PathPrefix(base, depth, parent, prev, v);
      } else {
        assert v == parent[t].edge;
        assert pre == PathTo(base, depth, parent, parent[prev].prev) + [parent[prev].edge];
      }
    }
  }

  /**
   * No walk from the base is shorter than the depth of where it ends: the
   * search gives every reachable table a depth, and that depth is the
   * length of a shortest walk (which `PathToWalk` exhibits).
   */
  lemma {:induction false} ShortestWalk(adj: map<string, seq<Edge>>, base: string, r: State, w: seq<Edge>, t: string)
    requires Searched(adj, base, r) && IsWalk(adj, w, base, t)
    ensures t in r.depth && r.depth[t] <= |w|
    decreases |w|
  {
    if |w| > 0 {
      var e := w[|w| - 1];
      var w' := w[..|w| - 1];
      assert IsWalk(adj, w', base, e.from) by {
        if |w'| > 0 {
          assert w'[|w'| - 1].to == e.from;
        }
      }
      ShortestWalk(adj, base, r, w', e.from);
      assert ClosedAt(adj, r.depth, e.from);
    }
  }

  /**
   * The path loop: follows the parent links from `tgt` up to the base,
   * collecting their edges, then reverses them.
   */
  method ReconstructPath(base: string, depth: map<string, nat>, parent: map<string, Parent>, tgt: string)
    returns (path: seq<Edge>)
    requires ParentChain(base, depth, parent) && tgt in depth
    ensures path == PathTo(base, depth, parent, tgt)
  {
    var rev: seq<Edge> := [];
    var t := tgt;
    while t != base
      invariant t in depth
      invariant PathTo(base, depth, parent, tgt) == PathTo(base, depth, parent, t) + Reverse(rev)
      decreases depth[t]
    {
      var p := parent[t];
      ReverseSnoc(rev, p.edge);
      assert PathTo(base, depth, parent, t) + Reverse(rev)
          == PathTo(base, depth, parent, p.prev) + Reverse(rev + [p.edge]);
      rev := rev + [p.edge];
      t := p.prev;
    }
    path := Reverse(rev);
  }

  // ---------------------------------------------------------------- visiting order

  /** Some edge of `n`'s list leads to `t`. */
  ghost predicate LeadsTo(adj: map<string, seq<Edge>>, n: string, t: string)
  {
    exists e :: e in Lookup(adj, n) && e.to == t
  }

  /** The edges' targets never step down in name order. */
  ghost predicate AscendingTo(nbrs: seq<Edge>)
  {
    forall i, j :: 0 <= i < j < |nbrs| ==> !StrLess(nbrs[j].to, nbrs[i].to)
  }

  /**
   * The neighbours of `cur`, sorted by `NeighbourKey`, come in ascending
   * order of the table they lead to, and lead to the same tables as the
   * adjacency list.
   */
  lemma SortedNeighbours(adj: map<string, seq<Edge>>, cur: string)
    ensures AscendingTo(SortBy(Lookup(adj, cur), NeighbourKey))
    ensures forall t :: t in EdgeHeads(SortBy(Lookup(adj, cur), NeighbourKey)) <==> LeadsTo(adj, cur, t)
  {
    var es := Lookup(adj, cur);
    var nbrs := SortBy(es, NeighbourKey);
    SortByFacts(es, NeighbourKey);
    forall i, j | 0 <= i < j < |nbrs| ensures !StrLess(nbrs[j].to, nbrs[i].to) {
      assert !KeyLess(NeighbourKey(nbrs[j]), NeighbourKey(nbrs[i]));
    }
    forall t ensures t in EdgeHeads(nbrs) <==> LeadsTo(adj, cur, t) {
      if t in EdgeHeads(nbrs) {
        var e :| e in nbrs && e.to == t;
        assert e in multiset(es);
      }
      if LeadsTo(adj, cur, t) {
        var e :| e in es && e.to == t;
        assert e in multiset(nbrs);
      }
    }
  }

  /**
   * Discovering neighbours in ascending order of their targets appends to
   * the queue, strictly ascending by name, exactly the targets that had no
   * depth yet.
   */
  lemma {:induction false} DiscoverQueue(cur: string, d: nat, nbrs: seq<Edge>, s: State)
    requires AscendingTo(nbrs)
    ensures var r := Discover(cur, d, nbrs, s);
      |s.queue| <= |r.queue| && r.queue[..|s.queue|] == s.queue
      && StrictlySorted(r.queue[|s.queue|..])
      && forall x :: x in r.queue[|s.queue|..] <==> x in EdgeHeads(nbrs) && x !in s.depth
    decreases |nbrs|
  {
    if |nbrs| > 0 {
      var e := nbrs[0];
      var s1 := Visit(cur, d, e, s);
      AscendingTail(nbrs);
      DiscoverQueue(cur, d, nbrs[1..], s1);
      HeadsCons(nbrs);
      if e.to !in s.depth {
        var r := Discover(cur, d, nbrs[1..], s1);
        forall y | y in r.queue[|s1.queue|..] ensures StrLess(e.to, y) {
          AscendingFirst(nbrs, y);
        }
        QueueCons(s.queue, e.to, r.queue);
      }
    }
  }

  lemma AscendingTail(nbrs: seq<Edge>)
    requires AscendingTo(nbrs) && |nbrs| > 0
    ensures AscendingTo(nbrs[1..])
  {
    forall i, j | 0 <= i < j < |nbrs[1..]| ensures !StrLess(nbrs[1..][j].to, nbrs[1..][i].to) {
      assert nbrs[1..][i] == nbrs[i + 1] && nbrs[1..][j] == nbrs[j + 1];
    }
  }

  lemma HeadsCons(nbrs: seq<Edge>)
    requires |nbrs| > 0
    ensures EdgeHeads(nbrs) == {nbrs[0].to} + EdgeHeads(nbrs[1..])
  {
    assert nbrs == [nbrs[0]] + nbrs[1..];
  }

  /** In ascending order, a later target other than the first lies above it. */
  lemma AscendingFirst(nbrs: seq<Edge>, y: string)
    requires AscendingTo(nbrs) && |nbrs| > 0
    requires y in EdgeHeads(nbrs[1..]) && y != nbrs[0].to
    ensures StrLess(nbrs[0].to, y)
  {
    var k :| 0 <= k < |nbrs[1..]| && nbrs[1..][k].to == y;
    assert nbrs[k + 1].to == y;
    StrOrder();
  }

  /** Appending `x` and then a sorted run above `x` appends a sorted run starting at `x`. */
  lemma QueueCons(q: seq<string>, x: string, rq: seq<string>)
    requires |q| + 1 <= |rq| && rq[..|q| + 1] == q + [x]
    requires StrictlySorted(rq[|q| + 1..])
    requires forall y :: y in rq[|q| + 1..] ==> StrLess(x, y)
    ensures rq[..|q|] == q && rq[|q|..] == [x] + rq[|q| + 1..]
    ensures StrictlySorted(rq[|q|..])
  {
    assert rq[..|q|] == rq[..|q| + 1][..|q|];
    assert rq[|q|..] == [rq[|q|]] + rq[|q| + 1..];
    var t := rq[|q|..];
    forall i, j | 0 <= i < j < |t| ensures StrLess(t[i], t[j]) {
      if i == 0 {
        assert t[j] == rq[|q| + 1..][j - 1];
      } else {
        assert t[i] == rq[|q| + 1..][i - 1] && t[j] == rq[|q| + 1..][j - 1];
      }
    }
  }

  /**
   * One turn of the outer loop leaves the rest of the queue in front and
   * appends, strictly ascending by name, exactly the tables the dequeued
   * table has an edge to that had no depth yet.
   */
  lemma StepQueue(adj: map<string, seq<Edge>>, s: State)
    requires |s.queue| > 0 && s.queue[0] in s.depth
    ensures var r := Step(adj, s); var n := |s.queue| - 1;
      n <= |r.queue| && r.queue[..n] == s.queue[1..]
      && StrictlySorted(r.queue[n..])
      && forall x :: x in r.queue[n..] <==> LeadsTo(adj, s.queue[0], x) && x !in s.depth
  {
    var cur := s.queue[0];
    var nbrs := SortBy(Lookup(adj, cur), NeighbourKey);
    var rest := s.(queue := s.queue[1..]);
    StepIs(adj, s, cur, s.depth[cur] + 1, nbrs, rest);
    SortedNeighbours(adj, cur);
    DiscoverQueue(cur, s.depth[cur] + 1, nbrs, rest);
  }

  /** The tables in the order the outer loop dequeues them. */
  ghost function Dequeued(adj: map<string, seq<Edge>>, s: State): seq<string>
    requires QueuedHaveDepth(s)
    decreases |Heads(adj) - s.depth.Keys|, |s.queue|
  {
    if |s.queue| == 0 then []
    else
      StepProgress(adj, s);
      [s.queue[0]] + Dequeued(adj, Step(adj, s))
  }

  /** The queue is first in, first out: its tables are the next ones dequeued, in queue order. */
  lemma {:induction false} DequeuedFifo(adj: map<string, seq<Edge>>, s: State)
    requires QueuedHaveDepth(s)
    ensures |s.queue| <= |Dequeued(adj, s)| && Dequeued(adj, s)[..|s.queue|] == s.queue
    decreases |Heads(adj) - s.depth.Keys|, |s.queue|
  {
    if |s.queue| > 0 {
      var s1 := Step(adj, s);
      StepProgress(adj, s);
      DequeuedStep(adj, s);
      StepQueue(adj, s);
      DequeuedFifo(adj, s1);
      FifoCons(s.queue, s1.queue, Dequeued(adj, s1));
    }
  }

  lemma DequeuedStep(adj: map<string, seq<Edge>>, s: State)
    requires |s.queue| > 0 && QueuedHaveDepth(s)
    ensures QueuedHaveDepth(Step(adj, s))
    ensures Dequeued(adj, s) == [s.queue[0]] + Dequeued(adj, Step(adj, s))
  {
    StepProgress(adj, s);
  }

  /** A queue whose tail starts the next queue, which starts the later order, starts the whole order. */
  lemma FifoCons(q: seq<string>, q1: seq<string>, later: seq<string>)
    requires |q| > 0 && |q| - 1 <= |q1| && q1[..|q| - 1] == q[1..]
    requires |q1| <= |later| && later[..|q1|] == q1
    ensures |q| <= |[q[0]] + later| && ([q[0]] + later)[..|q|] == q
  {
    assert later[..|q| - 1] == q1[..|q| - 1];
    assert ([q[0]] + later)[..|q|] == [q[0]] + later[..|q| - 1];
    assert q == [q[0]] + q[1..];
  }

  /** Every parent link points at a table that has a depth. */
  ghost predicate ParentsHaveDepth(s: State)
  {
    forall t :: t in s.parent ==> t in s.depth
  }

  /**
   * Discovery keeps the depths and parents already set, gives every table
   * it adds parent `cur` and depth `d`, and gives every target of `nbrs` a depth.
   */
  lemma {:induction false} DiscoverKeeps(cur: string, d: nat, nbrs: seq<Edge>, s: State)
    requires ParentsHaveDepth(s)
    ensures var r := Discover(cur, d, nbrs, s);
      ParentsHaveDepth(r)
      && (forall t :: t in s.depth ==> t in r.depth && r.depth[t] == s.depth[t])
      && (forall t :: t in s.parent ==> t in r.parent && r.parent[t] == s.parent[t])
      && (forall t :: t in r.depth && t !in s.depth ==> t in r.parent && r.parent[t].prev == cur && r.depth[t] == d)
      && (forall e :: e in nbrs ==> e.to in r.depth)
    decreases |nbrs|
  {
    if |nbrs| > 0 {
      DiscoverKeeps(cur, d, nbrs[1..], Visit(cur, d, nbrs[0], s));
      assert forall e :: e in nbrs ==> e == nbrs[0] || e in nbrs[1..];
    }
  }

  /**
   * One turn keeps the depths and parents already set, gives every table it
   * adds the dequeued table as parent, and gives every table the dequeued
   * table has an edge to a depth.
   */
  lemma StepKeeps(adj: map<string, seq<Edge>>, s: State)
    requires |s.queue| > 0 && s.queue[0] in s.depth && ParentsHaveDepth(s)
    ensures var r := Step(adj, s);
      ParentsHaveDepth(r)
      && (forall t :: t in s.depth ==> t in r.depth && r.depth[t] == s.depth[t])
      && (forall t :: t in s.parent ==> t in r.parent && r.parent[t] == s.parent[t])
      && (forall t :: t in r.depth && t !in s.depth ==> t in r.parent && r.parent[t].prev == s.queue[0])
      && (forall t :: LeadsTo(adj, s.queue[0], t) ==> t in r.depth)
  {
    var cur := s.queue[0];
    var nbrs := SortBy(Lookup(adj, cur), NeighbourKey);
    var rest := s.(queue := s.queue[1..]);
    StepIs(adj, s, cur, s.depth[cur] + 1, nbrs, rest);
    SortedNeighbours(adj, cur);
    DiscoverKeeps(cur, s.depth[cur] + 1, nbrs, rest);
  }

  /** The rest of the search keeps the depths and parents already set. */
  lemma {:induction false} ExploreKeeps(adj: map<string, seq<Edge>>, s: State)
    requires QueuedHaveDepth(s) && ParentsHaveDepth(s)
    ensures var r := Explore(adj, s);
      (forall t :: t in s.depth ==> t in r.depth && r.depth[t] == s.depth[t])
      && (forall t :: t in s.parent ==> t in r.parent && r.parent[t] == s.parent[t])
    decreases |Heads(adj) - s.depth.Keys|, |s.queue|
  {
    if |s.queue| > 0 {
      StepProgress(adj, s);
      StepKeeps(adj, s);
      ExploreKeeps(adj, Step(adj, s));
    }
  }

  /**
   * The parent of `t` in `r` is dequeued (in `order`) no later than any
   * dequeued table with an edge to `t`.
   */
  ghost predicate ParentFirst(adj: map<string, seq<Edge>>, r: State, order: seq<string>, t: string)
    requires t in r.parent
  {
    r.parent[t].prev in order
    && forall i :: 0 <= i < |order| && LeadsTo(adj, order[i], t) ==> r.parent[t].prev in order[..i + 1]
  }

  lemma ParentNow(adj: map<string, seq<Edge>>, r: State, cur: string, later: seq<string>, t: string)
    requires t in r.parent && r.parent[t].prev == cur
    ensures ParentFirst(adj, r, [cur] + later, t)
  {
    var order := [cur] + later;
    forall i | 0 <= i < |order| && LeadsTo(adj, order[i], t) ensures cur in order[..i + 1] {
      assert order[..i + 1][0] == cur;
    }
  }

  lemma ParentLater(adj: map<string, seq<Edge>>, r: State, cur: string, later: seq<string>, t: string)
    requires t in r.parent && ParentFirst(adj, r, later, t) && !LeadsTo(adj, cur, t)
    ensures ParentFirst(adj, r, [cur] + later, t)
  {
    var order := [cur] + later;
    forall i | 0 <= i < |order| && LeadsTo(adj, order[i], t) ensures r.parent[t].prev in order[..i + 1] {
      assert i != 0 && order[i] == later[i - 1];
      assert order[..i + 1] == [cur] + later[..i];
    }
  }

  /**
   * From any state, every table the rest of the search gives a parent has
   * as parent a table dequeued no later than any dequeued table with an
   * edge to it.
   */
  lemma {:induction false} FirstReacherFrom(adj: map<string, seq<Edge>>, s: State)
    requires QueuedHaveDepth(s) && ParentsHaveDepth(s)
    ensures forall t :: t in Explore(adj, s).parent && t !in s.depth ==> ParentFirst(adj, Explore(adj, s), Dequeued(adj, s), t)
    decreases |Heads(adj) - s.depth.Keys|, |s.queue|
  {
    if |s.queue| > 0 {
      var r := Explore(adj, s);
      StepProgress(adj, s);
      var s1 := Step(adj, s);
      var cur := s.queue[0];
      StepKeeps(adj, s);
      ExploreKeeps(adj, s1);
      FirstReacherFrom(adj, s1);
      var o1 := Dequeued(adj, s1);
      assert Dequeued(adj, s) == [cur] + o1;
      assert r == Explore(adj, s1);
      forall t | t in r.parent && t !in s.depth ensures ParentFirst(adj, r, [cur] + o1, t) {
        if t in s1.depth {
          ParentNow(adj, r, cur, o1, t);
        } else {
          ParentLater(adj, r, cur, o1, t);
        }
      }
    }
  }

  /**
   * The neighbour tie-break. In the search from `base`, each table's parent
   * is the earliest dequeued table with an edge to it (so, among the
   * tables one level up, the first in queue order); `StepQueue` and
   * `DequeuedFifo` fix that order: first in, first out, each turn
   * appending the newly found tables in ascending name order.
   */
  lemma FirstReacher(adj: map<string, seq<Edge>>, base: string)
    requires FromKeyed(adj)
    ensures var r := Explore(adj, Start(base)); var order := Dequeued(adj, Start(base));
      forall t, i ::
        (t in r.parent && 0 <= i < |order| && LeadsTo(adj, order[i], t)
         && forall j :: 0 <= j < i ==> !LeadsTo(adj, order[j], t))
        ==> r.parent[t].prev == order[i]
  {
    var s := Start(base);
    var r := Explore(adj, s);
    var order := Dequeued(adj, s);
    BfsSearched(adj, base);
    FirstReacherFrom(adj, s);
    forall t, i | t in r.parent && 0 <= i < |order| && LeadsTo(adj, order[i], t)
        && (forall j :: 0 <= j < i ==> !LeadsTo(adj, order[j], t))
      ensures r.parent[t].prev == order[i]
    {
      ParentLeads(adj, base, r, t);
      EarliestParent(adj, r, order, t, i);
    }
  }

  /** In a finished search, a table's parent has an edge to it. */
  lemma ParentLeads(adj: map<string, seq<Edge>>, base: string, r: State, t: string)
    requires Searched(adj, base, r) && t in r.parent
    ensures LeadsTo(adj, r.parent[t].prev, t)
  {
    var p := r.parent[t];
    assert ParentOk(adj, r, t);
    EdgesToMember(Lookup(adj, p.prev), t, p.edge);
  }

  lemma EarliestParent(adj: map<string, seq<Edge>>, r: State, order: seq<string>, t: string, i: nat)
    requires t in r.parent && ParentFirst(adj, r, order, t) && LeadsTo(adj, r.parent[t].prev, t)
    requires i < |order| && LeadsTo(adj, order[i], t)
    requires forall j :: 0 <= j < i ==> !LeadsTo(adj, order[j], t)
    ensures r.parent[t].prev == order[i]
  {
    var p := r.parent[t].prev;
    assert p in order[..i + 1];
    var j :| 0 <= j < |order[..i + 1]| && order[..i + 1][j] == p;
    assert order[j] == p;
  }

  /**
   * The diamond: `base` has edges to exactly `b` and `c`, with `b` before
   * `c` by name, and `b` has an edge to `d` (whatever edges `c` has, `c`
   * to `d` included). Then `b` and `c` hang off the base, `d` hangs off
   * `b`, and the path to `d` is the first edge from the base to `b`, then
   * the first edge from `b` to `d`.
   */
  lemma DiamondPath(adj: map<string, seq<Edge>>, base: string, b: string, c: string, d: string)
    requires FromKeyed(adj)
    requires base != b && base != c && base != d && b != c && b != d && c != d
    requires StrLess(b, c)
    requires forall x :: LeadsTo(adj, base, x) <==> x == b || x == c
    requires LeadsTo(adj, b, d)
    ensures var r := Explore(adj, Start(base));
      b in r.parent && c in r.parent && d in r.parent
      && r.parent[b].prev == base && r.parent[c].prev == base && r.parent[d].prev == b
      && ParentChain(base, r.depth, r.parent) && d in r.depth
      && |EdgesTo(Lookup(adj, base), b)| > 0 && |EdgesTo(Lookup(adj, b), d)| > 0
      && PathTo(base, r.depth, r.parent, d) == [EdgesTo(Lookup(adj, base), b)[0], EdgesTo(Lookup(adj, b), d)[0]]
      && PathTo(base, r.depth, r.parent, d)[0].from == base && PathTo(base, r.depth, r.parent, d)[0].to == b
      && PathTo(base, r.depth, r.parent, d)[1].from == b && PathTo(base, r.depth, r.parent, d)[1].to == d
  {
    var r := Explore(adj, Start(base));
    DiamondParents(adj, base, b, c, d);
    BfsSearched(adj, base);
    SearchedChain(adj, base, r);
    assert ParentOk(adj, r, b) && ParentOk(adj, r, d);
    TwoHops(base, r.depth, r.parent, b, d);
  }

  lemma DiamondParents(adj: map<string, seq<Edge>>, base: string, b: string, c: string, d: string)
    requires FromKeyed(adj)
    requires base != b && base != c && base != d && b != c && b != d && c != d
    requires StrLess(b, c)
    requires forall x :: LeadsTo(adj, base, x) <==> x == b || x == c
    requires LeadsTo(adj, b, d)
    ensures var r := Explore(adj, Start(base));
      b in r.parent && c in r.parent && d in r.parent
      && r.parent[b].prev == base && r.parent[c].prev == base && r.parent[d].prev == b
  {
    var r := Explore(adj, Start(base));
    var order := Dequeued(adj, Start(base));
    DiamondOrder(adj, base, b, c);
    assert order[0] == order[..3][0] && order[1] == order[..3][1];
    assert LeadsTo(adj, base, b) && LeadsTo(adj, base, c) && !LeadsTo(adj, base, d);
    DiamondReached(adj, base, b, c, d);
    ParentIs(adj, base, b, 0);
    ParentIs(adj, base, c, 0);
    assert !LeadsTo(adj, base, d);
    ParentIs(adj, base, d, 1);
  }

  /** `FirstReacher` for one table and one position in the dequeue order. */
  lemma ParentIs(adj: map<string, seq<Edge>>, base: string, t: string, i: nat)
    requires FromKeyed(adj) && t in Explore(adj, Start(base)).parent
    requires i < |Dequeued(adj, Start(base))| && LeadsTo(adj, Dequeued(adj, Start(base))[i], t)
    requires forall j :: 0 <= j < i ==> !LeadsTo(adj, Dequeued(adj, Start(base))[j], t)
    ensures Explore(adj, Start(base)).parent[t].prev == Dequeued(adj, Start(base))[i]
  {
    FirstReacher(adj, base);
  }

  /** The first turn from the base queues its neighbours `b` and `c`, in name order. */
  lemma FirstTurn(adj: map<string, seq<Edge>>, base: string, b: string, c: string)
    requires base != b && base != c && StrLess(b, c)
    requires forall x :: LeadsTo(adj, base, x) <==> x == b || x == c
    ensures Step(adj, Start(base)).queue == [b, c]
  {
    var s0 := Start(base);
    var s1 := Step(adj, s0);
    StepQueue(adj, s0);
    assert s0.queue[1..] == [] && s1.queue[0..] == s1.queue;
    assert forall x :: x in s1.queue <==> x in [b, c];
    StrictlySortedUnique(s1.queue, [b, c]);
  }

  /** With the base's neighbours exactly `b` before `c` by name, the search dequeues the base, then `b`, then `c`. */
  lemma DiamondOrder(adj: map<string, seq<Edge>>, base: string, b: string, c: string)
    requires base != b && base != c && StrLess(b, c)
    requires forall x :: LeadsTo(adj, base, x) <==> x == b || x == c
    ensures |Dequeued(adj, Start(base))| >= 3 && Dequeued(adj, Start(base))[..3] == [base, b, c]
  {
    var s1 := Step(adj, Start(base));
    FirstTurn(adj, base, b, c);
    DequeuedStep(adj, Start(base));
    DequeuedFifo(adj, s1);
    var later := Dequeued(adj, s1);
    assert later[..2] == [b, c];
    assert ([base] + later)[..3] == [base] + later[..2];
  }

  lemma DiamondReached(adj: map<string, seq<Edge>>, base: string, b: string, c: string, d: string)
    requires FromKeyed(adj)
    requires base != b && base != c && base != d
    requires LeadsTo(adj, base, b) && LeadsTo(adj, base, c) && LeadsTo(adj, b, d)
    ensures var r := Explore(adj, Start(base)); b in r.parent && c in r.parent && d in r.parent
  {
    var r := Explore(adj, Start(base));
    BfsSearched(adj, base);
    assert ClosedAt(adj, r.depth, base);
    var eb :| eb in Lookup(adj, base) && eb.to == b;
    var ec :| ec in Lookup(adj, base) && ec.to == c;
    assert ClosedAt(adj, r.depth, b);
    var ed :| ed in Lookup(adj, b) && ed.to == d;
  }

  /** A table two parent links below the base has the two parent edges as its path. */
  lemma TwoHops(base: string, depth: map<string, nat>, parent: map<string, Parent>, b: string, d: string)
    requires ParentChain(base, depth, parent) && d in depth && d != base && b != base
    requires parent[d].prev == b && parent[b].prev == base
    ensures PathTo(base, depth, parent, d) == [parent[b].edge, parent[d].edge]
  {
    assert PathTo(base, depth, parent, base) == [];
    assert PathTo(base, depth, parent, b) == [parent[b].edge];
  }
}
