/**
 * The join planner as a whole: from the schema graph, the base table and the
 * selected ids to the plan (join steps, aliases, select list and warnings),
 * and what the plan promises about them.
 */
module JoinPlan {
  import opened Text
  import opened Schema
  import opened Search
  import opened Planner

  /** The adjacency built from the graph's tables, in the order the record enumerates them. */
  function GraphAdjacency(g: SchemaGraph): (adj: map<string, seq<Edge>>)
    ensures FromKeyed(adj)
    ensures forall n :: Lookup(adj, n) == AllEdges(Values(g), n)
  {
    AdjacencyFromKeyed(Values(g));
    Adjacency(Values(g))
  }

  /** The finished search from `base` over the graph's adjacency. */
  function Reach(g: SchemaGraph, base: string): (r: State)
    ensures Searched(GraphAdjacency(g), base, r)
    ensures ParentChain(base, r.depth, r.parent)
  {
    var adj := GraphAdjacency(g);
    BfsSearched(adj, base);
    SearchedChain(adj, base, Explore(adj, Start(base)));
    Explore(adj, Start(base))
  }

  /** The union of the paths to the reached targets. */
  function PathMap(g: SchemaGraph, base: string, sels: seq<string>): (m: EdgeMap)
    ensures MapOk(m)
  {
    var r := Reach(g, base);
    UnionCovers(base, r.depth, r.parent, Targets(base, sels));
    Union(base, r.depth, r.parent, Targets(base, sels))
  }

  /** The edges of the union in connectivity order from the base. */
  function Ordered(g: SchemaGraph, base: string, sels: seq<string>): seq<Edge>
  {
    var m := PathMap(g, base, sels);
    EdgesAt(m.edges, Order(m.edges, m.keys, {base}))
  }

  /** `ordered.map(...)`: each edge as a join step. */
  function Steps(es: seq<Edge>): (steps: seq<JoinStep>)
    ensures |steps| == |es|
    ensures forall i :: 0 <= i < |es| ==> steps[i] == JoinStep(es[i].from, es[i].to, es[i].via)
  {
    seq(|es|, i requires 0 <= i < |es| => JoinStep(es[i].from, es[i].to, es[i].via))
  }

  /** The plan for a present graph, a non-empty base and some selected ids. */
  function PlanFrom(g: SchemaGraph, base: string, sels: seq<string>): Plan
  {
    var ordered := Ordered(g, base, sels);
    Plan(base, Steps(ordered), Aliases(base, ordered), ExpandSelections(sels),
      Warnings(base, Targets(base, sels), Reach(g, base).depth))
  }

  /** `plan`: no plan without a graph, without a (non-empty) base, or without selections. */
  function PlanOf(graph: Option<SchemaGraph>, base: Option<string>, sels: seq<string>): Option<Plan>
  {
    if graph.None? || base.None? || base.value == "" || |sels| == 0 then None
    else Some(PlanFrom(graph.value, base.value, sels))
  }

  /** The planner, step by step: adjacency, search, union, ordering, aliases, select list, warnings. */
  method MakePlan(graph: Option<SchemaGraph>, base: Option<string>, sels: seq<string>) returns (plan: Option<Plan>)
    ensures plan == PlanOf(graph, base, sels)
  {
    if graph.None? || base.None? || base.value == "" || |sels| == 0 {
      return None;
    }
    var g, b := graph.value, base.value;
    var adj := BuildAdjacency(Values(g));
    var targets := Targets(b, sels);
    var depth, parent := Bfs(adj, b);
    ExploreSame(adj, GraphAdjacency(g), Start(b));
    assert State([], depth, parent) == Reach(g, b);
    var m := UnionPaths(b, depth, parent, targets);
    assert m == PathMap(g, b, sels);
    var ordered := OrderEdges(m, b);
    var alias := AssignAliases(b, ordered);
    var select := ExpandSelectionIds(sels);
    var warnings := WarnUnreached(b, targets, depth);
    plan := Some(Plan(b, Steps(ordered), alias, select, warnings));
  }

  // ---------------------------------------------------------------- what the plan promises

  /** Some walk along the foreign keys leads from `a` to `t`. */
  ghost predicate Reachable(adj: map<string, seq<Edge>>, a: string, t: string)
  {
    exists w :: IsWalk(adj, w, a, t)
  }

  /** The search reaches exactly the tables some foreign-key walk from the base leads to. */
  lemma ReachedIff(g: SchemaGraph, base: string, t: string)
    ensures t in Reach(g, base).depth <==> Reachable(GraphAdjacency(g), base, t)
  {
    var adj, r := GraphAdjacency(g), Reach(g, base);
    if t in r.depth {
      PathToWalk(adj, base, r, t);
    }
    if Reachable(adj, base, t) {
      var w :| IsWalk(adj, w, base, t);
      ShortestWalk(adj, base, r, w, t);
    }
  }

  /**
   * One warning per selected table other than the base that no foreign-key
   * walk reaches, and no other warnings.
   */
  lemma PlanWarnings(g: SchemaGraph, base: string, sels: seq<string>)
    ensures NoDup(PlanFrom(g, base, sels).warnings)
    ensures forall w :: w in PlanFrom(g, base, sels).warnings ==> exists t :: w == NoPathWarning(base, t)
    ensures forall t :: NoPathWarning(base, t) in PlanFrom(g, base, sels).warnings <==>
      t in Targets(base, sels) && !Reachable(GraphAdjacency(g), base, t)
  {
    var ts, r := Targets(base, sels), Reach(g, base);
    WarningsExact(base, ts, r.depth);
    forall t
      ensures NoPathWarning(base, t) in PlanFrom(g, base, sels).warnings <==>
        t in ts && !Reachable(GraphAdjacency(g), base, t)
    {
      ReachedIff(g, base, t);
      if NoPathWarning(base, t) in PlanFrom(g, base, sels).warnings {
        var u :| u in ts && u !in r.depth && NoPathWarning(base, t) == NoPathWarning(base, u);
        NoPathWarningInjective(base, t, u);
      }
    }
  }

  /** Every edge of the union is the parent edge of the table it leads to, taken from the adjacency. */
  lemma {:induction false} UnionEdgesTree(g: SchemaGraph, base: string, sels: seq<string>, k: string)
    requires k in PathMap(g, base, sels).edges
    ensures var e := PathMap(g, base, sels).edges[k];
      e.to in Reach(g, base).parent && Reach(g, base).parent[e.to].edge == e
      && e in Lookup(GraphAdjacency(g), e.from) && EdgeKey(e) == k
  {
    var adj, r, ts := GraphAdjacency(g), Reach(g, base), Targets(base, sels);
    var e := PathMap(g, base, sels).edges[k];
    UnionCovers(base, r.depth, r.parent, ts);
    var t :| t in ts && t in r.depth && e in PathTo(base, r.depth, r.parent, t);
    PathToWalk(adj, base, r, t);
    SearchedChain(adj, base, r);
  }

  /**
   * The join steps: each step is the parent edge of the table it joins (a
   * foreign key walked forwards or backwards), each touches the base or a
   * table an earlier step joined, and no two steps share an edge key.
   */
  lemma PlanSteps(g: SchemaGraph, base: string, sels: seq<string>)
    ensures var es := Ordered(g, base, sels);
      Chained({base}, es)
      && (forall i :: 0 <= i < |es| ==>
            es[i].to in Reach(g, base).parent && Reach(g, base).parent[es[i].to].edge == es[i]
            && es[i] in Lookup(GraphAdjacency(g), es[i].from))
      && (forall i, j :: 0 <= i < j < |es| ==> EdgeKey(es[i]) != EdgeKey(es[j]))
  {
    var m := PathMap(g, base, sels);
    var ks := Order(m.edges, m.keys, {base});
    var es := Ordered(g, base, sels);
    OrderChained(m.edges, m.keys, {base});
    OrderKeys(m.edges, m.keys, {base});
    forall i | 0 <= i < |es|
      ensures es[i].to in Reach(g, base).parent && Reach(g, base).parent[es[i].to].edge == es[i]
      ensures es[i] in Lookup(GraphAdjacency(g), es[i].from) && EdgeKey(es[i]) == ks[i]
    {
      UnionEdgesTree(g, base, sels, ks[i]);
    }
  }

  /** No table name contains `>` or `|`, so an edge key names the two ends of its edge unambiguously. */
  ghost predicate PlainNames(g: SchemaGraph)
  {
    forall n :: n in Nodes(Values(g)) ==> '>' !in n && '|' !in n
  }

  lemma PlainParents(g: SchemaGraph, base: string)
    requires PlainNames(g)
    ensures forall t :: t in Reach(g, base).parent ==> PlainEnds(Reach(g, base).parent[t].edge)
  {
    SearchedChain(GraphAdjacency(g), base, Reach(g, base));
    AllEdgesNodes(Values(g));
  }

  /** An edge of the union goes one level down, from the base or from the end of another of its edges. */
  lemma UnionHangsAt(g: SchemaGraph, base: string, sels: seq<string>, k: string)
    requires PlainNames(g) && k in PathMap(g, base, sels).edges
    ensures var m, depth := PathMap(g, base, sels).edges, Reach(g, base).depth;
      m[k].from in depth && m[k].to in depth && depth[m[k].to] == depth[m[k].from] + 1
      && (m[k].from == base || exists k' :: k' in m && m[k'].to == m[k].from)
  {
    var adj, r, ts := GraphAdjacency(g), Reach(g, base), Targets(base, sels);
    var m := PathMap(g, base, sels).edges;
    var e := m[k];
    UnionCovers(base, r.depth, r.parent, ts);
    var t :| t in ts && t in r.depth && e in PathTo(base, r.depth, r.parent, t);
    PathToWalk(adj, base, r, t);
    assert ParentOk(adj, r, e.to);
    if e.from != base {
      PlainParents(g, base);
      PathPrefix(base, r.depth, r.parent, t, e);
      var v := r.parent[e.from].edge;
      assert v in PathEdges(base, r.depth, r.parent, ts);
      UnionHoldsPaths(adj, base, r, ts, v);
      assert m[EdgeKey(v)].to == e.from;
    }
  }

  lemma UnionHangs(g: SchemaGraph, base: string, sels: seq<string>)
    requires PlainNames(g)
    ensures Hanging(PathMap(g, base, sels).edges, Reach(g, base).depth, base)
  {
    forall k | k in PathMap(g, base, sels).edges {
      UnionHangsAt(g, base, sels, k);
    }
  }

  /**
   * With plain table names, every edge of the path to every reached target
   * becomes a join step: the ordering loop never stops with edges pending.
   */
  lemma PathsOrdered(g: SchemaGraph, base: string, sels: seq<string>)
    requires PlainNames(g)
    ensures forall t, e ::
      (t in Targets(base, sels) && t in Reach(g, base).depth
       && e in PathTo(base, Reach(g, base).depth, Reach(g, base).parent, t)) ==> e in Ordered(g, base, sels)
  {
    var adj, r, ts := GraphAdjacency(g), Reach(g, base), Targets(base, sels);
    var m := PathMap(g, base, sels);
    var ks := Order(m.edges, m.keys, {base});
    PlainParents(g, base);
    UnionHangs(g, base, sels);
    OrderComplete(m.edges, r.depth, base, m.keys, {base});
    forall t, e | t in ts && t in r.depth && e in PathTo(base, r.depth, r.parent, t)
      ensures e in Ordered(g, base, sels)
    {
      assert e in PathEdges(base, r.depth, r.parent, ts);
      UnionHoldsPaths(adj, base, r, ts, e);
      var i :| 0 <= i < |ks| && ks[i] == EdgeKey(e);
      assert Ordered(g, base, sels)[i] == e;
    }
  }

  /** With plain table names, every selected table that a foreign-key walk reaches gets an alias. */
  lemma ReachedAliased(g: SchemaGraph, base: string, sels: seq<string>)
    requires PlainNames(g)
    ensures forall t :: t in Targets(base, sels) && Reachable(GraphAdjacency(g), base, t) ==>
      t in PlanFrom(g, base, sels).tableAlias
  {
    var r, es := Reach(g, base), Ordered(g, base, sels);
    PathsOrdered(g, base, sels);
    AliasesFacts(base, es);
    forall t | t in Targets(base, sels) && Reachable(GraphAdjacency(g), base, t)
      ensures t in PlanFrom(g, base, sels).tableAlias
    {
      ReachedIff(g, base, t);
      var path := PathTo(base, r.depth, r.parent, t);
      assert path == PathTo(base, r.depth, r.parent, r.parent[t].prev) + [r.parent[t].edge];
      assert path[|path| - 1] in es;
    }
  }

  /** Selecting only columns of the base (or ids without a table part) needs no join and warns of nothing. */
  lemma OnlyBase(g: SchemaGraph, base: string, sels: seq<string>)
    requires forall id :: id in sels ==> TablePart(id) == "" || TablePart(id) == base
    ensures PlanFrom(g, base, sels).steps == []
    ensures PlanFrom(g, base, sels).warnings == []
    ensures PlanFrom(g, base, sels).tableAlias == map[base := "t0"]
  {
    var ts := Targets(base, sels);
    forall t
      ensures t !in ts
    {
      TargetsFromIds(base, sels, t);
    }
    NoMembers(ts);
    var r := Reach(g, base);
    assert PathMap(g, base, sels) == EdgeMap([], map[]);
    assert Ordered(g, base, sels) == [];
    assert EndList([]) == [];
    assert [base] + [] == [base];
    AliasStart(base);
  }

  /** The targets the search reached, in target order. */
  function ReachedTargets(ts: seq<string>, depth: map<string, nat>): (rs: seq<string>)
    ensures forall t :: t in rs <==> t in ts && t in depth
  {
    if |ts| == 0 then []
    else
      var init := ts[..|ts| - 1];
      var t := ts[|ts| - 1];
      assert forall x :: x in ts <==> x in init || x == t;
      ReachedTargets(init, depth) + (if t in depth then [t] else [])
  }

  /** Under plain names, two edges with one key lead to the same table. */
  lemma KeyTo(e1: Edge, e2: Edge)
    requires PlainEnds(e1) && PlainEnds(e2)
    ensures EdgeKey(e1) == EdgeKey(e2) ==> e1.to == e2.to
  {
    if EdgeKey(e1) == EdgeKey(e2) {
      KeyEnds(e1, e2);
    }
  }

  /** A table one level below the base is reached by its parent edge alone. */
  lemma DirectPath(base: string, depth: map<string, nat>, parent: map<string, Parent>, t: string)
    requires ParentChain(base, depth, parent) && t in depth && t != base && depth[t] == 1
    ensures parent[t].prev == base && parent[t].edge.from == base
    ensures PathTo(base, depth, parent, t) == [parent[t].edge]
  {
    var prev := parent[t].prev;
    assert prev == base;
    assert PathTo(base, depth, parent, t) == PathTo(base, depth, parent, prev) + [parent[t].edge];
  }

  /** The map holds the parent edges of `rs` under their keys, in that order, and nothing else. */
  ghost predicate ParentKeys(m: EdgeMap, rs: seq<string>, parent: map<string, Parent>)
  {
    |m.keys| == |rs|
    && (forall k :: k in m.edges ==> k in m.keys)
    && forall i :: 0 <= i < |rs| ==>
      rs[i] in parent && m.keys[i] == EdgeKey(parent[rs[i]].edge)
      && m.keys[i] in m.edges && m.edges[m.keys[i]] == parent[rs[i]].edge
  }

  lemma ParentKeysSnoc(m: EdgeMap, rs: seq<string>, parent: map<string, Parent>, t: string)
    requires ParentKeys(m, rs, parent) && t in parent && EdgeKey(parent[t].edge) !in m.edges
    ensures ParentKeys(SetEdge(m, parent[t].edge), rs + [t], parent)
  {
    var e := parent[t].edge;
    var m' := SetEdge(m, e);
    assert m' == EdgeMap(m.keys + [EdgeKey(e)], m.edges[EdgeKey(e) := e]);
    forall i | 0 <= i < |rs| + 1
      ensures (rs + [t])[i] in parent && m'.keys[i] == EdgeKey(parent[(rs + [t])[i]].edge)
        && m'.keys[i] in m'.edges && m'.edges[m'.keys[i]] == parent[(rs + [t])[i]].edge
    {
      if i < |rs| {
        assert (rs + [t])[i] == rs[i] && m'.keys[i] == m.keys[i];
      }
    }
  }

  /**
   * When every reached target is one level below the base, the union holds
   * their parent edges under their keys, in target order.
   */
  lemma {:induction false} UnionDirect(base: string, depth: map<string, nat>, parent: map<string, Parent>,
                                       ts: seq<string>)
    requires ParentChain(base, depth, parent) && NoDup(ts)
    requires forall t :: t in ts && t in depth ==> t != base && depth[t] == 1 && PlainEnds(parent[t].edge)
    ensures ParentKeys(Union(base, depth, parent, ts), ReachedTargets(ts, depth), parent)
  {
    if |ts| > 0 {
      var init := ts[..|ts| - 1];
      var t := ts[|ts| - 1];
      assert forall x :: x in ts <==> x in init || x == t;
      assert NoDup(init) by {
        assert forall i :: 0 <= i < |init| ==> init[i] == ts[i];
      }
      var m := Union(base, depth, parent, init);
      var rs := ReachedTargets(init, depth);
      assert t in depth ==> Union(base, depth, parent, ts) == SetAll(m, PathTo(base, depth, parent, t));
      assert t !in depth ==> Union(base, depth, parent, ts) == m;
      UnionDirect(base, depth, parent, init);
      if t in depth {
        var e := parent[t].edge;
        DirectPath(base, depth, parent, t);
        assert t !in init;
        forall i | 0 <= i < |rs|
          ensures m.keys[i] != EdgeKey(e)
        {
          var u := rs[i];
          assert u in init && u in depth && u != t;
          assert parent[u].edge.to == u;
          KeyTo(parent[u].edge, e);
        }
        assert EdgeKey(e) !in m.keys;
        assert SetAll(m, [e]) == SetEdge(m, e) by {
          assert [e][..0] == [];
        }
        ParentKeysSnoc(m, rs, parent, t);
        assert Union(base, depth, parent, ts) == SetEdge(m, e);
        assert ReachedTargets(ts, depth) == rs + [t];
      } else {
        assert Union(base, depth, parent, ts) == m;
        assert ReachedTargets(ts, depth) == rs;
      }
    } else {
      assert Union(base, depth, parent, ts) == EdgeMap([], map[]);
      assert ReachedTargets(ts, depth) == [];
    }
  }

  /** When every reached target is a neighbour of the base, the union holds one edge from the base to each. */
  lemma DirectUnion(g: SchemaGraph, base: string, sels: seq<string>)
    requires PlainNames(g)
    requires forall t :: t in Targets(base, sels) && t in Reach(g, base).depth ==> Reach(g, base).depth[t] == 1
    ensures var m, rs := PathMap(g, base, sels), ReachedTargets(Targets(base, sels), Reach(g, base).depth);
      |m.keys| == |rs|
      && forall i :: 0 <= i < |rs| ==>
        m.keys[i] in m.edges && m.edges[m.keys[i]].from == base && m.edges[m.keys[i]].to == rs[i]
  {
    var r, ts := Reach(g, base), Targets(base, sels);
    var rs := ReachedTargets(ts, r.depth);
    var m := PathMap(g, base, sels);
    assert m == Union(base, r.depth, r.parent, ts);
    PlainParents(g, base);
    assert forall t :: t in ts && t in r.depth ==> t != base && r.depth[t] == 1 && PlainEnds(r.parent[t].edge);
    UnionDirect(base, r.depth, r.parent, ts);
    assert ParentKeys(m, rs, r.parent);
    forall i | 0 <= i < |rs|
      ensures m.edges[m.keys[i]].from == base && m.edges[m.keys[i]].to == rs[i]
    {
      DirectPath(base, r.depth, r.parent, rs[i]);
    }
  }

  /**
   * When every reached target is a neighbour of the base, the join steps go
   * from the base to each of them, in the order they are first mentioned.
   */
  lemma DirectTargets(g: SchemaGraph, base: string, sels: seq<string>)
    requires PlainNames(g)
    requires forall t :: t in Targets(base, sels) && t in Reach(g, base).depth ==> Reach(g, base).depth[t] == 1
    ensures var es, rs := Ordered(g, base, sels), ReachedTargets(Targets(base, sels), Reach(g, base).depth);
      |es| == |rs| && forall i :: 0 <= i < |rs| ==> es[i].from == base && es[i].to == rs[i]
  {
    var m := PathMap(g, base, sels);
    DirectUnion(g, base, sels);
    forall k | k in m.keys
      ensures k in m.edges && Touches(m.edges[k], {base})
    {
      var i :| 0 <= i < |m.keys| && m.keys[i] == k;
    }
    OrderAllTouching(m.edges, m.keys, {base});
    assert Ordered(g, base, sels) == EdgesAt(m.edges, m.keys);
  }

  // ---------------------------------------------------------------- steps and aliases

  /** Every step leads to a table other than the base, a different one each time. */
  lemma OrderedNewTables(g: SchemaGraph, base: string, sels: seq<string>)
    ensures var es := Ordered(g, base, sels);
      (forall i :: 0 <= i < |es| ==> es[i].to != base)
      && (forall i, j :: 0 <= i < j < |es| ==> es[i].to != es[j].to)
  {
    var r := Reach(g, base);
    PlanSteps(g, base, sels);
    assert base !in r.parent;
  }

  /** Every step joins a table other than the base, a different one each time. */
  lemma StepsJoinNewTables(g: SchemaGraph, base: string, sels: seq<string>)
    ensures var steps := PlanFrom(g, base, sels).steps;
      (forall i :: 0 <= i < |steps| ==> steps[i].to != base)
      && (forall i, j :: 0 <= i < j < |steps| ==> steps[i].to != steps[j].to)
  {
    OrderedNewTables(g, base, sels);
    StepsFromEdges(base, Ordered(g, base, sels), PlanFrom(g, base, sels).steps);
  }

  lemma StepsFromEdges(base: string, es: seq<Edge>, steps: seq<JoinStep>)
    requires steps == Steps(es)
    requires forall i :: 0 <= i < |es| ==> es[i].to != base
    requires forall i, j :: 0 <= i < j < |es| ==> es[i].to != es[j].to
    ensures forall i :: 0 <= i < |steps| ==> steps[i].to != base
    ensures forall i, j :: 0 <= i < j < |steps| ==> steps[i].to != steps[j].to
  {
  }

  /** Both ends of every step are tables the search reached. */
  lemma StepEndsReached(g: SchemaGraph, base: string, sels: seq<string>)
    ensures var es := Ordered(g, base, sels);
      forall i :: 0 <= i < |es| ==> es[i].from in Reach(g, base).depth && es[i].to in Reach(g, base).depth
  {
    var es := Ordered(g, base, sels);
    var r := Reach(g, base);
    PlanSteps(g, base, sels);
    forall i | 0 <= i < |es|
      ensures es[i].from in r.depth && es[i].to in r.depth
    {
      assert es[i].to in r.depth && es[i].to != base;
    }
  }

  /**
   * Over steps that each lead to a new table other than the base, the base
   * is aliased `t0` and each step's table gets an alias of its own.
   */
  lemma StepAliases(base: string, es: seq<Edge>, steps: seq<JoinStep>, a: map<string, string>)
    requires steps == Steps(es) && a == Aliases(base, es)
    requires forall i :: 0 <= i < |es| ==> es[i].to != base
    requires forall i, j :: 0 <= i < j < |es| ==> es[i].to != es[j].to
    ensures base in a && a[base] == "t0"
    ensures forall i :: 0 <= i < |steps| ==>
      steps[i].from in a && steps[i].to in a && a[steps[i].to] != "t0"
    ensures forall i, j :: 0 <= i < j < |steps| ==> a[steps[i].to] != a[steps[j].to]
  {
    AliasesFacts(base, es);
    forall i | 0 <= i < |es|
      ensures es[i].from in a && es[i].to in a
    {
      assert es[i] in es;
    }
  }

  /** A table that is no end of any step, and not the base, has no alias. */
  lemma NoEndNoAlias(base: string, es: seq<Edge>, t: string)
    requires t != base && forall i :: 0 <= i < |es| ==> es[i].from != t && es[i].to != t
    ensures t !in Aliases(base, es)
  {
    AliasesFacts(base, es);
  }

  /** A table the search did not reach has no alias. */
  lemma UnreachedUnaliased(g: SchemaGraph, base: string, sels: seq<string>, t: string)
    requires t !in Reach(g, base).depth
    ensures t !in PlanFrom(g, base, sels).tableAlias
  {
    var depth := Reach(g, base).depth;
    var es := Ordered(g, base, sels);
    StepEndsReached(g, base, sels);
    assert base in depth;
    NoEndNoAlias(base, es, t);
  }
}
