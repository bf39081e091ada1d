/**
 * The second half of the join planner: the tables the selections touch,
 * the union of the parent-link paths to them keyed by edge, the edge
 * order by connectivity from the base, the aliases, the warnings and the
 * expansion of the selections.
 */
module Planner {
  import opened Text
  import opened Schema
  import opened Search

  // ---------------------------------------------------------------- targets

  /** The table part of every id, in order. */
  function TableParts(ids: seq<string>): (r: seq<string>)
    ensures |r| == |ids|
    ensures forall i :: 0 <= i < |ids| ==> r[i] == TablePart(ids[i])
  {
    seq(|ids|, i requires 0 <= i < |ids| => TablePart(ids[i]))
  }

  /**
   * The target tables: the distinct non-empty table parts of the selected
   * ids other than the base, in order of first mention.
   */
  function Targets(base: string, sels: seq<string>): (r: seq<string>)
    ensures NoDup(r)
    ensures forall t :: t in r <==> t != "" && t != base && t in TableParts(sels)
  {
    Distinct(Filter(TableParts(sels), t => t != "" && t != base))
  }

  /** Some selected id names table `t`. */
  lemma TargetsFromIds(base: string, sels: seq<string>, t: string)
    ensures t in Targets(base, sels) <==> t != "" && t != base && exists id :: id in sels && TablePart(id) == t
  {
    var parts := TableParts(sels);
    if t in parts {
      var i :| 0 <= i < |parts| && parts[i] == t;
      assert sels[i] in sels;
    }
    if exists id :: id in sels && TablePart(id) == t {
      var id :| id in sels && TablePart(id) == t;
      var i :| 0 <= i < |sels| && sels[i] == id;
      assert parts[i] == t;
    }
  }

  // ---------------------------------------------------------------- edge keys

  /** The column part of an edge key: `fromCols` and `toCols`, comma-joined, around `=>`. */
  function ColsKey(fk: ForeignKey): string
  {
    Join(fk.fromCols, ",") + "=>" + Join(fk.toCols, ",")
  }

  /** The key under which a path edge is stored: `from->to|fromCols=>toCols`. */
  function EdgeKey(e: Edge): string
  {
    e.from + "->" + e.to + "|" + ColsKey(e.via)
  }

  /** Table names that cannot run into the separators of an edge key. */
  predicate PlainEnds(e: Edge)
  {
    '>' !in e.from && '|' !in e.to
  }

  /** `c` first occurs in `a + [c] + x` right after `a` when `a` lacks it. */
  lemma {:induction false} FirstAfter(a: string, x: string, c: char)
    requires c !in a
    ensures c in a + [c] + x && IndexOf(a + [c] + x, c) == |a|
  {
    var s := a + [c] + x;
    assert s[|a|] == c;
    if |a| > 0 {
      assert s[1..] == a[1..] + [c] + x;
      FirstAfter(a[1..], x, c);
    }
  }

  /** Two strings cut at the first occurrence of `c` have the same head. */
  lemma CutAt(a: string, x: string, b: string, y: string, c: char)
    requires a + [c] + x == b + [c] + y && c !in a && c !in b
    ensures a == b
  {
    var s := a + [c] + x;
    FirstAfter(a, x, c);
    FirstAfter(b, y, c);
    assert a == s[..|a|];
    assert b == (b + [c] + y)[..|b|];
  }

  /** The key of an edge between plainly named tables determines its ends. */
  lemma KeyEnds(e1: Edge, e2: Edge)
    requires PlainEnds(e1) && PlainEnds(e2) && EdgeKey(e1) == EdgeKey(e2)
    ensures e1.from == e2.from && e1.to == e2.to
  {
    assert EdgeKey(e1) == (e1.from + "-") + ['>'] + (e1.to + ['|'] + ColsKey(e1.via));
    assert EdgeKey(e2) == (e2.from + "-") + ['>'] + (e2.to + ['|'] + ColsKey(e2.via));
    CutAt(e1.from + "-", e1.to + ['|'] + ColsKey(e1.via), e2.from + "-", e2.to + ['|'] + ColsKey(e2.via), '>');
    assert e1.from == (e1.from + "-")[..|e1.from|];
    assert e2.from == (e2.from + "-")[..|e2.from|];
    var t1 := e1.to + ['|'] + ColsKey(e1.via);
    var t2 := e2.to + ['|'] + ColsKey(e2.via);
    assert t1 == EdgeKey(e1)[|e1.from| + 2..];
    assert t2 == EdgeKey(e2)[|e2.from| + 2..];
    CutAt(e1.to, ColsKey(e1.via), e2.to, ColsKey(e2.via), '|');
  }

  // ---------------------------------------------------------------- path union

  /** `edgeMap`: the keys in insertion order and the edge stored under each. */
  datatype EdgeMap = EdgeMap(keys: seq<string>, edges: map<string, Edge>)

  /** Keys listed once each, exactly the stored ones, each holding an edge with that key. */
  ghost predicate MapOk(m: EdgeMap)
  {
    NoDup(m.keys)
    && (forall k :: k in m.keys <==> k in m.edges)
    && (forall k :: k in m.edges ==> EdgeKey(m.edges[k]) == k)
  }

  /** `edgeMap.set(edgeKey(e), e)`: a new key goes last, an existing one keeps its place. */
  function SetEdge(m: EdgeMap, e: Edge): EdgeMap
  {
    var k := EdgeKey(e);
    if k in m.edges then m.(edges := m.edges[k := e])
    else EdgeMap(m.keys + [k], m.edges[k := e])
  }

  /** The map after setting every edge of `path`, in order. */
  function SetAll(m: EdgeMap, path: seq<Edge>): EdgeMap
  {
    if |path| == 0 then m else SetEdge(SetAll(m, path[..|path| - 1]), path[|path| - 1])
  }

  /** The union loop: the paths to the reached targets, in target order, merged into one map. */
  function Union(base: string, depth: map<string, nat>, parent: map<string, Parent>, targets: seq<string>): EdgeMap
    requires ParentChain(base, depth, parent)
  {
    if |targets| == 0 then EdgeMap([], map[])
    else
      var m := Union(base, depth, parent, targets[..|targets| - 1]);
      var t := targets[|targets| - 1];
      if t in depth then SetAll(m, PathTo(base, depth, parent, t)) else m
  }

  /** The edges on the paths to the reached targets. */
  ghost function PathEdges(base: string, depth: map<string, nat>, parent: map<string, Parent>, targets: seq<string>): set<Edge>
    requires ParentChain(base, depth, parent)
  {
    set t, e | t in targets && t in depth && e in PathTo(base, depth, parent, t) :: e
  }

  lemma SetEdgeOk(m: EdgeMap, e: Edge)
    requires MapOk(m)
    ensures MapOk(SetEdge(m, e))
    ensures SetEdge(m, e).edges == m.edges[EdgeKey(e) := e]
  {
  }

  lemma {:induction false} SetAllOk(m: EdgeMap, path: seq<Edge>, pool: set<Edge>)
    requires MapOk(m) && forall k :: k in m.edges ==> m.edges[k] in pool
    requires forall e :: e in path ==> e in pool
    ensures MapOk(SetAll(m, path))
    ensures forall k :: k in SetAll(m, path).edges ==> SetAll(m, path).edges[k] in pool
    ensures forall k :: k in m.edges ==> k in SetAll(m, path).edges
    ensures forall e :: e in path ==> EdgeKey(e) in SetAll(m, path).edges
  {
    if |path| > 0 {
      var init := path[..|path| - 1];
      assert forall e :: e in init ==> e in path;
      SetAllOk(m, init, pool);
      SetEdgeOk(SetAll(m, init), path[|path| - 1]);
    }
  }

  /**
   * The union holds every edge of every path to a reached target under its
   * key, and nothing else.
   */
  lemma {:induction false} UnionCovers(base: string, depth: map<string, nat>, parent: map<string, Parent>, targets: seq<string>)
    requires ParentChain(base, depth, parent)
    ensures MapOk(Union(base, depth, parent, targets))
    ensures forall k :: k in Union(base, depth, parent, targets).edges ==>
      Union(base, depth, parent, targets).edges[k] in PathEdges(base, depth, parent, targets)
    ensures forall e :: e in PathEdges(base, depth, parent, targets) ==>
      EdgeKey(e) in Union(base, depth, parent, targets).edges
  {
    var pool := PathEdges(base, depth, parent, targets);
    if |targets| > 0 {
      var init := targets[..|targets| - 1];
      var t := targets[|targets| - 1];
      var m := Union(base, depth, parent, init);
      UnionCovers(base, depth, parent, init);
      assert PathEdges(base, depth, parent, init) <= pool;
      if t in depth {
        var path := PathTo(base, depth, parent, t);
        SetAllOk(m, path, pool);
        forall e | e in pool
          ensures EdgeKey(e) in SetAll(m, path).edges
        {
          var u :| u in targets && u in depth && e in PathTo(base, depth, parent, u);
          if u != t {
            assert u in init;
            assert e in PathEdges(base, depth, parent, init);
          }
        }
      } else {
        forall e | e in pool
          ensures e in PathEdges(base, depth, parent, init)
        {
          var u :| u in targets && u in depth && e in PathTo(base, depth, parent, u);
          assert u in init;
        }
      }
    }
  }

  /**
   * When the search is finished and the tables on the paths are plainly
   * named, every path edge is found under its own key.
   */
  lemma UnionHoldsPaths(adj: map<string, seq<Edge>>, base: string, r: State, targets: seq<string>, e: Edge)
    requires FromKeyed(adj) && Searched(adj, base, r)
    requires forall t :: t in r.parent ==> PlainEnds(r.parent[t].edge)
    requires ParentChain(base, r.depth, r.parent)
    requires e in PathEdges(base, r.depth, r.parent, targets)
    ensures EdgeKey(e) in Union(base, r.depth, r.parent, targets).edges
    ensures Union(base, r.depth, r.parent, targets).edges[EdgeKey(e)] == e
  {
    UnionCovers(base, r.depth, r.parent, targets);
    var v := Union(base, r.depth, r.parent, targets).edges[EdgeKey(e)];
    var u :| u in targets && u in r.depth && e in PathTo(base, r.depth, r.parent, u);
    var w :| w in targets && w in r.depth && v in PathTo(base, r.depth, r.parent, w);
    PathToWalk(adj, base, r, u);
    PathToWalk(adj, base, r, w);
    KeyEnds(e, v);
  }

  /** The union loop over the targets, skipping the unreached ones. */
  method UnionPaths(base: string, depth: map<string, nat>, parent: map<string, Parent>, targets: seq<string>)
    returns (m: EdgeMap)
    requires ParentChain(base, depth, parent)
    ensures m == Union(base, depth, parent, targets)
  {
    m := EdgeMap([], map[]);
    for i := 0 to |targets|
      invariant m == Union(base, depth, parent, targets[..i])
    {
      assert targets[..i + 1][..i] == targets[..i];
      var tgt := targets[i];
      if tgt !in depth {
        continue;
      }
      var path := ReconstructPath(base, depth, parent, tgt);
      ghost var m0 := m;
      for j := 0 to |path|
        invariant m == SetAll(m0, path[..j])
      {
        assert path[..j + 1][..j] == path[..j];
        var e := path[j];
        var k := EdgeKey(e);
        if k in m.edges {
          m := m.(edges := m.edges[k := e]);
        } else {
          m := EdgeMap(m.keys + [k], m.edges[k := e]);
        }
      }
      assert path[..|path|] == path;
    }
    assert targets[..|targets|] == targets;
  }

  // ---------------------------------------------------------------- edge order

  /** The edges stored under `ks`, in that order. */
  function EdgesAt(m: map<string, Edge>, ks: seq<string>): (es: seq<Edge>)
    requires forall k :: k in ks ==> k in m
    ensures |es| == |ks| && forall i :: 0 <= i < |ks| ==> es[i] == m[ks[i]]
  {
    seq(|ks|, i requires 0 <= i < |ks| => m[ks[i]])
  }

  lemma EdgesAtAppend(m: map<string, Edge>, a: seq<string>, b: seq<string>)
    requires forall k :: k in a + b ==> k in m
    ensures EdgesAt(m, a + b) == EdgesAt(m, a) + EdgesAt(m, b)
  {
  }

  /** The edge has an end among `visited`. */
  predicate Touches(e: Edge, visited: set<string>)
  {
    e.from in visited || e.to in visited
  }

  /** Both ends of every edge of `es`. */
  function Ends(es: seq<Edge>): (r: set<string>)
    ensures forall e :: e in es ==> e.from in r && e.to in r
  {
    if |es| == 0 then {} else Ends(es[..|es| - 1]) + {es[|es| - 1].from, es[|es| - 1].to}
  }

  /** Each edge touches `visited` or an end of an edge before it. */
  ghost predicate Chained(visited: set<string>, es: seq<Edge>)
  {
    forall i :: 0 <= i < |es| ==> Touches(es[i], visited + Ends(es[..i]))
  }

  /** `pending.delete(k)`. */
  function Remove(s: seq<string>, k: string): (r: seq<string>)
    ensures forall x :: x in r <==> x in s && x != k
  {
    if |s| == 0 then [] else (if s[0] == k then [] else [s[0]]) + Remove(s[1..], k)
  }

  /** The state after one pass over a snapshot of the pending keys. */
  datatype Sweep = Sweep(taken: seq<string>, visited: set<string>, left: seq<string>)

  /**
   * One pass of the ordering loop over `ks`: a key whose edge touches the
   * tables reached so far is taken, and its ends are reached from then on;
   * the others are left pending, in order.
   */
  function Pass(m: map<string, Edge>, ks: seq<string>, visited: set<string>): (p: Sweep)
    requires forall k :: k in ks ==> k in m
    ensures |p.taken| + |p.left| == |ks|
    ensures visited <= p.visited
    ensures forall k :: k in p.taken ==> k in ks
    ensures forall k :: k in p.left ==> k in ks
  {
    if |ks| == 0 then Sweep([], visited, [])
    else
      var p := Pass(m, ks[..|ks| - 1], visited);
      var k := ks[|ks| - 1];
      var e := m[k];
      if Touches(e, p.visited) then Sweep(p.taken + [k], p.visited + {e.from, e.to}, p.left)
      else Sweep(p.taken, p.visited, p.left + [k])
  }

  /** The ordering loop: passes until nothing is pending or a pass takes nothing. */
  function Order(m: map<string, Edge>, pending: seq<string>, visited: set<string>): (ks: seq<string>)
    requires forall k :: k in pending ==> k in m
    ensures forall k :: k in ks ==> k in pending
    decreases |pending|
  {
    if |pending| == 0 then []
    else
      var p := Pass(m, pending, visited);
      if |p.taken| == 0 then [] else p.taken + Order(m, p.left, p.visited)
  }

  lemma ChainedSnoc(visited: set<string>, es: seq<Edge>, e: Edge)
    requires Chained(visited, es) && Touches(e, visited + Ends(es))
    ensures Chained(visited, es + [e])
  {
    forall i | 0 <= i < |es| + 1
      ensures Touches((es + [e])[i], visited + Ends((es + [e])[..i]))
    {
      if i < |es| {
        assert (es + [e])[..i] == es[..i];
      } else {
        assert (es + [e])[..i] == es;
      }
    }
  }

  /** What a pass takes and leaves: a split of the snapshot, chained from `visited`. */
  lemma {:induction false} PassFacts(m: map<string, Edge>, ks: seq<string>, visited: set<string>)
    requires forall k :: k in ks ==> k in m
    ensures forall k :: k in ks ==> k in Pass(m, ks, visited).taken || k in Pass(m, ks, visited).left
    ensures Pass(m, ks, visited).visited == visited + Ends(EdgesAt(m, Pass(m, ks, visited).taken))
    ensures Chained(visited, EdgesAt(m, Pass(m, ks, visited).taken))
  {
    if |ks| > 0 {
      var init := ks[..|ks| - 1];
      var k := ks[|ks| - 1];
      assert forall x :: x in ks <==> x in init || x == k;
      PassFacts(m, init, visited);
      var p := Pass(m, init, visited);
      if Touches(m[k], p.visited) {
        EdgesAtAppend(m, p.taken, [k]);
        var es := EdgesAt(m, p.taken);
        assert EdgesAt(m, p.taken + [k]) == es + [m[k]];
        assert (es + [m[k]])[..|es|] == es;
        ChainedSnoc(visited, es, m[k]);
      }
    }
  }

  /** A pass over keys listed once each takes and leaves each of them once. */
  lemma {:induction false} PassNoDup(m: map<string, Edge>, ks: seq<string>, visited: set<string>)
    requires forall k :: k in ks ==> k in m
    requires NoDup(ks)
    ensures NoDup(Pass(m, ks, visited).taken) && NoDup(Pass(m, ks, visited).left)
    ensures forall k :: k in Pass(m, ks, visited).taken ==> k !in Pass(m, ks, visited).left
  {
    if |ks| > 0 {
      var init := ks[..|ks| - 1];
      var k := ks[|ks| - 1];
      PassNoDup(m, init, visited);
      PassFacts(m, init, visited);
      var p := Pass(m, init, visited);
      assert k !in init;
      if Touches(m[k], p.visited) {
        NoDupSnoc(p.taken, k);
      } else {
        NoDupSnoc(p.left, k);
      }
    }
  }

  lemma NoDupSnoc(s: seq<string>, x: string)
    requires NoDup(s) && x !in s
    ensures NoDup(s + [x])
  {
  }

  lemma {:induction false} EndsAppend(a: seq<Edge>, b: seq<Edge>)
    ensures Ends(a + b) == Ends(a) + Ends(b)
    decreases |b|
  {
    if |b| > 0 {
      assert (a + b)[..|a + b| - 1] == a + b[..|b| - 1];
      EndsAppend(a, b[..|b| - 1]);
    } else {
      assert a + b == a;
    }
  }

  lemma ChainedAppend(visited: set<string>, a: seq<Edge>, b: seq<Edge>)
    requires Chained(visited, a) && Chained(visited + Ends(a), b)
    ensures Chained(visited, a + b)
  {
    forall i | 0 <= i < |a| + |b|
      ensures Touches((a + b)[i], visited + Ends((a + b)[..i]))
    {
      if i < |a| {
        assert (a + b)[..i] == a[..i];
      } else {
        assert (a + b)[..i] == a + b[..i - |a|];
        EndsAppend(a, b[..i - |a|]);
      }
    }
  }

  lemma NoDupAppend(a: seq<string>, b: seq<string>)
    requires NoDup(a) && NoDup(b) && forall k :: k in a ==> k !in b
    ensures NoDup(a + b)
  {
    forall i, j | 0 <= i < j < |a + b|
      ensures (a + b)[i] != (a + b)[j]
    {
      if j >= |a| && i < |a| {
        assert (a + b)[i] in a;
        assert (a + b)[j] == b[j - |a|];
      }
    }
  }

  /** The ordering takes each pending key at most once. */
  lemma {:induction false} OrderKeys(m: map<string, Edge>, pending: seq<string>, visited: set<string>)
    requires forall k :: k in pending ==> k in m
    requires NoDup(pending)
    ensures NoDup(Order(m, pending, visited))
    decreases |pending|
  {
    if |pending| > 0 {
      var p := Pass(m, pending, visited);
      PassFacts(m, pending, visited);
      PassNoDup(m, pending, visited);
      if |p.taken| > 0 {
        var rest := Order(m, p.left, p.visited);
        OrderKeys(m, p.left, p.visited);
        assert Order(m, pending, visited) == p.taken + rest;
        NoDupAppend(p.taken, rest);
      }
    }
  }

  /**
   * Each edge the ordering appends touches the base side: `visited` or an
   * end of an edge appended before it.
   */
  lemma {:induction false} OrderChained(m: map<string, Edge>, pending: seq<string>, visited: set<string>)
    requires forall k :: k in pending ==> k in m
    ensures Chained(visited, EdgesAt(m, Order(m, pending, visited)))
    decreases |pending|
  {
    if |pending| > 0 {
      var p := Pass(m, pending, visited);
      PassFacts(m, pending, visited);
      if |p.taken| > 0 {
        var rest := Order(m, p.left, p.visited);
        OrderChained(m, p.left, p.visited);
        assert Order(m, pending, visited) == p.taken + rest;
        EdgesAtAppend(m, p.taken, rest);
        ChainedAppend(visited, EdgesAt(m, p.taken), EdgesAt(m, rest));
      }
    }
  }

  /**
   * The edges of `m` hang from the base: each leads one level deeper, and
   * one leaving a table other than the base has an edge into that table
   * beside it.
   */
  ghost predicate Hanging(m: map<string, Edge>, depth: map<string, nat>, base: string)
  {
    forall k :: k in m ==>
      m[k].from in depth && m[k].to in depth && depth[m[k].to] == depth[m[k].from] + 1
      && (m[k].from == base || exists k' :: k' in m && m[k'].to == m[k].from)
  }

  /** Every key no longer pending has both ends reached. */
  ghost predicate Settled(m: map<string, Edge>, pending: seq<string>, visited: set<string>)
  {
    forall k :: k in m && k !in pending ==> m[k].from in visited && m[k].to in visited
  }

  /** While keys are pending, one of them touches the reached tables. */
  lemma {:induction false} SomeTouches(m: map<string, Edge>, depth: map<string, nat>, base: string,
                                       pending: seq<string>, visited: set<string>, k: string)
    requires Hanging(m, depth, base) && Settled(m, pending, visited) && base in visited
    requires k in pending && k in m
    ensures exists k' :: k' in pending && k' in m && Touches(m[k'], visited)
    decreases depth[m[k].to]
  {
    var e := m[k];
    if e.from != base && e.from !in visited {
      var k' :| k' in m && m[k'].to == e.from;
      SomeTouches(m, depth, base, pending, visited, k');
    }
  }

  /** A pass over keys one of which touches the reached tables takes something. */
  lemma {:induction false} PassTakes(m: map<string, Edge>, ks: seq<string>, visited: set<string>, k: string)
    requires forall x :: x in ks ==> x in m
    requires k in ks && Touches(m[k], visited)
    ensures |Pass(m, ks, visited).taken| > 0
  {
    var init := ks[..|ks| - 1];
    if k in init {
      PassTakes(m, init, visited, k);
    } else {
      assert k == ks[|ks| - 1];
      assert Touches(m[k], Pass(m, init, visited).visited);
    }
  }

  /**
   * Over edges that hang from the base, the ordering loop never gets stuck:
   * every pending key is ordered.
   */
  lemma {:induction false} OrderComplete(m: map<string, Edge>, depth: map<string, nat>, base: string,
                                         pending: seq<string>, visited: set<string>)
    requires forall k :: k in pending ==> k in m
    requires Hanging(m, depth, base) && Settled(m, pending, visited) && base in visited
    ensures forall k :: k in pending ==> k in Order(m, pending, visited)
    decreases |pending|
  {
    if |pending| > 0 {
      SomeTouches(m, depth, base, pending, visited, pending[0]);
      var k' :| k' in pending && k' in m && Touches(m[k'], visited);
      PassTakes(m, pending, visited, k');
      var p := Pass(m, pending, visited);
      PassSettles(m, pending, visited);
      OrderComplete(m, depth, base, p.left, p.visited);
      assert Order(m, pending, visited) == p.taken + Order(m, p.left, p.visited);
      PassSplits(m, pending, visited);
    }
  }

  lemma PassSplits(m: map<string, Edge>, ks: seq<string>, visited: set<string>)
    requires forall k :: k in ks ==> k in m
    ensures forall k :: k in ks ==> k in Pass(m, ks, visited).taken || k in Pass(m, ks, visited).left
  {
    PassFacts(m, ks, visited);
  }

  /** After a pass, the keys it took are settled too. */
  lemma PassSettles(m: map<string, Edge>, pending: seq<string>, visited: set<string>)
    requires forall k :: k in pending ==> k in m
    requires Settled(m, pending, visited)
    ensures Settled(m, Pass(m, pending, visited).left, Pass(m, pending, visited).visited)
  {
    var p := Pass(m, pending, visited);
    PassFacts(m, pending, visited);
    forall k | k in m && k !in p.left
      ensures m[k].from in p.visited && m[k].to in p.visited
    {
      if k in p.taken {
        var i :| 0 <= i < |p.taken| && p.taken[i] == k;
        assert m[k] == EdgesAt(m, p.taken)[i];
      }
    }
  }

  /** A pass over keys that all touch the reached tables takes them all, in order. */
  lemma {:induction false} PassTakesAll(m: map<string, Edge>, ks: seq<string>, visited: set<string>)
    requires forall k :: k in ks ==> k in m && Touches(m[k], visited)
    ensures Pass(m, ks, visited).taken == ks
  {
    if |ks| > 0 {
      var init := ks[..|ks| - 1];
      PassTakesAll(m, init, visited);
      assert Touches(m[ks[|ks| - 1]], Pass(m, init, visited).visited);
    }
  }

  /** When every edge touches the reached tables, the order is the key order. */
  lemma OrderAllTouching(m: map<string, Edge>, pending: seq<string>, visited: set<string>)
    requires forall k :: k in pending ==> k in m && Touches(m[k], visited)
    ensures Order(m, pending, visited) == pending
  {
    if |pending| > 0 {
      PassTakesAll(m, pending, visited);
      PassFacts(m, pending, visited);
    }
  }

  lemma {:induction false} RemoveNext(left: seq<string>, rest: seq<string>, k: string)
    requires k !in left && k !in rest
    ensures Remove(left + [k] + rest, k) == left + rest
  {
    if |left| > 0 {
      assert (left + [k] + rest)[1..] == left[1..] + [k] + rest;
      RemoveNext(left[1..], rest, k);
    } else {
      assert (left + [k] + rest)[1..] == rest;
      RemoveAbsent(rest, k);
    }
  }

  lemma {:induction false} RemoveAbsent(s: seq<string>, k: string)
    requires k !in s
    ensures Remove(s, k) == s
  {
    if |s| > 0 {
      RemoveAbsent(s[1..], k);
      assert s == [s[0]] + s[1..];
    }
  }

  /** A step of a pass that takes the key at `i`, in the terms of the loop. */
  lemma PassTaken(m: map<string, Edge>, snapshot: seq<string>, visited: set<string>, i: nat, p: Sweep)
    requires forall k :: k in snapshot ==> k in m
    requires NoDup(snapshot) && i < |snapshot|
    requires p == Pass(m, snapshot[..i], visited) && Touches(m[snapshot[i]], p.visited)
    ensures Pass(m, snapshot[..i + 1], visited)
         == Sweep(p.taken + [snapshot[i]], p.visited + {m[snapshot[i]].from, m[snapshot[i]].to}, p.left)
    ensures EdgesAt(m, p.taken + [snapshot[i]]) == EdgesAt(m, p.taken) + [m[snapshot[i]]]
    ensures Remove(p.left + snapshot[i..], snapshot[i]) == p.left + snapshot[i + 1..]
  {
    var k := snapshot[i];
    assert snapshot[..i + 1][..i] == snapshot[..i];
    assert p.left + snapshot[i..] == p.left + [k] + snapshot[i + 1..];
    assert k !in p.left && k !in snapshot[i + 1..];
    EdgesAtAppend(m, p.taken, [k]);
    RemoveNext(p.left, snapshot[i + 1..], k);
  }

  /** A step of a pass that leaves the key at `i` pending, in the terms of the loop. */
  lemma PassLeft(m: map<string, Edge>, snapshot: seq<string>, visited: set<string>, i: nat, p: Sweep)
    requires forall k :: k in snapshot ==> k in m
    requires i < |snapshot|
    requires p == Pass(m, snapshot[..i], visited) && !Touches(m[snapshot[i]], p.visited)
    ensures Pass(m, snapshot[..i + 1], visited) == Sweep(p.taken, p.visited, p.left + [snapshot[i]])
    ensures p.left + snapshot[i..] == (p.left + [snapshot[i]]) + snapshot[i + 1..]
  {
    assert snapshot[..i + 1][..i] == snapshot[..i];
    assert snapshot[i..] == [snapshot[i]] + snapshot[i + 1..];
  }

  /** The variables of a pass over `snapshot` after its first `i` keys. */
  ghost predicate PassState(edges: map<string, Edge>, snapshot: seq<string>, visited0: set<string>, i: nat,
                            ordered0: seq<Edge>, ordered: seq<Edge>, visited: set<string>, pending: seq<string>,
                            progressed: bool, p: Sweep)
    requires forall k :: k in snapshot ==> k in edges
    requires i <= |snapshot|
  {
    p == Pass(edges, snapshot[..i], visited0)
    && ordered == ordered0 + EdgesAt(edges, p.taken) && visited == p.visited
    && pending == p.left + snapshot[i..] && progressed == (|p.taken| > 0)
  }

  /**
   * One turn of a pass over `snapshot`, at the key `snapshot[i]`: appends
   * its edge and drops the key when the edge touches a reached table,
   * otherwise leaves the key pending.
   */
  method PassTurn(edges: map<string, Edge>, snapshot: seq<string>, visited0: set<string>, i: nat,
                  ordered0: seq<Edge>, ordered: seq<Edge>, visited: set<string>, pending: seq<string>,
                  progressed: bool, ghost p: Sweep)
    returns (ordered': seq<Edge>, visited': set<string>, pending': seq<string>, progressed': bool, ghost p': Sweep)
    requires forall k :: k in snapshot ==> k in edges
    requires NoDup(snapshot) && i < |snapshot|
    requires PassState(edges, snapshot, visited0, i, ordered0, ordered, visited, pending, progressed, p)
    ensures PassState(edges, snapshot, visited0, i + 1, ordered0, ordered', visited', pending', progressed', p')
  {
    var k := snapshot[i];
    var e := edges[k];
    if e.from in visited || e.to in visited {
      PassTaken(edges, snapshot, visited0, i, p);
      Regroup(ordered + [e], ordered0, EdgesAt(edges, p.taken), [e], EdgesAt(edges, p.taken + [k]));
      ordered' := ordered + [e];
      visited' := visited + {e.from, e.to};
      pending' := Remove(pending, k);
      progressed' := true;
      p' := Sweep(p.taken + [k], visited', p.left);
    } else {
      PassLeft(edges, snapshot, visited0, i, p);
      ordered', visited', pending', progressed' := ordered, visited, pending, progressed;
      p' := p.(left := p.left + [k]);
    }
  }

  /**
   * One pass of the ordering loop over `snapshot`, the pending keys at its
   * start: appends each edge that touches a reached table and drops its key.
   */
  method RunPass(edges: map<string, Edge>, snapshot: seq<string>, ordered0: seq<Edge>, visited0: set<string>)
    returns (ordered: seq<Edge>, visited: set<string>, pending: seq<string>, progressed: bool)
    requires forall k :: k in snapshot ==> k in edges
    requires NoDup(snapshot)
    ensures ordered == ordered0 + EdgesAt(edges, Pass(edges, snapshot, visited0).taken)
    ensures visited == Pass(edges, snapshot, visited0).visited
    ensures pending == Pass(edges, snapshot, visited0).left
    ensures progressed == (|Pass(edges, snapshot, visited0).taken| > 0)
  {
    ordered, visited, pending, progressed := ordered0, visited0, snapshot, false;
    ghost var p := Pass(edges, [], visited0);
    for i := 0 to |snapshot|
      invariant PassState(edges, snapshot, visited0, i, ordered0, ordered, visited, pending, progressed, p)
    {
      ordered, visited, pending, progressed, p :=
        PassTurn(edges, snapshot, visited0, i, ordered0, ordered, visited, pending, progressed, p);
    }
    PassDone(edges, snapshot, visited0, p, pending);
  }

  /** The state of a pass once the loop has run over all of `snapshot`. */
  lemma PassDone(m: map<string, Edge>, snapshot: seq<string>, visited: set<string>, p: Sweep, pending: seq<string>)
    requires forall k :: k in snapshot ==> k in m
    requires p == Pass(m, snapshot[..|snapshot|], visited) && pending == p.left + snapshot[|snapshot|..]
    ensures p == Pass(m, snapshot, visited) && pending == p.left
  {
    assert snapshot[..|snapshot|] == snapshot;
    assert snapshot[|snapshot|..] == [];
  }

  /** The ordering after a pass that takes something. */
  lemma OrderGoes(m: map<string, Edge>, pending: seq<string>, visited: set<string>, p: Sweep)
    requires forall k :: k in pending ==> k in m
    requires p == Pass(m, pending, visited) && |p.taken| > 0
    ensures EdgesAt(m, Order(m, pending, visited)) == EdgesAt(m, p.taken) + EdgesAt(m, Order(m, p.left, p.visited))
  {
    EdgesAtAppend(m, p.taken, Order(m, p.left, p.visited));
  }

  /** The ordering after a pass that takes nothing. */
  lemma OrderStops(m: map<string, Edge>, pending: seq<string>, visited: set<string>, p: Sweep)
    requires forall k :: k in pending ==> k in m
    requires p == Pass(m, pending, visited) && |p.taken| == 0
    ensures Order(m, pending, visited) == []
  {
  }

  lemma Reassociate<T>(x: seq<T>, a: seq<T>, b: seq<T>, c: seq<T>, bc: seq<T>)
    requires x == a + bc && bc == b + c
    ensures x == (a + b) + c
  {
  }

  /**
   * The ordering loop: passes over the pending keys until nothing is
   * pending or a pass makes no progress.
   */
  method OrderEdges(m: EdgeMap, base: string) returns (ordered: seq<Edge>)
    requires MapOk(m)
    ensures ordered == EdgesAt(m.edges, Order(m.edges, m.keys, {base}))
  {
    ordered := [];
    var visited := {base};
    var pending := m.keys;
    while |pending| > 0
      invariant forall k :: k in pending ==> k in m.edges
      invariant NoDup(pending)
      invariant ordered + EdgesAt(m.edges, Order(m.edges, pending, visited))
             == EdgesAt(m.edges, Order(m.edges, m.keys, {base}))
      decreases |pending|
    {
      ghost var p := Pass(m.edges, pending, visited);
      ghost var total := EdgesAt(m.edges, Order(m.edges, m.keys, {base}));
      PassNoDup(m.edges, pending, visited);
      if |p.taken| > 0 {
        OrderGoes(m.edges, pending, visited, p);
        Reassociate(total, ordered, EdgesAt(m.edges, p.taken), EdgesAt(m.edges, Order(m.edges, p.left, p.visited)),
                    EdgesAt(m.edges, Order(m.edges, pending, visited)));
      } else {
        OrderStops(m.edges, pending, visited, p);
      }
      var progressed;
      ordered, visited, pending, progressed := RunPass(m.edges, pending, ordered, visited);
      if !progressed {
        break;
      }
    }
  }

  // ---------------------------------------------------------------- aliases

  /** Both ends of every edge, from-side before to-side, in edge order. */
  function EndList(es: seq<Edge>): (r: seq<string>)
    ensures forall x :: x in r <==> exists e :: e in es && (x == e.from || x == e.to)
  {
    if |es| == 0 then []
    else
      var init := es[..|es| - 1];
      var last := es[|es| - 1];
      assert forall e :: e in es <==> e in init || e == last;
      EndList(init) + [last.from, last.to]
  }

  /** The aliased tables: the base, then every end of the steps at its first appearance. */
  function AliasOrder(base: string, es: seq<Edge>): seq<string>
  {
    Distinct([base] + EndList(es))
  }

  /** The alias of the table at position `i` of the aliased tables. */
  function AliasName(i: nat): string
  {
    "t" + Decimal(i)
  }

  /** The alias record over the aliased tables `tabs`: each table is named after its position. */
  function AliasMap(tabs: seq<string>): map<string, string>
  {
    map x | x in tabs :: AliasName(FirstIndex(tabs, x))
  }

  /** The alias record of a plan whose steps are `es`. */
  function Aliases(base: string, es: seq<Edge>): map<string, string>
  {
    AliasMap(AliasOrder(base, es))
  }

  lemma DistinctSnoc(xs: seq<string>, y: string)
    ensures Distinct(xs + [y]) == if y in Distinct(xs) then Distinct(xs) else Distinct(xs) + [y]
  {
    assert (xs + [y])[..|xs|] == xs;
  }

  lemma AliasMapSnoc(tabs: seq<string>, y: string)
    requires y !in tabs
    ensures AliasMap(tabs + [y]) == AliasMap(tabs)[y := AliasName(|tabs|)]
  {
    forall x | x in tabs
      ensures FirstIndex(tabs + [y], x) == FirstIndex(tabs, x)
    {
      FirstIndexAppend(tabs, y, x);
    }
    assert FirstIndex(tabs + [y], y) == |tabs|;
  }

  /**
   * The base is `t0`; every end of every step has an alias; the aliases
   * are `t` followed by a position among the aliased tables, and no two
   * tables share one.
   */
  lemma AliasesFacts(base: string, es: seq<Edge>)
    ensures base in Aliases(base, es) && Aliases(base, es)[base] == "t0"
    ensures forall e :: e in es ==> e.from in Aliases(base, es) && e.to in Aliases(base, es)
    ensures forall x :: x in Aliases(base, es) <==> x == base || x in EndList(es)
    ensures forall x :: x in Aliases(base, es) ==>
      exists i :: 0 <= i < |AliasOrder(base, es)| && Aliases(base, es)[x] == AliasName(i)
    ensures forall x, y :: x in Aliases(base, es) && y in Aliases(base, es) && x != y ==>
      Aliases(base, es)[x] != Aliases(base, es)[y]
  {
    var tabs := AliasOrder(base, es);
    assert ([base] + EndList(es))[0] == base;
    assert FirstIndex([base] + EndList(es), base) == 0;
    assert tabs[0] == base;
    AliasMapFacts(tabs);
    AliasZero();
  }

  lemma AliasZero()
    ensures AliasName(0) == "t0"
  {
    assert Decimal(0) == ['0'];
  }

  /** The alias record has exactly the tables of `tabs` as keys, each named `t` and a position. */
  lemma AliasMapFacts(tabs: seq<string>)
    ensures forall x :: x in AliasMap(tabs) <==> x in tabs
    ensures forall x :: x in tabs ==> AliasMap(tabs)[x] == AliasName(FirstIndex(tabs, x)) && FirstIndex(tabs, x) < |tabs|
    ensures forall x, y :: x in AliasMap(tabs) && y in AliasMap(tabs) && x != y ==>
      AliasMap(tabs)[x] != AliasMap(tabs)[y]
  {
    AliasMapInjective(tabs);
  }

  /** Different tables get different aliases. */
  lemma AliasMapInjective(tabs: seq<string>)
    ensures forall x, y :: x in AliasMap(tabs) && y in AliasMap(tabs) && x != y ==>
      AliasMap(tabs)[x] != AliasMap(tabs)[y]
  {
    forall x, y | x in tabs && y in tabs && x != y
      ensures AliasName(FirstIndex(tabs, x)) != AliasName(FirstIndex(tabs, y))
    {
      if AliasName(FirstIndex(tabs, x)) == AliasName(FirstIndex(tabs, y)) {
        assert Decimal(FirstIndex(tabs, x)) == AliasName(FirstIndex(tabs, x))[1..];
        DecimalInjective(FirstIndex(tabs, x), FirstIndex(tabs, y));
      }
    }
  }

  lemma AliasStart(base: string)
    ensures Distinct([base]) == [base]
    ensures AliasMap([base]) == map[base := "t0"]
  {
    assert [base][..0] == [];
    assert FirstIndex([base], base) == 0;
    assert AliasName(0) == "t0" by {
      assert Decimal(0) == ['0'];
    }
    assert AliasMap([base]).Keys == {base};
  }

  lemma EndListStep(base: string, es: seq<Edge>, i: nat)
    requires i < |es|
    ensures [base] + EndList(es[..i + 1]) == ([base] + EndList(es[..i])) + [es[i].from] + [es[i].to]
  {
    assert es[..i + 1][..i] == es[..i];
  }

  /** Gives `x` the next alias unless it already has one. */
  method AliasEnd(alias: map<string, string>, n: nat, ghost tabs: seq<string>, x: string)
    returns (alias': map<string, string>, n': nat, ghost tabs': seq<string>)
    requires alias == AliasMap(tabs) && n == |tabs|
    ensures tabs' == if x in tabs then tabs else tabs + [x]
    ensures alias' == AliasMap(tabs') && n' == |tabs'|
  {
    alias', n', tabs' := alias, n, tabs;
    if x !in alias {
      AliasMapSnoc(tabs, x);
      alias' := alias[x := AliasName(n)];
      n' := n + 1;
      tabs' := tabs + [x];
    }
  }

  /** The alias loop: the base is `t0`, and each step's unaliased from-side, then to-side, takes the next number. */
  method AssignAliases(base: string, ordered: seq<Edge>) returns (alias: map<string, string>)
    ensures alias == Aliases(base, ordered)
  {
    alias := map[base := "t0"];
    var n := 1;
    ghost var tabs := [base];
    AliasStart(base);
    for i := 0 to |ordered|
      invariant tabs == Distinct([base] + EndList(ordered[..i]))
      invariant alias == AliasMap(tabs) && n == |tabs|
    {
      var e := ordered[i];
      ghost var xs := [base] + EndList(ordered[..i]);
      EndListStep(base, ordered, i);
      DistinctSnoc(xs, e.from);
      DistinctSnoc(xs + [e.from], e.to);
      alias, n, tabs := AliasEnd(alias, n, tabs, e.from);
      alias, n, tabs := AliasEnd(alias, n, tabs, e.to);
    }
    assert ordered[..|ordered|] == ordered;
  }

  // ---------------------------------------------------------------- warnings

  /** The warning for a target the search did not reach. */
  function NoPathWarning(base: string, t: string): string
  {
    "No FK path from " + base + " to " + t + "; omitting its columns."
  }

  /** The targets without a depth, in order. */
  function Unreached(targets: seq<string>, depth: map<string, nat>): (r: seq<string>)
    ensures forall t :: t in r <==> t in targets && t !in depth
  {
    if |targets| == 0 then []
    else
      var init := targets[..|targets| - 1];
      var t := targets[|targets| - 1];
      assert forall x :: x in targets <==> x in init || x == t;
      Unreached(init, depth) + (if t in depth then [] else [t])
  }

  /** The warning loop: one warning per target without a depth, in target order. */
  function Warnings(base: string, targets: seq<string>, depth: map<string, nat>): (ws: seq<string>)
    ensures |ws| == |Unreached(targets, depth)|
    ensures forall i :: 0 <= i < |ws| ==> ws[i] == NoPathWarning(base, Unreached(targets, depth)[i])
  {
    if |targets| == 0 then []
    else
      var t := targets[|targets| - 1];
      Warnings(base, targets[..|targets| - 1], depth) + (if t in depth then [] else [NoPathWarning(base, t)])
  }

  /** Different targets get different warnings. */
  lemma NoPathWarningInjective(base: string, t1: string, t2: string)
    requires NoPathWarning(base, t1) == NoPathWarning(base, t2)
    ensures t1 == t2
  {
    var w := NoPathWarning(base, t1);
    var pre := "No FK path from " + base + " to ";
    var post := "; omitting its columns.";
    assert w == pre + t1 + post && w == pre + t2 + post;
    assert |t1| == |t2|;
    assert t1 == w[|pre|..|pre| + |t1|];
  }

  /**
   * Each distinct target without a depth has exactly one warning, and every
   * warning names such a target.
   */
  lemma WarningsExact(base: string, targets: seq<string>, depth: map<string, nat>)
    requires NoDup(targets)
    ensures forall w :: w in Warnings(base, targets, depth) <==>
      exists t :: t in targets && t !in depth && w == NoPathWarning(base, t)
    ensures NoDup(Warnings(base, targets, depth))
  {
    var ws := Warnings(base, targets, depth);
    var us := Unreached(targets, depth);
    UnreachedNoDup(targets, depth);
    forall w | w in ws
      ensures exists t :: t in targets && t !in depth && w == NoPathWarning(base, t)
    {
      var i :| 0 <= i < |ws| && ws[i] == w;
      assert us[i] in us;
    }
    forall t | t in targets && t !in depth
      ensures NoPathWarning(base, t) in ws
    {
      var i :| 0 <= i < |us| && us[i] == t;
      assert ws[i] == NoPathWarning(base, t);
    }
    forall i, j | 0 <= i < j < |ws|
      ensures ws[i] != ws[j]
    {
      if ws[i] == ws[j] {
        NoPathWarningInjective(base, us[i], us[j]);
      }
    }
  }

  lemma {:induction false} UnreachedNoDup(targets: seq<string>, depth: map<string, nat>)
    requires NoDup(targets)
    ensures NoDup(Unreached(targets, depth))
  {
    if |targets| > 0 {
      var init := targets[..|targets| - 1];
      UnreachedNoDup(init, depth);
      assert targets[|targets| - 1] !in init;
    }
  }

  /** The warning loop over the targets. */
  method WarnUnreached(base: string, targets: seq<string>, depth: map<string, nat>) returns (warnings: seq<string>)
    ensures warnings == Warnings(base, targets, depth)
  {
    warnings := [];
    for i := 0 to |targets|
      invariant warnings == Warnings(base, targets[..i], depth)
    {
      assert targets[..i + 1][..i] == targets[..i];
      if targets[i] !in depth {
        warnings := warnings + [NoPathWarning(base, targets[i])];
      }
    }
    assert targets[..|targets|] == targets;
  }

  // ---------------------------------------------------------------- selections

  /** What the selections ask of one table: everything, or these columns (a set, kept as a list). */
  datatype Entry = Entry(star: bool, cols: seq<string>)

  /** `byTable`: the tables in order of first mention, and the entry of each. */
  datatype Groups = Groups(tables: seq<string>, entries: map<string, Entry>)

  /** Some selected id names column `c` of table `t`. */
  ghost predicate Mentions(ids: seq<string>, t: string, c: string)
  {
    exists id :: id in ids && TablePart(id) == t && ColumnPart(id) == Some(c)
  }

  /** The grouping loop's step for one id. */
  function AddId(g: Groups, id: string): Groups
  {
    AddParts(g, TablePart(id), ColumnPart(id))
  }

  /** The grouping loop's step for an id with table part `t` and column part `c`. */
  function AddParts(g: Groups, t: string, c: Option<string>): Groups
  {
    if t == "" then g
    else
      var g1 := if t in g.entries then g else Groups(g.tables + [t], g.entries[t := Entry(false, [])]);
      var e := g1.entries[t];
      if c == Some("*") then g1.(entries := g1.entries[t := e.(star := true)])
      else if c.Some? && c.value != "" && c.value !in e.cols then g1.(entries := g1.entries[t := e.(cols := e.cols + [c.value])])
      else g1
  }

  /** A step adds its table, when new and named, at the end. */
  lemma AddPartsTables(g: Groups, t: string, c: Option<string>)
    requires forall u :: u in g.tables <==> u in g.entries
    ensures AddParts(g, t, c).tables == if t == "" || t in g.tables then g.tables else g.tables + [t]
  {
  }

  /** A step stars its own table when its column is `*`, and no other. */
  lemma AddPartsStar(g: Groups, t: string, c: Option<string>, u: string)
    requires u in AddParts(g, t, c).entries
    ensures AddParts(g, t, c).entries[u].star
        <==> (u in g.entries && g.entries[u].star) || (u == t && t != "" && c == Some("*"))
  {
  }

  /** A step adds its own column to its own table, and no other. */
  lemma AddPartsCol(g: Groups, t: string, c: Option<string>, u: string, x: string)
    requires u in AddParts(g, t, c).entries
    ensures x in AddParts(g, t, c).entries[u].cols
        <==> (u in g.entries && x in g.entries[u].cols) || (u == t && t != "" && c == Some(x) && x != "" && x != "*")
  {
  }

  /** The grouping loop over the ids. */
  function Group(ids: seq<string>): (g: Groups)
    ensures NoDup(g.tables) && forall t :: t in g.tables <==> t in g.entries
    ensures "" !in g.entries
  {
    if |ids| == 0 then Groups([], map[])
    else
      var g := Group(ids[..|ids| - 1]);
      var id := ids[|ids| - 1];
      AddPartsTables(g, TablePart(id), ColumnPart(id));
      AddPartsKeys(g, TablePart(id), ColumnPart(id));
      AddId(g, id)
  }

  lemma AddPartsKeys(g: Groups, t: string, c: Option<string>)
    ensures forall u :: u in AddParts(g, t, c).entries <==> u in g.entries || (u == t && t != "")
  {
  }

  /** One selection per column of `cs`, for table `t`. */
  function ColumnsOf(t: string, cs: seq<string>): (r: seq<Selection>)
    ensures |r| == |cs| && forall i :: 0 <= i < |cs| ==> r[i] == Selection(t, cs[i])
  {
    seq(|cs|, i requires 0 <= i < |cs| => Selection(t, cs[i]))
  }

  /** What one table contributes: `*` alone, or its columns sorted. */
  function Block(t: string, e: Entry): seq<Selection>
  {
    if e.star then [Selection(t, "*")] else ColumnsOf(t, SortedSet(e.cols))
  }

  /** The output loop: the blocks of the tables `ts`, in order. */
  function ExpandTables(ts: seq<string>, entries: map<string, Entry>): seq<Selection>
    requires forall t :: t in ts ==> t in entries
  {
    if |ts| == 0 then [] else ExpandTables(ts[..|ts| - 1], entries) + Block(ts[|ts| - 1], entries[ts[|ts| - 1]])
  }

  /** `expandSelections`. */
  function ExpandSelections(ids: seq<string>): seq<Selection>
  {
    var g := Group(ids);
    ExpandTables(g.tables, g.entries)
  }

  lemma TablePartsSnoc(ids: seq<string>)
    requires |ids| > 0
    ensures TableParts(ids) == TableParts(ids[..|ids| - 1]) + [TablePart(ids[|ids| - 1])]
  {
  }

  /** The grouping keeps the tables named by the ids, skipping an empty table part. */
  lemma {:induction false} GroupTables(ids: seq<string>)
    ensures forall t :: t in Group(ids).tables <==> t != "" && t in TableParts(ids)
  {
    if |ids| > 0 {
      var init := ids[..|ids| - 1];
      var id := ids[|ids| - 1];
      var g := Group(init);
      var t0 := TablePart(id);
      assert Group(ids) == AddParts(g, t0, ColumnPart(id));
      GroupTables(init);
      AddPartsTables(g, t0, ColumnPart(id));
      TablePartsSnoc(ids);
    }
  }

  /** Tables listed in order of first mention within `parts`. */
  ghost predicate InMentionOrder(tabs: seq<string>, parts: seq<string>)
  {
    (forall i :: 0 <= i < |tabs| ==> tabs[i] in parts)
    && forall i, j :: 0 <= i < j < |tabs| ==> FirstIndex(parts, tabs[i]) < FirstIndex(parts, tabs[j])
  }

  /** Appending a newly mentioned table keeps the mention order. */
  lemma MentionOrderSnoc(tabs: seq<string>, parts: seq<string>, t: string)
    requires InMentionOrder(tabs, parts) && forall u :: u in tabs ==> u in parts
    ensures InMentionOrder(tabs, parts + [t])
    ensures t !in parts ==> InMentionOrder(tabs + [t], parts + [t])
  {
    forall u | u in parts
      ensures FirstIndex(parts + [t], u) == FirstIndex(parts, u)
    {
      FirstIndexAppend(parts, t, u);
    }
    if t !in parts {
      assert FirstIndex(parts + [t], t) == |parts|;
      var tabs' := tabs + [t];
      forall i | 0 <= i < |tabs'|
        ensures tabs'[i] in parts + [t]
      {
        if i < |tabs| {
          assert tabs'[i] == tabs[i];
        }
      }
      forall i, j | 0 <= i < j < |tabs'|
        ensures FirstIndex(parts + [t], tabs'[i]) < FirstIndex(parts + [t], tabs'[j])
      {
        assert tabs'[i] == tabs[i] && tabs[i] in parts;
        if j < |tabs| {
          assert tabs'[j] == tabs[j];
        }
      }
    }
  }

  /** The grouped tables are in order of first mention. */
  lemma {:induction false} GroupOrder(ids: seq<string>)
    ensures InMentionOrder(Group(ids).tables, TableParts(ids))
  {
    if |ids| > 0 {
      var init := ids[..|ids| - 1];
      var id := ids[|ids| - 1];
      var g := Group(init);
      var t0 := TablePart(id);
      assert Group(ids) == AddParts(g, t0, ColumnPart(id));
      GroupOrder(init);
      GroupTables(init);
      AddPartsTables(g, t0, ColumnPart(id));
      TablePartsSnoc(ids);
      MentionOrderSnoc(g.tables, TableParts(init), t0);
    } else {
      assert Group(ids).tables == [];
    }
  }

  /** Every named table the ids mention is grouped. */
  lemma {:induction false} GroupKnows(ids: seq<string>)
    ensures forall t, c :: t != "" && Mentions(ids, t, c) ==> t in Group(ids).entries
  {
    if |ids| > 0 {
      var init := ids[..|ids| - 1];
      var id := ids[|ids| - 1];
      var g := Group(init);
      assert ids == init + [id];
      assert Group(ids) == AddParts(g, TablePart(id), ColumnPart(id));
      GroupKnows(init);
      AddPartsKeys(g, TablePart(id), ColumnPart(id));
      MentionsSnoc(init, id);
    }
  }

  /** A table is starred exactly when some id selects its `*`. */
  lemma {:induction false} GroupStar(ids: seq<string>)
    ensures forall t :: t in Group(ids).entries ==> (Group(ids).entries[t].star <==> Mentions(ids, t, "*"))
  {
    if |ids| > 0 {
      var init := ids[..|ids| - 1];
      var id := ids[|ids| - 1];
      var g := Group(init);
      var t0, c0 := TablePart(id), ColumnPart(id);
      var r := AddParts(g, t0, c0);
      assert ids == init + [id];
      assert Group(ids) == r;
      GroupStar(init);
      GroupKnows(init);
      forall t | t in r.entries
        ensures r.entries[t].star <==> Mentions(ids, t, "*")
      {
        AddPartsStar(g, t0, c0, t);
        MentionsStep(init, id, t, "*");
        AddPartsKeys(g, t0, c0);
      }
    }
  }

  /** The columns of a table are the non-empty columns other than `*` that the ids name. */
  lemma {:induction false} GroupCols(ids: seq<string>)
    ensures forall t, c :: t in Group(ids).entries ==>
      (c in Group(ids).entries[t].cols <==> c != "" && c != "*" && Mentions(ids, t, c))
  {
    if |ids| > 0 {
      var init := ids[..|ids| - 1];
      var id := ids[|ids| - 1];
      var g := Group(init);
      var t0, c0 := TablePart(id), ColumnPart(id);
      var r := AddParts(g, t0, c0);
      assert ids == init + [id];
      assert Group(ids) == r;
      GroupCols(init);
      GroupKnows(init);
      forall t, c | t in r.entries
        ensures c in r.entries[t].cols <==> c != "" && c != "*" && Mentions(ids, t, c)
      {
        AddPartsCol(g, t0, c0, t, c);
        MentionsStep(init, id, t, c);
        AddPartsKeys(g, t0, c0);
      }
    }
  }

  lemma MentionsStep(init: seq<string>, id: string, t: string, c: string)
    ensures Mentions(init + [id], t, c) <==> Mentions(init, t, c) || (TablePart(id) == t && ColumnPart(id) == Some(c))
  {
    if Mentions(init, t, c) {
      var x :| x in init && TablePart(x) == t && ColumnPart(x) == Some(c);
      assert x in init + [id];
    }
    if TablePart(id) == t && ColumnPart(id) == Some(c) {
      assert id in init + [id];
    }
  }

  lemma MentionsSnoc(init: seq<string>, id: string)
    ensures forall t, c :: Mentions(init + [id], t, c) <==>
      Mentions(init, t, c) || (TablePart(id) == t && ColumnPart(id) == Some(c))
  {
    forall t, c
      ensures Mentions(init + [id], t, c) <==> Mentions(init, t, c) || (TablePart(id) == t && ColumnPart(id) == Some(c))
    {
      if Mentions(init, t, c) {
        var x :| x in init && TablePart(x) == t && ColumnPart(x) == Some(c);
        assert x in init + [id];
      }
      if TablePart(id) == t && ColumnPart(id) == Some(c) {
        assert id in init + [id];
      }
    }
  }

  /** What the blocks of `ts` list: `*` for a starred table, otherwise its columns. */
  lemma {:induction false} ExpandMembers(ts: seq<string>, entries: map<string, Entry>, t: string, c: string)
    requires forall u :: u in ts ==> u in entries
    ensures Selection(t, c) in ExpandTables(ts, entries)
        <==> t in ts && (if entries[t].star then c == "*" else c in entries[t].cols)
  {
    if |ts| > 0 {
      var init := ts[..|ts| - 1];
      var last := ts[|ts| - 1];
      assert forall u :: u in ts <==> u in init || u == last;
      ExpandMembers(init, entries, t, c);
      if t == last && !entries[t].star {
        var cs := SortedSet(entries[t].cols);
        if c in cs {
          var i :| 0 <= i < |cs| && cs[i] == c;
          assert Block(t, entries[t])[i] == Selection(t, c);
        }
      }
    }
  }

  /**
   * Selections grouped by table in the order of `tables`, with the columns
   * of one table strictly ascending.
   */
  ghost predicate Grouped(out: seq<Selection>, tables: seq<string>)
  {
    (forall p :: 0 <= p < |out| ==> out[p].table in tables)
    && forall p, q :: 0 <= p < q < |out| ==>
      FirstIndex(tables, out[p].table) <= FirstIndex(tables, out[q].table)
      && (out[p].table == out[q].table ==> StrLess(out[p].column, out[q].column))
  }

  lemma GroupedAt(out: seq<Selection>, tables: seq<string>, p: int, q: int)
    requires Grouped(out, tables) && 0 <= p < q < |out|
    ensures out[p].table in tables && out[q].table in tables
    ensures FirstIndex(tables, out[p].table) <= FirstIndex(tables, out[q].table)
    ensures out[p].table == out[q].table ==> StrLess(out[p].column, out[q].column)
  {
  }

  lemma BlockGrouped(t: string, e: Entry)
    ensures forall i :: 0 <= i < |Block(t, e)| ==> Block(t, e)[i].table == t
    ensures Grouped(Block(t, e), [t])
  {
  }

  /** A block for a new last table extends a grouped list. */
  lemma GroupedAppend(pre: seq<Selection>, blk: seq<Selection>, init: seq<string>, last: string,
                      out: seq<Selection>, ts: seq<string>)
    requires Grouped(pre, init) && Grouped(blk, [last]) && last !in init
    requires forall p :: 0 <= p < |pre| ==> pre[p].table in init
    requires forall p :: 0 <= p < |blk| ==> blk[p].table == last
    requires out == pre + blk && ts == init + [last]
    ensures Grouped(out, ts)
  {
    forall u | u in init
      ensures FirstIndex(ts, u) == FirstIndex(init, u) < |init|
    {
      FirstIndexAppend(init, last, u);
    }
    assert FirstIndex(ts, last) == |init|;
    forall p | 0 <= p < |out|
      ensures out[p].table in ts
    {
      if p < |pre| {
        assert out[p] == pre[p];
      } else {
        assert out[p] == blk[p - |pre|];
      }
    }
    forall p, q | 0 <= p < q < |out|
      ensures FirstIndex(ts, out[p].table) <= FirstIndex(ts, out[q].table)
        && (out[p].table == out[q].table ==> StrLess(out[p].column, out[q].column))
    {
      if q < |pre| {
        assert out[p] == pre[p] && out[q] == pre[q];
      } else if p < |pre| {
        assert out[p] == pre[p] && out[q] == blk[q - |pre|];
      } else {
        assert out[p] == blk[p - |pre|] && out[q] == blk[q - |pre|];
        assert StrLess(out[p].column, out[q].column);
      }
    }
  }

  lemma {:induction false} ExpandTablesFrom(ts: seq<string>, entries: map<string, Entry>)
    requires forall u :: u in ts ==> u in entries
    ensures forall p :: 0 <= p < |ExpandTables(ts, entries)| ==> ExpandTables(ts, entries)[p].table in ts
  {
    if |ts| > 0 {
      var init := ts[..|ts| - 1];
      var last := ts[|ts| - 1];
      var pre: seq<Selection> := ExpandTables(init, entries);
      var blk: seq<Selection> := Block(last, entries[last]);
      var out: seq<Selection> := pre + blk;
      ExpandTablesFrom(init, entries);
      BlockGrouped(last, entries[last]);
      assert ExpandTables(ts, entries) == pre + blk;
      forall p | 0 <= p < |out|
        ensures out[p].table in ts
      {
        if p < |pre| {
          assert out[p] == pre[p];
        } else {
          assert out[p] == blk[p - |pre|];
        }
      }
    }
  }

  /** The blocks of `ts` come in the order of `ts`, each strictly ascending. */
  lemma {:induction false} ExpandGrouped(ts: seq<string>, entries: map<string, Entry>)
    requires forall u :: u in ts ==> u in entries
    requires NoDup(ts)
    ensures Grouped(ExpandTables(ts, entries), ts)
  {
    if |ts| > 0 {
      var init := ts[..|ts| - 1];
      var last := ts[|ts| - 1];
      var pre := ExpandTables(init, entries);
      ExpandGrouped(init, entries);
      ExpandTablesFrom(init, entries);
      BlockGrouped(last, entries[last]);
      assert last !in init;
      assert ts == init + [last];
      assert ExpandTables(ts, entries) == pre + Block(last, entries[last]);
      GroupedAppend(pre, Block(last, entries[last]), init, last, ExpandTables(ts, entries), ts);
    } else {
      assert ExpandTables(ts, entries) == [];
    }
  }

  /** Grouping by `tables` carries over to any list in which `tables` are in mention order. */
  lemma GroupedTransfer(out: seq<Selection>, tables: seq<string>, parts: seq<string>)
    requires Grouped(out, tables) && InMentionOrder(tables, parts) && NoDup(tables)
    requires forall u :: u in tables ==> u in parts
    ensures Grouped(out, parts)
  {
    forall p | 0 <= p < |out|
      ensures out[p].table in parts
    {
      assert out[p].table in tables;
    }
    forall p, q | 0 <= p < q < |out|
      ensures FirstIndex(parts, out[p].table) <= FirstIndex(parts, out[q].table)
        && (out[p].table == out[q].table ==> StrLess(out[p].column, out[q].column))
    {
      GroupedAt(out, tables, p, q);
      var i, j := FirstIndex(tables, out[p].table), FirstIndex(tables, out[q].table);
      assert tables[i] == out[p].table && tables[j] == out[q].table;
      if i < j {
        assert FirstIndex(parts, tables[i]) < FirstIndex(parts, tables[j]);
      } else {
        assert out[p].table == out[q].table;
      }
    }
  }

  /**
   * `expandSelections` lists `t.c` exactly when some id names it with a
   * non-empty table and column, and `t` has no `*` selected unless `c` is
   * that `*`.
   */
  lemma SelectedIff(ids: seq<string>, t: string, c: string)
    ensures Selection(t, c) in ExpandSelections(ids)
        <==> t != "" && c != "" && Mentions(ids, t, c) && (Mentions(ids, t, "*") ==> c == "*")
  {
    var g := Group(ids);
    ExpandMembers(g.tables, g.entries, t, c);
    GroupKnows(ids);
    GroupStar(ids);
    GroupCols(ids);
  }

  /**
   * `expandSelections` lists tables in order of first mention; within a
   * table the columns strictly ascend, so a table with `*` selected gives
   * exactly one entry and no column appears twice.
   */
  lemma ExpandOrder(ids: seq<string>)
    ensures Grouped(ExpandSelections(ids), TableParts(ids))
  {
    var g := Group(ids);
    ExpandGrouped(g.tables, g.entries);
    GroupOrder(ids);
    GroupTables(ids);
    GroupedTransfer(ExpandSelections(ids), g.tables, TableParts(ids));
  }


  /** The grouping loop, filling the entries of `byTable` in place. */
  method GroupIds(ids: seq<string>) returns (tables: seq<string>, entries: map<string, Entry>)
    ensures Groups(tables, entries) == Group(ids)
  {
    tables, entries := [], map[];
    for i := 0 to |ids|
      invariant Groups(tables, entries) == Group(ids[..i])
    {
      assert ids[..i + 1][..i] == ids[..i];
      var t := TablePart(ids[i]);
      var c := ColumnPart(ids[i]);
      if t == "" {
        continue;
      }
      if t !in entries {
        entries := entries[t := Entry(false, [])];
        tables := tables + [t];
      }
      var e := entries[t];
      if c == Some("*") {
        entries := entries[t := e.(star := true)];
      } else if c.Some? && c.value != "" {
        if c.value !in e.cols {
          entries := entries[t := e.(cols := e.cols + [c.value])];
        }
      }
    }
    assert ids[..|ids|] == ids;
  }

  /** The output loop: `*` for a starred table, otherwise one selection per sorted column. */
  method ExpandGroups(tables: seq<string>, entries: map<string, Entry>) returns (out: seq<Selection>)
    requires forall t :: t in tables ==> t in entries
    ensures out == ExpandTables(tables, entries)
  {
    out := [];
    for i := 0 to |tables|
      invariant out == ExpandTables(tables[..i], entries)
    {
      ExpandTablesStep(tables, entries, i);
      var t := tables[i];
      var e := entries[t];
      if e.star {
        out := out + [Selection(t, "*")];
      } else {
        out := PushColumns(out, t, SortedSet(e.cols));
      }
    }
    assert tables[..|tables|] == tables;
  }

  lemma ExpandTablesStep(tables: seq<string>, entries: map<string, Entry>, i: nat)
    requires forall t :: t in tables ==> t in entries
    requires i < |tables|
    ensures ExpandTables(tables[..i + 1], entries) == ExpandTables(tables[..i], entries) + Block(tables[i], entries[tables[i]])
  {
    assert tables[..i + 1][..i] == tables[..i];
  }

  /** The inner output loop: one selection per column, in order. */
  method PushColumns(out0: seq<Selection>, t: string, cs: seq<string>) returns (out: seq<Selection>)
    ensures out == out0 + ColumnsOf(t, cs)
  {
    out := out0;
    for j := 0 to |cs|
      invariant out == out0 + ColumnsOf(t, cs[..j])
    {
      assert ColumnsOf(t, cs[..j + 1]) == ColumnsOf(t, cs[..j]) + [Selection(t, cs[j])];
      out := out + [Selection(t, cs[j])];
    }
    assert cs[..|cs|] == cs;
  }

  /** `expandSelections`: group the ids, then list each table's block. */
  method ExpandSelectionIds(ids: seq<string>) returns (out: seq<Selection>)
    ensures out == ExpandSelections(ids)
  {
    var tables, entries := GroupIds(ids);
    out := ExpandGroups(tables, entries);
  }
}
