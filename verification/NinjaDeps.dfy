/** Topological sorting of a build graph by counting predecessors, and the ancestors of every vertex. */
module NinjaDeps {
  import opened Common

  type Vertex = nat

  datatype Graph = Graph(nodes: set<Vertex>, edges: set<(Vertex, Vertex)>)
  {
    predicate Valid() { forall e :: e in edges ==> e.0 in nodes && e.1 in nodes }

    function InNeighbors(v: Vertex): set<Vertex> { set e | e in edges && e.1 == v :: e.0 }

    function OutNeighbors(v: Vertex): set<Vertex> { set e | e in edges && e.0 == v :: e.1 }

    /** A walk along edges, possibly of a single vertex. */
    predicate IsPath(p: seq<Vertex>) {
      p != [] && (forall i :: 0 <= i < |p| ==> p[i] in nodes) && forall i :: 0 < i < |p| ==> (p[i - 1], p[i]) in edges
    }

    ghost predicate Reaches(u: Vertex, v: Vertex) { exists p :: IsPath(p) && p[0] == u && p[|p| - 1] == v }

    /** Reaching by at least one edge. */
    ghost predicate ProperlyReaches(u: Vertex, v: Vertex) {
      exists p :: IsPath(p) && |p| > 1 && p[0] == u && p[|p| - 1] == v
    }

    ghost predicate Acyclic() { forall v :: v in nodes ==> !ProperlyReaches(v, v) }
  }

  function Emitted(order: seq<Vertex>): set<Vertex> { set i | 0 <= i < |order| :: order[i] }

  /** Vertices come once, each after all its predecessors. */
  ghost predicate Ordered(g: Graph, order: seq<Vertex>) {
    && NoDup(order) && Emitted(order) <= g.nodes
    && forall i :: 0 <= i < |order| ==> g.InNeighbors(order[i]) <= Emitted(order[..i])
  }

  /** None that could still come is missing. */
  ghost predicate Sorts(g: Graph, order: seq<Vertex>) {
    Ordered(g, order) && forall v :: v in g.nodes && g.InNeighbors(v) <= Emitted(order) ==> v in Emitted(order)
  }

  lemma Neighbors(g: Graph, v: Vertex, w: Vertex)
    ensures w in g.OutNeighbors(v) <==> (v, w) in g.edges
    ensures v in g.InNeighbors(w) <==> (v, w) in g.edges
  {
    if (v, w) in g.edges {
      assert (v, w).1 in g.OutNeighbors(v) && (v, w).0 in g.InNeighbors(w);
    }
  }

  // ----- the sort -----

  /** How many predecessors of v are not yet output. */
  function Undone(g: Graph, done: set<Vertex>, v: Vertex): nat { |g.InNeighbors(v) - done| }

  /** Each counter counts the predecessors not yet output; the ready set holds what can come next. */
  ghost predicate Counting(g: Graph, done: set<Vertex>, ideg: map<Vertex, int>, ready: set<Vertex>) {
    && ideg.Keys == g.nodes
    && (forall v :: v in g.nodes ==> ideg[v] == Undone(g, done, v))
    && (forall v :: v in ready <==> v in g.nodes && v !in done && ideg[v] == 0)
  }

  lemma EmittedSnoc(order: seq<Vertex>, v: Vertex)
    ensures Emitted(order + [v]) == Emitted(order) + {v}
  {
    assert forall i :: 0 <= i < |order| ==> (order + [v])[i] == order[i];
    assert (order + [v])[|order|] == v;
  }

  lemma OrderedSnoc(g: Graph, order: seq<Vertex>, v: Vertex)
    requires Ordered(g, order) && v in g.nodes && v !in Emitted(order) && g.InNeighbors(v) <= Emitted(order)
    ensures Ordered(g, order + [v]) && Emitted(order + [v]) == Emitted(order) + {v}
  {
    hide Graph.InNeighbors;
    EmittedSnoc(order, v);
    assert forall i :: 0 <= i < |order| ==> order[i] in Emitted(order);
    assert (order + [v])[..|order|] == order;
    forall i | 0 <= i < |order| ensures (order + [v])[..i] == order[..i] {}
  }

  lemma NoneUndone(g: Graph, done: set<Vertex>, v: Vertex)
    ensures Undone(g, done, v) == 0 <==> g.InNeighbors(v) <= done
  {
    var s, t := g.InNeighbors(v), done;
    if s <= t {
      assert s - t == {};
    } else {
      var x :| x in s && x !in t;
      assert x in s - t;
    }
  }

  /** One more output lowers the counters of its successors. */
  lemma OneLess(g: Graph, done: set<Vertex>, v: Vertex, w: Vertex)
    requires v !in done
    ensures Undone(g, done + {v}, w) == Undone(g, done, w) - (if w in g.OutNeighbors(v) then 1 else 0)
  {
    Neighbors(g, v, w);
    var before, after := g.InNeighbors(w) - done, g.InNeighbors(w) - (done + {v});
    if w in g.OutNeighbors(v) {
      assert before == after + {v};
    } else {
      assert before == after;
    }
  }

  /** Midway through the successors of v: the counters of those already visited are up to date. */
  ghost predicate Partway(g: Graph, done: set<Vertex>, v: Vertex, todo: set<Vertex>, ideg: map<Vertex, int>,
                          ready: set<Vertex>) {
    && ideg.Keys == g.nodes
    && (forall w :: w in g.nodes ==>
      ideg[w] == Undone(g, done, w) - (if w in g.OutNeighbors(v) && w !in todo then 1 else 0))
    && (forall w :: w in ready <==> w in g.nodes && w !in done && w != v && ideg[w] == 0)
  }

  lemma Visited(g: Graph, done: set<Vertex>, v: Vertex, todo: set<Vertex>, ideg: map<Vertex, int>, ready: set<Vertex>,
                w: Vertex)
    requires Partway(g, done, v, todo, ideg, ready) && ideg.Keys == g.nodes
    requires w in todo && w in g.OutNeighbors(v) && w in g.nodes && w !in done && w != v && Undone(g, done, w) > 0
    ensures var ideg' := ideg[w := ideg[w] - 1];
      Partway(g, done, v, todo - {w}, ideg', if ideg'[w] == 0 then ready + {w} else ready)
  {
    hide *;
    var ideg' := ideg[w := ideg[w] - 1];
    var ready' := if ideg'[w] == 0 then ready + {w} else ready;
    PartwayAt(g, done, v, todo, ideg, ready);
    forall x | x in g.nodes
      ensures ideg'[x] == Undone(g, done, x) - (if x in g.OutNeighbors(v) && x !in todo - {w} then 1 else 0) {}
    MakePartway(g, done, v, todo - {w}, ideg', ready');
  }

  lemma PartwayAt(g: Graph, done: set<Vertex>, v: Vertex, todo: set<Vertex>, ideg: map<Vertex, int>, ready: set<Vertex>)
    requires Partway(g, done, v, todo, ideg, ready)
    ensures ideg.Keys == g.nodes
    ensures forall w :: w in g.nodes ==>
      ideg[w] == Undone(g, done, w) - (if w in g.OutNeighbors(v) && w !in todo then 1 else 0)
    ensures forall w :: w in ready <==> w in g.nodes && w !in done && w != v && ideg[w] == 0
  {}

  lemma MakePartway(g: Graph, done: set<Vertex>, v: Vertex, todo: set<Vertex>, ideg: map<Vertex, int>,
                    ready: set<Vertex>)
    requires ideg.Keys == g.nodes
    requires forall w :: w in g.nodes ==>
      ideg[w] == Undone(g, done, w) - (if w in g.OutNeighbors(v) && w !in todo then 1 else 0)
    requires forall w :: w in ready <==> w in g.nodes && w !in done && w != v && ideg[w] == 0
    ensures Partway(g, done, v, todo, ideg, ready)
  {}

  /** A successor of the vertex being output is neither that vertex nor output already. */
  lemma SuccessorPending(g: Graph, done: set<Vertex>, v: Vertex, w: Vertex)
    requires g.Valid() && w in g.OutNeighbors(v) && v !in done && g.InNeighbors(v) <= done
    requires forall x :: x in done ==> g.InNeighbors(x) <= done
    ensures w in g.nodes && w !in done && w != v && Undone(g, done, w) > 0
  {
    Neighbors(g, v, w);
    assert v in g.InNeighbors(w) - done;
  }

  /** Outputs every vertex that no cycle leads to, whichever ready vertex is taken each time. */
  method Toposort(g: Graph) returns (order: seq<Vertex>)
    requires g.Valid()
    ensures Sorts(g, order)
  {
    var ideg: map<Vertex, int> := map v | v in g.nodes :: |g.InNeighbors(v)|;
    var ready := set v | v in ideg && ideg[v] == 0;
    order := [];
    StartCounting(g, ideg, ready);
    hide *;
    while |ready| > 0
      invariant Ordered(g, order) && Counting(g, Emitted(order), ideg, ready)
      decreases |g.nodes - Emitted(order)|
    {
      ghost var done := Emitted(order);
      var v :| v in ready;
      ReadyVertex(g, done, ideg, ready, v);
      OrderedSnoc(g, order, v);
      ClosedPrefix(g, order);
      OneFewer(g.nodes, done, v);
      order := order + [v];
      ideg, ready := Lower(g, done, v, ideg, ready - {v});
    }
    NothingMissing(g, order, ideg, ready);
  }

  lemma StartCounting(g: Graph, ideg: map<Vertex, int>, ready: set<Vertex>)
    requires ideg == (map v | v in g.nodes :: |g.InNeighbors(v)|) && ready == (set v | v in ideg && ideg[v] == 0)
    ensures Ordered(g, []) && Counting(g, Emitted([]), ideg, ready)
  {
    forall v | v in g.nodes ensures ideg[v] == Undone(g, {}, v) {
      assert g.InNeighbors(v) - {} == g.InNeighbors(v);
    }
  }

  lemma ReadyVertex(g: Graph, done: set<Vertex>, ideg: map<Vertex, int>, ready: set<Vertex>, v: Vertex)
    requires Counting(g, done, ideg, ready) && v in ready
    ensures v in g.nodes && v !in done && g.InNeighbors(v) <= done && ready - {v} + {v} == ready
  {
    NoneUndone(g, done, v);
  }

  lemma OneFewer(s: set<Vertex>, done: set<Vertex>, v: Vertex)
    requires v in s && v !in done
    ensures |s - (done + {v})| < |s - done|
  {
    assert s - done == (s - (done + {v})) + {v};
  }

  lemma NothingMissing(g: Graph, order: seq<Vertex>, ideg: map<Vertex, int>, ready: set<Vertex>)
    requires Ordered(g, order) && Counting(g, Emitted(order), ideg, ready) && |ready| == 0
    ensures Sorts(g, order)
  {
    hide Ordered, Emitted;
    forall v | v in g.nodes && g.InNeighbors(v) <= Emitted(order) ensures v in Emitted(order) {
      NoneUndone(g, Emitted(order), v);
      assert v !in ready;
    }
  }

  lemma ClosedPrefix(g: Graph, order: seq<Vertex>)
    requires Ordered(g, order)
    ensures forall x :: x in Emitted(order) ==> g.InNeighbors(x) <= Emitted(order)
  {
    hide Graph.InNeighbors;
    forall x | x in Emitted(order) ensures g.InNeighbors(x) <= Emitted(order) {
      var i :| 0 <= i < |order| && order[i] == x;
      forall y | y in Emitted(order[..i]) ensures y in Emitted(order) {
        var j :| 0 <= j < i && order[..i][j] == y;
        assert order[j] == y;
      }
    }
  }

  /** Lowers the counters of v's successors; those that reach zero become ready. */
  method Lower(g: Graph, ghost done: set<Vertex>, v: Vertex, ideg0: map<Vertex, int>, ready0: set<Vertex>)
    returns (ideg: map<Vertex, int>, ready: set<Vertex>)
    requires g.Valid() && v in g.nodes && v !in done && g.InNeighbors(v) <= done
    requires Counting(g, done, ideg0, ready0 + {v}) && v !in ready0
    requires forall x :: x in done ==> g.InNeighbors(x) <= done
    ensures Counting(g, done + {v}, ideg, ready)
  {
    ideg, ready := ideg0, ready0;
    var todo := g.OutNeighbors(v);
    StartPartway(g, done, v, ideg, ready);
    hide *;
    while todo != {}
      invariant todo <= g.OutNeighbors(v) && Partway(g, done, v, todo, ideg, ready)
      decreases |todo|
    {
      var w :| w in todo;
      PartwayAt(g, done, v, todo, ideg, ready);
      SuccessorPending(g, done, v, w);
      Visited(g, done, v, todo, ideg, ready, w);
      ideg := ideg[w := ideg[w] - 1];
      if ideg[w] == 0 { ready := ready + {w}; }
      todo := todo - {w};
    }
    EndPartway(g, done, v, ideg, ready);
  }

  lemma StartPartway(g: Graph, done: set<Vertex>, v: Vertex, ideg: map<Vertex, int>, ready: set<Vertex>)
    requires Counting(g, done, ideg, ready + {v}) && v !in ready
    ensures Partway(g, done, v, g.OutNeighbors(v), ideg, ready)
  {
    hide Graph.OutNeighbors, Undone;
    assert forall w :: w in ready + {v} <==> w in ready || w == v;
  }

  lemma EndPartway(g: Graph, done: set<Vertex>, v: Vertex, ideg: map<Vertex, int>, ready: set<Vertex>)
    requires Partway(g, done, v, {}, ideg, ready) && v !in done
    ensures Counting(g, done + {v}, ideg, ready)
  {
    forall w | w in g.nodes ensures ideg[w] == Undone(g, done + {v}, w) {
      OneLess(g, done, v, w);
    }
    hide Undone, Graph.OutNeighbors;
  }

  // ----- acyclic graphs -----

  lemma {:induction false} Backwards(g: Graph, rest: set<Vertex>, v: Vertex, n: nat) returns (p: seq<Vertex>)
    requires g.Valid() && rest <= g.nodes && v in rest
    requires forall x :: x in rest ==> g.InNeighbors(x) * rest != {}
    ensures g.IsPath(p) && |p| == n + 1 && forall i :: 0 <= i < |p| ==> p[i] in rest
  {
    if n == 0 {
      p := [v];
    } else {
      var q := Backwards(g, rest, v, n - 1);
      var u :| u in g.InNeighbors(q[0]) * rest;
      Neighbors(g, u, q[0]);
      p := [u] + q;
      forall i | 0 < i < |p| ensures (p[i - 1], p[i]) in g.edges {
        if i > 1 { assert (q[i - 2], q[i - 1]) in g.edges; }
      }
    }
  }

  lemma {:induction false} Pigeonhole(p: seq<Vertex>, s: set<Vertex>)
    requires (forall i :: 0 <= i < |p| ==> p[i] in s) && NoDup(p)
    ensures |p| <= |s|
    decreases |p|
  {
    if p != [] {
      Pigeonhole(p[1..], s - {p[0]});
    }
  }

  lemma Subpath(g: Graph, p: seq<Vertex>, i: nat, j: nat)
    requires g.IsPath(p) && i <= j < |p|
    ensures g.IsPath(p[i..j + 1])
  {
    var q := p[i..j + 1];
    forall k | 0 < k < |q| ensures (q[k - 1], q[k]) in g.edges {
      assert (p[i + k - 1], p[i + k]) in g.edges;
    }
  }

  /** Position in the order grows along edges, so along paths. */
  lemma {:induction false} PathClimbs(g: Graph, order: seq<Vertex>, p: seq<Vertex>, i: nat, j: nat)
    requires Ordered(g, order) && g.IsPath(p) && i < |order| && j < |order| && order[i] == p[0]
    requires order[j] == p[|p| - 1]
    requires forall v :: v in g.nodes ==> v in Emitted(order)
    ensures i <= j && (|p| > 1 ==> i < j)
    decreases |p|
  {
    if |p| > 1 {
      var front := p[..|p| - 1];
      var u := front[|front| - 1];
      var k :| 0 <= k < |order| && order[k] == u;
      PathClimbs(g, order, front, i, k);
      assert (p[|p| - 2], p[|p| - 1]) in g.edges;
      Neighbors(g, u, order[j]);
      var m :| 0 <= m < j && order[..j][m] == u;
    }
  }

  /** All vertices are output exactly if the graph has no cycle. */
  lemma CompleteIffAcyclic(g: Graph, order: seq<Vertex>)
    requires g.Valid() && Sorts(g, order)
    ensures Emitted(order) == g.nodes <==> g.Acyclic()
  {
    if Emitted(order) == g.nodes {
      CompleteAcyclic(g, order);
    } else {
      var v :| v in g.nodes && v !in Emitted(order);
      CycleLeft(g, order, v);
    }
  }

  lemma CompleteAcyclic(g: Graph, order: seq<Vertex>)
    requires Ordered(g, order) && Emitted(order) == g.nodes
    ensures g.Acyclic()
  {
    forall v, p | v in g.nodes && g.IsPath(p) && |p| > 1 && p[0] == v ensures p[|p| - 1] != v {
      var i :| 0 <= i < |order| && order[i] == v;
      if p[|p| - 1] == v { PathClimbs(g, order, p, i, i); }
    }
  }

  /** Among vertices that never come, each has such a predecessor, so some path among them meets itself. */
  lemma CycleLeft(g: Graph, order: seq<Vertex>, v: Vertex)
    requires g.Valid() && Sorts(g, order) && v in g.nodes && v !in Emitted(order)
    ensures !g.Acyclic()
  {
    var rest := g.nodes - Emitted(order);
    forall x | x in rest ensures g.InNeighbors(x) * rest != {} {
      var u :| u in g.InNeighbors(x) && u !in Emitted(order);
      Neighbors(g, u, x);
      assert u in g.InNeighbors(x) * rest;
    }
    var p := Backwards(g, rest, v, |rest|);
    MeetsItself(g, p, rest);
  }

  lemma MeetsItself(g: Graph, p: seq<Vertex>, rest: set<Vertex>)
    requires g.IsPath(p) && |p| > |rest| && forall i :: 0 <= i < |p| ==> p[i] in rest
    ensures !g.Acyclic()
  {
    if NoDup(p) { Pigeonhole(p, rest); }
    var i, j :| 0 <= i < j < |p| && p[i] == p[j];
    Subpath(g, p, i, j);
    var q := p[i..j + 1];
    assert q[0] == p[i] && q[|q| - 1] == p[j];
    assert g.ProperlyReaches(p[i], p[i]);
  }

  // ----- ancestors -----

  /** Every vertex from which v can be reached, v included. */
  ghost function Ancestry(g: Graph, v: Vertex): set<Vertex> { set u | u in g.nodes && g.Reaches(u, v) }

  function Image<T>(f: Vertex -> T, s: set<Vertex>): set<T> { set x | x in s :: f(x) }

  lemma ReachStep(g: Graph, u: Vertex, v: Vertex)
    requires g.Valid() && v in g.nodes
    ensures g.Reaches(u, v) <==> u == v || exists w :: w in g.InNeighbors(v) && g.Reaches(u, w)
  {
    if g.Reaches(u, v) {
      var p :| g.IsPath(p) && p[0] == u && p[|p| - 1] == v;
      if |p| > 1 {
        var w := p[|p| - 2];
        Neighbors(g, w, v);
        Subpath(g, p, 0, |p| - 2);
        assert g.IsPath(p[0..|p| - 1]) && p[0..|p| - 1][|p| - 2] == w;
      }
    }
    if u == v { assert g.IsPath([v]); }
    if w :| w in g.InNeighbors(v) && g.Reaches(u, w) {
      var p :| g.IsPath(p) && p[0] == u && p[|p| - 1] == w;
      Neighbors(g, w, v);
      assert g.IsPath(p + [v]);
    }
  }

  lemma AncestryStep(g: Graph, v: Vertex)
    requires g.Valid() && v in g.nodes
    ensures forall u :: u in Ancestry(g, v) <==> u == v || exists w :: w in g.InNeighbors(v) && u in Ancestry(g, w)
  {
    forall u ensures u in Ancestry(g, v) <==> u == v || exists w :: w in g.InNeighbors(v) && u in Ancestry(g, w) {
      ReachStep(g, u, v);
      if w :| w in g.InNeighbors(v) && g.Reaches(u, w) {
        var p :| g.IsPath(p) && p[0] == u && p[|p| - 1] == w;
        assert u in Ancestry(g, w);
      }
    }
  }

  /** Walks the sorted vertices, collecting for each the translated ancestors of its predecessors. */
  method Ancestors<T(==)>(g: Graph, translate: Vertex -> T) returns (order: seq<Vertex>, out: seq<(T, set<T>)>)
    requires g.Valid()
    ensures Sorts(g, order) && |out| == |order|
    ensures forall i :: 0 <= i < |order| ==>
      out[i] == (translate(order[i]), Image(translate, Ancestry(g, order[i])) - {translate(order[i])})
  {
    order := Toposort(g);
    hide Graph.InNeighbors, Ancestry, Image;
    assert Ordered(g, order);
    out := [];
    var a: map<Vertex, set<T>> := map[];
    for i := 0 to |order|
      invariant |out| == i && a.Keys == Emitted(order[..i])
      invariant forall v :: v in a ==> v in g.nodes && a[v] == Image(translate, Ancestry(g, v))
      invariant forall j :: 0 <= j < i ==>
        out[j] == (translate(order[j]), Image(translate, Ancestry(g, order[j])) - {translate(order[j])})
    {
      var v := order[i];
      assert v in Emitted(order) && g.InNeighbors(v) <= Emitted(order[..i]);
      var av := Collect(g, translate, v, a);
      EmittedSnoc(order[..i], v);
      assert order[..i + 1] == order[..i] + [v];
      a := a[v := av];
      out := out + [(translate(v), av - {translate(v)})];
    }
  }

  method Collect<T(==)>(g: Graph, translate: Vertex -> T, v: Vertex, a: map<Vertex, set<T>>) returns (av: set<T>)
    requires g.Valid() && v in g.nodes && g.InNeighbors(v) <= a.Keys
    requires forall w :: w in a ==> a[w] == Image(translate, Ancestry(g, w))
    ensures av == Image(translate, Ancestry(g, v))
  {
    av := {translate(v)};
    ghost var seen: set<Vertex> := {v};
    var todo := g.InNeighbors(v);
    while todo != {}
      invariant todo <= g.InNeighbors(v)
      invariant forall u :: u in seen <==>
        u == v || exists w :: w in g.InNeighbors(v) && w !in todo && u in Ancestry(g, w)
      invariant av == Image(translate, seen)
      decreases |todo|
    {
      hide Ancestry;
      var w :| w in todo;
      ImageUnion(translate, seen, Ancestry(g, w));
      av := av + a[w];
      seen := seen + Ancestry(g, w);
      todo := todo - {w};
    }
    AncestryStep(g, v);
    assert seen == Ancestry(g, v);
  }

  lemma ImageUnion<T>(f: Vertex -> T, s: set<Vertex>, t: set<Vertex>)
    ensures Image(f, s + t) == Image(f, s) + Image(f, t)
  {}

  /** Without cycles and with distinct labels, what is reported is exactly the labels of the proper ancestors. */
  lemma ProperAncestors<T>(g: Graph, f: Vertex -> T, v: Vertex)
    requires g.Valid() && g.Acyclic() && v in g.nodes
      && forall x, y :: x in g.nodes && y in g.nodes && f(x) == f(y) ==> x == y
    ensures Image(f, Ancestry(g, v)) - {f(v)} == Image(f, set u | u in g.nodes && g.ProperlyReaches(u, v))
  {
    var proper := set u | u in g.nodes && g.ProperlyReaches(u, v);
    forall u | u in g.nodes ensures u in Ancestry(g, v) && u != v <==> u in proper {
      if g.Reaches(u, v) && u != v {
        var p :| g.IsPath(p) && p[0] == u && p[|p| - 1] == v;
        assert |p| > 1;
      }
    }
    assert Ancestry(g, v) - {v} == proper;
    assert forall u :: u in proper ==> u in g.nodes && f(u) != f(v);
  }
}
