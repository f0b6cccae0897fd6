/** A stack-based flood fill over any finite graph: what is marked when the
    stack runs dry is exactly what open walks from the border reach. */
module GraphFill {
  import opened Common

  /** `next[i]` lists the neighbours a node offers; those that are not open
      (or off the image) are ignored. */
  datatype Graph = Graph(open: set<int>, border: set<int>, next: map<int, seq<int>>)
  {
    predicate Valid() { open <= next.Keys }
  }

  ghost predicate Walk(g: Graph, path: seq<int>, i: int)
    requires g.Valid()
  {
    && |path| > 0 && path[|path| - 1] == i
    && (forall k :: 0 <= k < |path| ==> path[k] in g.open)
    && path[0] in g.border
    && (forall k :: 0 < k < |path| ==> path[k] in g.next[path[k - 1]])
  }

  ghost predicate Reach(g: Graph, i: int)
    requires g.Valid()
  {
    exists path :: Walk(g, path, i)
  }

  /** Every open neighbour of i is in r. */
  ghost predicate Leads(g: Graph, i: int, r: set<int>)
    requires g.Valid() && i in g.open
  {
    forall j :: j in g.next[i] && j in g.open ==> j in r
  }

  /** Open nodes, all of the open border among them, with no way out. */
  ghost predicate Closed(g: Graph, r: set<int>)
    requires g.Valid()
  {
    r <= g.open && g.open * g.border <= r && forall i :: i in r ==> Leads(g, i, r)
  }

  ghost function Reached(g: Graph): set<int>
    requires g.Valid()
  {
    set i | i in g.open && Reach(g, i)
  }

  lemma ReachedIsClosed(g: Graph)
    requires g.Valid()
    ensures Closed(g, Reached(g))
  {
    forall i | i in g.open && i in g.border
      ensures Reach(g, i)
    {
      assert Walk(g, [i], i);
    }
    forall i, j | i in Reached(g) && j in g.next[i] && j in g.open
      ensures Reach(g, j)
    {
      var path :| Walk(g, path, i);
      assert Walk(g, path + [j], j);
    }
  }

  lemma {:induction false} ClosedHoldsWalk(g: Graph, r: set<int>, path: seq<int>, i: int)
    requires g.Valid() && Closed(g, r) && Walk(g, path, i)
    ensures i in r
    decreases |path|
  {
    var n := |path| - 1;
    if n > 0 {
      assert Walk(g, path[..n], path[n - 1]);
      ClosedHoldsWalk(g, r, path[..n], path[n - 1]);
      assert path[n] in g.next[path[n - 1]];
    }
  }

  /** The reached nodes are the least closed set. */
  lemma ReachedIsLeast(g: Graph, r: set<int>)
    requires g.Valid() && Closed(g, r)
    ensures Reached(g) <= r
  {
    forall i | i in Reached(g)
      ensures i in r
    {
      var path :| Walk(g, path, i);
      ClosedHoldsWalk(g, r, path, i);
    }
  }

  // ---- the fill as a function of its state ----

  /** `pushed` lists every push there ever was. */
  datatype Fill = Fill(marked: set<int>, stack: seq<int>, pushed: seq<int>)

  const BLANK := Fill({}, [], [])

  function Mark(g: Graph, f: Fill, i: int): Fill {
    if i !in g.open || i in f.marked then f
    else Fill(f.marked + {i}, f.stack + [i], f.pushed + [i])
  }

  function MarkAll(g: Graph, f: Fill, nodes: seq<int>): Fill {
    if nodes == [] then f
    else
      var n := |nodes| - 1;
      Mark(g, MarkAll(g, f, nodes[..n]), nodes[n])
  }

  lemma MarkTwo(g: Graph, f: Fill, nodes: seq<int>, a: int, b: int)
    ensures MarkAll(g, f, nodes + [a, b]) == Mark(g, Mark(g, MarkAll(g, f, nodes), a), b)
  {
    assert (nodes + [a, b])[..|nodes| + 1] == nodes + [a];
    assert (nodes + [a])[..|nodes|] == nodes;
  }

  lemma MarkFour(g: Graph, f: Fill, a: int, b: int, c: int, d: int)
    ensures MarkAll(g, f, [a, b, c, d]) == Mark(g, Mark(g, Mark(g, Mark(g, f, a), b), c), d)
  {
    MarkTwo(g, f, [], a, b);
    MarkTwo(g, f, [] + [a, b], c, d);
    assert [] + [a, b] + [c, d] == [a, b, c, d];
  }

  lemma {:induction false} MarkAllSizes(g: Graph, f: Fill, nodes: seq<int>)
    ensures |MarkAll(g, f, nodes).stack| - |f.stack| == |MarkAll(g, f, nodes).marked| - |f.marked|
  {
    if nodes != [] {
      MarkAllSizes(g, f, nodes[..|nodes| - 1]);
    }
  }

  /** What MarkAll does, whatever the order: the open nodes among `nodes` are
      marked, and those not marked before go on the stack. */
  lemma {:induction false} MarkAllMarks(g: Graph, f: Fill, nodes: seq<int>, i: int)
    ensures i in MarkAll(g, f, nodes).marked <==> i in f.marked || (i in nodes && i in g.open)
    ensures i in MarkAll(g, f, nodes).stack <==> i in f.stack || (i in nodes && i in g.open && i !in f.marked)
  {
    if nodes != [] {
      var n := |nodes| - 1;
      MarkAllMarks(g, f, nodes[..n], i);
      assert nodes == nodes[..n] + [nodes[n]];
    }
  }

  lemma MarkAllSets(g: Graph, f: Fill, nodes: seq<int>)
    ensures MarkAll(g, f, nodes).marked == f.marked + (ToSet(nodes) * g.open)
    ensures ToSet(MarkAll(g, f, nodes).stack) == ToSet(f.stack) + (ToSet(nodes) * g.open - f.marked)
  {
    forall i
      ensures i in MarkAll(g, f, nodes).marked <==> i in f.marked || (i in nodes && i in g.open)
      ensures i in MarkAll(g, f, nodes).stack <==> i in f.stack || (i in nodes && i in g.open && i !in f.marked)
    {
      MarkAllMarks(g, f, nodes, i);
    }
  }

  /** No node was pushed twice, and the pushed nodes are the marked ones. */
  ghost predicate PushedOnce(f: Fill) {
    && ToSet(f.pushed) == f.marked
    && forall j, k :: 0 <= j < k < |f.pushed| ==> f.pushed[j] != f.pushed[k]
  }

  lemma {:induction false} MarkAllPushesOnce(g: Graph, f: Fill, nodes: seq<int>)
    requires PushedOnce(f)
    ensures PushedOnce(MarkAll(g, f, nodes))
  {
    if nodes != [] {
      var n := |nodes| - 1;
      MarkAllPushesOnce(g, f, nodes[..n]);
      var h := MarkAll(g, f, nodes[..n]);
      ToSetSnoc(h.pushed, nodes[n]);
      assert nodes[n] !in h.marked ==> nodes[n] !in h.pushed;
    }
  }

  // ---- the invariant ----

  /** Between two nodes of the fill: the open border is marked, only reached
      nodes are, and a marked node off the stack has all its open neighbours
      marked. */
  ghost predicate Filling(g: Graph, f: Fill)
    requires g.Valid()
  {
    && g.open * g.border <= f.marked <= Reached(g)
    && ToSet(f.stack) <= f.marked
    && (forall i :: i in f.marked && i !in ToSet(f.stack) ==> Leads(g, i, f.marked))
    && PushedOnce(f)
  }

  lemma SeededIsFilling(g: Graph, seeds: seq<int>)
    requires g.Valid() && g.open * ToSet(seeds) == g.open * g.border
    ensures Filling(g, MarkAll(g, BLANK, seeds))
  {
    MarkAllSets(g, BLANK, seeds);
    MarkAllPushesOnce(g, BLANK, seeds);
    ReachedIsClosed(g);
  }

  // ---- one node off the stack ----

  function Pop(f: Fill): Fill
    requires f.stack != []
  {
    f.(stack := f.stack[..|f.stack| - 1])
  }

  /** The popped node's neighbours, offered in turn. */
  function Spread(g: Graph, f: Fill): Fill
    requires f.stack != [] && f.stack[|f.stack| - 1] in g.next
  {
    MarkAll(g, Pop(f), g.next[f.stack[|f.stack| - 1]])
  }

  ghost function Left(g: Graph, f: Fill): int { 2 * (|g.open| - |f.marked|) + |f.stack| }

  /** Offering a popped node's neighbours keeps the fill going, and leaves
      less to do. */
  lemma SpreadStep(g: Graph, f: Fill)
    requires g.Valid() && Filling(g, f) && f.stack != []
    ensures f.stack[|f.stack| - 1] in g.open
    ensures Filling(g, Spread(g, f)) && 0 <= Left(g, Spread(g, f)) < Left(g, f)
  {
    var n := |f.stack| - 1;
    var i, h := f.stack[n], Pop(f);
    assert f.stack == h.stack + [i];
    ToSetSnoc(h.stack, i);
    assert i in ToSet(f.stack);
    var near := g.next[i];
    var f' := MarkAll(g, h, near);
    MarkAllSets(g, h, near);
    MarkAllSizes(g, h, near);
    MarkAllPushesOnce(g, h, near);
    SubsetSize(f.marked, f'.marked);
    ReachedIsClosed(g);
    assert Leads(g, i, Reached(g));
    StillClosed(g, f, h, f', i);
    SubsetSize(f'.marked, g.open);
  }

  lemma StillClosed(g: Graph, f: Fill, h: Fill, f': Fill, i: int)
    requires g.Valid() && i in g.open && f.marked <= g.open
    requires forall a :: a in f.marked && a !in ToSet(f.stack) ==> Leads(g, a, f.marked)
    requires h.marked == f.marked && ToSet(f.stack) == ToSet(h.stack) + {i}
    requires f'.marked == h.marked + (ToSet(g.next[i]) * g.open)
    requires ToSet(f'.stack) == ToSet(h.stack) + (ToSet(g.next[i]) * g.open - h.marked)
    ensures forall a :: a in f'.marked && a !in ToSet(f'.stack) ==> a in g.open && Leads(g, a, f'.marked)
  {
  }

  // ---- the end ----

  lemma RestIsExact(g: Graph, f: Fill)
    requires g.Valid() && Filling(g, f) && f.stack == []
    ensures f.marked == Reached(g)
  {
    assert ToSet(f.stack) == {};
    ReachedIsLeast(g, f.marked);
  }
}
