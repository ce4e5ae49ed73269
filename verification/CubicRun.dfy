/** Why propagating a node, even one merged away meanwhile, leaves it settled: what one activation and
    one visited superset do, what remains true of those visited before, and what gets smaller
    from call to call. */
module CubicRun {
  import opened CubicGraph
  import opened CubicChanges
  import opened CubicMerge
  import opened CubicFields

  // ----- what cannot come back: the part of the termination measure that is not a rank -----

  lemma PendingShrinks(g: Graph, g': Graph, ex: set<Node>)
    requires Later(g, g', ex) && g'.live == g.live
    ensures g'.Pending() <= g.Pending()
  {
    forall p | p in g'.Pending() ensures p in g.Pending() {
      assert g'.Todos(p.0) <= g.Todos(p.0);
    }
  }

  lemma PendingDrops(g: Graph, n: Node, f: ASTFunction, p: Flow)
    requires n in g.nodes && p in g.Waiting(n, f)
    ensures g.ClearTodo(n, f).Pending() < g.Pending()
  {
    var g' := g.ClearTodo(n, f);
    forall q | q in g'.Pending() ensures q in g.Pending() {}
    var t :| t in g.Todos(n) && t.fn == f;
    assert (n, t) in g.Pending() && (n, t) !in g'.Pending();
  }

  // Nothing died and nothing was activated, so the edges and ranks are the ones of before.
  ghost predicate Quiet(g0: Graph, r0: Ranking, g: Graph, r: Ranking) {
    g.live == g0.live && g.Pending() == g0.Pending() ==> g.sup == g0.sup && r == r0
  }

  lemma QuietRefl(g: Graph, r: Ranking)
    ensures Quiet(g, r, g, r)
  {
  }

  lemma QuietStep(g0: Graph, r0: Ranking, g1: Graph, r1: Ranking, g2: Graph, r2: Ranking, ex: set<Node>, ex': set<Node>)
    requires Later(g0, g1, ex) && Later(g1, g2, ex') && Quiet(g0, r0, g1, r1) && Quiet(g1, r1, g2, r2)
    ensures Quiet(g0, r0, g2, r2)
  {
    if g2.live == g0.live {
      assert g1.live == g0.live;
      PendingShrinks(g0, g1, ex);
      PendingShrinks(g1, g2, ex');
    }
  }

  // ----- first half: the triggered entries are taken out -----

  ghost predicate Cleared(g0: Graph, g: Graph, node: Node, gone: set<ASTFunction>) {
    !g.Settled(node) ==>
      g.Bits(node) == g0.Bits(node)
      && (node in g.live ==> forall t | t in g.Todos(node) :: t.fn !in g.Bits(node) * gone)
  }

  lemma ClearSettled(g: Graph, node: Node, f: ASTFunction)
    requires g.Settled(node)
    ensures g.ClearTodo(node, f).Settled(node)
  {
    var g1 := g.ClearTodo(node, f);
    assert g1.Rep(node) == g.Rep(node) && g1.Sup(node) == g.Sup(node);
    assert forall x :: g1.Bits(x) == g.Bits(x);
  }

  // After f's entries are cleared at g and activated until g', f is cleared as well.
  lemma ClearedStep(g0: Graph, g: Graph, g': Graph, node: Node, gone: set<ASTFunction>, f: ASTFunction)
    requires node in g.nodes && Cleared(g0, g, node, gone) && Later(g.ClearTodo(node, f), g', {})
    ensures Cleared(g0, g', node, gone + {f})
  {
    var g1 := g.ClearTodo(node, f);
    if !g'.Settled(node) {
      assert Kept(g1, g', node);
      if g.Settled(node) { ClearSettled(g, node, f); }
      assert g'.Bits(node) == g1.Bits(node) == g.Bits(node);
    }
  }

  lemma ClearedSkip(g0: Graph, g: Graph, node: Node, gone: set<ASTFunction>, f: ASTFunction)
    requires Cleared(g0, g, node, gone) && f !in g.Bits(node)
    ensures Cleared(g0, g, node, gone + {f})
  {
  }

  // ----- second half: the functions go to each node of a snapshot of the supsets -----

  ghost predicate SupIn(g: Graph, node: Node, sups: set<Node>) {
    if node in g.live then forall s' | s' in g.Sup(node) :: exists s :: s in sups && g.Rep(s) == s'
    else g.Sup(node) == sups
  }

  /** As long as node is unsettled nothing new has come to it, its supsets are those of the
      snapshot (or what they were merged into), and those visited have all it has. */
  ghost predicate Spread(g: Graph, node: Node, sups: set<Node>, visited: set<Node>) {
    !g.Settled(node) ==>
      && (node in g.live ==> g.Untriggered(node))
      && SupIn(g, node, sups)
      && forall s | s in visited :: g.Bits(node) <= g.Bits(g.Rep(s))
  }

  lemma SpreadStart(g0: Graph, g: Graph, node: Node, all: set<ASTFunction>)
    requires g.Shape() && node in g.nodes && Cleared(g0, g, node, all) && g.Bits(node) <= all
    ensures Spread(g, node, g.Sup(node), {})
  {
    if node in g.live {
      assert g.Sup(node) <= g.live;
      forall s' | s' in g.Sup(node) ensures exists s :: s in g.Sup(node) && g.Rep(s) == s' {
        assert g.Rep(s') == s';
      }
    }
  }

  lemma SpreadSup(g: Graph, g': Graph, node: Node, sups: set<Node>)
    requires g.Keyed() && node in g.nodes && sups <= g.nodes && Extends(g, g') && Kept(g, g', node) && !g'.Settled(node)
    requires SupIn(g, node, sups)
    ensures SupIn(g', node, sups)
  {
    if node in g'.live {
      forall s'' | s'' in g'.Sup(node) ensures exists s :: s in sups && g'.Rep(s) == s'' {
        var s' :| s' in g.Sup(node) && g'.Rep(s') == s'';
        var s :| s in sups && g.Rep(s) == s';
        assert g'.Rep(s) == g'.Rep(g.Rep(s));
      }
    } else {
      assert g'.Sup(node) == g.Sup(node);
    }
  }

  lemma SpreadVisited(g: Graph, g': Graph, node: Node, visited: set<Node>)
    requires Grows(g, g') && node in g.nodes && visited <= g.nodes && g'.Bits(node) == g.Bits(node)
    requires forall s | s in visited :: g.Bits(node) <= g.Bits(g.Rep(s))
    ensures forall s | s in visited :: g'.Bits(node) <= g'.Bits(g'.Rep(s))
  {
    forall s | s in visited ensures g'.Bits(node) <= g'.Bits(g'.Rep(s)) {
      assert g.Bits(g.Rep(s)) <= g'.Bits(g'.Rep(s));
    }
  }

  // Visiting s: it gets all of node's functions and is then propagated until it is settled.
  lemma SpreadStep(g: Graph, g': Graph, node: Node, sups: set<Node>, visited: set<Node>, s: Node)
    requires g.Shape() && g'.Shape() && node in g.nodes && visited <= g.nodes && sups <= g.nodes && s in g.nodes
    requires Spread(g, node, sups, visited) && Later(g, g', {})
    requires Grows(g.AddBits(s, g.Bits(node)), g') && g'.Settled(s)
    ensures Spread(g', node, sups, visited + {s})
  {
    hide Graph.Shape, Graph.Keyed, Graph.Settled, Grows, Freezes, SupIn, SupKept, Graph.Rep, Graph.Bits;
    hide Graph.AddBits, Graph.Untriggered, Graph.Todos;
    ShapeKeyed(g);
    ShapeKeyed(g');
    if !g'.Settled(node) {
      assert Kept(g, g', node);
      if node in g'.live { UntriggeredSame(g, g', node); }
      SpreadSup(g, g', node, sups);
      SpreadVisited(g, g', node, visited);
      ArrivedAt(g, g', node, s);
    }
  }

  lemma UntriggeredSame(g: Graph, g': Graph, node: Node)
    requires g.Untriggered(node) && g'.Todos(node) == g.Todos(node) && g'.Bits(node) == g.Bits(node)
    ensures g'.Untriggered(node)
  {
  }

  lemma ArrivedAt(g: Graph, g': Graph, node: Node, s: Node)
    requires g'.Keyed() && s in g.nodes && g'.nodes == g.nodes
    requires Grows(g.AddBits(s, g.Bits(node)), g') && g'.Settled(s)
    ensures g.Bits(node) <= g'.Bits(g'.Rep(s))
  {
    var g2 := g.AddBits(s, g.Bits(node));
    assert g.Bits(node) <= g2.Bits(s) <= g'.Bits(s);
    if s in g'.live { assert g'.Rep(s) == s; }
  }

  lemma SpreadFewer(g: Graph, node: Node, sups: set<Node>, visited: set<Node>, fewer: set<Node>)
    requires Spread(g, node, sups, visited) && fewer <= visited
    ensures Spread(g, node, sups, fewer)
  {
  }

  lemma SpreadDone(g: Graph, node: Node, sups: set<Node>)
    requires g.Shape() && g.DeadLead({}) && node in g.nodes && Spread(g, node, sups, sups)
    ensures g.Settled(node)
  {
    if node !in g.live { assert g.Leads(node); }
  }

  // What a later moment has lost: a superset of a live node is gone exactly if it was merged away.
  lemma SupersetLost(g: Graph, g': Graph, n: Node, s: Node)
    requires g.Shape() && g'.Shape() && Later(g, g', {}) && n in g.nodes && s in g.Sup(n)
    ensures n in g'.live ==> (s in g'.Sup(n) <==> s in g'.live)
    ensures s !in g'.Sup(n) ==> n in g.live && s in g.live && s !in g'.live
  {
  }

  // ----- going through a set whose elements are ordered by address, while it changes -----

  function Ahead(s: set<Node>, up: nat): set<Node> { set x | x in s && up <= x }

  method Lowest(s: set<Node>) returns (x: Node)
    requires s != {}
    ensures x in s && forall y | y in s :: x <= y
  {
    x :| x in s;
    var todo := s - {x};
    while todo != {}
      invariant todo <= s && x in s && forall y | y in s && y !in todo :: x <= y
    {
      var y :| y in todo;
      todo := todo - {y};
      if y < x { x := y; }
    }
  }

  /** Below `up`, every member of the set that the loop began with was visited, unless it died. A
      node that was dead at the start loses none of its supsets. */
  ghost predicate Passed(g1: Graph, g: Graph, node: Node, up: nat, visited: set<Node>) {
    forall x | x in g1.Sup(node) && x < up && (x in g.live || node !in g1.live) :: x in visited
  }

  lemma PassedNone(g1: Graph, g: Graph, node: Node)
    ensures Passed(g1, g, node, 0, {})
  {
  }

  lemma AheadShrinks(nodes: set<Node>, up: nat, s: Node)
    requires s in nodes && up <= s
    ensures Ahead(nodes, s + 1) < Ahead(nodes, up)
  {
    assert s in Ahead(nodes, up);
  }

  lemma PassedStep(g1: Graph, g: Graph, g': Graph, node: Node, up: nat, visited: set<Node>, s: Node)
    requires Later(g1, g, {}) && Later(g, g', {}) && node in g1.nodes && Passed(g1, g, node, up, visited)
    requires s in Ahead(g.Sup(node), up) && forall y | y in Ahead(g.Sup(node), up) :: s <= y
    ensures Passed(g1, g', node, s + 1, visited + {s})
  {
    forall x | x in g1.Sup(node) && x < s + 1 && (x in g'.live || node !in g1.live) ensures x in visited + {s} {
      if x >= up {
        assert x in g.Sup(node);
        assert x in Ahead(g.Sup(node), up);
      }
    }
  }

  // When nothing is ahead, only dead nodes can have been missed, and none if nothing died.
  lemma PassedAll(g1: Graph, g: Graph, node: Node, up: nat, visited: set<Node>)
    requires g1.Shape() && Later(g1, g, {}) && node in g1.nodes
    requires Passed(g1, g, node, up, visited) && Ahead(g.Sup(node), up) == {}
    ensures (g1.Sup(node) - visited) !! g.live
    ensures g.live == g1.live ==> g1.Sup(node) <= visited
  {
    forall x | x in g1.Sup(node) && (x in g.live || node !in g1.live) ensures x in visited {
      assert x in g.Sup(node);
      assert x !in Ahead(g.Sup(node), up);
    }
  }

  // ----- soundness of passing functions on, and closing the books -----

  ghost predicate Below(g: Graph, cs: set<Constraint>, a: Node, b: Node) {
    forall s {:trigger Solves(s, cs)} | Solves(s, cs) :: At(s, g.Owner(a)) <= At(s, g.Owner(b))
  }

  lemma EdgeBelow(g: Graph, cs: set<Constraint>, a: Node)
    requires g.SoundForAll(cs) && a in g.nodes
    ensures forall b | b in g.Sup(a) :: Below(g, cs, a, b)
  {
    forall b, s | b in g.Sup(a) && Solves(s, cs) ensures At(s, g.Owner(a)) <= At(s, g.Owner(b)) {
      assert g.Sound(s);
    }
  }

  lemma BitsBelow(g: Graph, g1: Graph, cs: set<Constraint>, a: Node, b: Node)
    requires g.SoundForAll(cs) && a in g.nodes && g1.owner == g.owner && Below(g1, cs, a, b)
    ensures forall s {:trigger Solves(s, cs)} | Solves(s, cs) :: g.Bits(a) <= At(s, g.Owner(b))
  {
    forall s | Solves(s, cs) ensures g.Bits(a) <= At(s, g.Owner(b)) {
      assert g.Sound(s);
      assert At(s, g1.Owner(a)) <= At(s, g1.Owner(b));
    }
  }

  lemma LimboDone(g: Graph, k: Ledger, r: Ranking, limbo: set<Flow>)
    requires g.Inv(k, r, {}, {}) && k.limbo <= limbo + k.active
    ensures g.Inv(k.(limbo := limbo), r, {}, {})
  {
    var k' := k.(limbo := limbo);
    forall c | c in k'.asked ensures g.Records(c, k') { assert g.Records(c, k); }
    forall p | p in k'.active ensures g.Carries(p) {}
  }

  lemma SelfFlow(g: Graph, k: Ledger, r: Ranking, p: Flow)
    requires g.Inv(k, r, {}, {}) && p.from in g.dag && p.to in g.dag && g.dag[p.from] == g.dag[p.to]
    ensures g.Inv(k.(active := k.active + {p}), r, {}, {})
  {
    var k' := k.(active := k.active + {p});
    forall c | c in k'.asked ensures g.Records(c, k') { assert g.Records(c, k); }
    forall q | q in k'.active ensures g.Carries(q) { if q in k.active { assert g.Carries(q); } }
  }

  // The same questions, the same limbo, and no flow lost.
  ghost predicate Books(k: Ledger, k': Ledger) {
    k'.asked == k.asked && k'.limbo == k.limbo && k.active <= k'.active
  }

  ghost predicate Holding(cs: set<Constraint>, p: Flow) {
    forall s {:trigger Solves(s, cs)} | Solves(s, cs) :: At(s, p.from) <= At(s, p.to)
  }

  // What adding an edge, killing the cycles at its start and propagating there amounts to.
  lemma ActivateLater(g: Graph, g1: Graph, g2: Graph, g3: Graph, a: Node, n: Node)
    requires g.Shape() && g1.Shape() && g2.Shape() && g3.Shape() && a in g.live
    requires Later(g, g1, {a}) && Later(g1, g2, {n}) && Later(g2, g3, {}) && g3.Settled(n)
    requires g1.live == g.live && (n != a ==> a !in g2.live)
    ensures Later(g, g3, {})
  {
    hide Graph.Shape, Graph.Settled, Kept, Grows, Freezes;
    ShapeKeyed(g); ShapeKeyed(g1); ShapeKeyed(g2); ShapeKeyed(g3);
    if n != a { DeadSettled(g1, g2, {n}, a); }
    LaterTrans(g, g1, g2, {a}, {n});
    LaterTrans(g, g2, g3, {n}, {});
  }

  lemma StaysMapped(g: Graph, g': Graph, ex: set<Node>, a: ASTNode)
    requires Later(g, g', ex)
    ensures a in g.dag ==> a in g'.dag && g'.dag[a] == g'.Rep(g.dag[a])
  {
  }

  lemma ActivateMeasure(g: Graph, g1: Graph, g2: Graph, a: Node, n: Node)
    requires Later(g, g1, {a}) && Later(g1, g2, {n})
    ensures g2.live <= g.live && (g2.live == g.live ==> g2.Pending() <= g.Pending())
  {
    if g2.live == g.live {
      assert g1.live == g.live;
      PendingShrinks(g, g1, {a});
      PendingShrinks(g1, g2, {n});
    }
  }

  lemma LaterMeasure(g: Graph, g': Graph, ex: set<Node>)
    requires Later(g, g', ex)
    ensures g'.live <= g.live && (g'.live == g.live ==> g'.Pending() <= g.Pending())
    ensures g'.nodes == g.nodes && g'.owner == g.owner && g'.dag.Keys == g.dag.Keys
  {
    if g'.live == g.live { PendingShrinks(g, g', ex); }
  }

  // Composition while `node` may still be unsettled.
  lemma LaterThen(g: Graph, g1: Graph, g2: Graph, node: Node)
    requires g.Shape() && g1.Shape() && g2.Shape() && Later(g, g1, {node}) && Later(g1, g2, {})
    ensures Later(g, g2, {node})
  {
    hide Graph.Shape, Graph.Settled, Kept, Extends;
    ShapeKeyed(g); ShapeKeyed(g1); ShapeKeyed(g2);
    LaterWider(g1, g2, node);
    LaterCompose(g, g1, g2, node);
  }

  lemma LaterWider(g: Graph, g': Graph, node: Node)
    requires Later(g, g', {})
    ensures Later(g, g', {node})
  {
  }

  lemma LaterSettled(g: Graph, g': Graph, node: Node)
    requires Later(g, g', {node}) && g'.Settled(node)
    ensures Later(g, g', {})
  {
    forall x | x in g.nodes ensures Kept(g, g', x) { if x != node { assert Kept(g, g', x); } }
  }

  // s gets functions and is propagated until it is settled.
  lemma VisitLater(g: Graph, g1: Graph, g2: Graph, s: Node)
    requires g.Shape() && g1.Shape() && g2.Shape() && Later(g, g1, {s}) && Later(g1, g2, {}) && g2.Settled(s)
    ensures Later(g, g2, {})
  {
    hide Graph.Shape, Graph.Settled, Kept, Extends;
    ShapeKeyed(g); ShapeKeyed(g1); ShapeKeyed(g2);
    LaterTrans(g, g1, g2, {s}, {});
  }

  lemma TriggeredStart(g: Graph, r: Ranking, node: Node)
    requires g.Shape()
    ensures Later(g, g, {node}) && Quiet(g, r, g, r) && Cleared(g, g, node, {})
  {
    LaterRefl(g);
    LaterWider(g, g, node);
  }

  // Clearing an empty list changes neither edges nor ranks; otherwise an entry is gone for good.
  lemma QuietAfter(g: Graph, r: Ranking, n: Node, f: ASTFunction, g': Graph, r': Ranking)
    requires n in g.nodes && g.live <= g.nodes && Later(g.ClearTodo(n, f), g', {})
    requires g.Waiting(n, f) == {} ==> g'.sup == g.sup && r' == r
    ensures Quiet(g, r, g', r')
  {
    if g.Waiting(n, f) != {} && g'.live == g.live {
      var p :| p in g.Waiting(n, f);
      PendingDrops(g, n, f, p);
      PendingShrinks(g.ClearTodo(n, f), g', {});
    }
  }

  lemma ActivatedMeasure(g: Graph, n: Node, f: ASTFunction, g': Graph, p: Flow)
    requires n in g.nodes && p in g.Waiting(n, f) && Later(g.ClearTodo(n, f), g', {})
    ensures g'.live <= g.live && (g'.live == g.live ==> g'.Pending() < g.Pending())
  {
    PendingDrops(g, n, f, p);
    if g'.live == g.live { PendingShrinks(g.ClearTodo(n, f), g', {}); }
  }

  lemma BooksTrans(k: Ledger, k1: Ledger, k2: Ledger)
    requires Books(k, k1) && Books(k1, k2)
    ensures Books(k, k2)
  {
  }

  lemma LaterChain(g: Graph, g1: Graph, g2: Graph)
    requires g.Shape() && g1.Shape() && g2.Shape() && Later(g, g1, {}) && Later(g1, g2, {})
    ensures Later(g, g2, {})
  {
    hide Graph.Shape, Graph.Settled, Kept, Extends;
    ShapeKeyed(g); ShapeKeyed(g1); ShapeKeyed(g2);
    LaterTrans(g, g1, g2, {}, {});
  }

  lemma SupsKnown(g: Graph, node: Node)
    requires g.Shape() && node in g.nodes
    ensures g.Sup(node) <= g.nodes && node !in g.Sup(node)
  {
  }

  lemma AddBitsSame(g: Graph, n: Node, fs: set<ASTFunction>)
    ensures var g' := g.AddBits(n, fs);
            g'.nodes == g.nodes && g'.live == g.live && g'.sup == g.sup && g'.owner == g.owner
            && g'.Pending() == g.Pending()
  {
    assert g.AddBits(n, fs).Pending() == g.Pending() by {
      forall p ensures p in g.AddBits(n, fs).Pending() <==> p in g.Pending() {
        assert g.AddBits(n, fs).Todos(p.0) == g.Todos(p.0);
      }
    }
  }

  /** The call on s is smaller than the one on node: something died, or an entry was
      activated, or the edges and ranks are still those node's call began with. */
  lemma VisitMeasure(g1: Graph, r1: Ranking, g: Graph, r: Ranking, node: Node, s: Node)
    requires g1.RankedBut(r1, {}) && node in g1.nodes && (s in g1.Sup(node) || s in g.Sup(node))
    requires Later(g1, g, {}) && Quiet(g1, r1, g, r)
    ensures g.live <= g1.live && (g.live == g1.live ==> g.Pending() <= g1.Pending())
    ensures g.live == g1.live && g.Pending() == g1.Pending() ==> r.Of(s) < r1.Of(node)
  {
    if g.live == g1.live {
      PendingShrinks(g1, g, {});
      if g.Pending() == g1.Pending() {
        assert s in g1.Sup(node);
        assert g1.Descends(r1, {}, node, s);
      }
    }
  }

  lemma QuietVisit(g: Graph, r: Ranking, g': Graph, r': Ranking, s: Node, fs: set<ASTFunction>)
    requires Quiet(g.AddBits(s, fs), r, g', r')
    ensures Quiet(g, r, g', r')
  {
    AddBitsSame(g, s, fs);
  }

  lemma TriggeredMeasure(g0: Graph, r0: Ranking, g: Graph, r: Ranking, node: Node)
    requires Later(g0, g, {node}) && Quiet(g0, r0, g, r)
    ensures g.live <= g0.live && (g.live == g0.live ==> g.Pending() <= g0.Pending())
    ensures g.live == g0.live && g.Pending() == g0.Pending() ==> r == r0
  {
    LaterMeasure(g0, g, {node});
  }

  lemma LaterGrows(g: Graph, g': Graph)
    requires Later(g, g', {})
    ensures Grows(g, g')
  {
  }
}
