/** When propagation takes out nothing, and what its loops lose otherwise. */
module CubicCalm {
  import opened CubicGraph
  import opened CubicMerge
  import opened CubicRun
  import opened CubicAsk

  // ----- what lies above a node -----

  ghost predicate ClosedUp(g: Graph, c: set<Node>) {
    forall x {:trigger g.Sup(x)} | x in c :: g.Sup(x) <= c
  }

  // A way along edges, live or stale: every set closed under supsets that has a has b.
  ghost predicate Reaches(g: Graph, a: Node, b: Node) {
    forall c {:trigger ClosedUp(g, c)} | a in c && ClosedUp(g, c) :: b in c
  }

  lemma ReachesTrans(g: Graph, a: Node, b: Node, c: Node)
    requires Reaches(g, a, b) && Reaches(g, b, c)
    ensures Reaches(g, a, c)
  {
  }

  lemma ReachesStep(g: Graph, a: Node, b: Node)
    requires b in g.Sup(a)
    ensures Reaches(g, a, b) && Reaches(g, a, a) && Reaches(g, b, b)
  {
  }

  lemma ReachesSame(g: Graph, g': Graph, a: Node, b: Node)
    requires g'.sup == g.sup
    ensures Reaches(g, a, b) <==> Reaches(g', a, b)
  {
    assert forall c {:trigger ClosedUp(g, c)} {:trigger ClosedUp(g', c)} :: ClosedUp(g, c) <==> ClosedUp(g', c) by {
      assert forall x :: g.Sup(x) == g'.Sup(x);
    }
  }

  // ----- what can be triggered -----

  ghost predicate Triggers(g: Graph, node: Node, m: Node, n: Node, t: Todo) {
    Reaches(g, node, m) && Reaches(g, m, n) && t in g.Todos(n) && t.fn in g.Bits(m)
  }

  /** No entry that waits above the node is for a function that could arrive there: one that the
      node has, or another node on the way. */
  ghost predicate Calm(g: Graph, node: Node) {
    forall m, n, t :: !Triggers(g, node, m, n, t)
  }

  // Nothing died, no edge changed, and nothing was taken out.
  ghost predicate SameSets(g: Graph, g': Graph) {
    g'.live == g.live && g'.sup == g.sup && forall n :: g'.Todos(n) == g.Todos(n)
  }

  ghost predicate Unmoved(g: Graph, g': Graph) {
    SameSets(g, g') && forall n :: g'.Bits(n) == g.Bits(n)
  }

  ghost predicate Sent(g: Graph, node: Node, m: Node, x: Node, f: ASTFunction) {
    Reaches(g, node, m) && Reaches(g, m, x) && f in g.Bits(m)
  }

  // New functions come from the node or from above it.
  ghost predicate Flowed(g: Graph, g': Graph, node: Node) {
    forall x, f {:trigger f in g'.Bits(x)} | f in g'.Bits(x) :: f in g.Bits(x) || exists m :: Sent(g, node, m, x, f)
  }

  ghost predicate Undisturbed(g: Graph, g': Graph, node: Node) {
    Calm(g, node) ==> SameSets(g, g') && Flowed(g, g', node)
  }

  lemma CalmUntriggered(g: Graph, node: Node)
    requires Calm(g, node)
    ensures g.Untriggered(node)
  {
    forall t | t in g.Todos(node) ensures t.fn !in g.Bits(node) {
      assert !Triggers(g, node, node, node, t);
    }
  }

  lemma UnmovedIsUndisturbed(g: Graph, g': Graph, node: Node)
    requires g.Untriggered(node) ==> Unmoved(g, g')
    ensures Undisturbed(g, g', node)
  {
    if Calm(g, node) { CalmUntriggered(g, node); }
  }

  lemma ClearIsUnmoved(g: Graph, node: Node, f: ASTFunction)
    requires g.Waiting(node, f) == {}
    ensures Unmoved(g, g.ClearTodo(node, f))
  {
    var g' := g.ClearTodo(node, f);
    forall n ensures g'.Todos(n) == g.Todos(n) {
      forall t | t in g.Todos(node) ensures t.fn != f {
        assert t.fn == f ==> Flow(t.from, t.to) in g.Waiting(node, f);
      }
    }
  }

  // With no triggered entry to begin with, going over the functions of the node takes nothing out.
  lemma UnmovedStep(g0: Graph, g1: Graph, g: Graph, node: Node, f: ASTFunction)
    requires g0.Untriggered(node) ==> Unmoved(g0, g1)
    requires f in g1.Bits(node) && (g1.Waiting(node, f) == {} ==> g == g1.ClearTodo(node, f))
    ensures g0.Untriggered(node) ==> Unmoved(g0, g)
  {
    if g0.Untriggered(node) {
      assert g1.Waiting(node, f) == {} by { assert f in g0.Bits(node) && g1.Todos(node) == g0.Todos(node); }
      ClearIsUnmoved(g1, node, f);
    }
  }

  // Passing functions on to a superset leaves things calm there.
  lemma CalmVisit(g0: Graph, g: Graph, node: Node, s: Node)
    requires Calm(g0, node) && SameSets(g0, g) && Flowed(g0, g, node) && s in g.Sup(node)
    ensures Calm(g.AddBits(s, g.Bits(node)), s)
  {
    var g' := g.AddBits(s, g.Bits(node));
    forall m, n, t ensures !Triggers(g', s, m, n, t) {
      if Triggers(g', s, m, n, t) {
        var f := t.fn;
        ReachesSame(g0, g', s, m);
        ReachesSame(g0, g', m, n);
        ReachesStep(g0, node, s);
        ReachesTrans(g0, node, s, m);
        if f in g.Bits(m) {
          StillCalm(g0, g, node, m, n, t);
        } else {
          ReachesTrans(g0, node, m, n);
          StillCalm(g0, g, node, node, n, t);
        }
      }
    }
  }

  lemma StillCalm(g0: Graph, g: Graph, node: Node, m: Node, n: Node, t: Todo)
    requires Calm(g0, node) && SameSets(g0, g) && Flowed(g0, g, node)
    requires Reaches(g0, node, m) && Reaches(g0, m, n) && t in g.Todos(n)
    ensures t.fn !in g.Bits(m)
  {
    assert !Triggers(g0, node, m, n, t);
    if t.fn in g.Bits(m) {
      var l :| Sent(g0, node, l, m, t.fn);
      ReachesTrans(g0, l, m, n);
      assert Triggers(g0, node, l, n, t);
    }
  }

  // One superset has been visited.
  lemma VisitUndisturbed(g0: Graph, g1: Graph, g2: Graph, g: Graph, node: Node, s: Node)
    requires Undisturbed(g0, g1, node) && Undisturbed(g0, g2, node) && s in g1.Sup(node)
    requires Undisturbed(g2.AddBits(s, g2.Bits(node)), g, s)
    ensures Undisturbed(g0, g, node)
  {
    var g3 := g2.AddBits(s, g2.Bits(node));
    if Calm(g0, node) {
      assert g1.Sup(node) == g2.Sup(node);
      CalmVisit(g0, g2, node, s);
      forall x, f | f in g.Bits(x) && f !in g0.Bits(x) ensures exists m :: Sent(g0, node, m, x, f) {
        SentOn(g0, g2, g, node, s, x, f);
      }
    }
  }

  lemma SentOn(g0: Graph, g: Graph, g': Graph, node: Node, s: Node, x: Node, f: ASTFunction)
    requires SameSets(g0, g) && Flowed(g0, g, node) && s in g.Sup(node)
    requires Flowed(g.AddBits(s, g.Bits(node)), g', s) && f in g'.Bits(x) && f !in g0.Bits(x)
    ensures exists m :: Sent(g0, node, m, x, f)
  {
    var g3 := g.AddBits(s, g.Bits(node));
    ReachesStep(g0, node, s);
    if f in g3.Bits(x) {
      ArrivedBy(g0, g, node, s, x, x, f);
    } else {
      var m :| Sent(g3, s, m, x, f);
      ReachesSame(g0, g3, s, m);
      ReachesSame(g0, g3, m, x);
      ReachesTrans(g0, node, s, m);
      ArrivedBy(g0, g, node, s, m, x, f);
    }
  }

  // What m has after the superset s got the functions of the node was sent from the node or above it.
  lemma ArrivedBy(g0: Graph, g: Graph, node: Node, s: Node, m: Node, x: Node, f: ASTFunction)
    requires SameSets(g0, g) && Flowed(g0, g, node) && Reaches(g0, node, s) && Reaches(g0, m, x) && f !in g0.Bits(x)
    requires m == x || Reaches(g0, node, m)
    requires f in g.AddBits(s, g.Bits(node)).Bits(m)
    ensures exists l :: Sent(g0, node, l, x, f)
  {
    var from := if f in g.Bits(m) then m else node;
    if f !in g.Bits(m) { ReachesTrans(g0, node, m, x); }
    assert f in g.Bits(from) && Reaches(g0, from, x);
    if f in g0.Bits(from) {
      assert Sent(g0, node, from, x, f);
    } else {
      var l :| Sent(g0, node, l, from, f);
      ReachesTrans(g0, l, from, x);
      assert Sent(g0, node, l, x, f);
    }
  }

  lemma NothingDisturbed(g: Graph, node: Node)
    ensures Unmoved(g, g) && Undisturbed(g, g, node)
  {
  }

  // ----- exactly when the sets stay the same -----

  lemma {:induction false} LiveReaches(g: Graph, a: Node, b: Node)
    requires g.Shape() && a in g.live && Reaches(g, a, b)
    ensures b in g.live
  {
    assert ClosedUp(g, g.live);
  }

  // In a settled graph, what a node has is everywhere above it.
  lemma BitsReach(g: Graph, a: Node, b: Node)
    requires g.Shape() && AllSettled(g) && a in g.live && Reaches(g, a, b)
    ensures b in g.live && g.Bits(a) <= g.Bits(b)
  {
    var c := set x | x in g.live && g.Bits(a) <= g.Bits(x);
    forall x | x in c ensures g.Sup(x) <= c {
      assert g.Settled(x) && g.Sup(x) <= g.live;
    }
    assert ClosedUp(g, c) && a in c;
  }

  /** Propagation, from a live node with all others settled, takes no entry out and edits no set if
      and only if it starts calm: then the set its loop goes through is always the one it began with. */
  lemma CalmIff(g: Graph, g': Graph, node: Node)
    requires g.Shape() && g'.Shape() && node in g.live && forall x | x in g.nodes && x != node :: g.Settled(x)
    requires Later(g, g', {}) && g'.Settled(node) && Undisturbed(g, g', node)
    ensures Calm(g, node) <==> SameSets(g, g')
  {
    if SameSets(g, g') {
      assert AllSettled(g') by { SettledButOne(g, g', node); }
      forall m, n, t ensures !Triggers(g, node, m, n, t) {
        if Reaches(g, node, m) && Reaches(g, m, n) && t in g.Todos(n) {
          LiveReaches(g, node, m);
          ReachesSame(g, g', m, n);
          BitsReach(g', m, n);
          assert g'.Settled(n) && t in g'.Todos(n) && g.Bits(m) <= g'.Bits(m);
        }
      }
    }
  }

  // ----- a run that erases the element its loop stands on -----

  // A solver that was asked for 0 in 1, 2 in 1, and, if function 5 is in 1, for 1 in 2.
  ghost predicate BeforeErasure(g: Graph, k: Ledger, r: Ranking) {
    && g.Inv(k, r, {}, {}) && k.limbo == {} && g.dag.Keys == {0, 1, 2}
    && k.asked == {Subseteq(0, 1), Subseteq(2, 1), Conditional(5, 1, 1, 2)}
  }

  // A solution without function 5.
  const WITHOUT: Assignment := map[0 := {9}, 1 := {7, 8, 9}, 2 := {7}]

  lemma WithoutSolves()
    ensures Solves(WITHOUT, {Subseteq(0, 1), Subseteq(2, 1), Conditional(5, 1, 1, 2)})
    ensures forall a, b | 0 <= a < 3 && 0 <= b < 3 && a != b && b != 1 :: !(At(WITHOUT, a) <= At(WITHOUT, b))
  {
    assert 9 in At(WITHOUT, 0) && 8 in At(WITHOUT, 1) && 7 in At(WITHOUT, 2) && 7 in At(WITHOUT, 1);
  }

  lemma NoEdgeBut(g: Graph, k: Ledger, r: Ranking, a: ASTNode, b: ASTNode)
    requires BeforeErasure(g, k, r) && a < 3 && b < 3 && a != b && b != 1
    ensures a in g.dag && b in g.dag && g.dag[a] != g.dag[b] && g.dag[b] !in g.Sup(g.dag[a])
  {
    WithoutSolves();
    assert a in {0, 1, 2} && b in {0, 1, 2};
    assert Solves(WITHOUT, k.asked) && g.Inv(k, r, {}, {}) && a in g.dag && b in g.dag;
    assert !(At(WITHOUT, a) <= At(WITHOUT, b));
    hide BeforeErasure, WITHOUT, Solves, At, Graph.Inv;
    NotBelow(g, k, r, a, b, WITHOUT);
  }

  lemma ConditionWaits(g: Graph, k: Ledger, r: Ranking)
    requires BeforeErasure(g, k, r)
    ensures 1 in g.dag && Todo(5, 1, 2) in g.Todos(g.dag[1])
  {
    NoEdgeBut(g, k, r, 1, 2);
    assert g.Records(Conditional(5, 1, 1, 2), k);
    assert Flow(1, 2) in k.active ==> g.Carries(Flow(1, 2));
  }

  // Its graph: edges from 0 and 2 to 1, and the condition waiting at 1.
  lemma ErasureGraph(g: Graph, k: Ledger, r: Ranking)
    requires BeforeErasure(g, k, r)
    ensures g.dag[0] != g.dag[1] && g.dag[1] != g.dag[2] && g.dag[0] != g.dag[2]
    ensures g.live == {g.dag[0], g.dag[1], g.dag[2]} && g.live <= g.nodes
    ensures g.Sup(g.dag[0]) == {g.dag[1]} && g.Sup(g.dag[2]) == {g.dag[1]} && g.Sup(g.dag[1]) == {}
    ensures g.Sub(g.dag[1]) == {g.dag[0], g.dag[2]}
  {
    hide Graph.Inv, Graph.Shape;
    NoEdgeBut(g, k, r, 0, 2);
    NoEdgeBut(g, k, r, 2, 0);
    NoEdgeBut(g, k, r, 1, 0);
    NoEdgeBut(g, k, r, 1, 2);
    SubseteqIsEdge(g, k, r, 0, 1);
    SubseteqIsEdge(g, k, r, 2, 1);
    InvShape(g, k, r, {}, {});
    ThreeLive(g);
  }

  /** When function 5 arrives at node 0, propagation is not calm: visiting superset 1 activates the
      edge from 1 to 2, which closes a cycle, and folding 1 into 2 takes 1, the element the loop
      at node 0 stands on, out of the set it is going through. */
  lemma VisitErases(g: Graph, k: Ledger, r: Ranking)
    requires BeforeErasure(g, k, r)
    ensures var n, s, x := g.dag[0], g.dag[1], g.dag[2];
      && !Calm(g.AddBits(n, {5}), n) && g.Sup(n) == {s}
      && IsPath(g.AddEdge(s, x), [s, x]) && x in g.AddEdge(s, x).Sup(s)
      && g.AddEdge(s, x).Merged(x, s).Sup(n) == {x} && s != x
  {
    ErasureGraph(g, k, r);
    ConditionWaits(g, k, r);
    hide BeforeErasure;
    var n, s, x := g.dag[0], g.dag[1], g.dag[2];
    var g1, g2 := g.AddBits(n, {5}), g.AddEdge(s, x);
    assert s in g1.Sup(n);
    ReachesStep(g1, n, s);
    assert Triggers(g1, n, n, s, Todo(5, 1, 2));
    assert g2.Sup(s) == {x} && g2.Sup(x) == {s} && g2.Sup(n) == {s} && g2.Sub(s) == {n, x};
  }

  // ----- a run that misses what was merged into a lower address -----

  // A solver that was asked for 0 in 1, 0 in 2, 3 in 2, and, if function 5 is in 1, for 2 in 3.
  ghost predicate BeforeMissing(g: Graph, k: Ledger, r: Ranking) {
    && g.Inv(k, r, {}, {}) && k.limbo == {} && g.dag.Keys == {0, 1, 2, 3}
    && k.asked == {Subseteq(0, 1), Subseteq(0, 2), Subseteq(3, 2), Conditional(5, 1, 2, 3)}
  }

  // A solution in which these inclusions hold and no others.
  const TELLING: Assignment := map[0 := {9}, 1 := {8, 9}, 2 := {6, 7, 9}, 3 := {7}]

  ghost predicate Included(a: ASTNode, b: ASTNode) {
    (a == 0 && (b == 1 || b == 2)) || (a == 3 && b == 2)
  }

  lemma TellingSolves()
    ensures Solves(TELLING, {Subseteq(0, 1), Subseteq(0, 2), Subseteq(3, 2), Conditional(5, 1, 2, 3)})
    ensures forall a, b | 0 <= a < 4 && 0 <= b < 4 && a != b && !Included(a, b) :: !(At(TELLING, a) <= At(TELLING, b))
  {
    assert 9 in At(TELLING, 0) && 8 in At(TELLING, 1) && 6 in At(TELLING, 2) && 7 in At(TELLING, 3);
  }

  lemma OnlyIncluded(g: Graph, k: Ledger, r: Ranking, a: ASTNode, b: ASTNode)
    requires BeforeMissing(g, k, r) && a < 4 && b < 4 && a != b
    ensures a in g.dag && b in g.dag && g.dag[a] != g.dag[b] && (g.dag[b] in g.Sup(g.dag[a]) <==> Included(a, b))
  {
    TellingSolves();
    assert a in {0, 1, 2, 3} && b in {0, 1, 2, 3};
    assert Solves(TELLING, k.asked) && g.Inv(k, r, {}, {}) && k.limbo == {} && a in g.dag && b in g.dag;
    assert Included(a, b) ==> Subseteq(a, b) in k.asked && !(At(TELLING, b) <= At(TELLING, a));
    assert !Included(a, b) ==> !(At(TELLING, a) <= At(TELLING, b));
    hide BeforeMissing, TELLING, Solves, At, Graph.Inv, Included;
    if Included(a, b) {
      NotBelow(g, k, r, b, a, TELLING);
      SubseteqIsEdge(g, k, r, a, b);
    } else {
      NotBelow(g, k, r, a, b, TELLING);
    }
  }

  lemma FourLive(g: Graph)
    requires g.Shape() && g.dag.Keys == {0, 1, 2, 3}
    ensures g.live == {g.dag[0], g.dag[1], g.dag[2], g.dag[3]} && g.live <= g.nodes
    ensures forall x | x in g.live :: g.Sup(x) <= g.live && g.Sub(x) <= g.live && x !in g.Sup(x)
    ensures forall x, y | x in g.live && y in g.live :: y in g.Sup(x) <==> x in g.Sub(y)
  {
    LiveAreMapped(g);
    forall x | x in g.live ensures x in {g.dag[0], g.dag[1], g.dag[2], g.dag[3]} {
      var a :| a in g.dag.Keys && g.dag[a] == x;
    }
  }

  // Edges from n to a and b and from c to b, and no functions.
  ghost predicate Fork(g: Graph, n: Node, a: Node, b: Node, c: Node) {
    && n != a && n != b && n != c && a != b && a != c && b != c && g.live == {n, a, b, c} && g.live <= g.nodes
    && g.Sup(n) == {a, b} && g.Sup(b) == {} && g.Sup(c) == {b} && g.Sub(b) == {n, c} && g.Sub(c) == {}
    && forall x | x in g.nodes :: g.Bits(x) == {}
  }

  lemma MissingGraph(g: Graph, k: Ledger, r: Ranking)
    requires BeforeMissing(g, k, r)
    ensures Fork(g, g.dag[0], g.dag[1], g.dag[2], g.dag[3])
  {
    hide Graph.Inv, Graph.Shape;
    assert g.dag.Keys == {0, 1, 2, 3} && g.Inv(k, r, {}, {});
    NothingYet(g, k, r);
    MissingEdges(g, k, r);
    InvShape(g, k, r, {}, {});
    hide BeforeMissing;
    FourLive(g);
    ForkOf(g, g.dag[0], g.dag[1], g.dag[2], g.dag[3]);
  }

  lemma ForkOf(g: Graph, n: Node, a: Node, b: Node, c: Node)
    requires n != a && n != b && n != c && a != b && a != c && b != c && g.live == {n, a, b, c} && g.live <= g.nodes
    requires forall x | x in g.live :: g.Sup(x) <= g.live && g.Sub(x) <= g.live && x !in g.Sup(x)
    requires forall x, y | x in g.live && y in g.live :: y in g.Sup(x) <==> x in g.Sub(y)
    requires a in g.Sup(n) && b in g.Sup(n) && c !in g.Sup(n) && b in g.Sup(c) && a !in g.Sup(b) && c !in g.Sup(b)
    requires n !in g.Sup(b) && n !in g.Sup(c) && a !in g.Sup(c) && b !in g.Sup(a) && c !in g.Sup(a)
    requires forall x | x in g.nodes :: g.Bits(x) == {}
    ensures Fork(g, n, a, b, c)
  {
  }

  lemma MissingEdges(g: Graph, k: Ledger, r: Ranking)
    requires BeforeMissing(g, k, r)
    ensures forall a, b | a in g.dag && b in g.dag && a != b ::
              g.dag[a] != g.dag[b] && (g.dag[b] in g.Sup(g.dag[a]) <==> Included(a, b))
  {
    assert g.dag.Keys == {0, 1, 2, 3};
    forall a, b | a in g.dag && b in g.dag && a != b
      ensures g.dag[a] != g.dag[b] && (g.dag[b] in g.Sup(g.dag[a]) <==> Included(a, b))
    {
      assert a in {0, 1, 2, 3} && b in {0, 1, 2, 3};
      hide BeforeMissing;
      OnlyIncluded(g, k, r, a, b);
    }
  }

  // No function was asked for, so none is anywhere.
  lemma NothingYet(g: Graph, k: Ledger, r: Ranking)
    requires BeforeMissing(g, k, r)
    ensures forall n | n in g.nodes :: g.Bits(n) == {}
  {
    assert Solves(map[], k.asked);
    assert g.Sound(map[]);
    forall n | n in g.nodes ensures g.Bits(n) == {} { assert g.Bits(n) <= At(map[], g.Owner(n)); }
  }

  lemma StillWaits(g: Graph, k: Ledger, r: Ranking)
    requires BeforeMissing(g, k, r)
    ensures 1 in g.dag && Todo(5, 2, 3) in g.Todos(g.dag[1])
  {
    OnlyIncluded(g, k, r, 2, 3);
    assert g.Records(Conditional(5, 1, 2, 3), k);
    assert Flow(2, 3) in k.active ==> g.Carries(Flow(2, 3));
  }

  /** When function 5 arrives at node 0 and superset 1 is visited first, having a lower address than 2,
      the visit activates the edge from 2 to 3, which closes a cycle, and 2 is folded into 3, in which
      function 5 is not. The loop stands on 1, which was not erased. If 3 has a lower address than 1,
      and only then, nothing is ahead of 1 any more: the loop as written ends, and the answer does not
      satisfy that 0 is in 2. */
  lemma VisitMisses(g: Graph, k: Ledger, r: Ranking)
    requires BeforeMissing(g, k, r)
    ensures var n, a, b, c := g.dag[0], g.dag[1], g.dag[2], g.dag[3];
      var g1 := g.AddBits(n, {5}).AddBits(a, {5}).ClearTodo(a, 5).AddEdge(b, c);
      var g2 := g1.Merged(c, b);
      && g.Sup(n) == {a, b} && Todo(5, 2, 3) in g.Todos(a)
      && IsPath(g1, [b, c]) && c in g1.Sup(b)
      && g2.Sup(n) == {a, c} && g2.Bits(c) == {}
      && (Ahead(g2.Sup(n), a + 1) == {} <==> c < a)
      && !Holds(Answer(g2), Subseteq(0, 2))
  {
    MissingGraph(g, k, r);
    StillWaits(g, k, r);
    assert g.dag.Keys == {0, 1, 2, 3};
    hide BeforeMissing, Holds, Answer, Fork, IsPath;
    ForkRun(g, g.dag[0], g.dag[1], g.dag[2], g.dag[3]);
  }

  lemma ForkRun(g: Graph, n: Node, a: Node, b: Node, c: Node)
    requires Fork(g, n, a, b, c) && 0 in g.dag && 2 in g.dag && g.dag[0] == n && g.dag[2] == b
    ensures var g1 := g.AddBits(n, {5}).AddBits(a, {5}).ClearTodo(a, 5).AddEdge(b, c);
      var g2 := g1.Merged(c, b);
      && g.Sup(n) == {a, b} && IsPath(g1, [b, c]) && c in g1.Sup(b)
      && g2.Sup(n) == {a, c} && g2.Bits(c) == {}
      && (Ahead(g2.Sup(n), a + 1) == {} <==> c < a)
      && !Holds(Answer(g2), Subseteq(0, 2))
  {
    var g0 := g.AddBits(n, {5}).AddBits(a, {5}).ClearTodo(a, 5);
    var g1 := g0.AddEdge(b, c);
    var g2 := g1.Merged(c, b);
    hide Fork, IsPath, Graph.AddEdge, Graph.AddBits, Graph.ClearTodo, Graph.Merged, Holds, Answer, Ahead;
    ForkBits(g, n, a, b, c);
    ForkEdge(g, g0, n, a, b, c);
    ForkMerge(g1, n, a, b, c);
    AheadOfTwo(a, c);
    NotHeld(g2, 0, 2, 5);
  }

  lemma AheadOfTwo(a: Node, c: Node)
    ensures Ahead({a, c}, a + 1) == {} <==> c <= a
  {
    assert c > a ==> c in Ahead({a, c}, a + 1);
  }

  lemma ForkBits(g: Graph, n: Node, a: Node, b: Node, c: Node)
    requires Fork(g, n, a, b, c)
    ensures var g0 := g.AddBits(n, {5}).AddBits(a, {5}).ClearTodo(a, 5);
            && g0.Bits(n) == {5} && g0.Bits(b) == {} && g0.Bits(c) == {} && g0.nodes == g.nodes
            && g0.live == g.live && g0.sup == g.sup && g0.sub == g.sub && g0.dag == g.dag
    ensures g.Sup(n) == {a, b} && a != c
  {
  }

  lemma NotHeld(g: Graph, a: ASTNode, b: ASTNode, f: ASTFunction)
    requires a in g.dag && b in g.dag && f in g.Bits(g.dag[a]) && f !in g.Bits(g.dag[b])
    ensures !Holds(Answer(g), Subseteq(a, b))
  {
    assert f in At(Answer(g), a) && f !in At(Answer(g), b);
  }

  // An edge from b to c closes a cycle.
  lemma ForkEdge(g: Graph, g0: Graph, n: Node, a: Node, b: Node, c: Node)
    requires Fork(g, n, a, b, c) && g0.nodes == g.nodes && g0.live == g.live && g0.sup == g.sup && g0.sub == g.sub
    ensures var g1 := g0.AddEdge(b, c);
            && g1.Sup(b) == {c} && g1.Sup(c) == {b} && g1.Sup(n) == {a, b} && g1.Sub(b) == {n, c}
            && g1.nodes == g.nodes && g1.bits == g0.bits && g1.dag == g0.dag
            && IsPath(g1, [b, c]) && n in g.nodes && n != c && n != b && a != b && b != c
  {
  }

  // Then b is folded into c.
  lemma ForkMerge(g: Graph, n: Node, a: Node, b: Node, c: Node)
    requires n in g.nodes && g.Sup(n) == {a, b} && g.Sub(b) == {n, c} && n != c && n != b && a != b && b != c
    requires g.Bits(b) == {} && g.Bits(c) == {}
    ensures var g' := g.Merged(c, b);
            && g'.Sup(n) == {a, c} && g'.Bits(c) == {} && g'.Bits(n) == g.Bits(n)
            && forall x | x in g.dag && (g.dag[x] == n || g.dag[x] == b) ::
                 x in g'.dag && g'.dag[x] == if g.dag[x] == b then c else n
  {
  }
}
