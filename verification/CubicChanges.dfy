/** The changes the solver makes without killing a node: bits arrive, waiting entries are taken out, an
    edge is added. Each is shown to keep the invariant, but for the acyclicity of the node that
    got the edge, and to leave all other nodes settled. */
module CubicChanges {
  import opened CubicGraph

  ghost predicate SameNames(g: Graph, g': Graph) {
    && g'.nodes == g.nodes && g'.owner == g.owner && g'.dag == g.dag && g'.live == g.live
    && (forall n {:trigger g'.Owner(n)} | n in g.nodes :: g'.Owner(n) == g.Owner(n))
    && (forall n {:trigger g'.Rep(n)} | n in g.nodes :: g'.Rep(n) == g.Rep(n))
  }

  ghost predicate SameEdges(g: Graph, g': Graph) {
    && (forall n {:trigger g'.Sup(n)} | n in g.nodes :: g'.Sup(n) == g.Sup(n))
    && (forall n {:trigger g'.Sub(n)} | n in g.nodes :: g'.Sub(n) == g.Sub(n))
  }

  lemma ContentOnly(g: Graph, g': Graph)
    requires g' == g.(bits := g'.bits, todo := g'.todo)
    ensures SameNames(g, g') && SameEdges(g, g')
  {
  }

  lemma SameEdgesShape(g: Graph, g': Graph, r: Ranking)
    requires g.Shape() && g.RankedBut(r, {}) && g.DeadLead({}) && SameNames(g, g') && SameEdges(g, g')
    requires g'.TodosKnown()
    ensures g'.Shape() && g'.RankedBut(r, {}) && g'.DeadLead({})
  {
    forall a, b | a in g'.nodes && b in g'.Sup(a) ensures g'.Descends(r, {}, a, b) {
      assert g.Descends(r, {}, a, b);
    }
    forall d | d in g'.nodes && d !in g'.live ensures g'.Leads(d) {
      assert g'.Sup(d) == g.Sup(d) && g'.Rep(d) == g.Rep(d);
      assert g.Leads(d);
      var s :| s in g.Sup(d) && g.Rep(s) == g.Rep(d);
      assert s in g'.Sup(d) && g'.Rep(s) == g'.Rep(d);
    }
  }

  lemma SupKeptSame(g: Graph, g': Graph, x: Node)
    requires g.Shape() && SameNames(g, g') && g'.Sup(x) == g.Sup(x) && x in g.live
    ensures SupKept(g, g', x)
  {
    forall s' | s' in g'.Sup(x) ensures exists s :: s in g.Sup(x) && g'.Rep(s) == s' {
      assert g.Sup(x) <= g.live;
      assert g'.Rep(s') == g.Rep(s') == s';
    }
  }

  lemma SameNamesMerges(g: Graph, g': Graph)
    requires g.Keyed() && SameNames(g, g')
    ensures Merges(g, g')
  {
    forall n | n in g.nodes ensures g'.Rep(n) == g'.Rep(g.Rep(n)) {
      assert g.Owner(n) in g.dag;
      assert g.Rep(n) in g.live;
    }
    forall a | a in g.dag ensures g'.dag[a] == g'.Rep(g.dag[a]) {
      assert g.dag[a] in g.live && g'.Rep(g.dag[a]) == g.Rep(g.dag[a]);
    }
  }

  // A node whose own content and edges stay is not unsettled by others that get more.
  lemma KeptByContent(g: Graph, g': Graph, n: Node, x: Node)
    requires g.Shape() && SameNames(g, g') && SameEdges(g, g') && x in g.nodes && x != n
    requires g'.Bits(x) == g.Bits(x) && g'.Todos(x) == g.Todos(x)
    requires forall y {:trigger g'.Bits(y)} | y in g.nodes :: g.Bits(y) <= g'.Bits(y)
    ensures Kept(g, g', x)
  {
    assert g'.Sup(x) == g.Sup(x) && g.Sup(x) <= g.nodes;
    if x in g.live {
      SupKeptSame(g, g', x);
      if g.Settled(x) {
        forall s | s in g'.Sup(x) ensures g'.Bits(x) <= g'.Bits(s) { assert g.Bits(x) <= g.Bits(s); }
      }
    } else {
      assert g'.Rep(x) == g.Rep(x);
      assert g.Bits(g.Rep(x)) <= g'.Bits(g.Rep(x));
    }
  }

  lemma LaterByContent(g: Graph, g': Graph, n: Node)
    requires g.Shape() && n in g.nodes && SameNames(g, g') && SameEdges(g, g')
    requires forall x {:trigger g'.Bits(x)} | x in g.nodes ::
        g.Bits(x) <= g'.Bits(x) && (x != n ==> g'.Bits(x) == g.Bits(x))
    requires forall x {:trigger g'.Todos(x)} | x in g.nodes ::
        g'.Todos(x) <= g.Todos(x) && (x != n ==> g'.Todos(x) == g.Todos(x))
    ensures Later(g, g', {n})
  {
    SameNamesMerges(g, g');
    assert Extends(g, g');
    hide Extends, Kept, Graph.Shape, SameNames, SameEdges;
    forall x | x in g.nodes && x != n ensures Kept(g, g', x) {
      assert g'.Bits(x) == g.Bits(x) && g'.Todos(x) == g.Todos(x);
      KeptByContent(g, g', n, x);
    }
  }

  lemma SoundSame(g: Graph, g': Graph, s: Assignment)
    requires g.Shape() && g.Sound(s) && SameNames(g, g')
    requires forall a, b {:trigger b in g'.Sup(a)} | a in g.nodes && b in g'.Sup(a) ::
               b in g.Sup(a) || (At(s, g.Owner(a)) <= At(s, g.Owner(b)) && b in g.nodes)
    requires forall n {:trigger g'.Bits(n)} | n in g.nodes :: g'.Bits(n) <= g.Bits(n) + At(s, g.Owner(n))
    requires forall n {:trigger g'.Todos(n)} | n in g.nodes :: g'.Todos(n) <= g.Todos(n)
    ensures g'.Sound(s)
  {
    assert g'.SoundBits(s) by {
      forall n | n in g.nodes ensures g'.Bits(n) <= At(s, g'.Owner(n)) {
        assert g.Bits(n) <= At(s, g.Owner(n));
      }
    }
    assert g'.SoundNames(s) by {
      forall a | a in g.dag ensures At(s, a) == At(s, g'.Owner(g'.dag[a])) {
        assert g.dag[a] in g.live;
        assert At(s, a) == At(s, g.Owner(g.dag[a]));
      }
    }
    assert g'.SoundEdges(s) by {
      forall a, b | a in g.nodes && b in g'.Sup(a) ensures At(s, g'.Owner(a)) <= At(s, g'.Owner(b)) {
        assert b in g.Sup(a) || b in g.nodes;
        assert g.Sup(a) <= g.nodes;
      }
    }
    assert g'.SoundTodos(s) by {
      forall n, t | n in g.nodes && t in g'.Todos(n)
        ensures t.fn in At(s, g'.Owner(n)) ==> At(s, t.from) <= At(s, t.to) {
        assert t in g.Todos(n);
      }
    }
  }

  lemma AddBitsKeeps(g: Graph, n: Node, fs: set<ASTFunction>, k: Ledger, r: Ranking)
    requires g.Inv(k, r, {}, {}) && n in g.nodes
    requires forall s {:trigger Solves(s, k.asked)} | Solves(s, k.asked) :: fs <= At(s, g.Owner(n))
    ensures g.AddBits(n, fs).Inv(k, r, {}, {})
    ensures Later(g, g.AddBits(n, fs), {n})
  {
    var g' := g.AddBits(n, fs);
    ContentOnly(g, g');
    LaterByContent(g, g', n);
    SameEdgesShape(g, g', r);
    forall s | Solves(s, k.asked) ensures g'.Sound(s) { assert g.Sound(s); SoundSame(g, g', s); }
    forall p | p in k.active ensures g'.Carries(p) { assert g.Carries(p); }
    forall c | c in k.asked ensures g'.Records(c, k) { assert g.Records(c, k); }
  }

  // The flows waiting for a function that has arrived hold in every solution.
  lemma WaitingHolds(g: Graph, n: Node, f: ASTFunction, cs: set<Constraint>)
    requires g.Shape() && g.SoundForAll(cs) && n in g.nodes && f in g.Bits(n)
    ensures forall s, p {:trigger Solves(s, cs), p in g.Waiting(n, f)} | Solves(s, cs) && p in g.Waiting(n, f) ::
              At(s, p.from) <= At(s, p.to)
    ensures forall p | p in g.Waiting(n, f) :: p.from in g.dag && p.to in g.dag
  {
    forall s, p | Solves(s, cs) && p in g.Waiting(n, f) ensures At(s, p.from) <= At(s, p.to) {
      assert g.Sound(s);
      assert Todo(f, p.from, p.to) in g.Todos(n);
      assert g.Bits(n) <= At(s, g.Owner(n));
    }
    forall p | p in g.Waiting(n, f) ensures p.from in g.dag && p.to in g.dag {
      assert Todo(f, p.from, p.to) in g.Todos(n);
    }
  }

  lemma ClearTodoKeeps(g: Graph, n: Node, f: ASTFunction, k: Ledger, r: Ranking)
    requires g.Inv(k, r, {}, {}) && n in g.nodes && f in g.Bits(n)
    ensures g.ClearTodo(n, f).Inv(k.(limbo := k.limbo + g.Waiting(n, f)), r, {}, {})
    ensures Later(g, g.ClearTodo(n, f), {n})
  {
    var g' := g.ClearTodo(n, f);
    ContentOnly(g, g');
    LaterByContent(g, g', n);
    assert g'.TodosKnown() by {
      forall x, t | x in g'.nodes && t in g'.Todos(x) ensures t.from in g'.dag && t.to in g'.dag {
        assert t in g.Todos(x);
      }
    }
    SameEdgesShape(g, g', r);
    forall s | Solves(s, k.asked) ensures g'.Sound(s) { assert g.Sound(s); SoundSame(g, g', s); }
    var k' := k.(limbo := k.limbo + g.Waiting(n, f));
    forall p | p in k.active ensures g'.Carries(p) { assert g.Carries(p); }
    forall c | c in k.asked ensures g'.Records(c, k') {
      assert g.Records(c, k);
      if c.Conditional? && Flow(c.from, c.to) !in k.active + k.limbo && g.dag[c.inn] == n && c.condition == f {
        assert Todo(f, c.from, c.to) in g.Todos(n);
        assert Flow(c.from, c.to) in g.Waiting(n, f);
      }
    }
  }

  // The supsets and subsets after an edge is added, as seen through the accessors.
  lemma AddEdgeEffect(g: Graph, a: Node, b: Node)
    ensures var g' := g.AddEdge(a, b);
      && SameNames(g, g') && g'.bits == g.bits && g'.todo == g.todo
      && (forall n {:trigger g'.Sup(n)} :: g'.Sup(n) == if n == a then g.Sup(a) + {b} else g.Sup(n))
      && (forall n {:trigger g'.Sub(n)} :: g'.Sub(n) == if n == b then g.Sub(b) + {a} else g.Sub(n))
      && (forall n {:trigger g'.Bits(n)} :: g'.Bits(n) == g.Bits(n))
      && (forall n {:trigger g'.Todos(n)} :: g'.Todos(n) == g.Todos(n))
  {
  }

  lemma AddEdgeShape(g: Graph, a: Node, b: Node)
    requires g.Shape() && a in g.live && b in g.live && a != b
    ensures g.AddEdge(a, b).Shape()
  {
    var g' := g.AddEdge(a, b);
    AddEdgeEffect(g, a, b);
    assert g'.Keyed() by { KeyedSame(g, g'); }
    assert g'.Closed() by {
      forall n | n in g.nodes ensures g'.Sup(n) <= g.nodes && n !in g'.Sup(n) { assert n !in g.Sup(n); }
      forall n | n in g.live ensures g'.Sup(n) <= g.live { assert g.Sup(n) <= g.live; }
      forall n | n in g.live ensures g'.Sub(n) <= g.live { assert g.Sub(n) <= g.live; }
    }
    assert g'.Converse() by {
      forall x, y | x in g.live && y in g.live ensures y in g'.Sup(x) <==> x in g'.Sub(y) {
        assert y in g.Sup(x) <==> x in g.Sub(y);
      }
    }
  }

  lemma KeyedSame(g: Graph, g': Graph)
    requires g.Keyed() && SameNames(g, g')
    ensures g'.Keyed()
  {
  }

  lemma AddEdgeDead(g: Graph, a: Node, b: Node, r: Ranking)
    requires g.Shape() && g.RankedBut(r, {}) && g.DeadLead({}) && a in g.live && b in g.live && a != b
    ensures var g' := g.AddEdge(a, b);
            g'.RankedBut(r, {a}) && g'.DeadLead({})
  {
    var g' := g.AddEdge(a, b);
    AddEdgeEffect(g, a, b);
    forall x, y | x in g'.nodes && y in g'.Sup(x) ensures g'.Descends(r, {a}, x, y) {
      if y in g.Sup(x) { assert g.Descends(r, {}, x, y); }
    }
    forall d | d in g'.nodes && d !in g'.live ensures g'.Leads(d) {
      assert g'.Sup(d) == g.Sup(d) && g'.Rep(d) == g.Rep(d);
      assert g.Leads(d);
      var s :| s in g.Sup(d) && g.Rep(s) == g.Rep(d);
      assert s in g'.Sup(d) && g'.Rep(s) == g'.Rep(d);
    }
  }

  lemma AddEdgeLater(g: Graph, a: Node, b: Node)
    requires g.Shape() && a in g.live && b in g.live
    ensures Later(g, g.AddEdge(a, b), {a})
  {
    var g' := g.AddEdge(a, b);
    AddEdgeEffect(g, a, b);
    SameNamesMerges(g, g');
    forall x | x in g.nodes && x != a ensures Kept(g, g', x) {
      assert g'.Sup(x) == g.Sup(x);
      if !g'.Settled(x) {
        if x in g.live { SupKeptSame(g, g', x); }
        assert g'.Bits(x) == g.Bits(x);
        if g.Settled(x) && x in g.live {
          forall s | s in g'.Sup(x) ensures g'.Bits(x) <= g'.Bits(s) { assert g.Bits(x) <= g.Bits(s); }
          assert false;
        }
      }
    }
  }

  lemma AddEdgeRecords(g: Graph, p: Flow, k: Ledger)
    requires g.Recorded(k) && p.from in g.dag && p.to in g.dag
    ensures g.AddEdge(g.dag[p.from], g.dag[p.to]).Recorded(k.(active := k.active + {p}))
  {
    var g' := g.AddEdge(g.dag[p.from], g.dag[p.to]);
    var k' := k.(active := k.active + {p});
    forall q | q in k'.active ensures g'.Carries(q) { if q in k.active { assert g.Carries(q); } }
    forall c | c in k.asked ensures g'.Records(c, k') { assert g.Records(c, k); }
  }

  lemma AddEdgeSoundFor(g: Graph, p: Flow, s: Assignment)
    requires g.Shape() && g.Sound(s) && p.from in g.dag && p.to in g.dag && At(s, p.from) <= At(s, p.to)
    ensures g.AddEdge(g.dag[p.from], g.dag[p.to]).Sound(s)
  {
    var a, b := g.dag[p.from], g.dag[p.to];
    AddEdgeEffect(g, a, b);
    assert At(s, p.from) == At(s, g.Owner(a)) && At(s, p.to) == At(s, g.Owner(b));
    assert a in g.live && b in g.live;
    SoundSame(g, g.AddEdge(a, b), s);
  }

  lemma AddEdgeSound(g: Graph, p: Flow, cs: set<Constraint>)
    requires g.Shape() && g.SoundForAll(cs) && p.from in g.dag && p.to in g.dag
    requires forall s {:trigger Solves(s, cs)} | Solves(s, cs) :: At(s, p.from) <= At(s, p.to)
    ensures g.AddEdge(g.dag[p.from], g.dag[p.to]).SoundForAll(cs)
  {
    hide Graph.Shape, Graph.Sound, Graph.AddEdge, Solves;
    var g' := g.AddEdge(g.dag[p.from], g.dag[p.to]);
    forall s | Solves(s, cs) ensures g'.Sound(s) {
      assert g.Sound(s);
      AddEdgeSoundFor(g, p, s);
    }
  }

  lemma AddEdgeKeeps(g: Graph, p: Flow, k: Ledger, r: Ranking)
    requires g.Inv(k, r, {}, {})
    requires p.from in g.dag && p.to in g.dag && g.dag[p.from] != g.dag[p.to]
    requires forall s {:trigger Solves(s, k.asked)} | Solves(s, k.asked) :: At(s, p.from) <= At(s, p.to)
    ensures var g' := g.AddEdge(g.dag[p.from], g.dag[p.to]);
            g'.Inv(k.(active := k.active + {p}), r, {g.dag[p.from]}, {}) && Later(g, g', {g.dag[p.from]})
  {
    var a, b := g.dag[p.from], g.dag[p.to];
    AddEdgeShape(g, a, b);
    AddEdgeDead(g, a, b, r);
    AddEdgeLater(g, a, b);
    AddEdgeSound(g, p, k.asked);
    AddEdgeRecords(g, p, k);
  }

  lemma EdgeNames(g: Graph, a: Node, b: Node)
    ensures var g' := g.AddEdge(a, b);
            g'.live == g.live && g'.dag == g.dag && g'.nodes == g.nodes && g'.owner == g.owner
  {
  }

  lemma ClearNames(g: Graph, n: Node, f: ASTFunction)
    ensures var g' := g.ClearTodo(n, f);
            g'.dag == g.dag && g'.nodes == g.nodes && g'.owner == g.owner && g'.live == g.live
    ensures g.ClearTodo(n, f).sup == g.sup
  {
  }
}
