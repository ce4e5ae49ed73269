/** Taking in a new constraint, and what a settled graph says about all of them. */
module CubicAsk {
  import opened CubicGraph
  import opened CubicChanges
  import opened CubicMerge
  import opened CubicRun

  ghost predicate AllSettled(g: Graph) {
    forall n {:trigger g.Settled(n)} | n in g.nodes :: g.Settled(n)
  }

  lemma StillSettled(g: Graph, g': Graph)
    requires AllSettled(g) && Later(g, g', {})
    ensures AllSettled(g')
  {
    forall x | x in g'.nodes ensures g'.Settled(x) { assert Kept(g, g', x); }
  }

  // ----- a new AST node gets a node of its own -----

  lemma AddNodeEffect(g: Graph, a: ASTNode, n: Node)
    requires n !in g.nodes
    ensures var g' := g.AddNode(a, n);
      && g'.nodes == g.nodes + {n} && g'.live == g.live + {n} && g'.dag == g.dag[a := n]
      && g'.Sup(n) == {} && g'.Sub(n) == {} && g'.Bits(n) == {} && g'.Todos(n) == {} && g'.Owner(n) == a
      && g'.Rep(n) == n
      && forall x {:trigger g'.Sup(x)} {:trigger g'.Sub(x)} {:trigger g'.Bits(x)} {:trigger g'.Todos(x)}
           {:trigger g'.Owner(x)} | x in g.nodes ::
           g'.Sup(x) == g.Sup(x) && g'.Sub(x) == g.Sub(x) && g'.Bits(x) == g.Bits(x) && g'.Todos(x) == g.Todos(x) &&
           g'.Owner(x) == g.Owner(x)
  {
  }

  lemma AddNodeKeyed(g: Graph, a: ASTNode, n: Node)
    requires g.Keyed() && n !in g.nodes && a !in g.dag
    ensures g.AddNode(a, n).Keyed()
  {
    var g' := g.AddNode(a, n);
    AddNodeEffect(g, a, n);
    forall x | x in g'.nodes ensures g'.Owner(x) in g'.dag { if x != n { assert g.Owner(x) in g.dag; } }
    forall x | x in g'.live ensures g'.Rep(x) == x { if x != n { assert g.Rep(x) == x && g.Owner(x) in g.dag; } }
    forall b | b in g'.dag ensures g'.dag[b] in g'.live { if b != a { assert g.dag[b] in g.live; } }
  }

  lemma AddNodeClosed(g: Graph, a: ASTNode, n: Node)
    requires g.live <= g.nodes && g.Closed() && n !in g.nodes
    ensures g.AddNode(a, n).Closed()
  {
    var g' := g.AddNode(a, n);
    AddNodeEffect(g, a, n);
    forall x | x in g'.nodes
      ensures g'.Sup(x) <= g'.nodes && x !in g'.Sup(x)
      ensures x in g'.live ==> g'.Sup(x) <= g'.live && g'.Sub(x) <= g'.live
    {
      if x != n {
        assert g.Sup(x) <= g.nodes && x !in g.Sup(x);
        if x in g.live { assert g.Sup(x) <= g.live && g.Sub(x) <= g.live; }
      }
    }
  }

  lemma AddNodeConverse(g: Graph, a: ASTNode, n: Node)
    requires g.live <= g.nodes && g.Closed() && g.Converse() && n !in g.nodes
    ensures g.AddNode(a, n).Converse()
  {
    var g' := g.AddNode(a, n);
    AddNodeEffect(g, a, n);
    forall x, y | x in g'.live && y in g'.live ensures y in g'.Sup(x) <==> x in g'.Sub(y) {
      if x != n { assert g.Sup(x) <= g.live; }
      if y != n { assert g.Sub(y) <= g.live; }
      if x != n && y != n { assert y in g.Sup(x) <==> x in g.Sub(y); }
    }
  }

  lemma AddNodeShape(g: Graph, a: ASTNode, n: Node)
    requires g.Shape() && n !in g.nodes && a !in g.dag
    ensures g.AddNode(a, n).Shape()
  {
    var g' := g.AddNode(a, n);
    AddNodeKeyed(g, a, n);
    AddNodeClosed(g, a, n);
    AddNodeConverse(g, a, n);
    AddNodeEffect(g, a, n);
    forall x, t | x in g'.nodes && t in g'.Todos(x) ensures t.from in g'.dag && t.to in g'.dag {
      assert x != n && t in g.Todos(x);
    }
  }

  ghost function RankNew(r: Ranking, n: Node): Ranking { Ranking(r.rank[n := 0], r.top) }

  lemma AddNodeRanked(g: Graph, a: ASTNode, n: Node, r: Ranking)
    requires g.Shape() && g.RankedBut(r, {}) && g.DeadLead({}) && n !in g.nodes && a !in g.dag
    ensures g.AddNode(a, n).RankedBut(RankNew(r, n), {}) && g.AddNode(a, n).DeadLead({})
  {
    var g', r' := g.AddNode(a, n), RankNew(r, n);
    AddNodeEffect(g, a, n);
    forall x | x in g'.nodes ensures r'.Of(x) <= r'.top { if x != n { assert r.Of(x) <= r.top; } }
    forall x, y | x in g'.nodes && y in g'.Sup(x) ensures g'.Descends(r', {}, x, y) {
      assert g.Sup(x) <= g.nodes && g.Descends(r, {}, x, y);
    }
    forall d | d in g'.nodes && d !in g'.live ensures g'.Leads(d) {
      assert g.Leads(d);
      var s :| s in g.Sup(d) && g.Rep(s) == g.Rep(d);
      assert g.Sup(d) <= g.nodes && g.Owner(s) in g.dag && g.Owner(d) in g.dag;
      assert s in g'.Sup(d) && g'.Rep(s) == g'.Rep(d);
    }
  }

  lemma AddNodeSound(g: Graph, a: ASTNode, n: Node, k: Ledger)
    requires g.Shape() && g.SoundForAll(k.asked) && g.Recorded(k) && n !in g.nodes && a !in g.dag
    ensures g.AddNode(a, n).SoundForAll(k.asked) && g.AddNode(a, n).Recorded(k)
  {
    var g' := g.AddNode(a, n);
    AddNodeEffect(g, a, n);
    forall s | Solves(s, k.asked) ensures g'.Sound(s) {
      assert g.Sound(s);
      forall b | b in g'.dag ensures At(s, b) == At(s, g'.Owner(g'.dag[b])) {
        if b != a { assert g.dag[b] in g.live && At(s, b) == At(s, g.Owner(g.dag[b])); }
      }
      forall x | x in g'.nodes ensures g'.Bits(x) <= At(s, g'.Owner(x)) { if x != n {
        assert g.Bits(x) <= At(s, g.Owner(x)); }
      }
      forall x, y | x in g'.nodes && y in g'.Sup(x) ensures At(s, g'.Owner(x)) <= At(s, g'.Owner(y)) {
        assert y in g.Sup(x) && g.Sup(x) <= g.nodes;
      }
      forall x, t | x in g'.nodes && t in g'.Todos(x)
        ensures t.fn in At(s, g'.Owner(x)) ==> At(s, t.from) <= At(s, t.to) {
        assert t in g.Todos(x);
      }
    }
    forall p | p in k.active ensures g'.Carries(p) { assert g.Carries(p) && g.dag[p.from] in g.live; }
    forall c | c in k.asked ensures g'.Records(c, k) {
      assert g.Records(c, k);
      if c.Conditional? { assert g.dag[c.inn] in g.live; }
      if c.ElementOf? { assert g.dag[c.node] in g.live; }
    }
  }

  lemma AddNodeSettled(g: Graph, a: ASTNode, n: Node)
    requires g.Shape() && AllSettled(g) && n !in g.nodes && a !in g.dag
    ensures AllSettled(g.AddNode(a, n))
  {
    var g' := g.AddNode(a, n);
    AddNodeEffect(g, a, n);
    forall x | x in g'.nodes ensures g'.Settled(x) {
      if x != n {
        assert g.Settled(x) && g.Owner(x) in g.dag;
        assert g.Sup(x) <= g.nodes;
        if x !in g.live { assert g.Rep(x) in g.live && g'.Rep(x) == g.Rep(x); }
      }
    }
  }

  // ----- the constraint itself -----

  ghost function Ask(k: Ledger, c: Constraint): Ledger { k.(asked := k.asked + {c}) }

  lemma SolvesFewer(s: Assignment, k: Ledger, c: Constraint)
    requires Solves(s, Ask(k, c).asked)
    ensures Solves(s, k.asked) && Holds(s, c)
  {
  }

  lemma AskElement(g: Graph, k: Ledger, r: Ranking, f: ASTFunction, a: ASTNode)
    requires g.Inv(k, r, {}, {}) && a in g.dag
    ensures g.AddBits(g.dag[a], {f}).Inv(Ask(k, ElementOf(f, a)), r, {}, {})
    ensures Later(g, g.AddBits(g.dag[a], {f}), {g.dag[a]})
  {
    var n, c := g.dag[a], ElementOf(f, a);
    var g', k' := g.AddBits(n, {f}), Ask(k, c);
    ContentOnly(g, g');
    LaterByContent(g, g', n);
    SameEdgesShape(g, g', r);
    forall s | Solves(s, k'.asked) ensures g'.Sound(s) {
      SolvesFewer(s, k, c);
      assert g.Sound(s);
      assert At(s, a) == At(s, g.Owner(n));
      SoundSame(g, g', s);
    }
    forall p | p in k.active ensures g'.Carries(p) { assert g.Carries(p); }
    forall d | d in k'.asked ensures g'.Records(d, k') { if d in k.asked { assert g.Records(d, k); } }
  }

  lemma AskFlow(g: Graph, k: Ledger, r: Ranking, from: ASTNode, to: ASTNode)
    requires g.Inv(k, r, {}, {})
    ensures var c, p := Subseteq(from, to), Flow(from, to);
            g.Inv(Ask(k, c).(limbo := k.limbo + {p}), r, {}, {}) && Holding(Ask(k, c).asked, p)
  {
    var c, p := Subseteq(from, to), Flow(from, to);
    var k' := Ask(k, c).(limbo := k.limbo + {p});
    forall s | Solves(s, k'.asked) ensures g.Sound(s) && At(s, from) <= At(s, to) {
      SolvesFewer(s, k, c);
      assert Holds(s, c);
    }
    forall d | d in k'.asked ensures g.Records(d, k') { if d in k.asked { assert g.Records(d, k); } }
    forall q | q in k'.active ensures g.Carries(q) {}
  }

  lemma AskTodo(g: Graph, k: Ledger, r: Ranking, f: ASTFunction, i: ASTNode, p: Flow)
    requires g.Inv(k, r, {}, {}) && i in g.dag && p.from in g.dag && p.to in g.dag
    ensures var g' := g.AddTodo(g.dag[i], Todo(f, p.from, p.to));
            g'.Inv(Ask(k, Conditional(f, i, p.from, p.to)), r, {}, {})
  {
    var n, t, c := g.dag[i], Todo(f, p.from, p.to), Conditional(f, i, p.from, p.to);
    var g', k' := g.AddTodo(n, t), Ask(k, c);
    ContentOnly(g, g');
    assert g'.TodosKnown() by {
      forall x, u | x in g'.nodes && u in g'.Todos(x) ensures u.from in g'.dag && u.to in g'.dag {
        assert u == t || u in g.Todos(x);
      }
    }
    SameEdgesShape(g, g', r);
    forall s | Solves(s, k'.asked) ensures g'.Sound(s) {
      SolvesFewer(s, k, c);
      assert g.Sound(s);
      SoundTodo(g, s, n, t, i);
    }
    forall q | q in k.active ensures g'.Carries(q) { assert g.Carries(q); }
    forall d | d in k'.asked ensures g'.Records(d, k') { if d in k.asked { assert g.Records(d, k); } }
  }

  lemma SoundTodo(g: Graph, s: Assignment, n: Node, t: Todo, i: ASTNode)
    requires g.Shape() && g.Sound(s) && i in g.dag && n == g.dag[i] && Holds(s, Conditional(t.fn, i, t.from, t.to))
    ensures g.AddTodo(n, t).Sound(s)
  {
    var g' := g.AddTodo(n, t);
    ContentOnly(g, g');
    assert At(s, i) == At(s, g.Owner(n));
    assert g'.SoundEdges(s) && g'.SoundBits(s) by {
      assert forall x :: g'.Sup(x) == g.Sup(x) && g'.Bits(x) == g.Bits(x);
    }
    assert g'.SoundNames(s) by { assert forall x :: g'.Owner(x) == g.Owner(x); }
    assert g'.SoundTodos(s) by {
      forall x, u | x in g'.nodes && u in g'.Todos(x)
        ensures u.fn in At(s, g'.Owner(x)) ==> At(s, u.from) <= At(s, u.to) {
        assert u in g.Todos(x) || (x == n && u == t);
      }
    }
  }

  lemma AskTodoSettled(g: Graph, n: Node, t: Todo)
    requires AllSettled(g) && n in g.nodes
    ensures forall x | x in g.nodes && x != n :: g.AddTodo(n, t).Settled(x)
  {
    var g' := g.AddTodo(n, t);
    ContentOnly(g, g');
    forall x | x in g.nodes && x != n ensures g'.Settled(x) {
      assert g.Settled(x);
      assert g'.Todos(x) == g.Todos(x) && forall y :: g'.Bits(y) == g.Bits(y);
    }
  }

  lemma SettledButOne(g: Graph, g': Graph, n: Node)
    requires (forall x | x in g.nodes && x != n :: g.Settled(x)) && Later(g, g', {}) && g'.Settled(n)
    ensures AllSettled(g')
  {
    forall x | x in g'.nodes ensures g'.Settled(x) { assert Kept(g, g', x); }
  }

  lemma OthersSettled(g: Graph, g': Graph, n: Node)
    requires AllSettled(g) && Later(g, g', {n})
    ensures forall x | x in g'.nodes && x != n :: g'.Settled(x)
  {
    forall x | x in g'.nodes && x != n ensures g'.Settled(x) { assert Kept(g, g', x); }
  }

  // ----- the answer -----

  ghost function Answer(g: Graph): Assignment {
    map a | a in g.dag :: g.Bits(g.dag[a])
  }

  lemma AnswerHolds(g: Graph, k: Ledger, c: Constraint)
    requires g.Shape() && AllSettled(g) && g.Recorded(k) && k.limbo == {} && c in k.asked
    ensures Holds(Answer(g), c)
  {
    assert g.Records(c, k);
    match c
    case ElementOf(f, n) =>
    case Subseteq(a, b) => CarriedHolds(g, k, Flow(a, b));
    case Conditional(f, i, a, b) =>
      if f in At(Answer(g), i) {
        assert g.dag[i] in g.live && g.Settled(g.dag[i]);
        assert Todo(f, a, b) !in g.Todos(g.dag[i]);
        CarriedHolds(g, k, Flow(a, b));
      }
  }

  lemma CarriedHolds(g: Graph, k: Ledger, p: Flow)
    requires g.Shape() && AllSettled(g) && g.Recorded(k) && p in k.active
    ensures At(Answer(g), p.from) <= At(Answer(g), p.to)
  {
    assert g.Carries(p);
    var a := g.dag[p.from];
    assert a in g.live && g.Settled(a);
  }

  /** With everything settled and nothing in limbo, what the graph reports is the least
      solution of all constraints asked. */
  lemma AnswerIsLeast(g: Graph, k: Ledger, r: Ranking)
    requires g.Inv(k, r, {}, {}) && AllSettled(g) && k.limbo == {}
    ensures IsLeastSolution(Answer(g), k.asked)
  {
    forall c | c in k.asked ensures Holds(Answer(g), c) { AnswerHolds(g, k, c); }
    forall s, a | Solves(s, k.asked) ensures At(Answer(g), a) <= At(s, a) {
      assert g.Sound(s);
      if a in g.dag {
        assert g.dag[a] in g.live && At(s, a) == At(s, g.Owner(g.dag[a]));
        assert g.Bits(g.dag[a]) <= At(s, g.Owner(g.dag[a]));
      }
    }
  }

  // However they were added, the same constraints have one answer.
  lemma LeastIsUnique(s1: Assignment, s2: Assignment, cs: set<Constraint>, a: ASTNode)
    requires IsLeastSolution(s1, cs) && IsLeastSolution(s2, cs)
    ensures At(s1, a) == At(s2, a)
  {
    assert At(s1, a) <= At(s2, a) <= At(s1, a);
  }

  // ----- what cycle elimination amounts to -----

  // Two AST nodes share a node only if every solution gives them the same functions.
  lemma SharedOnlyIfEqual(g: Graph, k: Ledger, r: Ranking, a: ASTNode, b: ASTNode, s: Assignment)
    requires g.Inv(k, r, {}, {}) && a in g.dag && b in g.dag && g.dag[a] == g.dag[b] && Solves(s, k.asked)
    ensures At(s, a) == At(s, b)
  {
    assert g.Sound(s);
    assert At(s, a) == At(s, g.Owner(g.dag[a]));
  }

  // The live nodes of a graph with three AST nodes.
  lemma ThreeLive(g: Graph)
    requires g.Shape() && g.dag.Keys == {0, 1, 2}
    ensures g.live == {g.dag[0], g.dag[1], g.dag[2]}
    ensures forall x | x in g.live :: g.Sup(x) <= g.live && g.Sub(x) <= g.live && x !in g.Sup(x)
    ensures forall x, y | x in g.live && y in g.live :: y in g.Sup(x) <==> x in g.Sub(y)
  {
    LiveAreMapped(g);
    forall x | x in g.live ensures x in {g.dag[0], g.dag[1], g.dag[2]} {
      var a :| a in g.dag.Keys && g.dag[a] == x;
    }
  }

  // There is an edge, or one shared node, only where every solution has the first in the second.
  lemma EdgeOnlyIfBelow(g: Graph, k: Ledger, r: Ranking, a: ASTNode, b: ASTNode, s: Assignment)
    requires g.Inv(k, r, {}, {}) && a in g.dag && b in g.dag && Solves(s, k.asked)
    requires g.dag[a] == g.dag[b] || g.dag[b] in g.Sup(g.dag[a])
    ensures At(s, a) <= At(s, b)
  {
    assert g.Sound(s) && g.dag[a] in g.live;
    assert At(s, a) == At(s, g.Owner(g.dag[a])) && At(s, b) == At(s, g.Owner(g.dag[b]));
  }

  // Where some solution does not have the first in the second, they are apart and there is no edge.
  lemma NotBelow(g: Graph, k: Ledger, r: Ranking, a: ASTNode, b: ASTNode, s: Assignment)
    requires g.Inv(k, r, {}, {}) && a in g.dag && b in g.dag && Solves(s, k.asked) && !(At(s, a) <= At(s, b))
    ensures g.dag[a] != g.dag[b] && g.dag[b] !in g.Sup(g.dag[a])
  {
    if g.dag[a] == g.dag[b] || g.dag[b] in g.Sup(g.dag[a]) { EdgeOnlyIfBelow(g, k, r, a, b, s); }
  }

  // A subset constraint is an edge, or has both its ends in one node.
  lemma SubseteqIsEdge(g: Graph, k: Ledger, r: Ranking, a: ASTNode, b: ASTNode)
    requires g.Inv(k, r, {}, {}) && k.limbo == {} && Subseteq(a, b) in k.asked
    ensures a in g.dag && b in g.dag && (g.dag[a] == g.dag[b] || g.dag[b] in g.Sup(g.dag[a]))
  {
    assert g.Records(Subseteq(a, b), k);
    assert g.Carries(Flow(a, b));
  }

  ghost predicate Walk(g: Graph, w: seq<Node>) {
    |w| > 0 && w[0] in g.nodes && forall i | 0 <= i < |w| - 1 :: w[i + 1] in g.Sup(w[i])
  }

  lemma {:induction false} WalkDescends(g: Graph, r: Ranking, w: seq<Node>)
    requires g.Shape() && g.RankedBut(r, {}) && Walk(g, w)
    ensures w[|w| - 1] in g.nodes && (|w| > 1 ==> r.Of(w[|w| - 1]) < r.Of(w[0]))
  {
    if |w| > 1 {
      var v := w[..|w| - 1];
      WalkDescends(g, r, v);
      assert w[|w| - 2 + 1] in g.Sup(w[|w| - 2]);
      assert g.Descends(r, {}, w[|w| - 2], w[|w| - 1]);
      assert g.Sup(w[|w| - 2]) <= g.nodes;
    }
  }

  // Live and dead nodes together form an acyclic graph.
  lemma NoCycle(g: Graph, k: Ledger, r: Ranking, w: seq<Node>)
    requires g.Inv(k, r, {}, {}) && Walk(g, w) && |w| > 1
    ensures w[0] != w[|w| - 1]
  {
    WalkDescends(g, r, w);
  }

  // Following its old supsets, a merged-away node reaches the node that stands for it.
  lemma {:induction false} DeadReaches(g: Graph, r: Ranking, d: Node) returns (w: seq<Node>)
    requires g.Shape() && g.RankedBut(r, {}) && g.DeadLead({}) && d in g.nodes
    ensures Walk(g, w) && w[0] == d && w[|w| - 1] == g.Rep(d) && g.Rep(d) in g.live
    decreases r.Of(d)
  {
    assert g.Owner(d) in g.dag && g.Rep(d) in g.live;
    if d in g.live {
      assert g.Rep(d) == d;
      w := [d];
    } else {
      assert g.Leads(d);
      var s :| s in g.Sup(d) && g.Rep(s) == g.Rep(d);
      assert g.Sup(d) <= g.nodes && g.Descends(r, {}, d, s);
      var v := DeadReaches(g, r, s);
      w := [d] + v;
      forall i | 0 <= i < |w| - 1 ensures w[i + 1] in g.Sup(w[i]) { if i > 0 {
        assert v[i - 1 + 1] in g.Sup(v[i - 1]); }
      }
    }
  }

  ghost predicate FlowWalk(fs: set<Flow>, w: seq<ASTNode>) {
    |w| > 0 && forall i | 0 <= i < |w| - 1 :: Flow(w[i], w[i + 1]) in fs
  }

  lemma {:induction false} FlowDescends(g: Graph, k: Ledger, r: Ranking, w: seq<ASTNode>)
    requires g.Inv(k, r, {}, {}) && FlowWalk(k.active, w) && w[0] in g.dag
    ensures forall a | a in w :: a in g.dag
    ensures var end := g.dag[w[|w| - 1]];
            forall a | a in w :: g.dag[a] == end || r.Of(end) < r.Of(g.dag[a])
  {
    if |w| > 1 {
      var v := w[..|w| - 1];
      FlowDescends(g, k, r, v);
      var x, y := w[|w| - 2], w[|w| - 1];
      assert v[|v| - 1] == x && Flow(w[|w| - 2], w[|w| - 2 + 1]) in k.active;
      assert g.Carries(Flow(x, y));
      if g.dag[x] != g.dag[y] {
        assert g.dag[x] in g.live && g.Descends(r, {}, g.dag[x], g.dag[y]);
      }
      assert forall a | a in w :: a in v || a == y;
    }
  }

  // Flows that run in a circle have all been collapsed into one node.
  lemma CirclesCollapse(g: Graph, k: Ledger, r: Ranking, w: seq<ASTNode>)
    requires g.Inv(k, r, {}, {}) && FlowWalk(k.active, w) && w[0] in g.dag && w[|w| - 1] == w[0]
    ensures forall a | a in w :: a in g.dag && g.dag[a] == g.dag[w[0]]
  {
    FlowDescends(g, k, r, w);
    forall a | a in w ensures a in g.dag && g.dag[a] == g.dag[w[0]] {
      var i :| 0 <= i < |w| && w[i] == a;
      var v := w[..i + 1];
      FlowDescends(g, k, r, v);
      assert v[0] == w[0] && v[|v| - 1] == a && w[0] in v;
    }
  }

  // The live nodes are exactly those some AST node is mapped to.
  lemma LiveAreMapped(g: Graph)
    requires g.Keyed()
    ensures g.live == g.dag.Values
  {
    forall n | n in g.live ensures n in g.dag.Values {
      assert g.Rep(n) == n && g.Owner(n) in g.dag;
    }
  }
}
