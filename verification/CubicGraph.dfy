/** The graph of the cubic control-flow solver as a value: what one moment of the
    heap looks like, the invariants the solver keeps, and what each primitive
    change of the graph does to them. */
module CubicGraph {

  // AST nodes and functions are compared by identity only.
  type ASTNode = nat
  type ASTFunction = nat

  // [[from]] is a subset of [[to]]
  datatype Flow = Flow(from: ASTNode, to: ASTNode)

  // A conditional constraint waiting in a node: once `fn` arrives, `from` flows to `to`.
  datatype Todo = Todo(fn: ASTFunction, from: ASTNode, to: ASTNode)

  datatype Constraint =
    | ElementOf(fn: ASTFunction, node: ASTNode)
    | Subseteq(from: ASTNode, to: ASTNode)
    | Conditional(condition: ASTFunction, inn: ASTNode, from: ASTNode, to: ASTNode)

  // The identity of a graph node: which shared object it is.
  type Node = nat

  // ----- assignments and solutions -----

  type Assignment = map<ASTNode, set<ASTFunction>>

  function At(s: Assignment, a: ASTNode): set<ASTFunction> {
    if a in s then s[a] else {}
  }

  predicate Holds(s: Assignment, c: Constraint) {
    match c
    case ElementOf(f, n) => f in At(s, n)
    case Subseteq(a, b) => At(s, a) <= At(s, b)
    case Conditional(f, i, a, b) => f in At(s, i) ==> At(s, a) <= At(s, b)
  }

  ghost predicate Solves(s: Assignment, cs: set<Constraint>) {
    forall c | c in cs :: Holds(s, c)
  }

  ghost predicate IsLeastSolution(s: Assignment, cs: set<Constraint>) {
    && Solves(s, cs)
    && forall s' | Solves(s', cs) :: forall a :: At(s, a) <= At(s', a)
  }

  // ----- the graph -----

  ghost function EndsAt(m: map<Node, set<Node>>, n: Node): set<Node> { if n in m then m[n] else {} }

  /** The edges in one direction after n2 is folded into n1, where `back` are the edges in the
      other direction: n1 takes over those of n2, and edges to n2 go to n1 instead. */
  ghost function MergedEnds(nodes: set<Node>, ends: map<Node, set<Node>>, back: map<Node, set<Node>>,
                            n1: Node, n2: Node): (m: map<Node, set<Node>>)
    ensures m.Keys == nodes
  {
    map n | n in nodes ::
      if n == n1 then EndsAt(ends, n1) + (EndsAt(ends, n2) - {n1}) - {n2}
      else if n in EndsAt(back, n2) then EndsAt(ends, n) - {n2} + {n1}
      else EndsAt(ends, n)
  }

  ghost function Redirected(dag: map<ASTNode, Node>, n1: Node, n2: Node): map<ASTNode, Node> {
    map a | a in dag :: if dag[a] == n2 then n1 else dag[a]
  }

  // A witness that edges do not run in circles: they go down in rank, and no rank exceeds `top`.
  datatype Ranking = Ranking(rank: map<Node, nat>, top: nat) {
    ghost function Of(n: Node): nat { if n in rank then rank[n] else 0 }
  }

  /** What has been asked of the solver: the constraints added so far; the flows that were
      put into the graph; and the flows in limbo, which a frame is about to activate. */
  datatype Ledger = Ledger(asked: set<Constraint>, active: set<Flow>, limbo: set<Flow>)

  /** `nodes` holds every node ever made; `live` those that some AST node is mapped to; a
      merged-away (dead) node keeps the supsets it had when it died. `owner` is the AST node
      a graph node was made for, so the node that owner maps to now stands for it. */
  datatype Graph = Graph(
    nodes: set<Node>,
    live: set<Node>,
    sup: map<Node, set<Node>>,
    sub: map<Node, set<Node>>,
    bits: map<Node, set<ASTFunction>>,
    todo: map<Node, set<Todo>>,
    dag: map<ASTNode, Node>,
    owner: map<Node, ASTNode>)
  {
    ghost function Sup(n: Node): set<Node> { if n in sup then sup[n] else {} }
    ghost function Sub(n: Node): set<Node> { if n in sub then sub[n] else {} }
    ghost function Bits(n: Node): set<ASTFunction> { if n in bits then bits[n] else {} }
    ghost function Todos(n: Node): set<Todo> { if n in todo then todo[n] else {} }
    ghost function Owner(n: Node): ASTNode { if n in owner then owner[n] else 0 }

    // the live node that stands for n
    ghost function Rep(n: Node): Node { if Owner(n) in dag then dag[Owner(n)] else n }

    ghost predicate Keyed() {
      && live <= nodes
      && (forall n {:trigger Owner(n)} | n in nodes :: Owner(n) in dag)
      && (forall n {:trigger Rep(n)} | n in live :: Rep(n) == n)
      && (forall a {:trigger dag[a]} | a in dag :: dag[a] in live)
    }

    ghost predicate TodosKnown() {
      forall n, t {:trigger t in Todos(n)} | n in nodes && t in Todos(n) :: t.from in dag && t.to in dag
    }

    // Edges stay inside the graph, never loop, and a live node is joined to live nodes only.
    ghost predicate Closed() {
      && (forall n {:trigger Sup(n)} | n in nodes :: Sup(n) <= nodes && n !in Sup(n))
      && (forall n {:trigger Sup(n)} | n in live :: Sup(n) <= live)
      && (forall n {:trigger Sub(n)} | n in live :: Sub(n) <= live)
    }

    ghost predicate Converse() {
      forall a, b {:trigger b in Sup(a)} {:trigger a in Sub(b)} | a in live && b in live ::
        b in Sup(a) <==> a in Sub(b)
    }

    ghost predicate Shape() {
      Keyed() && TodosKnown() && Closed() && Converse()
    }

    ghost predicate Descends(r: Ranking, c: set<Node>, a: Node, b: Node) {
      r.Of(b) < r.Of(a) || (a in live && (a in c || b in c))
    }

    // Every edge goes down in rank, except live edges at one of the nodes in `c`.
    ghost predicate RankedBut(r: Ranking, c: set<Node>) {
      && (forall n {:trigger r.Of(n)} | n in nodes :: r.Of(n) <= r.top)
      && (forall a, b {:trigger Descends(r, c, a, b)} {:trigger b in Sup(a)} | a in nodes && b in Sup(a) ::
            Descends(r, c, a, b))
    }

    // A dead node still has an edge towards the live node that stands for it.
    ghost predicate DeadLead(ex: set<Node>) {
      forall d {:trigger Leads(d)} | d in nodes && d !in live && d !in ex :: Leads(d)
    }

    ghost predicate Leads(d: Node) {
      exists s :: s in Sup(d) && Rep(s) == Rep(d)
    }

    ghost predicate SoundNames(s: Assignment) {
      forall a {:trigger dag[a]} | a in dag :: At(s, a) == At(s, Owner(dag[a]))
    }

    ghost predicate SoundBits(s: Assignment) {
      forall n {:trigger Bits(n)} | n in nodes :: Bits(n) <= At(s, Owner(n))
    }

    ghost predicate SoundEdges(s: Assignment) {
      forall a, b {:trigger b in Sup(a)} | a in nodes && b in Sup(a) :: At(s, Owner(a)) <= At(s, Owner(b))
    }

    ghost predicate SoundTodos(s: Assignment) {
      forall n, t {:trigger t in Todos(n)} | n in nodes && t in Todos(n) ::
        t.fn in At(s, Owner(n)) ==> At(s, t.from) <= At(s, t.to)
    }

    // Nothing in the graph goes beyond the assignment s.
    ghost predicate Sound(s: Assignment) {
      SoundNames(s) && SoundBits(s) && SoundEdges(s) && SoundTodos(s)
    }

    ghost predicate SoundForAll(cs: set<Constraint>) {
      forall s {:trigger Sound(s)} {:trigger Solves(s, cs)} | Solves(s, cs) :: Sound(s)
    }

    // The flow is in the graph: an edge, or both ends are one node.
    ghost predicate Carries(p: Flow) {
      && p.from in dag && p.to in dag
      && (dag[p.from] == dag[p.to] || dag[p.to] in Sup(dag[p.from]))
    }

    ghost predicate Records(c: Constraint, k: Ledger) {
      match c
      case ElementOf(f, n) => n in dag && f in Bits(dag[n])
      case Subseteq(a, b) => Flow(a, b) in k.active + k.limbo
      case Conditional(f, i, a, b) =>
        i in dag && (Flow(a, b) in k.active + k.limbo || Todo(f, a, b) in Todos(dag[i]))
    }

    // Each constraint is recorded: as a bit, as a carried flow, as a waiting entry, or in limbo.
    ghost predicate Recorded(k: Ledger) {
      && (forall p {:trigger Carries(p)} {:trigger p in k.active} | p in k.active :: Carries(p))
      && (forall c {:trigger Records(c, k)} {:trigger c in k.asked} | c in k.asked :: Records(c, k))
    }

    /** What is at n has arrived everywhere it should: for a live node, at its supsets and
        with no triggered entry waiting; for a dead node, at the node that stands for it. */
    ghost predicate Settled(n: Node) {
      if n in live then
        && (forall s {:trigger s in Sup(n)} {:trigger Bits(s)} | s in Sup(n) :: Bits(n) <= Bits(s))
        && Untriggered(n)
      else
        Bits(n) <= Bits(Rep(n))
    }

    ghost predicate Untriggered(n: Node) {
      forall t {:trigger t in Todos(n)} | t in Todos(n) :: t.fn !in Bits(n)
    }

    ghost function Pending(): set<(Node, Todo)> {
      set n, t | n in nodes && t in Todos(n) :: (n, t)
    }

    // The whole invariant: acyclic except at the nodes in `c`, dead ends only in `ex`.
    ghost predicate Inv(k: Ledger, r: Ranking, c: set<Node>, ex: set<Node>) {
      && Shape() && RankedBut(r, c) && DeadLead(ex) && SoundForAll(k.asked) && Recorded(k)
    }

    // ----- primitive changes -----

    ghost function AddNode(a: ASTNode, n: Node): Graph {
      Graph(nodes + {n}, live + {n}, sup[n := {}], sub[n := {}], bits[n := {}], todo[n := {}],
            dag[a := n], owner[n := a])
    }

    ghost function AddBits(n: Node, fs: set<ASTFunction>): Graph {
      this.(bits := bits[n := Bits(n) + fs])
    }

    ghost function AddTodo(n: Node, t: Todo): Graph {
      this.(todo := todo[n := Todos(n) + {t}])
    }

    ghost function Waiting(n: Node, f: ASTFunction): set<Flow> {
      set t | t in Todos(n) && t.fn == f :: Flow(t.from, t.to)
    }

    ghost function ClearTodo(n: Node, f: ASTFunction): Graph {
      this.(todo := todo[n := set t | t in Todos(n) && t.fn != f])
    }

    ghost function AddEdge(a: Node, b: Node): Graph {
      this.(sup := sup[a := Sup(a) + {b}], sub := sub[b := Sub(b) + {a}])
    }

    // n2 is folded into n1.
    ghost function Merged(n1: Node, n2: Node): Graph {
      Graph(nodes, live - {n2}, MergedEnds(nodes, sup, sub, n1, n2), MergedEnds(nodes, sub, sup, n1, n2),
            bits[n1 := Bits(n1) + Bits(n2)], todo[n1 := Todos(n1) + Todos(n2)],
            Redirected(dag, n1, n2),
            owner)
    }

    // After n2 died: it ranks above everything live and below the older dead.
    ghost function RankDead(r: Ranking, n2: Node): Ranking {
      Ranking(map n | n in nodes ::
                if n == n2 then r.top + 1 else if n in live then r.Of(n) else r.Of(n) + r.top + 2,
              2 * r.top + 2)
    }

    // Ranks for the graph when nothing in `below` reaches back to n.
    ghost function RankAnew(r: Ranking, n: Node, below: set<Node>): Ranking {
      Ranking(map x | x in nodes ::
                if x in below then r.Of(x)
                else if x == n then r.top + 1
                else if x in live then r.Of(x) + r.top + 2
                else r.Of(x) + 2 * r.top + 4,
              3 * r.top + 4)
    }
  }

  // ----- how two moments of the graph are related -----

  ghost predicate SupKept(g: Graph, g': Graph, x: Node) {
    forall s' {:trigger s' in g'.Sup(x)} | s' in g'.Sup(x) :: exists s :: s in g.Sup(x) && g'.Rep(s) == s'
  }

  ghost predicate Kept(g: Graph, g': Graph, x: Node) {
    !g'.Settled(x) ==>
      && !g.Settled(x)
      && g'.Bits(x) == g.Bits(x)
      && (x in g'.live ==> x in g.live && g'.Todos(x) == g.Todos(x) && SupKept(g, g', x))
      && (x !in g'.live ==> x !in g.live)
  }

  // Nodes only die, and what is merged stays merged.
  ghost predicate Merges(g: Graph, g': Graph) {
    && g'.nodes == g.nodes && g'.owner == g.owner && g'.dag.Keys == g.dag.Keys && g'.live <= g.live
    && (forall n {:trigger g'.Rep(g.Rep(n))} {:trigger g'.Rep(n), g.Rep(n)} | n in g.nodes ::
         g'.Rep(n) == g'.Rep(g.Rep(n)))
    && (forall a {:trigger g'.dag[a]} | a in g.dag :: g'.dag[a] == g'.Rep(g.dag[a]))
  }

  ghost predicate Grows(g: Graph, g': Graph) {
    forall n {:trigger g'.Bits(n)} {:trigger g'.Rep(n)} | n in g.nodes ::
      g.Bits(n) <= g'.Bits(n) && g.Bits(g.Rep(n)) <= g'.Bits(g'.Rep(n))
  }

  // A superset is only lost by dying, and not by a dead node; without a death, waiting entries only go away.
  ghost predicate Freezes(g: Graph, g': Graph) {
    && (forall n {:trigger g'.Sup(n)} | n in g.nodes && n !in g.live :: g'.Sup(n) == g.Sup(n))
    && (forall n, s {:trigger s in g'.Sup(n)} {:trigger s in g.Sup(n)} |
         n in g.nodes && s in g.Sup(n) && s in g'.live :: s in g'.Sup(n))
    && (g'.live == g.live ==> forall n {:trigger g'.Todos(n)} | n in g.nodes :: g'.Todos(n) <= g.Todos(n))
  }

  ghost predicate Extends(g: Graph, g': Graph) {
    Merges(g, g') && Grows(g, g') && Freezes(g, g')
  }

  /** g' comes later than g: nodes only die, sets only grow, the supsets of dead nodes are
      frozen, nodes once merged stay merged, and no node outside ex became unsettled. */
  ghost predicate Later(g: Graph, g': Graph, ex: set<Node>) {
    Extends(g, g') && forall x {:trigger Kept(g, g', x)} | x in g.nodes && x !in ex :: Kept(g, g', x)
  }

  lemma LaterRefl(g: Graph)
    requires g.Shape()
    ensures Later(g, g, {})
  {
    forall x | x in g.nodes ensures Kept(g, g, x) {
      if x in g.live {
        forall s' | s' in g.Sup(x) ensures exists s :: s in g.Sup(x) && g.Rep(s) == s' {
          assert g.Rep(s') == s';
        }
      }
    }
  }

  lemma SupKeptTrans(g: Graph, g1: Graph, g2: Graph, x: Node)
    requires g.Shape() && Extends(g, g1) && Extends(g1, g2) && x in g.nodes
    requires SupKept(g, g1, x) && SupKept(g1, g2, x)
    ensures SupKept(g, g2, x)
  {
    hide Grows, Freezes, Graph.Shape;
    forall s'' | s'' in g2.Sup(x) ensures exists s :: s in g.Sup(x) && g2.Rep(s) == s'' {
      var s' :| s' in g1.Sup(x) && g2.Rep(s') == s'';
      var s :| s in g.Sup(x) && g1.Rep(s) == s';
      assert g2.Rep(s) == g2.Rep(g1.Rep(s));
    }
  }

  lemma MergesTrans(g: Graph, g1: Graph, g2: Graph)
    requires g.Keyed() && Merges(g, g1) && Merges(g1, g2)
    ensures Merges(g, g2)
  {
    forall n | n in g.nodes ensures g2.Rep(n) == g2.Rep(g.Rep(n)) {
      assert g2.Rep(n) == g2.Rep(g1.Rep(n)) == g2.Rep(g1.Rep(g.Rep(n)));
    }
    forall a | a in g.dag ensures g2.dag[a] == g2.Rep(g.dag[a]) {
      assert g2.dag[a] == g2.Rep(g1.dag[a]) == g2.Rep(g1.Rep(g.dag[a]));
    }
  }

  lemma GrowsTrans(g: Graph, g1: Graph, g2: Graph)
    requires g1.nodes == g.nodes && Grows(g, g1) && Grows(g1, g2)
    ensures Grows(g, g2)
  {
    forall n | n in g.nodes ensures g.Bits(n) <= g2.Bits(n) && g.Bits(g.Rep(n)) <= g2.Bits(g2.Rep(n)) {
      assert g.Bits(n) <= g1.Bits(n) && g.Bits(g.Rep(n)) <= g1.Bits(g1.Rep(n));
      assert g1.Bits(n) <= g2.Bits(n) && g1.Bits(g1.Rep(n)) <= g2.Bits(g2.Rep(n));
    }
  }

  lemma FreezesTrans(g: Graph, g1: Graph, g2: Graph)
    requires g1.nodes == g.nodes && g1.live <= g.live && g2.live <= g1.live && Freezes(g, g1) && Freezes(g1, g2)
    ensures Freezes(g, g2)
  {
    if g2.live == g.live {
      assert g1.live == g.live;
      forall n | n in g.nodes ensures g2.Todos(n) <= g.Todos(n) {
        assert g2.Todos(n) <= g1.Todos(n) <= g.Todos(n);
      }
    }
    forall n | n in g.nodes && n !in g.live ensures g2.Sup(n) == g.Sup(n) {
      assert g2.Sup(n) == g1.Sup(n) == g.Sup(n);
    }
  }

  lemma LaterTrans(g: Graph, g1: Graph, g2: Graph, ex: set<Node>, ex2: set<Node>)
    requires g.Shape() && g1.Keyed() && g2.Keyed()
    requires Later(g, g1, ex) && Later(g1, g2, ex2)
    requires forall n | n in ex && n in g.nodes && n !in ex2 :: g2.Settled(n)
    ensures Later(g, g2, ex2)
  {
    MergesTrans(g, g1, g2);
    GrowsTrans(g, g1, g2);
    FreezesTrans(g, g1, g2);
    forall x | x in g.nodes && x !in ex2 ensures Kept(g, g2, x) {
      if !g2.Settled(x) {
        assert Kept(g, g1, x) && Kept(g1, g2, x);
        if x in g2.live { SupKeptTrans(g, g1, g2, x); }
      }
    }
  }

  lemma LaterCompose(g: Graph, g1: Graph, g2: Graph, t: Node)
    requires g.Shape() && g1.Shape() && g2.Shape() && Later(g, g1, {t}) && Later(g1, g2, {t})
    ensures Later(g, g2, {t})
  {
    LaterTrans(g, g1, g2, {t}, {t});
  }

  lemma ShapeKeyed(g: Graph)
    requires g.Shape()
    ensures g.Keyed()
  {
  }

  lemma InvShape(g: Graph, k: Ledger, r: Ranking, c: set<Node>, ex: set<Node>)
    requires g.Inv(k, r, c, ex)
    ensures g.Shape() && g.Keyed() && g.live <= g.nodes
    ensures forall a {:trigger g.dag[a]} | a in g.dag :: g.dag[a] in g.live
  {
  }

  lemma InvSound(g: Graph, k: Ledger, r: Ranking)
    requires g.Inv(k, r, {}, {})
    ensures g.SoundForAll(k.asked) && g.RankedBut(r, {}) && g.DeadLead({})
  {
  }

  lemma InvRecorded(g: Graph, k: Ledger, r: Ranking)
    requires g.Inv(k, r, {}, {})
    ensures g.Recorded(k)
  {
  }

  lemma InvFrom(g: Graph, k: Ledger, r: Ranking)
    requires g.Shape() && g.RankedBut(r, {}) && g.DeadLead({}) && g.SoundForAll(k.asked) && g.Recorded(k)
    ensures g.Inv(k, r, {}, {})
  {
  }
}
