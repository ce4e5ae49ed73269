/** Which AST nodes share a graph node, exactly, and when none is merged. */
module CubicCircle {
  import opened CubicGraph
  import opened CubicMerge
  import opened CubicRun
  import opened CubicAsk

  // ----- flows and circles -----

  ghost predicate Wakes(s: Assignment, c: Constraint) {
    c.Subseteq? || (c.Conditional? && c.condition in At(s, c.inn))
  }

  // The flows that constraints call for where s is the answer.
  ghost function Awake(s: Assignment, cs: set<Constraint>): set<Flow> {
    set c | c in cs && Wakes(s, c) :: Flow(c.from, c.to)
  }

  ghost predicate FlowsTo(fs: set<Flow>, a: ASTNode, b: ASTNode) {
    exists w :: FlowWalk(fs, w) && w[0] == a && w[|w| - 1] == b
  }

  // The two are on one circle of flows.
  ghost predicate Circle(fs: set<Flow>, a: ASTNode, b: ASTNode) {
    FlowsTo(fs, a, b) && FlowsTo(fs, b, a)
  }

  lemma FlowsOn(fs: set<Flow>, a: ASTNode, b: ASTNode, c: ASTNode)
    requires FlowsTo(fs, a, b) && Flow(b, c) in fs
    ensures FlowsTo(fs, a, c)
  {
    var w :| FlowWalk(fs, w) && w[0] == a && w[|w| - 1] == b;
    assert FlowWalk(fs, w + [c]);
  }

  lemma FlowsNowhere(fs: set<Flow>, a: ASTNode)
    ensures FlowsTo(fs, a, a)
  {
    assert FlowWalk(fs, [a]);
  }

  lemma CircleMore(fs: set<Flow>, fs': set<Flow>, a: ASTNode, b: ASTNode)
    requires fs <= fs' && Circle(fs, a, b)
    ensures Circle(fs', a, b)
  {
    var v :| FlowWalk(fs, v) && v[0] == a && v[|v| - 1] == b;
    var w :| FlowWalk(fs, w) && w[0] == b && w[|w| - 1] == a;
    assert FlowWalk(fs', v) && FlowWalk(fs', w);
  }

  // Active flows in a circle have been collapsed.
  lemma CircleCollapsed(g: Graph, k: Ledger, r: Ranking, a: ASTNode, b: ASTNode)
    requires g.Inv(k, r, {}, {}) && a in g.dag && Circle(k.active, a, b)
    ensures b in g.dag && g.dag[a] == g.dag[b]
  {
    hide Graph.Inv;
    var v :| FlowWalk(k.active, v) && v[0] == a && v[|v| - 1] == b;
    var w :| FlowWalk(k.active, w) && w[0] == b && w[|w| - 1] == a;
    var c := v + w[1..];
    assert c[|v| - 1] == b;
    CirclesCollapse(g, k, r, c);
  }

  // In a settled graph, all flows that are awake are active.
  lemma AwakeActive(g: Graph, k: Ledger, r: Ranking)
    requires g.Inv(k, r, {}, {}) && AllSettled(g) && k.limbo == {}
    ensures Awake(Answer(g), k.asked) <= k.active
  {
    forall c | c in k.asked && Wakes(Answer(g), c) ensures Flow(c.from, c.to) in k.active {
      assert g.Records(c, k);
      if c.Conditional? {
        assert g.dag[c.inn] in g.live && g.Settled(g.dag[c.inn]);
        assert Todo(c.condition, c.from, c.to) !in g.Todos(g.dag[c.inn]);
      }
    }
  }

  // ----- nodes share only on a circle -----

  lemma {:induction false} Unused(s: set<ASTFunction>) returns (f: ASTFunction)
    ensures forall x | x in s :: x < f
    decreases s
  {
    if s == {} {
      f := 0;
    } else {
      var x :| x in s;
      f := Unused(s - {x});
      f := if f <= x then x + 1 else f;
      assert forall y | y in s :: y == x || y in s - {x};
    }
  }

  // The answer with one more function everywhere that a flows to.
  ghost function Marked(s: Assignment, fs: set<Flow>, a: ASTNode, f: ASTFunction): Assignment {
    map x | x in s :: s[x] + if FlowsTo(fs, a, x) then {f} else {}
  }

  // With a function that is the condition of no constraint, this is a solution as well.
  lemma MarkedSolves(s: Assignment, cs: set<Constraint>, a: ASTNode, f: ASTFunction)
    requires Solves(s, cs) && a in s && forall c | c in cs :: Fits(s, c) && (c.Conditional? ==> c.condition != f)
    ensures Solves(Marked(s, Awake(s, cs), a, f), cs)
  {
    var fs := Awake(s, cs);
    var s' := Marked(s, fs, a, f);
    forall c | c in cs ensures Holds(s', c) {
      assert Holds(s, c) && Fits(s, c);
      if !c.ElementOf? && Wakes(s, c) {
        assert Flow(c.from, c.to) in fs;
        if FlowsTo(fs, a, c.from) { FlowsOn(fs, a, c.from, c.to); }
      }
    }
  }

  // The assignment has the nodes of the constraint.
  ghost predicate Fits(s: Assignment, c: Constraint) {
    match c
    case ElementOf(_, n) => n in s
    case Subseteq(a, b) => a in s && b in s
    case Conditional(_, i, a, b) => i in s && a in s && b in s
  }

  lemma AskedFits(g: Graph, k: Ledger, r: Ranking, c: Constraint)
    requires g.Inv(k, r, {}, {}) && k.limbo == {} && c in k.asked
    ensures Fits(Answer(g), c)
  {
    assert g.Records(c, k);
    if !c.ElementOf? && Flow(c.from, c.to) in k.active { assert g.Carries(Flow(c.from, c.to)); }
  }

  // Where a does not flow to b, some solution tells them apart.
  lemma ToldApart(s: Assignment, cs: set<Constraint>, a: ASTNode, b: ASTNode) returns (s': Assignment)
    requires Solves(s, cs) && a in s && b in s && (forall c | c in cs :: Fits(s, c)) && !FlowsTo(Awake(s, cs), a, b)
    ensures Solves(s', cs) && At(s', a) != At(s', b)
  {
    var used := set c | c in cs && c.Conditional? :: c.condition;
    var f := Unused(s[b] + used);
    s' := Marked(s, Awake(s, cs), a, f);
    forall c | c in cs && c.Conditional? ensures c.condition != f { assert c.condition in used; }
    MarkedSolves(s, cs, a, f);
    FlowsNowhere(Awake(s, cs), a);
    assert f in At(s', a) && f !in At(s', b);
  }

  // Nodes that share a graph node flow to each other.
  lemma SharedFlows(g: Graph, k: Ledger, r: Ranking, a: ASTNode, b: ASTNode)
    requires g.Inv(k, r, {}, {}) && AllSettled(g) && k.limbo == {} && a in g.dag && b in g.dag
    requires g.dag[a] == g.dag[b]
    ensures FlowsTo(Awake(Answer(g), k.asked), a, b)
  {
    forall c | c in k.asked ensures Fits(Answer(g), c) { AskedFits(g, k, r, c); }
    AnswerSolves(g, k, r);
    hide Graph.Inv, AllSettled, Awake, FlowsTo, Fits, Solves;
    if !FlowsTo(Awake(Answer(g), k.asked), a, b) {
      var s' := ToldApart(Answer(g), k.asked, a, b);
      SharedOnlyIfEqual(g, k, r, a, b, s');
    }
  }

  lemma AnswerSolves(g: Graph, k: Ledger, r: Ranking)
    requires g.Inv(k, r, {}, {}) && AllSettled(g) && k.limbo == {}
    ensures Solves(Answer(g), k.asked)
  {
    AnswerIsLeast(g, k, r);
    hide Graph.Inv, AllSettled, Answer;
  }

  /** Between calls, two AST nodes share a graph node if and only if they are on a circle of flows
      that the constraints call for under their least solution. */
  lemma SharedIffCircle(g: Graph, k: Ledger, r: Ranking, a: ASTNode, b: ASTNode)
    requires g.Inv(k, r, {}, {}) && AllSettled(g) && k.limbo == {} && a in g.dag && b in g.dag
    ensures g.dag[a] == g.dag[b] <==> Circle(Awake(Answer(g), k.asked), a, b)
  {
    hide Graph.Inv, AllSettled, Answer, Awake, FlowsTo;
    if g.dag[a] == g.dag[b] {
      SharedFlows(g, k, r, a, b);
      SharedFlows(g, k, r, b, a);
    } else if Circle(Awake(Answer(g), k.asked), a, b) {
      AwakeActive(g, k, r);
      CircleMore(Awake(Answer(g), k.asked), k.active, a, b);
      CircleCollapsed(g, k, r, a, b);
    }
  }

  /** And this is the case if and only if every solution gives them the same functions. */
  lemma SharedIffEqual(g: Graph, k: Ledger, r: Ranking, a: ASTNode, b: ASTNode)
    requires g.Inv(k, r, {}, {}) && AllSettled(g) && k.limbo == {} && a in g.dag && b in g.dag
    ensures g.dag[a] == g.dag[b] <==> forall s | Solves(s, k.asked) :: At(s, a) == At(s, b)
  {
    if g.dag[a] == g.dag[b] {
      forall s | Solves(s, k.asked) ensures At(s, a) == At(s, b) { SharedOnlyIfEqual(g, k, r, a, b, s); }
    } else {
      SharedIffCircle(g, k, r, a, b);
      AnswerSolves(g, k, r);
      forall c | c in k.asked ensures Fits(Answer(g), c) { AskedFits(g, k, r, c); }
      hide Graph.Inv, AllSettled, Awake, FlowsTo, Fits, Solves;
      if !FlowsTo(Awake(Answer(g), k.asked), a, b) {
        var s := ToldApart(Answer(g), k.asked, a, b);
      } else {
        var s := ToldApart(Answer(g), k.asked, b, a);
      }
    }
  }

  // ----- when nothing is merged -----

  // Those on one circle of these flows have one graph node.
  ghost predicate Collapsed(g: Graph, fs: set<Flow>) {
    forall a, b | a in g.dag && b in g.dag && Circle(fs, a, b) :: g.dag[a] == g.dag[b]
  }

  // A node that died is one of two that were apart and are not any more.
  lemma DiedInto(g: Graph, g': Graph, ex: set<Node>) returns (a: ASTNode, b: ASTNode)
    requires g.Keyed() && g'.Keyed() && Later(g, g', ex) && g'.live != g.live
    ensures a in g.dag && b in g.dag && g.dag[a] != g.dag[b] && a in g'.dag && b in g'.dag && g'.dag[a] == g'.dag[b]
  {
    var n :| n in g.live && n !in g'.live;
    a := g.Owner(n);
    var m := g'.Rep(n);
    b := g.Owner(m);
    assert g.Rep(n) == n && g.dag[a] == n && g'.dag[a] == g'.Rep(n);
    assert m in g'.live && m in g.live && g.Rep(m) == m && g'.Rep(m) == m;
  }

  lemma ApartBefore(g: Graph, g': Graph, ex: set<Node>, a: ASTNode, b: ASTNode)
    requires g.Keyed() && g'.Keyed() && Later(g, g', ex) && g'.live == g.live
    requires a in g.dag && b in g.dag && g'.dag[a] == g'.dag[b]
    ensures g.dag[a] == g.dag[b]
  {
    assert g'.dag[a] == g'.Rep(g.dag[a]) && g'.dag[b] == g'.Rep(g.dag[b]);
    assert g.dag[a] in g'.live && g.dag[b] in g'.live;
  }

  // All least solutions of the same constraints wake the same flows.
  lemma AwakeSame(s: Assignment, s': Assignment, cs: set<Constraint>)
    requires IsLeastSolution(s, cs) && IsLeastSolution(s', cs)
    ensures Awake(s, cs) == Awake(s', cs)
  {
    forall a ensures At(s, a) == At(s', a) { LeastIsUnique(s, s', cs, a); }
  }

  /** Until all is settled for the constraints asked, no node dies if and only if every circle of the
      flows awake under their least solution s was collapsed before. */
  lemma NoneDieIff(g: Graph, g': Graph, k': Ledger, r': Ranking, ex: set<Node>, s: Assignment)
    requires g.Shape() && Later(g, g', ex) && g'.Inv(k', r', {}, {}) && AllSettled(g') && k'.limbo == {}
    requires IsLeastSolution(s, k'.asked)
    ensures g'.live == g.live <==> Collapsed(g, Awake(s, k'.asked))
  {
    AnswerIsLeast(g', k', r');
    AwakeSame(s, Answer(g'), k'.asked);
    InvShape(g', k', r', {}, {});
    ShapeKeyed(g);
    LaterMeasure(g, g', ex);
    var fs := Awake(Answer(g'), k'.asked);
    hide Graph.Inv, Graph.Shape, AllSettled, Answer, Awake, Later, Circle, IsLeastSolution;
    if g'.live == g.live {
      forall a, b | a in g.dag && b in g.dag && Circle(fs, a, b) ensures g.dag[a] == g.dag[b] {
        SharedIffCircle(g', k', r', a, b);
        ApartBefore(g, g', ex, a, b);
      }
    } else {
      var a, b := DiedInto(g, g', ex);
      SharedIffCircle(g', k', r', a, b);
    }
  }

  // ----- which constraints make a loop lose what it goes through -----

  // Two nodes are on a circle of the flows fs' that are not on one of fs.
  ghost predicate NewCircle(fs: set<Flow>, fs': set<Flow>) {
    exists a, b :: Circle(fs', a, b) && !Circle(fs, a, b)
  }

  // Between calls at g, all its circles were collapsed; a later death closed a new one.
  lemma DeathIsNewCircle(g: Graph, g0: Graph, k: Ledger, r: Ranking, r0: Ranking, g1: Graph, g': Graph, k': Ledger,
                         r': Ranking)
    requires g.Inv(k, r, {}, {}) && AllSettled(g) && g0.Inv(k, r0, {}, {}) && AllSettled(g0) && k.limbo == {}
    requires g1.Shape() && g1.dag == g0.dag && Later(g1, g', {}) && g'.live != g1.live
    requires g'.Inv(k', r', {}, {}) && AllSettled(g') && k'.limbo == {}
    ensures NewCircle(Awake(Answer(g), k.asked), Awake(Answer(g'), k'.asked))
  {
    InvShape(g', k', r', {}, {});
    ShapeKeyed(g1);
    hide Graph.Inv, Graph.Shape, AllSettled, Answer, Awake, Later, Circle;
    SameAwake(g, g0, k, r, r0);
    var a, b := DiedInto(g1, g', {});
    SharedIffCircle(g0, k, r0, a, b);
    SharedIffCircle(g', k', r', a, b);
  }

  // Two nodes share that the flows fs do not put on a circle.
  ghost predicate SharedBeyond(g: Graph, fs: set<Flow>) {
    exists a, b :: a in g.dag && b in g.dag && g.dag[a] == g.dag[b] && !Circle(fs, a, b)
  }

  // What dies where all active flows in a circle are collapsed is shared beyond those.
  lemma DeathIsBeyond(g: Graph, k: Ledger, r: Ranking, g': Graph, ex: set<Node>)
    requires g.Inv(k, r, {}, {}) && g'.Keyed() && Later(g, g', ex) && g'.live != g.live
    ensures SharedBeyond(g', k.active)
  {
    InvShape(g, k, r, {}, {});
    hide Graph.Inv, Later, Circle;
    var a, b := DiedInto(g, g', ex);
    if Circle(k.active, a, b) { CircleCollapsed(g, k, r, a, b); }
  }

  lemma BeyondIsNewCircle(g: Graph, k: Ledger, r: Ranking, fs: set<Flow>, beyond: set<Flow>)
    requires g.Inv(k, r, {}, {}) && AllSettled(g) && k.limbo == {} && SharedBeyond(g, beyond) && fs <= beyond
    ensures NewCircle(fs, Awake(Answer(g), k.asked))
  {
    hide Graph.Inv, AllSettled, Answer, Awake, Circle;
    var a, b :| a in g.dag && b in g.dag && g.dag[a] == g.dag[b] && !Circle(beyond, a, b);
    SharedIffCircle(g, k, r, a, b);
    if Circle(fs, a, b) { CircleMore(fs, beyond, a, b); }
  }

  // An AST node that gets a graph node of its own wakes nothing.
  lemma SameAwake(g: Graph, g0: Graph, k: Ledger, r: Ranking, r0: Ranking)
    requires g.Inv(k, r, {}, {}) && AllSettled(g) && g0.Inv(k, r0, {}, {}) && AllSettled(g0) && k.limbo == {}
    ensures forall a :: At(Answer(g), a) == At(Answer(g0), a)
    ensures Awake(Answer(g), k.asked) == Awake(Answer(g0), k.asked)
  {
    AnswerIsLeast(g, k, r);
    AnswerIsLeast(g0, k, r0);
    hide Graph.Inv, AllSettled, Answer;
    AwakeSame(Answer(g), Answer(g0), k.asked);
    forall a ensures At(Answer(g), a) == At(Answer(g0), a) {
      LeastIsUnique(Answer(g), Answer(g0), k.asked, a);
    }
  }

  lemma AskedFlow(s: Assignment, s0: Assignment, cs: set<Constraint>, from: ASTNode, to: ASTNode)
    requires Awake(s, cs) == Awake(s0, cs)
    ensures Awake(s, cs + {Subseteq(from, to)}) == Awake(s0, cs) + {Flow(from, to)}
  {
    var cs' := cs + {Subseteq(from, to)};
    forall p ensures p in Awake(s, cs') <==> p in Awake(s, cs) + {Flow(from, to)} {
      if p in Awake(s, cs') {
        var c :| c in cs' && Wakes(s, c) && p == Flow(c.from, c.to);
        assert c in cs ==> p in Awake(s, cs);
      }
      if p in Awake(s, cs) {
        var c :| c in cs && Wakes(s, c) && p == Flow(c.from, c.to);
        assert c in cs';
      }
      assert Subseteq(from, to) in cs' && Wakes(s, Subseteq(from, to));
    }
  }

  // The same for a subset constraint, whose own circles are collapsed before anything goes on.
  lemma BeyondFlow(g: Graph, g0: Graph, k: Ledger, r: Ranking, r0: Ranking, p: Flow, g': Graph, k': Ledger, r': Ranking)
    requires g.Inv(k, r, {}, {}) && AllSettled(g) && g0.Inv(k, r0, {}, {}) && AllSettled(g0) && k.limbo == {}
    requires g'.Inv(k', r', {}, {}) && AllSettled(g') && k'.limbo == {}
    requires k'.asked == k.asked + {Subseteq(p.from, p.to)}
    requires SharedBeyond(g', k.active + {p})
    ensures NewCircle(Awake(Answer(g), k'.asked), Awake(Answer(g'), k'.asked))
  {
    hide Graph.Inv, AllSettled, Answer, Awake, NewCircle, SharedBeyond;
    SameAwake(g, g0, k, r, r0);
    AskedFlow(Answer(g), Answer(g0), k.asked, p.from, p.to);
    AwakeActive(g0, k, r0);
    BeyondIsNewCircle(g', k', r', Awake(Answer(g), k'.asked), k.active + {p});
  }
}
