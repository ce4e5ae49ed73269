/** The cubic solver: a mutable graph of shared nodes that is kept acyclic while
    propagation, activation and cycle elimination call one another. */
module CubicSolver {
  import opened CubicGraph
  import opened CubicChanges
  import opened CubicMerge
  import opened CubicFields
  import opened CubicSearch
  import opened CubicWalk
  import opened CubicRun
  import opened CubicCalm
  import opened CubicAsk
  import opened CubicCircle

  ghost const NOTHING: Graph := Graph({}, {}, map[], map[], map[], map[], map[], map[])

  lemma NothingAsked()
    ensures NOTHING.Inv(Ledger({}, {}, {}), Ranking(map[], 0), {}, {}) && AllSettled(NOTHING)
  {
  }

  method Numbering(functions: seq<ASTFunction>) returns (fm: map<ASTFunction, nat>)
    requires forall i, j | 0 <= i < j < |functions| :: functions[i] != functions[j]
    ensures fm.Keys == Firsts(functions, |functions|)
    ensures forall j | 0 <= j < |functions| :: functions[j] in fm && fm[functions[j]] == j
    ensures forall f | f in fm :: fm[f] < |functions| && functions[fm[f]] == f
  {
    fm := map[];
    for i := 0 to |functions|
      invariant fm.Keys == Firsts(functions, i)
      invariant forall j | 0 <= j < i :: functions[j] in fm && fm[functions[j]] == j
      invariant forall f | f in fm :: fm[f] < i && functions[fm[f]] == f
    {
      FirstsStep(functions, i);
      fm := fm[functions[i] := i];
    }
  }

  class CubicSolver {
    const fmapping: map<ASTFunction, nat>
    var dagmapping: map<ASTNode, Node>
    var fields: Fields

    ghost const functions: seq<ASTFunction>    // functions[fmapping[f]] == f
    ghost var g: Graph                         // the fields as one value
    ghost var ranking: Ranking
    ghost var ledger: Ledger
    ghost var strayed: bool                    // some loop so far could not go on as written, or missed something

    ghost predicate HeapOk()
      reads `fields, `dagmapping, `g
    {
      Tied(fmapping, functions, fields, dagmapping, g)
    }

    // Between calls everything is settled and nothing is in limbo.
    ghost predicate Valid()
      reads `fields, `dagmapping, `g, `ledger, `ranking
    {
      Ok() && AllSettled(g) && ledger.limbo == {}
    }

    ghost predicate Ok()
      reads `fields, `dagmapping, `g, `ledger, `ranking
    {
      HeapOk() && g.Inv(ledger, ranking, {}, {})
    }

    // ----- the public operations -----

    constructor (functions: seq<ASTFunction>)
      requires forall i, j | 0 <= i < j < |functions| :: functions[i] != functions[j]
      ensures Valid() && !strayed && ledger.asked == {} && g.dag == map[] && fmapping.Keys == set f | f in functions
    {
      var fm := Numbering(functions);
      fmapping := fm;
      dagmapping, fields := map[], Fields(map[], map[], map[], map[]);
      this.functions := functions;
      g, ranking, ledger, strayed := NOTHING, Ranking(map[], 0), Ledger({}, {}, {}), false;
      new;
      NothingAsked();
      hide Graph.Inv, AllSettled;
    }

    method AddElementofConstraint(fn: ASTFunction, node: ASTNode)
      requires Valid() && fn in fmapping
      modifies this
      ensures Valid() && ledger.asked == old(ledger.asked) + {ElementOf(fn, node)}
      ensures g.dag.Keys == old(g).dag.Keys + {node}
      ensures strayed && !old(strayed) ==>
                NewCircle(Awake(Answer(old(g)), old(ledger.asked)), Awake(Answer(g), ledger.asked))
    {
      hide HeapOk, Graph.Inv, Graph.Shape, Later, AllSettled, Graph.Settled, Graph.AddNode, Quiet, Undisturbed;
      hide NewCircle, Awake, Answer;
      ghost var was, r, k := g, ranking, ledger;
      AddEmptyVariableIfNecessary(node);
      ghost var g0, r0 := g, ranking;
      SetBit(fn, node);
      OthersSettled(g0, g, g.dag[node]);
      PropagateAt(node, was, g0, k, r, r0);
    }

    method AddConditionalConstraint(condition: ASTFunction, inn: ASTNode, from: ASTNode, to: ASTNode)
      requires Valid() && condition in fmapping
      modifies this
      ensures Valid() && ledger.asked == old(ledger.asked) + {Conditional(condition, inn, from, to)}
      ensures g.dag.Keys == old(g).dag.Keys + {inn, from, to}
      ensures strayed && !old(strayed) ==>
                NewCircle(Awake(Answer(old(g)), old(ledger.asked)), Awake(Answer(g), ledger.asked))
    {
      hide HeapOk, Graph.Inv, Graph.Shape, Later, AllSettled, Graph.Settled, Graph.AddNode, Quiet, Undisturbed;
      hide NewCircle, Awake, Answer;
      ghost var was, r, k := g, ranking, ledger;
      AddEmptyVariableIfNecessary(inn);
      AddEmptyVariableIfNecessary(from);
      AddEmptyVariableIfNecessary(to);
      ghost var g0, r0 := g, ranking;
      PushConstraint(condition, inn, from, to);
      PropagateAt(inn, was, g0, k, r, r0);
    }

    // From a graph in which all else is settled; `was` and g0 are the one before the call, without and with its nodes.
    method PropagateAt(node: ASTNode, ghost was: Graph, ghost g0: Graph, ghost k: Ledger, ghost r: Ranking,
                       ghost r0: Ranking)
      requires Ok() && ledger.limbo == {} && node in g.dag
      requires forall x | x in g.nodes && x != g.dag[node] :: g.Settled(x)
      requires was.Inv(k, r, {}, {}) && AllSettled(was) && g0.Inv(k, r0, {}, {}) && AllSettled(g0) && k.limbo == {}
      requires g.dag == g0.dag
      modifies `dagmapping, `fields, `g, `ranking, `ledger, `strayed
      ensures Valid() && ledger.asked == old(ledger.asked) && g.dag.Keys == g0.dag.Keys
      ensures strayed && !old(strayed) ==> NewCircle(Awake(Answer(was), k.asked), Awake(Answer(g), ledger.asked))
    {
      hide HeapOk, Graph.Inv, Graph.Shape, Later, AllSettled, Graph.Settled, Quiet, Undisturbed, NewCircle, Awake;
      hide Answer;
      ghost var g1 := g;
      InvShape(g, ledger, ranking, {}, {});
      FieldsAre();
      PropagateNodeChanges(dagmapping[node]);
      LaterMeasure(g1, g, {});
      SettledButOne(g1, g, g1.dag[node]);
      if g.live != g1.live { DeathIsNewCircle(was, g0, k, r, r0, g1, g, ledger, ranking); }
    }

    method AddSubseteqConstraint(from: ASTNode, to: ASTNode)
      requires Valid()
      modifies this
      ensures Valid() && ledger.asked == old(ledger.asked) + {Subseteq(from, to)}
      ensures g.dag.Keys == old(g).dag.Keys + {from, to}
      ensures strayed && !old(strayed) ==>
                NewCircle(Awake(Answer(old(g)), ledger.asked), Awake(Answer(g), ledger.asked))
    {
      hide HeapOk, Graph.Inv, Graph.Shape, Later, AllSettled, Graph.Settled, Holding;
      hide NewCircle, Awake, Answer, SharedBeyond;
      ghost var was, r, k := g, ranking, ledger;
      AddEmptyVariableIfNecessary(from);
      AddEmptyVariableIfNecessary(to);
      ghost var g0, r0 := g, ranking;
      AskFlow(g, ledger, ranking, from, to);
      ledger := Ask(ledger, Subseteq(from, to)).(limbo := ledger.limbo + {Flow(from, to)});
      ActivateConditionalConstraint(from, to);
      StillSettled(g0, g);
      LaterMeasure(g0, g, {});
      LimboDone(g, ledger, ranking, {});
      ledger := ledger.(limbo := {});
      if strayed && !old(strayed) { BeyondFlow(was, g0, k, r, r0, Flow(from, to), g, ledger, ranking); }
    }

    /** Lists, without repetition, the functions the least solution of all constraints added so
        far gives to n. */
    method GetPossibleFunctionsForExpr(n: ASTNode) returns (out: seq<ASTFunction>)
      requires Valid()
      ensures IsLeastSolution(Answer(g), ledger.asked)
      ensures forall f :: f in out <==> f in At(Answer(g), n)
      ensures forall i, j | 0 <= i < j < |out| :: out[i] != out[j]
    {
      AnswerIsLeast(g, ledger, ranking);
      hide HeapOk, Graph.Inv, Graph.Shape, AllSettled, IsLeastSolution;
      InvShape(g, ledger, ranking, {}, {});
      FieldsAre();
      out := [];
      if n !in dagmapping { return; }
      BitsAre(dagmapping[n]);
      BitsInRange(dagmapping[n]);
      out := SetFunctions(fmapping, fields.bitvector[dagmapping[n]]);
    }

    static method SetFunctions(fmapping: map<ASTFunction, nat>, bits: seq<bool>) returns (out: seq<ASTFunction>)
      requires forall f | f in fmapping :: fmapping[f] < |bits|
      ensures forall f :: f in out <==> f in BitsOf(fmapping, bits)
      ensures forall i, j | 0 <= i < j < |out| :: out[i] != out[j]
    {
      out := [];
      var todo := fmapping.Keys;
      while todo != {}
        invariant todo <= fmapping.Keys
        invariant forall f :: f in out <==> f in fmapping && f !in todo && bits[fmapping[f]]
        invariant forall i, j | 0 <= i < j < |out| :: out[i] != out[j]
      {
        var f :| f in todo;
        todo := todo - {f};
        if bits[fmapping[f]] {
          out := out + [f];
        }
      }
    }

    lemma BitsInRange(n: Node)
      requires HeapOk() && n in g.nodes
      ensures n in fields.bitvector && forall f | f in fmapping :: fmapping[f] < |fields.bitvector[n]|
    {
    }

    // ----- their first steps -----

    method AddEmptyVariableIfNecessary(node: ASTNode)
      requires Valid()
      modifies `dagmapping, `fields, `g, `ranking
      ensures Valid() && node in g.dag && g.dag.Keys == old(g).dag.Keys + {node}
      ensures if node in old(g).dag then g == old(g)
              else g.dag[node] !in old(g).nodes && g == old(g).AddNode(node, g.dag[node])
    {
      hide HeapOk, Graph.Inv, Graph.Shape, Tied, AllSettled, Graph.AddNode, RankNew;
      FieldsAre();
      HeapTied();
      if node in dagmapping { return; }
      InvShape(g, ledger, ranking, {}, {});
      InvSound(g, ledger, ranking);
      InvRecorded(g, ledger, ranking);
      var n := FreshNode(fields.supsets.Keys);
      FmSize();
      TiedNew(fmapping, functions, fields, dagmapping, g, node, n);
      AddNodeShape(g, node, n);
      AddNodeRanked(g, node, n, ranking);
      AddNodeSound(g, node, n, ledger);
      AddNodeSettled(g, node, n);
      AddNodeEffect(g, node, n);
      InvFrom(g.AddNode(node, n), ledger, RankNew(ranking, n));
      fields := Fields(fields.supsets[n := {}], fields.subsets[n := {}],
                       fields.bitvector[n := seq(|fmapping|, _ => false)],
                       fields.conditionalConstraints[n := seq(|fmapping|, _ => [])]);
      dagmapping := dagmapping[node := n];
      g, ranking := g.AddNode(node, n), RankNew(ranking, n);
      TiedHeap();
    }

    lemma FmSize()
      requires HeapOk()
      ensures |fmapping| == |functions|
    {
      NumbersSize(fmapping, functions);
    }

    method SetBit(fn: ASTFunction, node: ASTNode)
      requires Ok() && fn in fmapping && node in g.dag
      modifies `fields, `g, `ledger
      ensures Ok() && ledger == Ask(old(ledger), ElementOf(fn, node))
      ensures g == old(g).AddBits(old(g).dag[node], {fn}) && g.dag == old(g).dag && Later(old(g), g, {g.dag[node]})
    {
      hide HeapOk, Graph.Inv, Graph.Shape, Tied, Later, BitsOf;
      FieldsAre();
      HeapTied();
      InvShape(g, ledger, ranking, {}, {});
      var n := dagmapping[node];
      BitsAre(n);
      BitsInRange(n);
      FieldsSized();
      var bits := fields.bitvector[n][fmapping[fn] := true];
      SetBitIs(fields.bitvector[n], fn);
      TiedBits(fmapping, functions, fields, dagmapping, g, n, {fn}, bits);
      AskElement(g, ledger, ranking, fn, node);
      ledger := Ask(ledger, ElementOf(fn, node));
      fields, g := fields.(bitvector := fields.bitvector[n := bits]), g.AddBits(n, {fn});
      TiedHeap();
    }

    lemma SetBitIs(b: seq<bool>, fn: ASTFunction)
      requires HeapOk() && fn in fmapping && |b| == |functions|
      ensures BitsOf(fmapping, b[fmapping[fn] := true]) == BitsOf(fmapping, b) + {fn}
    {
    }

    method PushConstraint(condition: ASTFunction, inn: ASTNode, from: ASTNode, to: ASTNode)
      requires Valid() && condition in fmapping && inn in g.dag && from in g.dag && to in g.dag
      modifies `fields, `g, `ledger
      ensures Ok() && ledger == Ask(old(ledger), Conditional(condition, inn, from, to))
      ensures g.dag == old(g).dag && forall x | x in g.nodes && x != g.dag[inn] :: g.Settled(x)
    {
      hide HeapOk, Graph.Inv, Graph.Shape, Tied, AllSettled, Graph.Settled;
      FieldsAre();
      HeapTied();
      InvShape(g, ledger, ranking, {}, {});
      FieldsSized();
      var n, p := dagmapping[inn], Flow(from, to);
      ghost var t := Todo(condition, from, to);
      TiedTodo(fmapping, functions, fields, dagmapping, g, n, condition, p);
      AskTodo(g, ledger, ranking, condition, inn, p);
      AskTodoSettled(g, n, t);
      ledger := Ask(ledger, Conditional(condition, inn, from, to));
      BitsInRange(n);
      var waiting := fields.conditionalConstraints[n];
      fields, g := fields.(conditionalConstraints := fields.conditionalConstraints[n :=
                             waiting[fmapping[condition] := waiting[fmapping[condition]] + [p]]]), g.AddTodo(n, t);
      TiedHeap();
    }

    lemma FieldsAre()
      requires HeapOk()
      ensures g.sup == fields.supsets && g.sub == fields.subsets && g.dag == dagmapping
      ensures fields.supsets.Keys == fields.subsets.Keys == g.nodes
    {
    }

    // ----- cycle elimination -----

    method MergeNodes(n1: Node, n2: Node) returns (r: Node)
      requires HeapOk() && MergeReady(fields.supsets, fields.subsets, n1, n2)
      modifies `dagmapping, `fields, `g
      ensures HeapOk() && r == n1
      ensures g == old(g).Merged(n1, n2)
    {
      hide MergedEnds, Redirected, AllBits, AllTodos, Graph.Merged, HeapOk, Tied;
      HeapTied();
      FieldsSized();
      FieldsAre();
      var fs := fields;
      var dag := Redirect(dagmapping, n1, n2);
      var bits, waiting := JoinContent(fs.bitvector[n1], fs.bitvector[n2], fs.conditionalConstraints[n1],
                                       fs.conditionalConstraints[n2], fmapping);
      var sup, sub := MergeEdges(fs.supsets, fs.subsets, n1, n2);
      var fs' := Fields(sup, sub, fs.bitvector[n1 := bits], fs.conditionalConstraints[n1 := waiting]);
      TiedMerged(fmapping, functions, fs, dagmapping, g, n1, n2, fs', bits, waiting);
      dagmapping, fields, g := dag, fs', g.Merged(n1, n2);
      TiedHeap();
      return n1;
    }

    /** Folds a cycle into its last node, from that end. The first node dies last, still
        pointing at the survivor; each of the others dies pointing at the next to die. */
    method MergePath(cycle: seq<Node>) returns (r: Node)
      requires HeapOk() && |cycle| >= 2 && IsPath(g, cycle) && cycle[|cycle| - 1] in g.Sup(cycle[0])
      requires g.Inv(ledger, ranking, {cycle[0]}, {})
      modifies `dagmapping, `fields, `g, `ranking
      ensures HeapOk() && r == cycle[|cycle| - 1] && r in g.live
      ensures g.Inv(ledger, ranking, {r}, {})
      ensures Later(old(g), g, {r}) && g.Rep(cycle[0]) == r
      ensures cycle[0] in old(g).live && cycle[0] !in g.live
    {
      hide HeapOk, Graph.Inv, Graph.Shape, Later, Folding, Alike, IsPath, Graph.Merged, MergeReady, Graph.Rep;
      hide Graph.Sup;
      ghost var g0, t, n := g, cycle[|cycle| - 1], cycle[0];
      ghost var ex: set<Node> := {};
      var path := cycle;
      CycleStart(g, ledger, ranking, cycle);
      while |path| != 1
        invariant 1 <= |path| <= |cycle| && path == cycle[..|path| - 1] + [t]
        invariant HeapOk() && g.Inv(ledger, ranking, {n, t}, ex) && g.owner == g0.owner && t in g.live
        invariant Folding(g, cycle[..|path| - 1], t, ex) && Later(g0, g, {t}) && g.Shape()
        invariant |path| == 1 ==> n !in g.live && g.Rep(n) == t && ex == {}
      {
        var a := path[|path| - 1];
        path := path[..|path| - 1];
        var b := path[|path| - 1];
        path := path[..|path| - 1];
        ghost var p, g1, ranked := cycle[..|path| + 1], g, g.RankDead(ranking, b);
        assert p[|p| - 1] == b && p[..|p| - 1] == path == cycle[..|path|] && cycle[|path|] == b;
        AlikeSame(g0, g, ledger.asked, b, t);
        FoldingLast(g, p, t, ex);
        CycleStep(g, ledger, ranking, p, t, ex, {n, t});
        FieldsAre();
        ShapeMergeReady(g, a, b);
        var m := MergeNodes(a, b);
        ranking, ex := ranked, if |p| == 1 then {} else {b};
        LaterCompose(g0, g1, g, t);
        path := path + [m];
      }
      CycleEnd(g, ledger, ranking, n, t);
      return path[0];
    }

    /** Collapses cycles through n until there are none; the node that stands for n in the end
        is returned. With no cycle left at n there is none at all. */
    method KillCyclesAt(n0: Node) returns (n: Node)
      requires HeapOk() && g.Inv(ledger, ranking, {n0}, {}) && n0 in g.live
      modifies `dagmapping, `fields, `g, `ranking
      ensures HeapOk() && g.Inv(ledger, ranking, {}, {})
      ensures n in g.live && g.Rep(n0) == n && Later(old(g), g, {n})
      ensures n != n0 ==> n0 !in g.live
    {
      hide HeapOk, Graph.Inv, Graph.Shape, Later, IsPath, Graph.Rep, ClosedUnderSup;
      ghost var g0 := g;
      ghost var below: set<Node> := {};
      n := n0;
      InvShape(g, ledger, ranking, {n}, {});
      CollapseStart(g, n);
      var collapsed := true;
      while collapsed
        invariant HeapOk() && g.Inv(ledger, ranking, {n}, {}) && g.Shape() && g.live <= g.nodes
        invariant n in g.live && g.Rep(n0) == n && Later(g0, g, {n}) && (n != n0 ==> n0 !in g.live)
        invariant !collapsed ==> n !in below && ClosedUnderSup(g, below) && g.Sup(n) <= below
        decreases g.live, collapsed
      {
        collapsed := false;
        below := {};
        ClosedNone(g);
        FieldsAre();
        var todo := fields.supsets[n];
        ghost var g1 := g;
        while todo != {}
          invariant HeapOk() && g == g1 && todo <= g.Sup(n) && g.Inv(ledger, ranking, {n}, {})
          invariant n !in below && ClosedUnderSup(g, below) && g.Sup(n) - todo <= below
        {
          var t :| t in todo;
          FieldsAre();
          SupLive(g, n, t);
          var path, reached := FindPath(fields.supsets, fields.subsets, t, n, g);
          if |path| == 0 {
            ClosedJoin(g, below, reached);
            below := below + reached;
            todo := todo - {t};
            continue;
          }
          ghost var n1 := n;
          n := MergePath(path);
          InvShape(g, ledger, ranking, {n}, {});
          CollapseStep(g0, g1, g, n0, n1, n);
          collapsed := true;
          break;
        }
      }
      CollapseEnd(g, ledger, ranking, n, below);
      ranking := g.RankAnew(ranking, n, below);
    }

    // ----- activation and propagation -----

    method ActivateConditionalConstraint(from: ASTNode, to: ASTNode)
      requires Ok() && from in g.dag && to in g.dag && Holding(ledger.asked, Flow(from, to))
      modifies `dagmapping, `fields, `g, `ranking, `ledger, `strayed
      ensures Ok() && Later(old(g), g, {})
      ensures Books(old(ledger), ledger) && Flow(from, to) in ledger.active
      ensures g.live <= old(g).live && (strayed ==> old(strayed) || g.live != old(g).live)
      ensures strayed ==> old(strayed) || SharedBeyond(g, old(ledger).active + {Flow(from, to)})
      decreases g.live, g.Pending(), 1, 0, 0
    {
      hide HeapOk, Graph.Inv, Graph.Shape, Later, Graph.Rep, Graph.Pending, Holding, Graph.AddEdge, Graph.Settled;
      hide SharedBeyond;
      ghost var g0 := g;
      ghost var p := Flow(from, to);
      InvShape(g, ledger, ranking, {}, {});
      FieldsAre();
      var a, b := dagmapping[from], dagmapping[to];
      if a == b {
        SelfFlow(g, ledger, ranking, p);
        LaterRefl(g);
        ledger := ledger.(active := ledger.active + {p});
        return;
      }
      ghost var g1 := g.AddEdge(a, b);
      AddEdge(a, b, p);
      InvShape(g1, ledger, ranking, {a}, {});
      var n := KillCyclesAt(a);
      ghost var g2, r2, k2 := g, ranking, ledger;
      InvShape(g2, ledger, ranking, {}, {});
      StaysMapped(g1, g2, {n}, from);
      FieldsAre();
      ActivateMeasure(g0, g1, g2, a, n);
      PropagateNodeChanges(dagmapping[from]);
      InvShape(g, ledger, ranking, {}, {});
      ActivateLater(g0, g1, g2, g, a, n);
      LaterMeasure(g2, g, {});
      if g.live != g2.live { DeathIsBeyond(g2, k2, r2, g, {}); }
    }

    method AddEdge(a: Node, b: Node, ghost p: Flow)
      requires Ok() && p.from in g.dag && p.to in g.dag && a == g.dag[p.from] && b == g.dag[p.to] && a != b
      requires Holding(ledger.asked, p)
      modifies `fields, `g, `ledger
      ensures HeapOk() && g == old(g).AddEdge(a, b) && ledger == old(ledger).(active := old(ledger).active + {p})
      ensures g.Inv(ledger, ranking, {a}, {}) && Later(old(g), g, {a}) && a in g.live && g.live == old(g).live
      ensures g.dag == old(g).dag
    {
      hide HeapOk, Graph.Inv, Graph.Shape, Later, Graph.AddEdge, Tied;
      InvShape(g, ledger, ranking, {}, {});
      FieldsAre();
      HeapTied();
      AddEdgeKeeps(g, p, ledger, ranking);
      TiedEdge(fmapping, functions, fields, dagmapping, g, a, b);
      EdgeNames(g, a, b);
      ledger := ledger.(active := ledger.active + {p});
      fields, g := fields.(supsets := fields.supsets[a := fields.supsets[a] + {b}],
                           subsets := fields.subsets[b := fields.subsets[b] + {a}]), g.AddEdge(a, b);
      TiedHeap();
    }

    lemma HeapTied()
      requires HeapOk()
      ensures Tied(fmapping, functions, fields, dagmapping, g)
    {
    }

    lemma TiedHeap()
      requires Tied(fmapping, functions, fields, dagmapping, g)
      ensures HeapOk()
    {
    }

    method AddBitsFrom(node: Node, s: Node)
      requires Ok() && node in g.nodes && s in g.nodes
      requires forall x {:trigger Solves(x, ledger.asked)} | Solves(x, ledger.asked) ::
          g.Bits(node) <= At(x, g.Owner(s))
      modifies `fields, `g
      ensures Ok() && g == old(g).AddBits(s, old(g).Bits(node)) && Later(old(g), g, {s})
    {
      hide HeapOk, Graph.Inv, Graph.Shape, Later, Graph.AddBits, Tied;
      FieldsAre();
      HeapTied();
      FieldsSized();
      var bits := OrBits(fields.bitvector[s], fields.bitvector[node], fmapping);
      BitsAre(node);
      AddBitsKeeps(g, s, g.Bits(node), ledger, ranking);
      TiedBits(fmapping, functions, fields, dagmapping, g, s, g.Bits(node), bits);
      fields, g := fields.(bitvector := fields.bitvector[s := bits]), g.AddBits(s, g.Bits(node));
      TiedHeap();
    }

    lemma FieldsSized()
      requires HeapOk()
      ensures fields.bitvector.Keys == g.nodes == fields.conditionalConstraints.Keys
      ensures forall n | n in fields.bitvector ::
          |fields.bitvector[n]| == |functions| == |fields.conditionalConstraints[n]|
    {
    }

    lemma BitsAre(n: Node)
      requires HeapOk() && n in g.nodes
      ensures n in fields.bitvector && g.Bits(n) == BitsOf(fmapping, fields.bitvector[n])
      ensures g.Bits(n) <= Firsts(functions, |functions|)
    {
    }

    /** Takes out and activates every entry that waits at node for a function it has. */
    method ActivateTriggered(node: Node)
      requires Ok() && node in g.nodes
      modifies `dagmapping, `fields, `g, `ranking, `ledger, `strayed
      ensures Ok() && Later(old(g), g, {node}) && Books(old(ledger), ledger)
      ensures Quiet(old(g), old(ranking), g, ranking)
      ensures Cleared(old(g), g, node, Firsts(functions, |functions|))
      ensures old(g).Untriggered(node) ==> Unmoved(old(g), g)
      ensures strayed ==> old(strayed) || g.live != old(g).live
      decreases g.live, g.Pending(), 0, ranking.Of(node), 1
    {
      hide HeapOk, Graph.Inv, Graph.Shape, Later, Graph.Pending, Quiet, Cleared, Graph.ClearTodo, Graph.Waiting;
      hide Unmoved, Graph.Untriggered;
      ghost var g0, r0, k0 := g, ranking, ledger;
      NothingDisturbed(g, node);
      InvShape(g, ledger, ranking, {}, {});
      TriggeredStart(g, ranking, node);
      assert Firsts(functions, 0) == {};
      FieldsSized();
      for i := 0 to |fields.bitvector[node]|
        invariant Ok() && node in g.nodes && g.Shape() && Later(g0, g, {node}) && Books(k0, ledger)
        invariant Quiet(g0, r0, g, ranking)
        invariant Cleared(g0, g, node, Firsts(functions, i))
        invariant g0.Untriggered(node) ==> Unmoved(g0, g)
        invariant strayed ==> old(strayed) || g.live != g0.live
      {
        FieldsSized();
        BitAt(node, i);
        ghost var f, gone := functions[i], Firsts(functions, i);
        FirstsStep(functions, i);
        if fields.bitvector[node][i] {
          ghost var g1 := g;
          TriggeredMeasure(g0, r0, g, ranking, node);
          ActivateAt(node, i, g0, r0);
          ClearedStep(g0, g1, g, node, gone, f);
          UnmovedStep(g0, g1, g, node, f);
          LaterMeasure(g0, g1, {node});
        } else {
          ClearedSkip(g0, g, node, gone, f);
        }
      }
    }

    lemma BitAt(node: Node, i: nat)
      requires HeapOk() && node in g.nodes && i < |functions|
      ensures node in fields.bitvector && i < |fields.bitvector[node]|
      ensures fields.bitvector[node][i] <==> functions[i] in g.Bits(node)
    {
      BitsAre(node);
      assert functions[i] in fmapping;
    }

    // The entries that wait at node for function number i, which it has.
    method ActivateAt(node: Node, i: nat, ghost g0: Graph, ghost r0: Ranking)
      requires Ok() && node in g.nodes && i < |functions| && functions[i] in g.Bits(node)
      requires g0.Shape() && node in g0.nodes && Later(g0, g, {node}) && Quiet(g0, r0, g, ranking)
      modifies `dagmapping, `fields, `g, `ranking, `ledger, `strayed
      ensures Ok() && g.Shape() && node in g.nodes && Books(old(ledger), ledger)
      ensures Later(g0, g, {node}) && Quiet(g0, r0, g, ranking)
      ensures Later(old(g).ClearTodo(node, functions[i]), g, {})
      ensures old(g).Waiting(node, functions[i]) == {} ==> g == old(g).ClearTodo(node, functions[i])
      ensures g.live <= old(g).live && (strayed ==> old(strayed) || g.live != old(g).live)
      decreases g.live, g.Pending(), 0, ranking.Of(node), 0
    {
      hide HeapOk, Graph.Inv, Graph.Shape, Later, Graph.Pending, Quiet, Graph.ClearTodo, Graph.Waiting, Holding;
      ghost var gb, rb, kb, f := g, ranking, ledger, functions[i];
      InvShape(gb, ledger, ranking, {}, {});
      ClearNames(gb, node, f);
      var constraints := TakeOut(node, i);
      ghost var g1, k1 := g, ledger;
      InvShape(g1, ledger, ranking, {}, {});
      LaterRefl(g1);
      for k := 0 to |constraints|
        invariant Ok() && Later(g1, g, {}) && Books(k1, ledger)
        invariant forall j | 0 <= j < k :: constraints[j] in ledger.active
        invariant k == 0 ==> g == g1 && ranking == rb
        invariant g.live <= g1.live && (strayed ==> old(strayed) || g.live != g1.live)
      {
        ghost var g2, k2, p := g, ledger, constraints[k];
        LaterMeasure(g1, g, {});
        ActivatedMeasure(gb, node, f, g, p);
        assert Flow(p.from, p.to) == p;
        InvShape(g2, k2, ranking, {}, {});
        ActivateConditionalConstraint(constraints[k].from, constraints[k].to);
        InvShape(g, ledger, ranking, {}, {});
        LaterChain(g1, g2, g);
        BooksTrans(k1, k2, ledger);
      }
      InvShape(g, ledger, ranking, {}, {});
      assert |constraints| > 0 ==> constraints[0] in gb.Waiting(node, f);
      QuietAfter(gb, rb, node, f, g, ranking);
      LaterThen(gb, g1, g, node);
      LaterMeasure(gb, g, {node});
      QuietStep(g0, r0, gb, rb, g, ranking, {node}, {node});
      LaterCompose(g0, gb, g, node);
      LimboDone(g, ledger, ranking, kb.limbo);
      ledger := ledger.(limbo := kb.limbo);
    }

    // Moves the entries that wait at node for function number i into limbo.
    method TakeOut(node: Node, i: nat) returns (constraints: seq<Flow>)
      requires Ok() && node in g.nodes && i < |functions| && functions[i] in g.Bits(node)
      modifies `fields, `g, `ledger
      ensures Ok() && g == old(g).ClearTodo(node, functions[i]) && Later(old(g), g, {node})
      ensures forall p :: p in constraints <==> p in old(g).Waiting(node, functions[i])
      ensures ledger == old(ledger).(limbo := old(ledger).limbo + old(g).Waiting(node, functions[i]))
      ensures forall p | p in constraints :: p.from in g.dag && p.to in g.dag && Holding(ledger.asked, p)
    {
      hide HeapOk, Graph.Inv, Graph.Shape, Later, Graph.ClearTodo, Tied, Graph.Waiting;
      FieldsSized();
      HeapTied();
      BitAt(node, i);
      constraints := fields.conditionalConstraints[node][i];
      InvShape(g, ledger, ranking, {}, {});
      InvSound(g, ledger, ranking);
      WaitingHolds(g, node, functions[i], ledger.asked);
      TiedClear(fmapping, functions, fields, dagmapping, g, node, i);
      ClearTodoKeeps(g, node, functions[i], ledger, ranking);
      ClearNames(g, node, functions[i]);
      ledger := ledger.(limbo := ledger.limbo + g.Waiting(node, functions[i]));
      fields, g := fields.(conditionalConstraints := fields.conditionalConstraints[node :=
                             fields.conditionalConstraints[node][i := []]]), g.ClearTodo(node, functions[i]);
      TiedHeap();
    }

    /** Passes what node has along its supsets, and on from there. Node may be merged away on the
        way; it is settled in the end all the same. Only the part behind the test for `strayed` is
        not in the original: it visits what the loop as written has missed. */
    method PropagateNodeChanges(node: Node)
      requires Ok() && node in g.nodes
      modifies `dagmapping, `fields, `g, `ranking, `ledger, `strayed
      ensures Ok() && Later(old(g), g, {}) && g.Settled(node) && Books(old(ledger), ledger)
      ensures Quiet(old(g), old(ranking), g, ranking) && Undisturbed(old(g), g, node)
      ensures strayed ==> old(strayed) || g.live != old(g).live
      decreases g.live, g.Pending(), 0, ranking.Of(node), 4
    {
      hide HeapOk, Graph.Inv, Graph.Shape, Later, Graph.Pending, Quiet, Cleared, Spread, Graph.Settled;
      hide Undisturbed, Unmoved, Graph.Untriggered;
      ghost var g0, r0, k0 := g, ranking, ledger;
      InvShape(g0, ledger, ranking, {}, {});
      ActivateTriggered(node);
      ghost var g1, r1, k1 := g, ranking, ledger;
      InvShape(g1, ledger, ranking, {}, {});
      InvSound(g1, ledger, ranking);
      LaterMeasure(g0, g1, {node});
      TriggeredMeasure(g0, r0, g1, r1, node);
      UnmovedIsUndisturbed(g0, g1, node);
      BitsAre(node);
      SpreadStart(g0, g, node, Firsts(functions, |functions|));
      var missed, erased := GoThrough(node, g0, g1, r1);
      LaterMeasure(g1, g, {});
      BooksTrans(k0, k1, ledger);
      if erased || missed != {} {
        strayed := true;
        ghost var k2 := ledger;
        VisitMissed(node, missed, g0, g1, r1);
        BooksTrans(k0, k2, ledger);
        LaterMeasure(g1, g, {});
      } else {
        assert g1.Sup(node) - missed == g1.Sup(node);
      }
      InvShape(g, ledger, ranking, {}, {});
      InvSound(g, ledger, ranking);
      SpreadDone(g, node, g1.Sup(node));
      LaterThen(g0, g1, g, node);
      LaterSettled(g0, g, node);
      QuietStep(g0, r0, g1, r1, g, ranking, {node}, {});
    }

    /** The loop as it is written. It goes through the set in use, from one address to the next
        higher one, and cannot go on from an element that was erased. It misses members of the
        set it began with only if these have died. */
    method GoThrough(node: Node, ghost g0: Graph, ghost g1: Graph, ghost r1: Ranking)
      returns (missed: set<Node>, erased: bool)
      requires Ok() && g == g1 && ranking == r1 && node in g.nodes
      requires Spread(g, node, g.Sup(node), {}) && Undisturbed(g0, g, node)
      modifies `dagmapping, `fields, `g, `ranking, `ledger, `strayed
      ensures Ok() && Later(g1, g, {}) && Books(old(ledger), ledger) && Quiet(g1, r1, g, ranking)
      ensures missed <= g1.Sup(node) && Spread(g, node, g1.Sup(node), g1.Sup(node) - missed)
      ensures Undisturbed(g0, g, node)
      ensures !erased ==> missed !! g.live
      ensures g.live == g1.live ==> missed == {} && !erased
      ensures strayed ==> old(strayed) || g.live != g1.live
      decreases g1.live, g1.Pending(), 0, r1.Of(node), 3
    {
      hide HeapOk, Graph.Inv, Graph.Shape, Later, Graph.Pending, Quiet, Spread, Undisturbed, Passed;
      ghost var k0 := ledger;
      InvShape(g, ledger, ranking, {}, {});
      InvSound(g, ledger, ranking);
      SupsKnown(g, node);
      LaterRefl(g);
      FieldsAre();
      var sups := fields.supsets[node];
      var up, visited: set<Node> := 0, {};
      var ahead := Ahead(sups, up);
      PassedNone(g1, g, node);
      QuietRefl(g, ranking);
      while ahead != {}
        invariant Ok() && g.Shape() && g.nodes == g1.nodes && Books(k0, ledger) && Later(g1, g, {})
        invariant Quiet(g1, r1, g, ranking) && sups == g1.Sup(node) <= g.nodes && visited <= g.nodes
        invariant Spread(g, node, sups, visited) && Undisturbed(g0, g, node)
        invariant ahead == Ahead(g.Sup(node), up) && Passed(g1, g, node, up, visited)
        invariant strayed ==> old(strayed) || g.live != g1.live
        decreases Ahead(g1.nodes, up)
      {
        var s := Lowest(ahead);
        ghost var g2, r2, k2 := g, ranking, ledger;
        SupsKnown(g2, node);
        InvSound(g2, ledger, ranking);
        VisitMeasure(g1, r1, g2, r2, node, s);
        LaterRefl(g2);
        Visit(node, s, g0, g2, sups, visited);
        LaterChain(g1, g2, g);
        QuietStep(g1, r1, g2, r2, g, ranking, {}, {});
        BooksTrans(k0, k2, ledger);
        PassedStep(g1, g2, g, node, up, visited, s);
        LaterMeasure(g2, g, {});
        LaterMeasure(g1, g2, {});
        visited := visited + {s};
        FieldsAre();
        if s !in fields.supsets[node] {
          SupersetLost(g2, g, node, s);
          SpreadFewer(g, node, sups, visited, sups - (sups - visited));
          return sups - visited, true;
        }
        AheadShrinks(g1.nodes, up, s);
        up := s + 1;
        ahead := Ahead(fields.supsets[node], up);
      }
      PassedAll(g1, g, node, up, visited);
      SpreadFewer(g, node, sups, visited, sups - (sups - visited));
      return sups - visited, false;
    }

    // What the loop as written has missed.
    method VisitMissed(node: Node, missed: set<Node>, ghost g0: Graph, ghost g1: Graph, ghost r1: Ranking)
      requires Ok() && g1.Shape() && node in g1.nodes && g1.SoundForAll(ledger.asked) && g1.RankedBut(r1, {})
      requires Later(g1, g, {}) && Quiet(g1, r1, g, ranking) && missed <= g1.Sup(node)
      requires Spread(g, node, g1.Sup(node), g1.Sup(node) - missed)
      requires Undisturbed(g0, g1, node) && Undisturbed(g0, g, node)
      modifies `dagmapping, `fields, `g, `ranking, `ledger, `strayed
      ensures Ok() && Later(g1, g, {}) && Books(old(ledger), ledger) && Quiet(g1, r1, g, ranking)
      ensures Spread(g, node, g1.Sup(node), g1.Sup(node)) && Undisturbed(g0, g, node)
      ensures g.live <= old(g).live
      decreases g1.live, g1.Pending(), 0, r1.Of(node), 3
    {
      hide HeapOk, Graph.Inv, Graph.Shape, Later, Graph.Pending, Quiet, Spread, Undisturbed;
      ghost var k0 := ledger;
      InvShape(g, ledger, ranking, {}, {});
      SupsKnown(g1, node);
      LaterMeasure(g1, g, {});
      var todo := missed;
      while todo != {}
        invariant todo <= missed && g.nodes == g1.nodes && Books(k0, ledger) && g.live <= old(g).live
        invariant Ok() && g.Shape() && Later(g1, g, {}) && Quiet(g1, r1, g, ranking)
        invariant Spread(g, node, g1.Sup(node), g1.Sup(node) - todo) && Undisturbed(g0, g, node)
      {
        var s :| s in todo;
        ghost var g2, r2, k2, visited := g, ranking, ledger, g1.Sup(node) - todo;
        VisitMeasure(g1, r1, g2, r2, node, s);
        Visit(node, s, g0, g1, g1.Sup(node), visited);
        LaterChain(g1, g2, g);
        QuietStep(g1, r1, g2, r2, g, ranking, {}, {});
        BooksTrans(k0, k2, ledger);
        LaterMeasure(g2, g, {});
        assert visited + {s} == g1.Sup(node) - (todo - {s});
        todo := todo - {s};
      }
      assert g1.Sup(node) - todo == g1.Sup(node);
    }

    // One superset, first seen at gs: it takes what node has, and passes it on.
    method Visit(node: Node, s: Node, ghost g0: Graph, ghost gs: Graph, ghost sups: set<Node>, ghost visited: set<Node>)
      requires Ok() && node in g.nodes && s in g.nodes && sups <= g.nodes && visited <= g.nodes
      requires gs.Shape() && node in gs.nodes && s in gs.Sup(node) && gs.SoundForAll(ledger.asked) && Later(gs, g, {})
      requires Spread(g, node, sups, visited) && Undisturbed(g0, gs, node) && Undisturbed(g0, g, node)
      modifies `dagmapping, `fields, `g, `ranking, `ledger, `strayed
      ensures Ok() && g.Shape() && Books(old(ledger), ledger) && Later(old(g), g, {})
      ensures Quiet(old(g), old(ranking), g, ranking)
      ensures Spread(g, node, sups, visited + {s}) && Undisturbed(g0, g, node)
      ensures node in g.live && s in old(g).Sup(node) ==> (s in g.Sup(node) <==> s in g.live)
      ensures strayed ==> old(strayed) || g.live != old(g).live
      decreases g.live, g.Pending(), 0, ranking.Of(s), 5
    {
      hide HeapOk, Graph.Inv, Graph.Shape, Later, Graph.Pending, Quiet, Spread, Below, Graph.Settled;
      hide Graph.AddBits, Undisturbed;
      ghost var g2, r2, k2 := g, ranking, ledger;
      InvShape(g2, ledger, ranking, {}, {});
      LaterMeasure(gs, g2, {});
      InvSound(g2, ledger, ranking);
      EdgeBelow(gs, ledger.asked, node);
      BitsBelow(g2, gs, ledger.asked, node, s);
      AddBitsFrom(node, s);
      ghost var g3 := g;
      InvShape(g3, ledger, ranking, {}, {});
      AddBitsSame(g2, s, g2.Bits(node));
      PropagateNodeChanges(s);
      InvShape(g, ledger, ranking, {}, {});
      VisitLater(g2, g3, g, s);
      LaterGrows(g3, g);
      SpreadStep(g2, g, node, sups, visited, s);
      QuietVisit(g2, r2, g, ranking, s, g2.Bits(node));
      VisitUndisturbed(g0, gs, g2, g, node, s);
      if s in g2.Sup(node) { SupersetLost(g2, g, node, s); }
    }
  }

  // Three calls bring a solver to where the fourth one may never end.
  method CallThree() returns (solver: CubicSolver)
    ensures fresh(solver) && solver.Valid() && AfterThree(solver.g, solver.ledger, solver.ranking)
  {
    hide CubicSolver.HeapOk, Graph.Inv, AllSettled, NewCircle, Awake, Answer;
    solver := new CubicSolver([]);
    solver.AddSubseteqConstraint(1, 2);
    solver.AddSubseteqConstraint(0, 1);
    solver.AddSubseteqConstraint(0, 2);
    assert solver.g.dag.Keys == {0, 1, 2};
    assert solver.ledger.asked == {Subseteq(1, 2), Subseteq(0, 1), Subseteq(0, 2)};
  }

  // And three other calls to where the next one erases what its loop stands on.
  method CallBeforeErasure() returns (solver: CubicSolver)
    ensures fresh(solver) && solver.Valid() && BeforeErasure(solver.g, solver.ledger, solver.ranking)
  {
    hide CubicSolver.HeapOk, Graph.Inv, AllSettled, NewCircle, Awake, Answer;
    solver := new CubicSolver([5]);
    solver.AddSubseteqConstraint(0, 1);
    solver.AddSubseteqConstraint(2, 1);
    solver.AddConditionalConstraint(5, 1, 1, 2);
    assert solver.g.dag.Keys == {0, 1, 2};
    assert solver.ledger.asked == {Subseteq(0, 1), Subseteq(2, 1), Conditional(5, 1, 1, 2)};
  }

  // Four calls bring it to where the next one misses what was merged behind it.
  method CallBeforeMissing() returns (solver: CubicSolver)
    ensures fresh(solver) && solver.Valid() && BeforeMissing(solver.g, solver.ledger, solver.ranking)
  {
    hide CubicSolver.HeapOk, Graph.Inv, AllSettled, NewCircle, Awake, Answer;
    solver := new CubicSolver([5]);
    solver.AddSubseteqConstraint(0, 1);
    solver.AddSubseteqConstraint(0, 2);
    solver.AddSubseteqConstraint(3, 2);
    solver.AddConditionalConstraint(5, 1, 2, 3);
    assert solver.g.dag.Keys == {0, 1, 2, 3};
    assert solver.ledger.asked == {Subseteq(0, 1), Subseteq(0, 2), Subseteq(3, 2), Conditional(5, 1, 2, 3)};
  }
}
