/** The fields of the graph nodes as the solver stores them (vectors of bits, vectors of lists of waiting
    constraints, two sets of nodes), the loops that rewrite them when two nodes are merged, and how
    all of them read as one graph. */
module CubicFields {
  import opened CubicGraph

  // The functions whose bit is set.
  ghost function BitsOf(fm: map<ASTFunction, nat>, bits: seq<bool>): set<ASTFunction> {
    set f | f in fm && fm[f] < |bits| && bits[fm[f]]
  }

  ghost function TodosOf(fm: map<ASTFunction, nat>, waiting: seq<seq<Flow>>): set<Todo> {
    set f, p | f in fm && fm[f] < |waiting| && p in waiting[fm[f]] :: Todo(f, p.from, p.to)
  }

  ghost function AllBits(fm: map<ASTFunction, nat>, bits: map<Node, seq<bool>>): (m: map<Node, set<ASTFunction>>)
    ensures m.Keys == bits.Keys
  {
    map n | n in bits :: BitsOf(fm, bits[n])
  }

  ghost function AllTodos(fm: map<ASTFunction, nat>, waiting: map<Node, seq<seq<Flow>>>): (m: map<Node, set<Todo>>)
    ensures m.Keys == waiting.Keys
  {
    map n | n in waiting :: TodosOf(fm, waiting[n])
  }

  lemma AllBitsUpdate(fm: map<ASTFunction, nat>, bits: map<Node, seq<bool>>, n: Node, b: seq<bool>)
    ensures AllBits(fm, bits[n := b]) == AllBits(fm, bits)[n := BitsOf(fm, b)]
  {
  }

  lemma AllTodosUpdate(fm: map<ASTFunction, nat>, waiting: map<Node, seq<seq<Flow>>>, n: Node, w: seq<seq<Flow>>)
    ensures AllTodos(fm, waiting[n := w]) == AllTodos(fm, waiting)[n := TodosOf(fm, w)]
  {
  }

  // m' is m with n2 replaced by n1 at every node of `who` other than n1 itself.
  ghost predicate Pointed(m: map<Node, set<Node>>, m': map<Node, set<Node>>, who: set<Node>, n1: Node, n2: Node) {
    m'.Keys == m.Keys && forall x {:trigger m'[x]} | x in m && x != n1 ::
        m'[x] == if x in who then m[x] - {n2} + {n1} else m[x]
  }

  // The two loops one after the other, and the last erase, in the direction taken first ...
  lemma MergedEndsAre(ends: map<Node, set<Node>>, back: map<Node, set<Node>>,
                      m1: map<Node, set<Node>>, m2: map<Node, set<Node>>, n1: Node, n2: Node)
    requires n1 in ends && n2 in back && n2 in ends
    requires m1.Keys == ends.Keys && (forall x | x in ends && x != n1 :: m1[x] == ends[x])
    requires m1[n1] == ends[n1] + (ends[n2] - {n1})
    requires Pointed(m1, m2, back[n2], n1, n2) && m2[n1] == m1[n1]
    ensures m2[n1 := m2[n1] - {n2}] == MergedEnds(ends.Keys, ends, back, n1, n2)
  {
    var m := m2[n1 := m2[n1] - {n2}];
    forall x | x in m ensures m[x] == MergedEnds(ends.Keys, ends, back, n1, n2)[x] {}
  }

  // ... and in the direction taken second.
  lemma MergedEndsAre2(ends: map<Node, set<Node>>, back: map<Node, set<Node>>,
                       m1: map<Node, set<Node>>, m2: map<Node, set<Node>>, n1: Node, n2: Node)
    requires n1 in ends && n2 in back && n2 in ends && n1 != n2 && n2 !in back[n2]
    requires Pointed(ends, m1, back[n2], n1, n2) && m1[n1] == ends[n1]
    requires m2.Keys == m1.Keys && (forall x | x in m1 && x != n1 :: m2[x] == m1[x])
    requires m2[n1] == m1[n1] + (m1[n2] - {n1})
    ensures m2[n1 := m2[n1] - {n2}] == MergedEnds(ends.Keys, ends, back, n1, n2)
  {
    var m := m2[n1 := m2[n1] - {n2}];
    forall x | x in m ensures m[x] == MergedEnds(ends.Keys, ends, back, n1, n2)[x] {}
  }

  lemma BitsOfMerged(fm: map<ASTFunction, nat>, b1: seq<bool>, b2: seq<bool>, b: seq<bool>)
    requires |b1| == |b2| == |b| && forall j | 0 <= j < |b| :: b[j] == (b1[j] || b2[j])
    ensures BitsOf(fm, b) == BitsOf(fm, b1) + BitsOf(fm, b2)
  {
  }

  lemma TodosOfMerged(fm: map<ASTFunction, nat>, w1: seq<seq<Flow>>, w2: seq<seq<Flow>>, w: seq<seq<Flow>>)
    requires |w1| == |w2| == |w| && forall j | 0 <= j < |w| :: w[j] == w1[j] + w2[j]
    ensures TodosOf(fm, w) == TodosOf(fm, w1) + TodosOf(fm, w2)
  {
    forall t ensures t in TodosOf(fm, w) <==> t in TodosOf(fm, w1) + TodosOf(fm, w2) {
      if t.fn in fm && fm[t.fn] < |w| {
        assert Flow(t.from, t.to) in w[fm[t.fn]] <==>
          (Flow(t.from, t.to) in w1[fm[t.fn]] || Flow(t.from, t.to) in w2[fm[t.fn]]);
      }
    }
  }

  // Every AST node that was mapped to n2 is mapped to n1.
  method Redirect(dag: map<ASTNode, Node>, n1: Node, n2: Node) returns (dag': map<ASTNode, Node>)
    ensures dag' == Redirected(dag, n1, n2)
  {
    dag' := dag;
    var keys := dag.Keys;
    while keys != {}
      invariant keys <= dag'.Keys == dag.Keys
      invariant forall a | a in dag :: dag'[a] == if a !in keys && dag[a] == n2 then n1 else dag[a]
    {
      var a :| a in keys;
      if dag'[a] == n2 {
        dag' := dag'[a := n1];
      }
      keys := keys - {a};
    }
  }

  // The functions and the waiting constraints of n1 with those of n2 added.
  method JoinContent(b1: seq<bool>, b2: seq<bool>, w1: seq<seq<Flow>>, w2: seq<seq<Flow>>,
                     ghost fm: map<ASTFunction, nat>)
    returns (bits: seq<bool>, waiting: seq<seq<Flow>>)
    requires |b1| == |b2| == |w1| == |w2|
    ensures |bits| == |waiting| == |b1|
    ensures BitsOf(fm, bits) == BitsOf(fm, b1) + BitsOf(fm, b2)
    ensures TodosOf(fm, waiting) == TodosOf(fm, w1) + TodosOf(fm, w2)
  {
    bits, waiting := b1, w1;
    for i := 0 to |b1|
      invariant |bits| == |waiting| == |b1|
      invariant forall j | 0 <= j < |b1| :: bits[j] == (b1[j] || (j < i && b2[j]))
      invariant forall j | 0 <= j < |b1| :: waiting[j] == w1[j] + if j < i then w2[j] else []
    {
      bits := bits[i := bits[i] || b2[i]];
      waiting := waiting[i := waiting[i] + w2[i]];
    }
    BitsOfMerged(fm, b1, b2, bits);
    TodosOfMerged(fm, w1, w2, waiting);
  }

  /** n1 takes over the ends of n2, and those ends point back at n1 instead of n2; n2 keeps
      its own set as it was. Every erase finds n2. */
  method TakeEnds(ends: map<Node, set<Node>>, back: map<Node, set<Node>>, n1: Node, n2: Node)
    returns (ends': map<Node, set<Node>>, back': map<Node, set<Node>>)
    requires n1 in ends && n2 in ends && back.Keys == ends.Keys && n1 != n2 && ends[n2] <= ends.Keys
    requires forall a | a in ends[n2] :: a == n1 || n2 in back[a]
    ensures ends'.Keys == ends.Keys && forall x | x in ends && x != n1 :: ends'[x] == ends[x]
    ensures ends'[n1] == ends[n1] + (ends[n2] - {n1})
    ensures Pointed(back, back', ends[n2], n1, n2) && back'[n1] == back[n1]
  {
    ends', back' := ends, back;
    var todo := ends[n2];
    while todo != {}
      invariant todo <= ends[n2]
      invariant ends'.Keys == ends.Keys && forall x | x in ends && x != n1 :: ends'[x] == ends[x]
      invariant ends'[n1] == ends[n1] + (ends[n2] - todo - {n1})
      invariant Pointed(back, back', ends[n2] - todo, n1, n2) && back'[n1] == back[n1]
    {
      var a :| a in todo;
      todo := todo - {a};
      if n1 == a { continue; }
      assert n2 in back'[a];
      back' := back'[a := back'[a] - {n2} + {n1}];
      ends' := ends'[n1 := ends'[n1] + {a}];
    }
  }

  // The edges of n2 become edges of n1.
  method MergeEdges(sup: map<Node, set<Node>>, sub: map<Node, set<Node>>, n1: Node, n2: Node)
    returns (sup': map<Node, set<Node>>, sub': map<Node, set<Node>>)
    requires MergeReady(sup, sub, n1, n2)
    ensures sup' == MergedEnds(sup.Keys, sup, sub, n1, n2)
    ensures sub' == MergedEnds(sup.Keys, sub, sup, n1, n2)
  {
    var sup1, sub1 := TakeEnds(sup, sub, n1, n2);
    TakenReady(sup, sub, sup1, sub1, n1, n2);
    var sub2, sup2 := TakeEnds(sub1, sup1, n1, n2);
    sup', sub' := sup2[n1 := sup2[n1] - {n2}], sub2[n1 := sub2[n1] - {n2}];
    MergedEndsAre(sup, sub, sup1, sup2, n1, n2);
    MergedEndsAre2(sub, sup, sub1, sub2, n1, n2);
  }

  lemma TakenReady(sup: map<Node, set<Node>>, sub: map<Node, set<Node>>,
                   sup1: map<Node, set<Node>>, sub1: map<Node, set<Node>>, n1: Node, n2: Node)
    requires MergeReady(sup, sub, n1, n2)
    requires sup1.Keys == sup.Keys && forall x | x in sup && x != n1 :: sup1[x] == sup[x]
    requires Pointed(sub, sub1, sup[n2], n1, n2)
    ensures sub1[n2] == sub[n2] && forall a | a in sub1[n2] :: a == n1 || n2 in sup1[a]
  {
  }

  ghost predicate MergeReady(sup: map<Node, set<Node>>, sub: map<Node, set<Node>>, n1: Node, n2: Node) {
    && n1 in sup && n2 in sup && n1 != n2 && sub.Keys == sup.Keys
    && sup[n2] <= sup.Keys && n2 !in sup[n2] && sub[n2] <= sup.Keys && n2 !in sub[n2]
    && (forall a | a in sup[n2] :: n2 in sub[a])
    && (forall a | a in sub[n2] :: n2 in sup[a])
  }

  lemma ShapeMergeReady(g: Graph, n1: Node, n2: Node)
    requires g.Shape() && n1 in g.live && n2 in g.live && n1 != n2 && g.sup.Keys == g.sub.Keys == g.nodes
    ensures MergeReady(g.sup, g.sub, n1, n2)
  {
    assert g.Sup(n2) <= g.live && g.Sub(n2) <= g.live && n2 !in g.Sup(n2);
    assert n2 in g.Sup(n2) <==> n2 in g.Sub(n2);
    forall a | a in g.sup[n2] ensures n2 in g.sub[a] { assert a in g.Sup(n2) <==> n2 in g.Sub(a); }
    forall a | a in g.sub[n2] ensures n2 in g.sup[a] { assert n2 in g.Sup(a) <==> a in g.Sub(n2); }
  }

  // The fields of all graph nodes, by node identity: a node that is no longer mapped to stays
  // readable for the frames that still hold it.
  datatype Fields = Fields(
    supsets: map<Node, set<Node>>,
    subsets: map<Node, set<Node>>,
    bitvector: map<Node, seq<bool>>,
    conditionalConstraints: map<Node, seq<seq<Flow>>>)
  {
    ghost predicate Sized(size: nat) {
      && subsets.Keys == supsets.Keys && bitvector.Keys == supsets.Keys && conditionalConstraints.Keys == supsets.Keys
      && (forall n {:trigger bitvector[n]} | n in bitvector :: |bitvector[n]| == size)
      && (forall n {:trigger conditionalConstraints[n]} | n in conditionalConstraints ::
           |conditionalConstraints[n]| == size)
    }
  }

  // fm numbers the functions from 0 without gaps.
  ghost predicate Numbers(fm: map<ASTFunction, nat>, functions: seq<ASTFunction>) {
    && (forall f {:trigger fm[f]} | f in fm :: fm[f] < |functions| && functions[fm[f]] == f)
    && (forall i {:trigger functions[i]} | 0 <= i < |functions| :: functions[i] in fm && fm[functions[i]] == i)
  }

  // The fields are those of the graph g.
  ghost predicate Tied(fm: map<ASTFunction, nat>, functions: seq<ASTFunction>, fs: Fields, dag: map<ASTNode, Node>,
                       g: Graph) {
    && Numbers(fm, functions)
    && fs.Sized(|functions|)
    && g.nodes == fs.supsets.Keys && g.sup == fs.supsets && g.sub == fs.subsets
    && g.bits == AllBits(fm, fs.bitvector) && g.todo == AllTodos(fm, fs.conditionalConstraints)
    && g.dag == dag
  }

  lemma TiedMerged(fm: map<ASTFunction, nat>, functions: seq<ASTFunction>, fs: Fields, dag: map<ASTNode, Node>,
                   g: Graph, n1: Node, n2: Node, fs': Fields, b: seq<bool>, w: seq<seq<Flow>>)
    requires Tied(fm, functions, fs, dag, g) && n1 in fs.supsets && n2 in fs.supsets && |b| == |functions| == |w|
    requires BitsOf(fm, b) == BitsOf(fm, fs.bitvector[n1]) + BitsOf(fm, fs.bitvector[n2])
    requires TodosOf(fm, w) == TodosOf(fm, fs.conditionalConstraints[n1]) + TodosOf(fm, fs.conditionalConstraints[n2])
    requires fs'.supsets == MergedEnds(fs.supsets.Keys, fs.supsets, fs.subsets, n1, n2)
    requires fs'.subsets == MergedEnds(fs.supsets.Keys, fs.subsets, fs.supsets, n1, n2)
    requires fs'.bitvector == fs.bitvector[n1 := b] && fs'.conditionalConstraints == fs.conditionalConstraints[n1 := w]
    ensures Tied(fm, functions, fs', Redirected(dag, n1, n2), g.Merged(n1, n2))
  {
    hide MergedEnds, Redirected, BitsOf, TodosOf, Numbers;
    assert g.Bits(n1) == BitsOf(fm, fs.bitvector[n1]) && g.Bits(n2) == BitsOf(fm, fs.bitvector[n2]);
    AllBitsUpdate(fm, fs.bitvector, n1, b);
    AllTodosUpdate(fm, fs.conditionalConstraints, n1, w);
  }

  lemma TiedEdge(fm: map<ASTFunction, nat>, functions: seq<ASTFunction>, fs: Fields, dag: map<ASTNode, Node>, g: Graph,
                 a: Node, b: Node)
    requires Tied(fm, functions, fs, dag, g) && a in fs.supsets && b in fs.supsets
    ensures Tied(fm, functions,
                 fs.(supsets := fs.supsets[a := fs.supsets[a] + {b}], subsets := fs.subsets[b := fs.subsets[b] + {a}]),
                 dag, g.AddEdge(a, b))
  {
    hide AllBits, AllTodos, Numbers;
    assert g.Sup(a) == fs.supsets[a] && g.Sub(b) == fs.subsets[b];
  }

  // The functions of a bit vector with those of another added.
  method OrBits(b1: seq<bool>, b2: seq<bool>, ghost fm: map<ASTFunction, nat>) returns (bits: seq<bool>)
    requires |b1| == |b2|
    ensures |bits| == |b1| && BitsOf(fm, bits) == BitsOf(fm, b1) + BitsOf(fm, b2)
  {
    bits := b1;
    for i := 0 to |b1|
      invariant |bits| == |b1|
      invariant forall j | 0 <= j < |b1| :: bits[j] == (b1[j] || (j < i && b2[j]))
    {
      bits := bits[i := bits[i] || b2[i]];
    }
    BitsOfMerged(fm, b1, b2, bits);
  }

  lemma TiedBits(fm: map<ASTFunction, nat>, functions: seq<ASTFunction>, fs: Fields, dag: map<ASTNode, Node>, g: Graph,
                 n: Node, more: set<ASTFunction>, b: seq<bool>)
    requires Tied(fm, functions, fs, dag, g) && n in fs.supsets && |b| == |functions|
    requires BitsOf(fm, b) == BitsOf(fm, fs.bitvector[n]) + more
    ensures Tied(fm, functions, fs.(bitvector := fs.bitvector[n := b]), dag, g.AddBits(n, more))
  {
    hide BitsOf, TodosOf, Numbers;
    assert g.Bits(n) == BitsOf(fm, fs.bitvector[n]);
    AllBitsUpdate(fm, fs.bitvector, n, b);
  }

  lemma TodosOfCleared(fm: map<ASTFunction, nat>, functions: seq<ASTFunction>, w: seq<seq<Flow>>, i: nat)
    requires Numbers(fm, functions) && i < |functions| == |w|
    ensures TodosOf(fm, w[i := []]) == set t | t in TodosOf(fm, w) && t.fn != functions[i]
  {
  }

  lemma TiedClear(fm: map<ASTFunction, nat>, functions: seq<ASTFunction>, fs: Fields, dag: map<ASTNode, Node>, g: Graph,
                  n: Node, i: nat)
    requires Tied(fm, functions, fs, dag, g) && n in fs.supsets && i < |functions|
    ensures var w := fs.conditionalConstraints[n];
      && Tied(fm, functions, fs.(conditionalConstraints := fs.conditionalConstraints[n := w[i := []]]), dag,
              g.ClearTodo(n, functions[i]))
      && (forall p :: p in w[i] <==> p in g.Waiting(n, functions[i]))
      && (functions[i] in g.Bits(n) <==> fs.bitvector[n][i])
  {
    var w := fs.conditionalConstraints[n];
    assert g.Todos(n) == TodosOf(fm, w) && g.Bits(n) == BitsOf(fm, fs.bitvector[n]);
    assert functions[i] in fm && fm[functions[i]] == i;
    WaitingIs(fm, functions, w, g, n, i);
    TodosOfCleared(fm, functions, w, i);
    AllTodosUpdate(fm, fs.conditionalConstraints, n, w[i := []]);
    hide BitsOf, TodosOf, Numbers, AllBits, AllTodos;
  }

  lemma WaitingIs(fm: map<ASTFunction, nat>, functions: seq<ASTFunction>, w: seq<seq<Flow>>, g: Graph, n: Node, i: nat)
    requires Numbers(fm, functions) && i < |functions| == |w| && g.Todos(n) == TodosOf(fm, w)
    ensures forall p :: p in w[i] <==> p in g.Waiting(n, functions[i])
  {
    forall p ensures p in w[i] <==> p in g.Waiting(n, functions[i]) {
      assert p in w[i] <==> Todo(functions[i], p.from, p.to) in TodosOf(fm, w) by {
        assert functions[i] in fm && fm[functions[i]] == i;
        assert p == Flow(p.from, p.to);
      }
    }
  }

  ghost function Firsts(functions: seq<ASTFunction>, i: nat): set<ASTFunction>
    requires i <= |functions|
  {
    set f | f in functions[..i]
  }

  lemma FirstsStep(functions: seq<ASTFunction>, i: nat)
    requires i < |functions|
    ensures Firsts(functions, i + 1) == Firsts(functions, i) + {functions[i]}
  {
    assert functions[..i + 1] == functions[..i] + [functions[i]];
  }

  lemma {:induction false} FirstsSize(fm: map<ASTFunction, nat>, functions: seq<ASTFunction>, i: nat)
    requires Numbers(fm, functions) && i <= |functions|
    ensures |Firsts(functions, i)| == i
  {
    if i > 0 {
      FirstsSize(fm, functions, i - 1);
      FirstsStep(functions, i - 1);
      assert functions[i - 1] !in Firsts(functions, i - 1);
    }
  }

  lemma NumbersSize(fm: map<ASTFunction, nat>, functions: seq<ASTFunction>)
    requires Numbers(fm, functions)
    ensures |fm| == |functions|
  {
    FirstsSize(fm, functions, |functions|);
    assert fm.Keys == Firsts(functions, |functions|);
  }

  // An identity no node has yet.
  method FreshNode(used: set<Node>) returns (n: Node)
    ensures n !in used
  {
    n := 0;
    var todo := used;
    while todo != {}
      invariant todo <= used && forall m :: m in used && m !in todo ==> m < n
    {
      var m :| m in todo;
      todo := todo - {m};
      if n <= m { n := m + 1; }
    }
  }

  lemma NothingYet(fm: map<ASTFunction, nat>, size: nat, b: seq<bool>, w: seq<seq<Flow>>)
    requires b == seq(size, _ => false) && w == seq(size, _ => [])
    ensures BitsOf(fm, b) == {} && TodosOf(fm, w) == {}
  {
  }

  lemma TiedNew(fm: map<ASTFunction, nat>, functions: seq<ASTFunction>, fs: Fields, dag: map<ASTNode, Node>, g: Graph,
                a: ASTNode, n: Node)
    requires Tied(fm, functions, fs, dag, g) && n !in fs.supsets
    ensures Tied(fm, functions,
                 Fields(fs.supsets[n := {}], fs.subsets[n := {}], fs.bitvector[n := seq(|functions|, _ => false)],
                        fs.conditionalConstraints[n := seq(|functions|, _ => [])]),
                 dag[a := n], g.AddNode(a, n))
  {
    hide BitsOf, TodosOf, Numbers, AllBits, AllTodos;
    var b: seq<bool>, w: seq<seq<Flow>> := seq(|functions|, _ => false), seq(|functions|, _ => []);
    NothingYet(fm, |functions|, b, w);
    AllBitsUpdate(fm, fs.bitvector, n, b);
    AllTodosUpdate(fm, fs.conditionalConstraints, n, w);
  }

  lemma TodosOfPushed(fm: map<ASTFunction, nat>, functions: seq<ASTFunction>, w: seq<seq<Flow>>, f: ASTFunction,
                      p: Flow)
    requires Numbers(fm, functions) && |functions| == |w| && f in fm
    ensures TodosOf(fm, w[fm[f] := w[fm[f]] + [p]]) == TodosOf(fm, w) + {Todo(f, p.from, p.to)}
  {
    var w' := w[fm[f] := w[fm[f]] + [p]];
    forall t ensures t in TodosOf(fm, w') <==> t in TodosOf(fm, w) + {Todo(f, p.from, p.to)} {
      if t.fn in fm && t.fn != f {
        assert fm[t.fn] != fm[f];
      } else if t.fn == f {
        assert Flow(t.from, t.to) in w'[fm[f]] <==> Flow(t.from, t.to) in w[fm[f]] || Flow(t.from, t.to) == p;
      }
    }
  }

  lemma TiedTodo(fm: map<ASTFunction, nat>, functions: seq<ASTFunction>, fs: Fields, dag: map<ASTNode, Node>, g: Graph,
                 n: Node, f: ASTFunction, p: Flow)
    requires Tied(fm, functions, fs, dag, g) && n in fs.supsets && f in fm
    ensures var w := fs.conditionalConstraints[n];
            Tied(fm, functions,
                 fs.(conditionalConstraints := fs.conditionalConstraints[n := w[fm[f] := w[fm[f]] + [p]]]), dag,
                 g.AddTodo(n, Todo(f, p.from, p.to)))
  {
    var w := fs.conditionalConstraints[n];
    assert g.Todos(n) == TodosOf(fm, w);
    TodosOfPushed(fm, functions, w, f, p);
    AllTodosUpdate(fm, fs.conditionalConstraints, n, w[fm[f] := w[fm[f]] + [p]]);
    hide BitsOf, TodosOf, Numbers, AllBits, AllTodos;
  }
}
