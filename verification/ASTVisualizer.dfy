/** The drawing of a syntax tree in the dot language: a second stack, of parents, runs along
    the stack of the iterator that is drawn from. */
module ASTVisualizer {
  import opened Trees = PreOrderIterator

  // What a vertex is labelled with: the text of its node, or the word "start".
  datatype Text = Start | TextOf(node: nat)

  datatype Line = Vertex(v: nat, text: Text) | Edge(from: nat, to: nat)

  function Size(t: SyntaxTree): nat
    decreases t, 0
  {
    1 + SizeAll(t.subtrees)
  }

  function SizeAll(ts: seq<SyntaxTree>): nat
    decreases ts, 0
  {
    if ts == [] then 0 else Size(ts[0]) + SizeAll(ts[1..])
  }

  /** The picture of a tree below a parent, its vertices numbered from k on: the vertex of the root,
      the edge from the parent to it, and the pictures of its children below it. */
  function Draw(t: SyntaxTree, k: nat, parent: nat): seq<Line>
    decreases t, 0
  {
    [Vertex(k, TextOf(t.root)), Edge(parent, k)] + DrawAll(t.subtrees, k + 1, k)
  }

  function DrawAll(ts: seq<SyntaxTree>, k: nat, parent: nat): seq<Line>
    decreases ts, 0
  {
    if ts == [] then [] else Draw(ts[0], k, parent) + DrawAll(ts[1..], k + Size(ts[0]), parent)
  }

  function Picture(t: SyntaxTree): seq<Line> {
    [Vertex(0, Start)] + DrawAll(t.subtrees, 1, 0)
  }

  // ----- what a picture shows -----

  // The vertices of a picture, in order.
  function Vertices(ls: seq<Line>): seq<Line> {
    if ls == [] then [] else (if ls[0].Vertex? then [ls[0]] else []) + Vertices(ls[1..])
  }

  lemma {:induction false} VerticesAppend(a: seq<Line>, b: seq<Line>)
    ensures Vertices(a + b) == Vertices(a) + Vertices(b)
  {
    if a == [] {
      assert a + b == b;
    } else {
      assert (a + b)[1..] == a[1..] + b;
      VerticesAppend(a[1..], b);
    }
  }

  ghost predicate Numbered(vs: seq<Line>, k: nat, nodes: seq<nat>) {
    |vs| == |nodes| && forall i | 0 <= i < |vs| :: vs[i] == Vertex(k + i, TextOf(nodes[i]))
  }

  lemma {:induction false} DrawNumbers(t: SyntaxTree, k: nat, parent: nat)
    ensures Numbered(Vertices(Draw(t, k, parent)), k, PreOrder(t)) && |PreOrder(t)| == Size(t)
    decreases t, 0
  {
    DrawAllNumbers(t.subtrees, k + 1, k);
    var head := [Vertex(k, TextOf(t.root)), Edge(parent, k)];
    VerticesAppend(head, DrawAll(t.subtrees, k + 1, k));
    assert Vertices(head) == [head[0]] by { assert head[1..] == [head[1]] && head[1..][1..] == []; }
  }

  lemma {:induction false} DrawAllNumbers(ts: seq<SyntaxTree>, k: nat, parent: nat)
    ensures Numbered(Vertices(DrawAll(ts, k, parent)), k, PreOrderAll(ts)) && |PreOrderAll(ts)| == SizeAll(ts)
    decreases ts, 0
  {
    if ts != [] {
      DrawNumbers(ts[0], k, parent);
      DrawAllNumbers(ts[1..], k + Size(ts[0]), parent);
      VerticesAppend(Draw(ts[0], k, parent), DrawAll(ts[1..], k + Size(ts[0]), parent));
    }
  }

  /** Every node of the tree has one vertex, and the vertices are numbered in pre-order. */
  lemma PictureNumbers(t: SyntaxTree)
    ensures var vs := Vertices(Picture(t));
            |vs| == |PreOrder(t)| && vs[0] == Vertex(0, Start)
            && forall i | 0 < i < |vs| :: vs[i] == Vertex(i, TextOf(PreOrder(t)[i]))
  {
    DrawAllNumbers(t.subtrees, 1, 0);
    VerticesAppend([Vertex(0, Start)], DrawAll(t.subtrees, 1, 0));
    assert Vertices([Vertex(0, Start)]) == [Vertex(0, Start)] by { assert [Vertex(0, Start)][1..] == []; }
  }

  // Each edge directly follows the line of the vertex that it leads to.
  ghost predicate EdgesFollow(ls: seq<Line>) {
    forall i | 0 <= i < |ls| && ls[i].Edge? :: i > 0 && ls[i - 1].Vertex? && ls[i - 1].v == ls[i].to
  }

  lemma EdgesFollowAppend(a: seq<Line>, b: seq<Line>)
    requires EdgesFollow(a) && EdgesFollow(b)
    ensures EdgesFollow(a + b)
  {
    forall i | 0 <= i < |a + b| && (a + b)[i].Edge?
      ensures i > 0 && (a + b)[i - 1].Vertex? && (a + b)[i - 1].v == (a + b)[i].to
    {
      if i >= |a| { assert b[i - |a|].Edge?; }
    }
  }

  lemma {:induction false} DrawFollows(t: SyntaxTree, k: nat, parent: nat)
    ensures EdgesFollow(Draw(t, k, parent))
    decreases t, 0
  {
    DrawAllFollows(t.subtrees, k + 1, k);
    EdgesFollowAppend([Vertex(k, TextOf(t.root)), Edge(parent, k)], DrawAll(t.subtrees, k + 1, k));
  }

  lemma {:induction false} DrawAllFollows(ts: seq<SyntaxTree>, k: nat, parent: nat)
    ensures EdgesFollow(DrawAll(ts, k, parent))
    decreases ts, 0
  {
    if ts != [] {
      DrawFollows(ts[0], k, parent);
      DrawAllFollows(ts[1..], k + Size(ts[0]), parent);
      EdgesFollowAppend(Draw(ts[0], k, parent), DrawAll(ts[1..], k + Size(ts[0]), parent));
    }
  }

  /** The lines are in order: the root's vertex, then each vertex with the edge to it. */
  lemma PictureOrder(t: SyntaxTree)
    ensures Picture(t)[0] == Vertex(0, Start) && EdgesFollow(Picture(t))
  {
    DrawAllFollows(t.subtrees, 1, 0);
    EdgesFollowAppend([Vertex(0, Start)], DrawAll(t.subtrees, 1, 0));
  }

  // Node b is a child of node a somewhere in the tree.
  ghost predicate HasChild(t: SyntaxTree, a: nat, b: nat)
    decreases t, 0
  {
    (t.root == a && RootIn(t.subtrees, b)) || ChildIn(t.subtrees, a, b)
  }

  ghost predicate ChildIn(ts: seq<SyntaxTree>, a: nat, b: nat)
    decreases ts, 0
  {
    ts != [] && (HasChild(ts[0], a, b) || ChildIn(ts[1..], a, b))
  }

  ghost predicate RootIn(ts: seq<SyntaxTree>, b: nat) {
    ts != [] && (ts[0].root == b || RootIn(ts[1..], b))
  }

  lemma {:induction false} RootOccurs(ts: seq<SyntaxTree>, b: nat)
    requires RootIn(ts, b)
    ensures b in PreOrderAll(ts)
  {
    if ts[0].root != b { RootOccurs(ts[1..], b); }
  }

  lemma {:induction false} ChildOccurs(t: SyntaxTree, a: nat, b: nat)
    requires HasChild(t, a, b)
    ensures a in PreOrder(t) && b in PreOrder(t)
    decreases t, 0
  {
    if t.root == a && RootIn(t.subtrees, b) {
      RootOccurs(t.subtrees, b);
    } else {
      ChildInOccurs(t.subtrees, a, b);
    }
  }

  lemma {:induction false} ChildInOccurs(ts: seq<SyntaxTree>, a: nat, b: nat)
    requires ChildIn(ts, a, b)
    ensures a in PreOrderAll(ts) && b in PreOrderAll(ts)
    decreases ts, 0
  {
    if HasChild(ts[0], a, b) { ChildOccurs(ts[0], a, b); } else { ChildInOccurs(ts[1..], a, b); }
  }

  // Node number i of the pre-order, and node 0 where there is none.
  ghost function At(nodes: seq<nat>, i: int): nat {
    if 0 <= i < |nodes| then nodes[i] else 0
  }

  lemma AtSplit(a: seq<nat>, b: seq<nat>, i: int)
    ensures At(a + b, i) == if i < |a| then At(a, i) else At(b, i - |a|)
    ensures 0 <= i < |a| ==> At(a + b, i) in a
    ensures |a| <= i < |a| + |b| ==> At(a + b, i) in b
  {
  }

  lemma Apart(a: seq<nat>, b: seq<nat>)
    requires NoRepeats(a + b)
    ensures NoRepeats(a) && NoRepeats(b) && forall x | x in a :: x !in b
  {
    var both := a + b;
    assert forall m | 0 <= m < |a| :: a[m] == both[m];
    assert forall m | 0 <= m < |b| :: b[m] == both[|a| + m];
    forall x | x in a ensures x !in b {
      var i :| 0 <= i < |a| && a[i] == x;
      forall j | 0 <= j < |b| ensures b[j] != x { assert both[i] != both[|a| + j]; }
    }
  }

  ghost predicate Within(i: nat, k: nat, n: nat) {
    k <= i < k + n
  }

  lemma {:induction false} BelowEdges(t: SyntaxTree, k: nat, i: nat, j: nat)
    requires NoRepeats(PreOrder(t))
    ensures Edge(i, j) in DrawAll(t.subtrees, k + 1, k) <==>
            EdgeInside(t, PreOrder(t), k, i, j)
    decreases t, 1
  {
    var ts, below := t.subtrees, PreOrderAll(t.subtrees);
    Apart([t.root], below);
    DrawAllNumbers(ts, k + 1, k);
    DrawAllEdges(ts, k + 1, k, i, j);
    AtSplit([t.root], below, i - k);
    AtSplit([t.root], below, j - k);
    var a, b := At(PreOrder(t), i - k), At(PreOrder(t), j - k);
    assert t.root !in below by { assert t.root in [t.root]; }
    if RootIn(ts, b) { RootOccurs(ts, b); }
    if ChildIn(ts, a, b) { ChildInOccurs(ts, a, b); }
  }

  // Where no node is in both a tree and the trees after it, the relations split.
  lemma SplitRelations(t: SyntaxTree, rest: seq<SyntaxTree>, a: nat, b: nat)
    requires forall x | x in PreOrder(t) :: x !in PreOrderAll(rest)
    ensures RootIn([t] + rest, b) <==> t.root == b || RootIn(rest, b)
    ensures ChildIn([t] + rest, a, b) <==> HasChild(t, a, b) || ChildIn(rest, a, b)
    ensures RootIn(rest, b) ==> b in PreOrderAll(rest) && b !in PreOrder(t)
    ensures ChildIn(rest, a, b) ==> a in PreOrderAll(rest) && a !in PreOrder(t) && b !in PreOrder(t)
    ensures HasChild(t, a, b) ==> a !in PreOrderAll(rest) && b !in PreOrderAll(rest)
    ensures t.root !in PreOrderAll(rest)
  {
    assert ([t] + rest)[1..] == rest;
    if RootIn(rest, b) { RootOccurs(rest, b); }
    if ChildIn(rest, a, b) { ChildInOccurs(rest, a, b); }
    if HasChild(t, a, b) { ChildOccurs(t, a, b); }
    assert PreOrder(t)[0] == t.root;
  }

  lemma {:induction false} DrawAllEdges(ts: seq<SyntaxTree>, k: nat, p: nat, i: nat, j: nat)
    requires p < k && NoRepeats(PreOrderAll(ts))
    ensures Edge(i, j) in DrawAll(ts, k, p) <==> EdgeBelow(ts, PreOrderAll(ts), k, p, i, j)
    decreases ts, 0
  {
    if ts != [] {
      var t, rest := ts[0], ts[1..];
      Apart(PreOrder(t), PreOrderAll(rest));
      DrawNumbers(t, k, p);
      DrawAllNumbers(rest, k + Size(t), p);
      BelowEdges(t, k, i, j);
      DrawAllEdges(rest, k + Size(t), p, i, j);
      assert ts == [t] + rest;
      DrawSplit(t, rest, k, p, Edge(i, j));
      SplitEdge(t, rest, k, p, i, j);
    }
  }

  // The edge from i to j is one from the parent p, or one inside the pictures of the trees.
  ghost predicate EdgeBelow(ts: seq<SyntaxTree>, nodes: seq<nat>, k: nat, p: nat, i: nat, j: nat) {
    Within(j, k, |nodes|)
    && ((i == p && RootIn(ts, At(nodes, j - k)))
        || (Within(i, k, |nodes|) && ChildIn(ts, At(nodes, i - k), At(nodes, j - k))))
  }

  ghost predicate EdgeInside(t: SyntaxTree, nodes: seq<nat>, k: nat, i: nat, j: nat) {
    Within(i, k, |nodes|) && Within(j, k, |nodes|) && HasChild(t, At(nodes, i - k), At(nodes, j - k))
  }

  lemma SplitEdge(t: SyntaxTree, rest: seq<SyntaxTree>, k: nat, p: nat, i: nat, j: nat)
    requires p < k && NoRepeats(PreOrder(t) + PreOrderAll(rest))
    ensures EdgeBelow([t] + rest, PreOrder(t) + PreOrderAll(rest), k, p, i, j) <==>
            (i == p && j == k)
            || EdgeInside(t, PreOrder(t), k, i, j)
            || EdgeBelow(rest, PreOrderAll(rest), k + |PreOrder(t)|, p, i, j)
  {
    assert |PreOrder(t)| > 0;
    hide PreOrder, PreOrderAll, HasChild, ChildIn, RootIn, NoRepeats, At;
    if j - k < |PreOrder(t)| {
      SplitFirst(t, rest, i - k, j - k);
    } else {
      SplitRest(t, rest, i - k, j - k);
    }
  }

  // An edge to node number j where that is in the first tree.
  lemma SplitFirst(t: SyntaxTree, rest: seq<SyntaxTree>, i: int, j: int)
    requires NoRepeats(PreOrder(t) + PreOrderAll(rest))
    ensures var x, y := PreOrder(t), PreOrderAll(rest);
            0 <= j < |x| ==>
              && (RootIn([t] + rest, At(x + y, j)) <==> j == 0)
              && (0 <= i < |x| + |y| && ChildIn([t] + rest, At(x + y, i), At(x + y, j)) <==>
                  0 <= i < |x| && HasChild(t, At(x, i), At(x, j)))
  {
    var x, y := PreOrder(t), PreOrderAll(rest);
    assert x[0] == t.root;
    Apart(x, y);
    AtSplit(x, y, i);
    AtSplit(x, y, j);
    SplitRelations(t, rest, At(x + y, i), At(x + y, j));
    FirstIsRoot(x, j);
    hide PreOrder, PreOrderAll, HasChild, ChildIn, RootIn, NoRepeats, At;
  }

  // An edge to node number j where that is in a later tree.
  lemma SplitRest(t: SyntaxTree, rest: seq<SyntaxTree>, i: int, j: int)
    requires NoRepeats(PreOrder(t) + PreOrderAll(rest))
    ensures var x, y := PreOrder(t), PreOrderAll(rest);
            |x| <= j < |x| + |y| ==>
              && (RootIn([t] + rest, At(x + y, j)) <==> RootIn(rest, At(y, j - |x|)))
              && (0 <= i < |x| + |y| && ChildIn([t] + rest, At(x + y, i), At(x + y, j)) <==>
                  |x| <= i < |x| + |y| && ChildIn(rest, At(y, i - |x|), At(y, j - |x|)))
  {
    var x, y := PreOrder(t), PreOrderAll(rest);
    Apart(x, y);
    AtSplit(x, y, i);
    AtSplit(x, y, j);
    SplitRelations(t, rest, At(x + y, i), At(x + y, j));
    hide PreOrder, PreOrderAll, HasChild, ChildIn, RootIn, NoRepeats, At;
  }

  lemma FirstIsRoot(nodes: seq<nat>, i: int)
    requires NoRepeats(nodes) && nodes != []
    ensures 0 <= i < |nodes| ==> (At(nodes, i) == nodes[0] <==> i == 0)
  {
  }

  // A line of the pictures of several trees is one of the first, or one of the others.
  lemma DrawSplit(t: SyntaxTree, rest: seq<SyntaxTree>, k: nat, p: nat, line: Line)
    ensures line in DrawAll([t] + rest, k, p) <==>
            line == Vertex(k, TextOf(t.root)) || line == Edge(p, k) || line in DrawAll(t.subtrees, k + 1, k)
            || line in DrawAll(rest, k + Size(t), p)
  {
    assert ([t] + rest)[1..] == rest;
  }

  /** Between the vertices i and j there is an edge just when node j is a child of node i. */
  lemma PictureEdges(t: SyntaxTree, i: nat, j: nat)
    requires NoRepeats(PreOrder(t))
    ensures Edge(i, j) in Picture(t) <==>
            i < |PreOrder(t)| && j < |PreOrder(t)| && HasChild(t, PreOrder(t)[i], PreOrder(t)[j])
  {
    DrawNumbers(t, 0, 0);
    BelowEdges(t, 0, i, j);
  }

  // ----- the two stacks -----

  // The pictures of the trees on a stack, each below the parent at its place of another stack.
  ghost function Rest(stack: seq<SyntaxTree>, parents: seq<nat>, k: nat): seq<Line>
    requires |stack| == |parents|
  {
    if stack == [] then [] else
    var n := |stack| - 1;
    Draw(stack[n], k, parents[n]) + Rest(stack[..n], parents[..n], k + Size(stack[n]))
  }

  function Repeated(p: nat, n: nat): seq<nat> {
    seq(n, _ => p)
  }

  lemma {:induction false} RestOne(stack: seq<SyntaxTree>, parents: seq<nat>, t: SyntaxTree, p: nat, k: nat)
    requires |stack| == |parents|
    ensures Rest(stack + [t], parents + [p], k) == Draw(t, k, p) + Rest(stack, parents, k + Size(t))
  {
    hide Draw, Size;
    var s, q := stack + [t], parents + [p];
    assert s[..|stack|] == stack && q[..|stack|] == parents;
  }

  lemma {:induction false} RestPushed(stack: seq<SyntaxTree>, parents: seq<nat>, ts: seq<SyntaxTree>, k: nat, p: nat)
    requires |stack| == |parents|
    ensures Rest(stack + Reversed(ts), parents + Repeated(p, |ts|), k)
         == DrawAll(ts, k, p) + Rest(stack, parents, k + SizeAll(ts))
  {
    hide Rest, Draw, Size;
    if ts == [] {
      assert stack + Reversed(ts) == stack && parents + Repeated(p, 0) == parents;
    } else {
      var s, q := stack + Reversed(ts[1..]), parents + Repeated(p, |ts| - 1);
      assert stack + Reversed(ts) == s + [ts[0]] && parents + Repeated(p, |ts|) == q + [p];
      RestOne(s, q, ts[0], p, k);
      RestPushed(stack, parents, ts[1..], k + Size(ts[0]), p);
    }
  }

  // The vertex of a node, where it has one.
  ghost function VertexOf(vertexMap: map<nat, nat>, node: nat): nat {
    if node in vertexMap then vertexMap[node] else 0
  }

  ghost function VerticesOf(vertexMap: map<nat, nat>, nodes: seq<nat>): (vs: seq<nat>)
    ensures |vs| == |nodes|
  {
    seq(|nodes|, i requires 0 <= i < |nodes| => VertexOf(vertexMap, nodes[i]))
  }

  ghost predicate Known(vertexMap: map<nat, nat>, nodes: seq<nat>) {
    forall n | n in nodes :: n in vertexMap
  }

  ghost predicate AllNew(vertexMap: map<nat, nat>, nodes: seq<nat>) {
    NoRepeats(nodes) && forall n | n in nodes :: n !in vertexMap
  }

  /** Either nothing is drawn yet, or the stack of parents runs along the stack of the iterator: the
      pictures of the trees still pending, each below its parent, complete the picture of the tree. */
  ghost predicate Aligned(tree: SyntaxTree, stack: seq<SyntaxTree>, os: seq<Line>, parent: seq<nat>,
                          vertexMap: map<nat, nat>) {
    && AllNew(vertexMap, Pending(stack))
    && Known(vertexMap, parent)
    && if vertexMap == map[] then os == [] && parent == [] && stack == [tree]
       else |parent| == |stack| && os + Rest(stack, VerticesOf(vertexMap, parent), |vertexMap|) == Picture(tree)
  }

  lemma TailIsNew(vertexMap: map<nat, nat>, nodes: seq<nat>, v: nat)
    requires AllNew(vertexMap, nodes) && nodes != []
    ensures nodes[0] !in vertexMap && AllNew(vertexMap[nodes[0] := v], nodes[1..])
  {
    assert nodes == [nodes[0]] + nodes[1..];
    Apart([nodes[0]], nodes[1..]);
    assert nodes[0] in [nodes[0]];
  }

  lemma PendingNew(vertexMap: map<nat, nat>, stack: seq<SyntaxTree>, v: nat)
    requires AllNew(vertexMap, Pending(stack)) && stack != []
    ensures stack[|stack| - 1].root !in vertexMap
    ensures AllNew(vertexMap[stack[|stack| - 1].root := v], Pending(Stepped(stack)))
  {
    hide AllNew, Stepped;
    PendingStepped(stack);
    TailIsNew(vertexMap, Pending(stack), v);
    assert Pending(stack)[0] == stack[|stack| - 1].root;
  }

  lemma VerticesPushed(vertexMap: map<nat, nat>, nodes: seq<nat>, a: nat, k: nat, n: nat)
    requires a !in vertexMap && Known(vertexMap, nodes)
    ensures VerticesOf(vertexMap[a := k], nodes + Repeated(a, n)) == VerticesOf(vertexMap, nodes) + Repeated(k, n)
    ensures Known(vertexMap[a := k], nodes + Repeated(a, n))
  {
    var all := nodes + Repeated(a, n);
    assert forall i | |nodes| <= i < |all| :: all[i] == a;
    forall x | x in all ensures x in vertexMap[a := k] {
      var i :| 0 <= i < |all| && all[i] == x;
      assert i < |nodes| ==> x in nodes;
    }
    forall i | 0 <= i < |nodes| ensures VertexOf(vertexMap[a := k], all[i]) == VertexOf(vertexMap, nodes[i]) {
      assert nodes[i] in nodes;
    }
  }

  // What is left to draw after the node on top of the stack, whose children come next.
  lemma RestStepped(stack: seq<SyntaxTree>, ps: seq<nat>, k: nat)
    requires stack != [] && |ps| == |stack|
    ensures var n := |stack| - 1;
            var qs := ps[..n] + Repeated(k, |stack[n].subtrees|);
            |qs| == |Stepped(stack)|
            && Rest(stack, ps, k) ==
                 [Vertex(k, TextOf(stack[n].root)), Edge(ps[n], k)] + Rest(Stepped(stack), qs, k + 1)
  {
    hide Rest, Reversed, DrawAll, SizeAll;
    var n := |stack| - 1;
    var node, below, bs := stack[n], stack[..n], ps[..n];
    assert stack == below + [node] && ps == bs + [ps[n]];
    RestOne(below, bs, node, ps[n], k);
    RestPushed(below, bs, node.subtrees, k + 1, k);
  }

  // The first node is drawn without an edge.
  lemma {:induction false} StartAligned(tree: SyntaxTree, stack: seq<SyntaxTree>, vertexMap: map<nat, nat>)
    requires NoRepeats(PreOrder(tree)) && stack == [tree] && vertexMap == map[tree.root := 0]
    ensures Aligned(tree, Stepped(stack), [Vertex(0, Start)], Repeated(tree.root, |tree.subtrees|), vertexMap)
  {
    var ts := tree.subtrees;
    assert Pending(stack) == PreOrder(tree) by { assert stack[..0] == []; }
    PendingNew(map[], stack, 0);
    VerticesPushed(map[], [], tree.root, 0, |ts|);
    assert [] + Repeated(tree.root, |ts|) == Repeated(tree.root, |ts|);
    StartRest(tree);
    hide Reversed, Pending, Repeated, AllNew, Known, Stepped, VerticesOf, Rest, Picture, PreOrder, NoRepeats;
    assert vertexMap == map[][tree.root := 0] && |vertexMap| == 1;
  }

  lemma StartRest(tree: SyntaxTree)
    ensures var qs := VerticesOf(map[], []) + Repeated(0, |tree.subtrees|);
            |qs| == |Stepped([tree])| && Picture(tree) == [Vertex(0, Start)] + Rest(Stepped([tree]), qs, 1)
  {
    RestPushed([], [], tree.subtrees, 1, 0);
    assert VerticesOf(map[], []) == [];
    assert [tree][..0] == [];
    hide Reversed;
  }

  // Every later node is drawn below the parent on top of the stack.
  lemma {:induction false} ProcessAligned(tree: SyntaxTree, stack: seq<SyntaxTree>, os: seq<Line>, parent: seq<nat>,
                                          vertexMap: map<nat, nat>)
    requires Aligned(tree, stack, os, parent, vertexMap) && vertexMap != map[] && stack != []
    ensures parent != [] && parent[|parent| - 1] in vertexMap && stack[|stack| - 1].root !in vertexMap
    ensures var node, k := stack[|stack| - 1], |vertexMap|;
            Aligned(tree, Stepped(stack),
                    os + [Vertex(k, TextOf(node.root)), Edge(vertexMap[parent[|parent| - 1]], k)],
                    parent[..|parent| - 1] + Repeated(node.root, |node.subtrees|),
                    vertexMap[node.root := k])
  {
    hide Rest, Pending, Repeated, AllNew, Reversed, Stepped, Picture, NoRepeats;
    var n, k := |stack| - 1, |vertexMap|;
    var node, below, ps := stack[n], parent[..n], VerticesOf(vertexMap, parent);
    PendingNew(vertexMap, stack, k);
    RestStepped(stack, ps, k);
    assert ps[..n] == VerticesOf(vertexMap, below) && ps[n] == vertexMap[parent[n]];
    assert Known(vertexMap, below) by { assert forall p | p in below :: p in parent; }
    hide VerticesOf, Known;
    VerticesPushed(vertexMap, below, node.root, k, |node.subtrees|);
  }

  lemma NothingDrawn(tree: SyntaxTree)
    requires NoRepeats(PreOrder(tree))
    ensures Aligned(tree, [tree], [], [], map[])
  {
    assert Pending([tree]) == PreOrder(tree) by { assert [tree][..0] == []; }
  }

  lemma AlignedCases(tree: SyntaxTree, stack: seq<SyntaxTree>, os: seq<Line>, parent: seq<nat>,
                     vertexMap: map<nat, nat>)
    requires Aligned(tree, stack, os, parent, vertexMap)
    ensures Known(vertexMap, parent)
    ensures stack == [] ==> os == Picture(tree)
    ensures stack != [] && parent == [] ==>
              vertexMap == map[] && os == [] && stack == [tree] && NoRepeats(PreOrder(tree))
    ensures parent != [] ==> vertexMap != map[]
  {
    if stack != [] && parent == [] {
      assert Pending([tree]) == PreOrder(tree) by { assert [tree][..0] == []; }
    }
    assert stack == [] ==> os + [] == os;
    hide Pending, PreOrder, Picture;
  }

  // ----- trees in which a node occurs twice -----

  // An entry that is there already is kept.
  function Inserted(vertexMap: map<nat, nat>, node: nat): map<nat, nat> {
    if node in vertexMap then vertexMap else vertexMap[node := |vertexMap|]
  }

  ghost function NodesOf(nodes: seq<nat>): set<nat> {
    set x | x in nodes
  }

  ghost predicate VerticesBelow(os: seq<Line>, k: nat) {
    forall line | line in os && line.Vertex? :: line.v < k
  }

  // What has been drawn when the nodes in `seen` have been visited, whether or not they are distinct.
  ghost predicate Counted(tree: SyntaxTree, stack: seq<SyntaxTree>, os: seq<Line>, parent: seq<nat>,
                          vertexMap: map<nat, nat>, seen: seq<nat>) {
    && seen + Pending(stack) == PreOrder(tree) && vertexMap.Keys == NodesOf(seen)
    && (forall n | n in vertexMap :: vertexMap[n] < |vertexMap|) && VerticesBelow(os, |vertexMap|)
    && Known(vertexMap, parent)
    && if seen == [] then stack == [tree] && parent == [] && os == [] else |parent| == |stack|
  }

  lemma CountedStart(tree: SyntaxTree)
    ensures Counted(tree, [tree], [], [], map[], [])
  {
    assert Pending([tree]) == PreOrder(tree) by { assert [tree][..0] == []; }
  }

  lemma CountedNext(tree: SyntaxTree, stack: seq<SyntaxTree>, os: seq<Line>, parent: seq<nat>, vertexMap: map<nat, nat>,
                    seen: seq<nat>, lines: seq<Line>, parent': seq<nat>)
    requires Counted(tree, stack, os, parent, vertexMap, seen) && stack != []
    requires var node := stack[|stack| - 1];
             var below := if parent == [] then [] else parent[..|parent| - 1];
             parent' == below + Repeated(node.root, |node.subtrees|)
    requires VerticesBelow(lines, |Inserted(vertexMap, stack[|stack| - 1].root)|)
    ensures var node := stack[|stack| - 1];
            Counted(tree, Stepped(stack), os + lines, parent', Inserted(vertexMap, node.root), seen + [node.root])
  {
    var node := stack[|stack| - 1];
    var vertexMap' := Inserted(vertexMap, node.root);
    hide Pending, Stepped, PreOrder;
    StepCounts(stack);
    assert (seen + [node.root]) + Pending(Stepped(stack)) == seen + Pending(stack);
    assert Known(vertexMap', parent') by {
      forall p | p in parent' ensures p in vertexMap' { assert p in parent || p == node.root; }
    }
    InsertedBelow(vertexMap, node.root, seen);
    assert VerticesBelow(os + lines, |vertexMap'|);
    hide Inserted, VerticesBelow, NodesOf;
  }

  lemma StepCounts(stack: seq<SyntaxTree>)
    requires stack != []
    ensures Pending(stack) == [stack[|stack| - 1].root] + Pending(Stepped(stack))
    ensures |Stepped(stack)| == |stack| - 1 + |stack[|stack| - 1].subtrees|
  {
    PendingStepped(stack);
    hide PreOrderAll, Reversed;
  }

  lemma InsertedBelow(vertexMap: map<nat, nat>, node: nat, seen: seq<nat>)
    requires (forall n | n in vertexMap :: vertexMap[n] < |vertexMap|) && vertexMap.Keys == NodesOf(seen)
    ensures var vertexMap' := Inserted(vertexMap, node);
            && (forall n | n in vertexMap' :: vertexMap'[n] < |vertexMap'|) && |vertexMap'| >= |vertexMap|
            && vertexMap'.Keys == NodesOf(seen + [node])
  {
  }

  lemma {:induction false} SetIsSmaller(s: seq<nat>)
    ensures |NodesOf(s)| <= |s|
  {
    if s == [] {
      assert NodesOf(s) == {};
    } else {
      var rest := s[..|s| - 1];
      SetIsSmaller(rest);
      assert NodesOf(s) == NodesOf(rest) + {s[|s| - 1]};
    }
  }

  lemma RepeatsAreFewer(s: seq<nat>)
    requires !NoRepeats(s)
    ensures |NodesOf(s)| < |s|
  {
    var i, j :| 0 <= i < j < |s| && s[i] == s[j];
    var rest := s[..j] + s[j + 1..];
    SetIsSmaller(rest);
    assert rest[i] == s[j];
    forall x | x in s ensures x in rest {
      var k :| 0 <= k < |s| && s[k] == x;
      assert k < j ==> rest[k] == x;
      assert k > j ==> rest[k - 1] == x;
    }
    assert NodesOf(s) == NodesOf(rest);
  }

  // With fewer vertices than nodes, the last number of the picture has not been given.
  lemma CountedDone(tree: SyntaxTree, os: seq<Line>, parent: seq<nat>, vertexMap: map<nat, nat>, seen: seq<nat>)
    requires Counted(tree, [], os, parent, vertexMap, seen) && !NoRepeats(PreOrder(tree))
    ensures os != Picture(tree)
  {
    var nodes := PreOrder(tree);
    assert seen == nodes && |vertexMap| == |vertexMap.Keys|;
    RepeatsAreFewer(nodes);
    PictureNumbers(tree);
    var vs := Vertices(Picture(tree));
    var last := vs[|nodes| - 1];
    assert last in vs;
    VerticesOccur(Picture(tree), last);
    assert last.v == |nodes| - 1;
  }

  lemma {:induction false} VerticesOccur(ls: seq<Line>, line: Line)
    requires line in Vertices(ls)
    ensures line in ls && line.Vertex?
  {
    if ls[0] != line || ls[0].Edge? { VerticesOccur(ls[1..], line); }
  }

  lemma RootBelow(root: nat)
    ensures VerticesBelow([Vertex(0, Start)], |Inserted(map[], root)|)
  {
  }

  lemma VertexBelow(tree: SyntaxTree, stack: seq<SyntaxTree>, os: seq<Line>, parent: seq<nat>,
                    vertexMap: map<nat, nat>, seen: seq<nat>, lines: seq<Line>)
    requires Counted(tree, stack, os, parent, vertexMap, seen) && stack != []
    requires var root := stack[|stack| - 1].root;
             var vertexMap' := Inserted(vertexMap, root);
             |lines| == 2 && root in vertexMap' && lines[0] == Vertex(vertexMap'[root], TextOf(root)) && lines[1].Edge?
    ensures VerticesBelow(lines, |Inserted(vertexMap, stack[|stack| - 1].root)|)
  {
    hide Pending, PreOrder;
  }

  // For distinct nodes, the entry is new.
  lemma DistinctAligned(tree: SyntaxTree, stack: seq<SyntaxTree>, os: seq<Line>, parent: seq<nat>,
                        vertexMap: map<nat, nat>)
    requires Aligned(tree, stack, os, parent, vertexMap) && stack != [] && parent != []
    ensures var node := stack[|stack| - 1];
            var vertexMap' := Inserted(vertexMap, node.root);
            && parent[|parent| - 1] in vertexMap && node.root in vertexMap'
            && Aligned(tree, Stepped(stack),
                       os + [Vertex(vertexMap'[node.root], TextOf(node.root)),
                             Edge(vertexMap[parent[|parent| - 1]], vertexMap'[node.root])],
                       parent[..|parent| - 1] + Repeated(node.root, |node.subtrees|), vertexMap')
  {
    AlignedCases(tree, stack, os, parent, vertexMap);
    ProcessAligned(tree, stack, os, parent, vertexMap);
    hide Aligned, Stepped;
  }

  // ----- what every round of the loop keeps -----

  ghost predicate Drawn(tree: SyntaxTree, stack: seq<SyntaxTree>, os: seq<Line>, parent: seq<nat>,
                        vertexMap: map<nat, nat>, seen: seq<nat>) {
    && Counted(tree, stack, os, parent, vertexMap, seen)
    && (NoRepeats(PreOrder(tree)) ==> Aligned(tree, stack, os, parent, vertexMap))
  }

  lemma DrawnStart(tree: SyntaxTree)
    ensures Drawn(tree, [tree], [], [], map[], [])
  {
    CountedStart(tree);
    if NoRepeats(PreOrder(tree)) { NothingDrawn(tree); }
  }

  lemma DrawnCases(tree: SyntaxTree, stack: seq<SyntaxTree>, os: seq<Line>, parent: seq<nat>,
                   vertexMap: map<nat, nat>, seen: seq<nat>)
    requires Drawn(tree, stack, os, parent, vertexMap, seen)
    ensures Known(vertexMap, parent)
    ensures stack != [] && parent == [] ==> vertexMap == map[] && os == [] && seen == [] && stack == [tree]
  {
    hide Pending, PreOrder, Aligned, NoRepeats;
  }

  lemma DrawnRoot(tree: SyntaxTree, seen: seq<nat>, os: seq<Line>, parent: seq<nat>, vertexMap: map<nat, nat>)
    requires Drawn(tree, [tree], [], [], map[], seen)
    requires os == [Vertex(0, Start)] && parent == Repeated(tree.root, |tree.subtrees|)
    requires vertexMap == Inserted(map[], tree.root) == map[tree.root := 0]
    ensures Drawn(tree, Stepped([tree]), os, parent, vertexMap, seen + [tree.root])
  {
    hide Counted, Aligned, Stepped, Pending, PreOrder, NoRepeats, Repeated;
    RootBelow(tree.root);
    assert [] + parent == parent && [] + os == os;
    CountedNext(tree, [tree], [], [], map[], seen, os, parent);
    if NoRepeats(PreOrder(tree)) { StartAligned(tree, [tree], vertexMap); }
  }

  lemma DrawnNode(tree: SyntaxTree, stack: seq<SyntaxTree>, os: seq<Line>, parent: seq<nat>, vertexMap: map<nat, nat>,
                  seen: seq<nat>, os': seq<Line>, parent': seq<nat>, vertexMap': map<nat, nat>)
    requires Drawn(tree, stack, os, parent, vertexMap, seen) && stack != [] && parent != []
    requires parent[|parent| - 1] in vertexMap && stack[|stack| - 1].root in vertexMap'
    requires vertexMap' == Inserted(vertexMap, stack[|stack| - 1].root)
    requires var node := stack[|stack| - 1];
             && parent' == parent[..|parent| - 1] + Repeated(node.root, |node.subtrees|)
             && os' == os + [Vertex(vertexMap'[node.root], TextOf(node.root)),
                             Edge(vertexMap[parent[|parent| - 1]], vertexMap'[node.root])]
    ensures Drawn(tree, Stepped(stack), os', parent', vertexMap', seen + [stack[|stack| - 1].root])
  {
    hide Counted, Aligned, Stepped, Pending, PreOrder, NoRepeats, Repeated, Inserted, VerticesBelow;
    var node := stack[|stack| - 1];
    var lines := [Vertex(vertexMap'[node.root], TextOf(node.root)),
                  Edge(vertexMap[parent[|parent| - 1]], vertexMap'[node.root])];
    VertexBelow(tree, stack, os, parent, vertexMap, seen, lines);
    CountedNext(tree, stack, os, parent, vertexMap, seen, lines, parent');
    if NoRepeats(PreOrder(tree)) { DistinctAligned(tree, stack, os, parent, vertexMap); }
  }

  lemma DrawnDone(tree: SyntaxTree, os: seq<Line>, parent: seq<nat>, vertexMap: map<nat, nat>, seen: seq<nat>)
    requires Drawn(tree, [], os, parent, vertexMap, seen)
    ensures os == Picture(tree) <==> NoRepeats(PreOrder(tree))
  {
    hide Counted, Aligned, Pending, PreOrder, NoRepeats, Picture;
    if NoRepeats(PreOrder(tree)) {
      AlignedCases(tree, [], os, parent, vertexMap);
    } else {
      CountedDone(tree, os, parent, vertexMap, seen);
    }
  }

  class ASTVisualizer {
    var os: seq<Line>
    var parent: seq<nat>
    var vertexMap: map<nat, nat>

    constructor ()
      ensures os == [] && parent == [] && vertexMap == map[]
    {
      os, parent, vertexMap := [], [], map[];
    }

    method Pushn(element: nat, n: nat)
      modifies this`parent
      ensures parent == old(parent) + Repeated(element, n)
    {
      for i := 0 to n
        invariant parent == old(parent) + Repeated(element, i)
      {
        parent := parent + [element];
      }
    }

    method DeclareNode(element: nat, text: Text)
      requires element in vertexMap
      modifies this`os
      ensures os == old(os) + [Vertex(vertexMap[element], text)]
    {
      os := os + [Vertex(vertexMap[element], text)];
    }

    method ConnectNodeToParent(element: nat)
      requires Known(vertexMap, parent) && element in vertexMap
      modifies this`os, this`parent
      ensures old(parent) == [] ==> os == old(os) && parent == []
      ensures old(parent) != [] ==>
              parent == old(parent[..|parent| - 1])
              && os == old(os) + [Edge(vertexMap[old(parent[|parent| - 1])], vertexMap[element])]
    {
      if parent == [] { return; }
      var top := |parent| - 1;
      os := os + [Edge(vertexMap[parent[top]], vertexMap[element])];
      parent := parent[..top];
    }

    method ProcessNode(node: SyntaxTree)
      requires Known(vertexMap, parent) && parent != []
      modifies this
      ensures vertexMap == Inserted(old(vertexMap), node.root) && node.root in vertexMap
      ensures forall n | n in old(vertexMap) :: n in vertexMap && vertexMap[n] == old(vertexMap)[n]
      ensures node.root !in old(vertexMap) ==> vertexMap[node.root] == |old(vertexMap)|
      ensures parent == old(parent[..|parent| - 1]) + Repeated(node.root, |node.subtrees|)
      ensures os == old(os) + [Vertex(vertexMap[node.root], TextOf(node.root)),
                               Edge(old(vertexMap[parent[|parent| - 1]]), vertexMap[node.root])]
    {
      if node.root !in vertexMap { vertexMap := vertexMap[node.root := |vertexMap|]; }
      DeclareNode(node.root, TextOf(node.root));
      ConnectNodeToParent(node.root);
      Pushn(node.root, |node.subtrees|);
    }

    // The root has no parent, and is labelled differently.
    method ProcessRoot(node: SyntaxTree)
      requires vertexMap == map[]
      modifies this
      ensures vertexMap == Inserted(map[], node.root) == map[node.root := 0]
      ensures parent == old(parent) + Repeated(node.root, |node.subtrees|) && os == old(os) + [Vertex(0, Start)]
    {
      vertexMap := vertexMap[node.root := |vertexMap|];
      DeclareNode(node.root, Start);
      Pushn(node.root, |node.subtrees|);
    }

    /** Draws the tree: all its nodes in pre-order, and an edge from each parent to each child, if and
        only if its nodes are distinct. The vertex of a node that occurs twice is numbered once. */
    method BuildGraph(tree: SyntaxTree)
      requires os == [] && parent == [] && vertexMap == map[]
      modifies this
      ensures os == Picture(tree) <==> NoRepeats(PreOrder(tree))
    {
      hide Pending, Drawn, Picture, Reached, PreOrder, NoRepeats, Stepped, Inserted;
      var iter := new PreOrderIterator(tree, false);
      var end := new PreOrderIterator(tree, true);
      ghost var seen: seq<nat> := [];
      DrawnStart(tree);
      var done := iter.Equals(end);
      while !done
        invariant iter.tree == tree == end.tree && end.stack == []
        invariant Reached(tree, iter.stack) && Reached(tree, end.stack)
        invariant done == (iter.stack == [])
        invariant Drawn(tree, iter.stack, os, parent, vertexMap, seen)
        decreases |Pending(iter.stack)|
      {
        PendingIsEmpty(iter.stack);
        DrawnCases(tree, iter.stack, os, parent, vertexMap, seen);
        ghost var os0, parent0, vertexMap0 := os, parent, vertexMap;
        var node := iter.Current();
        if parent == [] {
          ProcessRoot(node);
          DrawnRoot(tree, seen, os, parent, vertexMap);
        } else {
          ProcessNode(node);
          DrawnNode(tree, iter.stack, os0, parent0, vertexMap0, seen, os, parent, vertexMap);
        }
        seen := seen + [node.root];
        iter.Increment();
        done := iter.Equals(end);
      }
      DrawnDone(tree, os, parent, vertexMap, seen);
    }
  }
}
