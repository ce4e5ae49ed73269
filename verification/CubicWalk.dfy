/** The walk back of the search, exactly as written. */
module CubicWalk {
  import opened CubicGraph
  import opened CubicMerge
  import opened CubicSearch
  import opened CubicAsk

  // ----- rounds of the walk -----

  /** One round of the walk at curr, whose subsets are met in the given order: the first one
      that was reached ends the round, whether or not it is one step nearer. */
  function LiteralStep(order: seq<Node>, d: map<Node, nat>, curr: Node): (next: Node)
    requires curr in d
    ensures next in d
  {
    if order == [] then curr
    else if order[0] !in d then LiteralStep(order[1..], d, curr)
    else if d[order[0]] + 1 == d[curr] then order[0]
    else curr
  }

  function LiteralWalk(orders: map<Node, seq<Node>>, d: map<Node, nat>, curr: Node, rounds: nat): (last: Node)
    requires curr in d
    ensures last in d
  {
    if rounds == 0 then curr
    else
      var c := LiteralWalk(orders, d, curr, rounds - 1);
      if c in orders then LiteralStep(orders[c], d, c) else c
  }

  ghost predicate FirstReached(order: seq<Node>, d: map<Node, nat>, i: int) {
    0 <= i < |order| && order[i] in d && forall j | 0 <= j < i :: order[j] !in d
  }

  lemma {:induction false} StepAt(order: seq<Node>, d: map<Node, nat>, curr: Node, i: int)
    requires curr in d && FirstReached(order, d, i)
    ensures LiteralStep(order, d, curr) == if d[order[i]] + 1 == d[curr] then order[i] else curr
  {
    if i > 0 {
      assert order[0] !in d && order[1..][i - 1] == order[i];
      assert forall j | 0 <= j < i - 1 :: order[1..][j] == order[j + 1];
      StepAt(order[1..], d, curr, i - 1);
    }
  }

  lemma {:induction false} FindFirst(order: seq<Node>, d: map<Node, nat>, p: Node) returns (i: int)
    requires p in order && p in d
    ensures FirstReached(order, d, i)
  {
    if order[0] in d {
      i := 0;
    } else {
      i := FindFirst(order[1..], d, p);
      i := i + 1;
      assert forall j | 1 <= j <= i :: order[j] == order[1..][j - 1];
    }
  }

  // A walk that stays where it is stays there for ever.
  lemma {:induction false} StuckForever(orders: map<Node, seq<Node>>, d: map<Node, nat>, target: Node, k: nat,
                                        more: nat)
    requires target in d && LiteralWalk(orders, d, target, k + 1) == LiteralWalk(orders, d, target, k)
    ensures LiteralWalk(orders, d, target, k + more) == LiteralWalk(orders, d, target, k)
  {
    if more > 0 { StuckForever(orders, d, target, k, more - 1); }
  }

  // ----- which graphs and distances let the walk arrive -----

  // A sequence that goes through a set, each element once.
  ghost predicate Enumerates(order: seq<Node>, s: set<Node>) {
    (forall x :: x in order <==> x in s) && Once(order)
  }

  ghost predicate Once(order: seq<Node>) {
    forall i, j | 0 <= i < j < |order| :: order[i] != order[j]
  }

  // Orders in which the subsets of the reached nodes may be met.
  ghost predicate Orders(g: Graph, d: map<Node, nat>, orders: map<Node, seq<Node>>) {
    d.Keys <= orders.Keys && forall x {:trigger orders[x]} | x in d :: Enumerates(orders[x], g.Sub(x))
  }

  lemma OrderOf(g: Graph, d: map<Node, nat>, orders: map<Node, seq<Node>>, x: Node)
    requires Orders(g, d, orders) && x in d
    ensures x in orders && Enumerates(orders[x], g.Sub(x))
  {
  }

  ghost predicate Arrives(orders: map<Node, seq<Node>>, d: map<Node, nat>, source: Node, target: Node)
    requires target in d
  {
    exists k: nat :: LiteralWalk(orders, d, target, k) == source
  }

  // Every reached subset of x is one step nearer to the source.
  ghost predicate Straight(g: Graph, d: map<Node, nat>, x: Node) {
    forall p | p in g.Sub(x) && p in d :: x in d && d[p] + 1 == d[x]
  }

  // Subsets, each one step nearer than the node before it.
  ghost predicate Descent(g: Graph, d: map<Node, nat>, w: seq<Node>) {
    && |w| > 0 && (forall x | x in w :: x in d)
    && forall i, j {:trigger w[i], w[j]} | 0 <= i && j == i + 1 < |w| :: w[j] in g.Sub(w[i]) && d[w[j]] + 1 == d[w[i]]
  }

  // The node x lies on a way back from the target that gets nearer with every step.
  ghost predicate OnTheWay(g: Graph, d: map<Node, nat>, target: Node, x: Node) {
    exists w :: Descent(g, d, w) && w[0] == target && w[|w| - 1] == x
  }

  lemma StepNearer(g: Graph, source: Node, d: map<Node, nat>, orders: map<Node, seq<Node>>, x: Node)
    requires Layered(g, source, d) && Orders(g, d, orders) && x in d && x != source && Straight(g, d, x)
    ensures x in orders
    ensures var y := LiteralStep(orders[x], d, x); y in g.Sub(x) && d[y] + 1 == d[x]
  {
    NearerOf(g, source, d, x);
    OrderOf(g, d, orders, x);
    var p :| p in g.Sub(x) && p in d && d[p] + 1 == d[x];
    var i := FindFirst(orders[x], d, p);
    StepAt(orders[x], d, x, i);
    assert orders[x][i] in g.Sub(x);
  }

  // Where everything on the way is straight, each round is a step, until the source is met.
  lemma {:induction false} StraightWalk(g: Graph, source: Node, d: map<Node, nat>, target: Node,
                                        orders: map<Node, seq<Node>>, k: nat)
    returns (w: seq<Node>)
    requires Layered(g, source, d) && Orders(g, d, orders) && target in d && d[source] == 0 && k <= d[target]
    requires forall x | x in d && x != source && OnTheWay(g, d, target, x) :: Straight(g, d, x)
    ensures Descent(g, d, w) && w[0] == target && w[|w| - 1] == LiteralWalk(orders, d, target, k) && |w| == k + 1
    ensures d[LiteralWalk(orders, d, target, k)] + k == d[target]
  {
    hide Layered, Orders, Straight;
    if k == 0 {
      w := [target];
    } else {
      var v := StraightWalk(g, source, d, target, orders, k - 1);
      var x := LiteralWalk(orders, d, target, k - 1);
      assert OnTheWay(g, d, target, x);
      StepNearer(g, source, d, orders, x);
      var y := LiteralStep(orders[x], d, x);
      DescentGrows(g, d, v, y);
      w := v + [y];
    }
  }

  lemma DescentGrows(g: Graph, d: map<Node, nat>, w: seq<Node>, y: Node)
    requires Descent(g, d, w) && y in d && y in g.Sub(w[|w| - 1]) && d[y] + 1 == d[w[|w| - 1]]
    ensures Descent(g, d, w + [y])
  {
  }

  // ----- sets that are gone through in the order of addresses -----

  // The members of s, in the order in which they are found in all.
  ghost function Sorted(all: seq<Node>, s: set<Node>): seq<Node> {
    if all == [] then [] else (if all[0] in s then [all[0]] else []) + Sorted(all[1..], s)
  }

  lemma {:induction false} SortedHas(all: seq<Node>, s: set<Node>)
    ensures forall x :: x in Sorted(all, s) <==> x in all && x in s
  {
    if all != [] { SortedHas(all[1..], s); }
  }

  lemma {:induction false} SortedEnumerates(all: seq<Node>, s: set<Node>)
    requires Once(all) && forall x | x in s :: x in all
    ensures Enumerates(Sorted(all, s), s)
  {
    SortedHas(all, s);
    SortedOnce(all, s);
  }

  lemma {:induction false} SortedOnce(all: seq<Node>, s: set<Node>)
    requires Once(all)
    ensures Once(Sorted(all, s))
  {
    if all != [] {
      forall i, j | 0 <= i < j < |all| - 1 ensures all[1..][i] != all[1..][j] {
        assert all[i + 1] != all[j + 1];
      }
      SortedOnce(all[1..], s);
      SortedHas(all[1..], s);
      var o := Sorted(all[1..], s);
      if all[0] in s {
        assert forall i | 0 <= i < |o| :: o[i] in o;
        assert Once([all[0]] + o);
      } else {
        assert Sorted(all, s) == o;
      }
    }
  }

  // The first reached member decides the round.
  lemma {:induction false} SortedStep(all: seq<Node>, s: set<Node>, d: map<Node, nat>, curr: Node, i: nat)
    requires curr in d && i < |all| && all[i] in s && all[i] in d
    requires forall j | 0 <= j < i :: all[j] !in s || all[j] !in d
    ensures LiteralStep(Sorted(all, s), d, curr) == if d[all[i]] + 1 == d[curr] then all[i] else curr
  {
    var rest := Sorted(all[1..], s);
    if all[0] in s { assert ([all[0]] + rest)[1..] == rest; } else { assert Sorted(all, s) == rest; }
    if i > 0 {
      assert all[1..][i - 1] == all[i] && forall j | 0 <= j < i - 1 :: all[1..][j] == all[j + 1];
      SortedStep(all[1..], s, d, curr, i - 1);
    }
  }

  /** The orders in which a set of pointers is gone through, if all lists the nodes by their addresses:
      it is one list for all the sets. */
  ghost function ByAddress(g: Graph, d: map<Node, nat>, all: seq<Node>): map<Node, seq<Node>> {
    map x | x in d :: Sorted(all, g.Sub(x))
  }

  lemma SubsKnown(g: Graph, x: Node)
    requires g.Shape() && x in g.live
    ensures g.Sub(x) <= g.live <= g.nodes
  {
  }

  lemma ByAddressOrders(g: Graph, d: map<Node, nat>, all: seq<Node>)
    requires g.Shape() && Enumerates(all, g.nodes) && d.Keys <= g.live
    ensures Orders(g, d, ByAddress(g, d, all))
  {
    forall x | x in d ensures Enumerates(ByAddress(g, d, all)[x], g.Sub(x)) {
      SubsKnown(g, x);
      SortedEnumerates(all, g.Sub(x));
    }
  }

  // ----- addresses for which the walk never ends -----

  lemma {:induction false} DescentFalls(g: Graph, d: map<Node, nat>, w: seq<Node>, i: nat)
    requires Descent(g, d, w) && i < |w|
    ensures w[i] in d && d[w[i]] + i == d[w[0]]
  {
    if i > 0 {
      DescentFalls(g, d, w, i - 1);
      assert w[i] in g.Sub(w[i - 1]);
    }
  }

  lemma DescentDistinct(g: Graph, d: map<Node, nat>, w: seq<Node>)
    requires Descent(g, d, w)
    ensures Once(w)
  {
    forall j, l | 0 <= j < l < |w| ensures w[j] != w[l] {
      DescentFalls(g, d, w, j);
      DescentFalls(g, d, w, l);
    }
  }

  // The first node on a way back that is not straight.
  ghost predicate Bend(g: Graph, d: map<Node, nat>, w: seq<Node>, n: int) {
    0 <= n < |w| && !Straight(g, d, w[n]) && forall j | 0 <= j < n :: Straight(g, d, w[j])
  }

  lemma {:induction false} FirstBend(g: Graph, d: map<Node, nat>, w: seq<Node>) returns (n: nat)
    requires w != [] && !Straight(g, d, w[|w| - 1])
    ensures Bend(g, d, w, n)
    decreases |w|
  {
    if j :| 0 <= j < |w| - 1 && !Straight(g, d, w[j]) {
      n := FirstBend(g, d, w[..j + 1]);
    } else {
      n := |w| - 1;
    }
  }

  ghost function InAnyOrder(s: set<Node>): seq<Node> {
    if s == {} then [] else var x :| x in s; [x] + InAnyOrder(s - {x})
  }

  lemma {:induction false} AnyOrderEnumerates(s: set<Node>)
    ensures Enumerates(InAnyOrder(s), s)
  {
    if s != {} {
      var x :| x in s && InAnyOrder(s) == [x] + InAnyOrder(s - {x});
      AnyOrderEnumerates(s - {x});
      var rest := InAnyOrder(s - {x});
      assert forall i | 0 <= i < |rest| :: rest[i] in rest;
    }
  }

  // The way back has the lowest addresses, each step the next one, and then comes p.
  ghost predicate Leading(all: seq<Node>, w: seq<Node>, p: Node) {
    w <= all && exists i :: 0 <= i < |all| && i <= |w| && all[i] == p
  }

  lemma Completed(nodes: set<Node>, u: seq<Node>, rest: seq<Node>)
    requires Once(u) && (forall x | x in u :: x in nodes) && Enumerates(rest, set x | x in nodes && x !in u)
    ensures Enumerates(u + rest, nodes)
  {
    var all := u + rest;
    forall i, j | 0 <= i < j < |all| ensures all[i] != all[j] {
      if i < |u| <= j { assert all[i] in u && rest[j - |u|] in rest; }
    }
  }

  lemma SomeAddresses(nodes: set<Node>, w: seq<Node>, p: Node) returns (all: seq<Node>)
    requires (forall x | x in w :: x in nodes) && p in nodes && Once(w)
    ensures Enumerates(all, nodes) && Leading(all, w, p)
  {
    var u := if p in w then w else w + [p];
    var rest := InAnyOrder(set x | x in nodes && x !in u);
    AnyOrderEnumerates(set x | x in nodes && x !in u);
    Completed(nodes, u, rest);
    hide Once, Enumerates;
    assert p in u;
    var i :| 0 <= i < |u| && u[i] == p;
    all := u + rest;
    assert all[i] == p && w <= all;
  }

  // Before the bend, the next node of the way is the only reached subset of low address.
  lemma StepLeads(g: Graph, d: map<Node, nat>, w: seq<Node>, n: nat, p: Node, all: seq<Node>, i: nat)
    requires Descent(g, d, w) && Bend(g, d, w, n) && Leading(all, w[..n + 1], p) && i < n
    ensures w[i] in d && LiteralStep(Sorted(all, g.Sub(w[i])), d, w[i]) == w[i + 1]
  {
    DescentFalls(g, d, w, i);
    DescentFalls(g, d, w, i + 1);
    assert forall j | 0 <= j <= n :: all[j] == w[j];
    assert w[i + 1] in g.Sub(w[i]);
    assert Straight(g, d, w[i]);
    forall j | 0 <= j < i + 1 ensures all[j] !in g.Sub(w[i]) || all[j] !in d { DescentFalls(g, d, w, j); }
    SortedStep(all, g.Sub(w[i]), d, w[i], i + 1);
  }

  lemma LeastIndex(all: seq<Node>, s: set<Node>, d: map<Node, nat>, i: nat) returns (k: nat)
    requires i < |all| && all[i] in s && all[i] in d
    ensures k <= i && all[k] in s && all[k] in d && forall j | 0 <= j < k :: all[j] !in s || all[j] !in d
  {
    if j :| 0 <= j < i && all[j] in s && all[j] in d {
      k := LeastIndex(all, s, d, j);
    } else {
      k := i;
    }
  }

  // At the bend, whatever comes first is no step nearer.
  lemma BendStays(g: Graph, d: map<Node, nat>, w: seq<Node>, n: nat, p: Node, all: seq<Node>)
    requires Descent(g, d, w) && Bend(g, d, w, n) && Leading(all, w[..n + 1], p)
    requires p in g.Sub(w[n]) && p in d && w[n] in d && d[p] + 1 != d[w[n]]
    ensures LiteralStep(Sorted(all, g.Sub(w[n])), d, w[n]) == w[n]
  {
    var i :| 0 <= i < |all| && i <= n + 1 && all[i] == p;
    var k := LeastIndex(all, g.Sub(w[n]), d, i);
    if k <= n {
      assert all[k] == w[k];
      DescentFalls(g, d, w, k);
      DescentFalls(g, d, w, n);
    }
    SortedStep(all, g.Sub(w[n]), d, w[n], k);
  }

  lemma {:induction false} WalkLeads(g: Graph, d: map<Node, nat>, w: seq<Node>, n: nat, p: Node, all: seq<Node>, k: nat)
    requires Descent(g, d, w) && Bend(g, d, w, n) && Leading(all, w[..n + 1], p) && k <= n
    ensures w[0] in d && LiteralWalk(ByAddress(g, d, all), d, w[0], k) == w[k]
  {
    hide Bend, Leading, Sorted;
    DescentFalls(g, d, w, 0);
    if k > 0 {
      WalkLeads(g, d, w, n, p, all, k - 1);
      StepLeads(g, d, w, n, p, all, k - 1);
    }
  }

  lemma BendSpins(g: Graph, source: Node, d: map<Node, nat>, w: seq<Node>, n: nat, p: Node, all: seq<Node>, k: nat)
    requires Descent(g, d, w) && Bend(g, d, w, n) && Leading(all, w[..n + 1], p)
    requires n < |w| && p in g.Sub(w[n]) && p in d && w[n] in d && d[p] + 1 != d[w[n]]
    requires source in d && d[source] == 0 && d[w[n]] > 0
    ensures w[0] in d && LiteralWalk(ByAddress(g, d, all), d, w[0], k) != source
  {
    hide Bend, Leading, Sorted;
    DescentFalls(g, d, w, n);
    if k <= n {
      WalkLeads(g, d, w, n, p, all, k);
      DescentFalls(g, d, w, k);
    } else {
      WalkLeads(g, d, w, n, p, all, n);
      BendStays(g, d, w, n, p, all);
      StuckForever(ByAddress(g, d, all), d, w[0], n, k - n);
    }
  }

  // A way back that ends at a node that is not straight, cut off at its first bend.
  lemma WayToBend(g: Graph, source: Node, d: map<Node, nat>, target: Node, x: Node)
    returns (w: seq<Node>, n: nat, p: Node)
    requires Layered(g, source, d) && x in d && x != source && OnTheWay(g, d, target, x) && !Straight(g, d, x)
    ensures Descent(g, d, w) && w[0] == target && Bend(g, d, w, n)
    ensures w[n] in d && d[w[n]] > 0 && p in g.Sub(w[n]) && p in d && d[p] + 1 != d[w[n]]
  {
    hide Layered;
    w :| Descent(g, d, w) && w[0] == target && w[|w| - 1] == x;
    n := FirstBend(g, d, w);
    NearerOf(g, source, d, x);
    DescentFalls(g, d, w, n);
    DescentFalls(g, d, w, |w| - 1);
    p :| p in g.Sub(w[n]) && p in d && d[p] + 1 != d[w[n]];
  }

  lemma BendAddresses(g: Graph, d: map<Node, nat>, w: seq<Node>, n: nat, p: Node) returns (all: seq<Node>)
    requires Descent(g, d, w) && n < |w| && p in d && d.Keys <= g.nodes
    ensures Enumerates(all, g.nodes) && Leading(all, w[..n + 1], p)
  {
    hide Enumerates, Leading;
    DescentDistinct(g, d, w);
    forall y | y in w[..n + 1] ensures y in g.nodes { assert y in w; }
    all := SomeAddresses(g.nodes, w[..n + 1], p);
  }

  lemma BendOnTheWay(g: Graph, source: Node, d: map<Node, nat>, target: Node, x: Node) returns (all: seq<Node>)
    requires d.Keys <= g.nodes && Layered(g, source, d) && source in d && d[source] == 0 && target in d
    requires x in d && x != source && OnTheWay(g, d, target, x) && !Straight(g, d, x)
    ensures Enumerates(all, g.nodes) && !Arrives(ByAddress(g, d, all), d, source, target)
  {
    hide Layered, ByAddress, LiteralWalk, Leading, Descent, OnTheWay, Straight, Enumerates;
    var w, n, p := WayToBend(g, source, d, target, x);
    all := BendAddresses(g, d, w, n, p);
    forall k: nat ensures LiteralWalk(ByAddress(g, d, all), d, target, k) != source {
      BendSpins(g, source, d, w, n, p, all, k);
    }
  }

  // Where all is straight, the walk arrives, in any orders at all.
  lemma StraightArrives(g: Graph, source: Node, d: map<Node, nat>, target: Node, orders: map<Node, seq<Node>>)
    requires Layered(g, source, d) && d[source] == 0 && target in d && Orders(g, d, orders)
    requires forall x | x in d && x != source && OnTheWay(g, d, target, x) :: Straight(g, d, x)
    ensures Arrives(orders, d, source, target)
  {
    var w := StraightWalk(g, source, d, target, orders, d[target]);
    var end := LiteralWalk(orders, d, target, d[target]);
    assert end == source by { if end != source { NearerOf(g, source, d, end); } }
  }

  /** The walk as it is written ends for all addresses of the nodes if and only if each node on a way
      back from the target, but the source, has no reached subset other than those that are one step
      nearer. In all other cases there are addresses for which it never ends. */
  lemma LiteralWalkEnds(g: Graph, source: Node, d: map<Node, nat>, target: Node)
    requires g.Shape() && Layered(g, source, d) && d[source] == 0 && target in d
    ensures (forall all | Enumerates(all, g.nodes) :: Arrives(ByAddress(g, d, all), d, source, target))
       <==> (forall x | x in d && x != source && OnTheWay(g, d, target, x) :: Straight(g, d, x))
  {
    hide Graph.Shape, Layered, Orders, Arrives, Enumerates, Straight, OnTheWay, ByAddress;
    LayeredLive(g, source, d);
    SubsKnown(g, source);
    if forall x | x in d && x != source && OnTheWay(g, d, target, x) :: Straight(g, d, x) {
      forall all | Enumerates(all, g.nodes) ensures Arrives(ByAddress(g, d, all), d, source, target) {
        ByAddressOrders(g, d, all);
        StraightArrives(g, source, d, target, ByAddress(g, d, all));
      }
    } else {
      var x :| x in d && x != source && OnTheWay(g, d, target, x) && !Straight(g, d, x);
      var all := BendOnTheWay(g, source, d, target, x);
    }
  }

  lemma LayeredLive(g: Graph, source: Node, d: map<Node, nat>)
    requires Layered(g, source, d)
    ensures source in d && d.Keys <= g.live
  {
  }

  // ----- three constraints after which the fourth may never end -----

  // The state of a solver that was asked for 1 in 2, 0 in 1, and 0 in 2, and nothing else.
  ghost predicate AfterThree(g: Graph, k: Ledger, r: Ranking) {
    && g.Inv(k, r, {}, {}) && k.limbo == {} && g.dag.Keys == {0, 1, 2}
    && k.asked == {Subseteq(1, 2), Subseteq(0, 1), Subseteq(0, 2)}
  }

  // A solution that tells the three nodes apart.
  const GROWING: Assignment := map[0 := {}, 1 := {7}, 2 := {7, 8}]

  lemma GrowingSolves()
    ensures Solves(GROWING, {Subseteq(1, 2), Subseteq(0, 1), Subseteq(0, 2)})
    ensures At(GROWING, 0) < At(GROWING, 1) < At(GROWING, 2)
  {
    assert 7 in At(GROWING, 1) && 8 in At(GROWING, 2);
  }

  // Of two of the nodes the later one is above, and there is no edge down.
  lemma Upwards(g: Graph, k: Ledger, r: Ranking, a: ASTNode, b: ASTNode)
    requires AfterThree(g, k, r) && a < b < 3
    ensures a in g.dag && b in g.dag
    ensures g.dag[a] != g.dag[b] && g.dag[a] !in g.Sup(g.dag[b])
    ensures Subseteq(a, b) in k.asked ==> g.dag[b] in g.Sup(g.dag[a])
  {
    GrowingSolves();
    assert (a == 0 || a == 1) && (b == 1 || b == 2);
    assert a in g.dag && b in g.dag && At(GROWING, a) < At(GROWING, b);
    assert Solves(GROWING, k.asked) && g.Inv(k, r, {}, {}) && k.limbo == {};
    hide GROWING, Graph.Inv, Solves, At, AfterThree;
    NotBelow(g, k, r, b, a, GROWING);
    if Subseteq(a, b) in k.asked { SubseteqIsEdge(g, k, r, a, b); }
  }

  // Whatever solver it is, its graph has these edges and no others.
  lemma ThreeEdges(g: Graph, k: Ledger, r: Ranking)
    requires AfterThree(g, k, r)
    ensures g.dag[0] != g.dag[1] && g.dag[1] != g.dag[2] && g.dag[0] != g.dag[2]
    ensures g.live == {g.dag[0], g.dag[1], g.dag[2]}
    ensures g.Sup(g.dag[0]) == {g.dag[1], g.dag[2]} && g.Sup(g.dag[1]) == {g.dag[2]} && g.Sup(g.dag[2]) == {}
    ensures g.Sub(g.dag[0]) == {} && g.Sub(g.dag[1]) == {g.dag[0]} && g.Sub(g.dag[2]) == {g.dag[0], g.dag[1]}
  {
    hide Graph.Inv, Graph.Shape;
    Upwards(g, k, r, 0, 1);
    Upwards(g, k, r, 1, 2);
    Upwards(g, k, r, 0, 2);
    InvShape(g, k, r, {}, {});
    ThreeLive(g);
  }

  // The graph in which the fourth constraint, 2 in 0, starts the search from node a to node c.
  ghost predicate Triangle(g: Graph, a: Node, b: Node, c: Node) {
    && a != b && b != c && a != c && g.live == {a, b, c}
    && g.Sup(a) == {b, c} && g.Sup(b) == {c} && g.Sup(c) == {a}
    && g.Sub(b) == {a} && g.Sub(c) == {a, b}
  }

  lemma FourthEdge(g: Graph, k: Ledger, r: Ranking)
    requires AfterThree(g, k, r)
    ensures Triangle(g.AddEdge(g.dag[2], g.dag[0]), g.dag[0], g.dag[1], g.dag[2])
  {
    ThreeEdges(g, k, r);
    hide AfterThree;
  }

  lemma TriangleSearch(g: Graph, a: Node, b: Node, c: Node, d: map<Node, nat>)
    requires Triangle(g, a, b, c) && Searched(g, a, c, d)
    ensures d == map[a := 0, b := 1, c := 1]
  {
    assert d.Keys <= g.live && Short(g, d, a);
    NearerOf(g, a, d, b);
    NearerOf(g, a, d, c);
  }

  lemma TriangleWalk(orders: map<Node, seq<Node>>, d: map<Node, nat>, a: Node, b: Node, c: Node)
    requires a != b && b != c && a != c && d == map[a := 0, b := 1, c := 1]
    requires c in orders && Enumerates(orders[c], {a, b})
    ensures orders[c] != [] && (Arrives(orders, d, a, c) <==> orders[c][0] == a)
  {
    var order := orders[c];
    assert a in order;
    assert order[0] in order && FirstReached(order, d, 0);
    StepAt(order, d, c, 0);
    hide Enumerates, LiteralStep;
    assert LiteralWalk(orders, d, c, 0) == c;
    assert LiteralWalk(orders, d, c, 1) == LiteralStep(order, d, c);
    if order[0] != a {
      forall n: nat ensures LiteralWalk(orders, d, c, n) != a { StuckForever(orders, d, c, 0, n); }
    }
  }

  /** The fourth constraint ends in exactly those orders in which the subsets of node 2 begin with
      node 0; when node 1 comes first, which is a matter of addresses, the walk back never does. */
  lemma FourthCanSpin(g: Graph, k: Ledger, r: Ranking, d: map<Node, nat>, orders: map<Node, seq<Node>>)
    requires AfterThree(g, k, r) && Searched(g.AddEdge(g.dag[2], g.dag[0]), g.dag[0], g.dag[2], d)
    requires Orders(g.AddEdge(g.dag[2], g.dag[0]), d, orders)
    ensures g.dag[2] in d && g.dag[2] in orders && orders[g.dag[2]] != []
    ensures Arrives(orders, d, g.dag[0], g.dag[2]) <==> orders[g.dag[2]][0] == g.dag[0]
  {
    FourthEdge(g, k, r);
    hide AfterThree, Graph.AddEdge, Searched, Orders, Arrives, Enumerates;
    var a, b, c := g.dag[0], g.dag[1], g.dag[2];
    TriangleSearch(g.AddEdge(c, a), a, b, c, d);
    OrderOf(g.AddEdge(c, a), d, orders, c);
    TriangleWalk(orders, d, a, b, c);
  }
}
