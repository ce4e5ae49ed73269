/** Breadth-first search for a path along supsets, and the walk back along subsets. */
module CubicSearch {
  import opened CubicGraph
  import opened CubicMerge

  /** Every node reached other than the source has a subset one step nearer to the source. */
  ghost predicate Layered(g: Graph, source: Node, distances: map<Node, nat>) {
    && source in distances && distances.Keys <= g.live
    && (forall x {:trigger distances[x]} | x in distances :: x == source || HasNearer(g, distances, x))
  }

  ghost predicate HasNearer(g: Graph, distances: map<Node, nat>, x: Node)
    requires x in distances
  {
    exists p :: p in g.Sub(x) && p in distances && distances[p] + 1 == distances[x]
  }

  // An edge leads at most one step further away.
  ghost predicate Short(g: Graph, distances: map<Node, nat>, x: Node) {
    forall y | y in g.Sup(x) && y in distances && x in distances :: distances[y] <= distances[x] + 1
  }

  /** What the search for target leaves: distances from source that are least along edges between
      reached nodes, and that stop short of the target only if it cannot be reached. */
  ghost predicate Searched(g: Graph, source: Node, target: Node, distances: map<Node, nat>) {
    && Layered(g, source, distances) && distances[source] == 0 && g.Sup(source) <= distances.Keys
    && (forall x {:trigger distances[x]} | x in distances :: Short(g, distances, x))
    && (target in distances || ClosedUnderSup(g, distances.Keys))
    && (target in distances ==> forall x | x in distances && distances[x] + 1 < distances[target] ::
          g.Sup(x) <= distances.Keys)
  }

  // A way along supsets.
  ghost predicate Way(g: Graph, w: seq<Node>, source: Node, target: Node) {
    |w| > 0 && w[0] == source && w[|w| - 1] == target && forall i, j | 0 <= i && j == i + 1 < |w| :: w[j] in g.Sup(w[i])
  }

  lemma WayEnds(g: Graph, w: seq<Node>, source: Node, target: Node)
    requires Way(g, w, source, target)
    ensures |w| > 0 && w[|w| - 1] == target
  {
  }

  // No way to the target is shorter than the search says.
  lemma NoShorter(g: Graph, source: Node, target: Node, d: map<Node, nat>, w: seq<Node>)
    requires Searched(g, source, target, d) && target in d && Way(g, w, source, target)
    ensures d[target] <= |w| - 1
  {
    hide Searched, Way;
    WayEnds(g, w, source, target);
    Reached(g, source, target, d, w, |w| - 1);
  }

  lemma {:induction false} Reached(g: Graph, source: Node, target: Node, d: map<Node, nat>, w: seq<Node>, i: nat)
    requires Searched(g, source, target, d) && target in d && Way(g, w, source, target) && i < |w|
    ensures (w[i] in d && d[w[i]] <= i) || d[target] <= i
  {
    if i > 0 {
      Reached(g, source, target, d, w, i - 1);
      if d[target] > i {
        assert w[i] in g.Sup(w[i - 1]) && w[i - 1] in d;
        assert w[i] in d && Short(g, d, w[i - 1]);
      }
    }
  }

  // Nodes are queued in the order of their distances, and nothing is further away than one step from the first.
  ghost predicate InOrder(distances: map<Node, nat>, q: seq<Node>) {
    && (forall x | x in q :: x in distances)
    && (forall i, j | 0 <= i < j < |q| :: distances[q[i]] <= distances[q[j]])
    && (q != [] ==> forall x | x in distances :: distances[x] <= distances[q[0]] + 1)
  }

  // All edges from the nodes that have left the queue have been followed.
  ghost predicate Followed(g: Graph, distances: map<Node, nat>, q: seq<Node>) {
    forall x | x in distances && x !in q :: g.Sup(x) <= distances.Keys && Short(g, distances, x)
  }

  // Records the supsets of `node` that were not reached before, one step further away.
  method PopulateDistances(sups: set<Node>, node: Node, distances: map<Node, nat>, q: seq<Node>)
    returns (distances': map<Node, nat>, q': seq<Node>)
    requires node in distances
    ensures distances'.Keys == distances.Keys + sups
    ensures forall x | x in distances' :: distances'[x] == if x in distances then distances[x] else distances[node] + 1
    ensures forall x :: x in q' <==> x in q || x in sups - distances.Keys
    ensures sups <= distances.Keys ==> q' == q
    ensures q <= q' && forall i | |q| <= i < |q'| :: q'[i] !in distances
  {
    distances', q' := distances, q;
    var todo := sups;
    while todo != {}
      invariant todo <= sups
      invariant distances'.Keys == distances.Keys + (sups - todo)
      invariant forall x | x in distances' ::
          distances'[x] == if x in distances then distances[x] else distances[node] + 1
      invariant forall x :: x in q' <==> x in q || x in sups - todo - distances.Keys
      invariant sups <= distances.Keys ==> q' == q
      invariant q <= q' && forall i | |q| <= i < |q'| :: q'[i] !in distances
    {
      var n :| n in todo;
      todo := todo - {n};
      if n in distances' { continue; }
      distances' := distances'[n := distances'[node] + 1];
      q' := q' + [n];
    }
  }

  lemma LayeredStart(g: Graph, source: Node, d: map<Node, nat>)
    requires source in g.live && d == map[source := 0]
    ensures Layered(g, source, d)
  {
  }

  lemma LayeredGrows(g: Graph, source: Node, d: map<Node, nat>, node: Node, d': map<Node, nat>)
    requires g.Shape() && Layered(g, source, d) && node in d
    requires d'.Keys == d.Keys + g.Sup(node)
    requires forall x | x in d' :: d'[x] == if x in d then d[x] else d[node] + 1
    ensures Layered(g, source, d') && d'.Keys <= g.live
  {
    assert g.Sup(node) <= g.live;
    forall x | x in d' && x != source ensures HasNearer(g, d', x) {
      if x in d {
        assert HasNearer(g, d, x);
        var p :| p in g.Sub(x) && p in d && d[p] + 1 == d[x];
        assert p in g.Sub(x) && p in d' && d'[p] + 1 == d'[x];
      } else {
        assert node in g.Sub(x) && node in d' && d'[node] + 1 == d'[x];
      }
    }
  }

  lemma QueueStart(g: Graph, source: Node, d: map<Node, nat>, q: seq<Node>)
    requires d.Keys == {source} + g.Sup(source)
    requires forall x | x in d :: d[x] == if x == source then 0 else 1
    requires forall x :: x in q <==> x in g.Sup(source) - {source}
    ensures InOrder(d, q) && Followed(g, d, q)
  {
    forall x | x in d && x !in q ensures g.Sup(x) <= d.Keys && Short(g, d, x) {
      assert x == source;
    }
  }

  lemma QueueStep(g: Graph, d: map<Node, nat>, q: seq<Node>, d': map<Node, nat>, q': seq<Node>)
    requires q != [] && InOrder(d, q) && Followed(g, d, q)
    requires d'.Keys == d.Keys + g.Sup(q[0])
    requires forall x | x in d' :: d'[x] == if x in d then d[x] else d[q[0]] + 1
    requires q <= q' && forall i | |q| <= i < |q'| :: q'[i] !in d
    requires forall x :: x in q' <==> x in q || x in g.Sup(q[0]) - d.Keys
    ensures InOrder(d', q'[1..]) && Followed(g, d', q'[1..])
  {
    hide InOrder, Followed;
    OrderStep(g, d, q, d', q');
    FollowedStep(g, d, q, d', q');
  }

  lemma OrderStep(g: Graph, d: map<Node, nat>, q: seq<Node>, d': map<Node, nat>, q': seq<Node>)
    requires q != [] && InOrder(d, q)
    requires d'.Keys == d.Keys + g.Sup(q[0])
    requires forall x | x in d' :: d'[x] == if x in d then d[x] else d[q[0]] + 1
    requires q <= q' && forall i | |q| <= i < |q'| :: q'[i] !in d
    requires forall x :: x in q' <==> x in q || x in g.Sup(q[0]) - d.Keys
    ensures InOrder(d', q'[1..])
  {
    var rest := q'[1..];
    assert forall i | 0 <= i < |q'| :: q'[i] in q' && q'[i] in d';
    assert forall i | 0 <= i < |q| :: q'[i] == q[i] && q[i] in q;
    assert forall i | 0 <= i < |rest| :: rest[i] == q'[i + 1];
  }

  lemma FollowedStep(g: Graph, d: map<Node, nat>, q: seq<Node>, d': map<Node, nat>, q': seq<Node>)
    requires q != [] && InOrder(d, q) && Followed(g, d, q)
    requires d'.Keys == d.Keys + g.Sup(q[0])
    requires forall x | x in d' :: d'[x] == if x in d then d[x] else d[q[0]] + 1
    requires q <= q' && forall i | |q| <= i < |q'| :: q'[i] !in d
    requires forall x :: x in q' <==> x in q || x in g.Sup(q[0]) - d.Keys
    ensures Followed(g, d', q'[1..])
  {
    var head, rest := q[0], q'[1..];
    assert forall i | 0 <= i < |rest| :: rest[i] == q'[i + 1];
    assert q'[0] == head && head in q;
    forall x | x in d' && x !in rest ensures g.Sup(x) <= d'.Keys && Short(g, d', x) {
      forall i | 1 <= i < |q'| ensures q'[i] != x { assert rest[i - 1] in rest; }
      assert x == head || x !in q';
      if x != head { assert x in d && x !in q; }
    }
  }

  // Wherever the search stops, an edge leads at most one step further away.
  lemma QueueEnd(g: Graph, d: map<Node, nat>, q: seq<Node>, x: Node)
    requires InOrder(d, q) && Followed(g, d, q) && x in d
    ensures Short(g, d, x)
  {
    if x in q {
      var i :| 0 <= i < |q| && q[i] == x;
      assert d[q[0]] <= d[q[i]];
    }
  }

  // Nodes too near to have the target for a superset have left the queue.
  lemma QueueNear(g: Graph, d: map<Node, nat>, q: seq<Node>, target: Node, x: Node)
    requires InOrder(d, q) && Followed(g, d, q) && target in d && x in d && d[x] + 1 < d[target]
    ensures g.Sup(x) <= d.Keys
  {
    if q != [] {
      forall i | 0 <= i < |q| ensures q[i] in d && q[i] != x {
        assert q[i] in q && q[0] in q;
        assert d[q[0]] <= d[q[i]];
      }
    }
  }

  /** The breadth-first search itself, which is over as soon as the target is reached. */
  method Search(sup: map<Node, set<Node>>, source: Node, target: Node, ghost g: Graph)
    returns (distances: map<Node, nat>)
    requires g.Shape() && g.live <= g.nodes && g.sup == sup && sup.Keys == g.nodes && source in g.live
    ensures Searched(g, source, target, distances)
  {
    hide Graph.Shape, Layered, InOrder, Followed, Short;
    ghost var d0: map<Node, nat> := map[source := 0];
    var q: seq<Node>;
    distances, q := PopulateDistances(sup[source], source, map[source := 0], []);
    assert Layered(g, source, d0) by { LayeredStart(g, source, d0); }
    LayeredGrows(g, source, d0, source, distances);
    QueueStart(g, source, distances, q);
    while q != []
      invariant Layered(g, source, distances) && distances.Keys <= g.live
      invariant source in distances && distances[source] == 0 && g.Sup(source) <= distances.Keys
      invariant InOrder(distances, q) && Followed(g, distances, q)
      decreases g.live - distances.Keys, |q|
    {
      var curr := q[0];
      QueueHead(distances, q);
      ghost var d, before := distances, q;
      distances, q := PopulateDistances(sup[curr], curr, distances, q);
      LayeredGrows(g, source, d, curr, distances);
      QueueStep(g, d, before, distances, q);
      q := q[1..];
      if target in distances { break; }
    }
    forall x | x in distances ensures Short(g, distances, x) { QueueEnd(g, distances, q, x); }
    if target !in distances {
      AllFollowed(g, distances);
    } else {
      forall x | x in distances && distances[x] + 1 < distances[target] ensures g.Sup(x) <= distances.Keys {
        QueueNear(g, distances, q, target, x);
      }
    }
  }

  lemma QueueHead(d: map<Node, nat>, q: seq<Node>)
    requires InOrder(d, q) && q != []
    ensures q[0] in d
  {
  }

  lemma AllFollowed(g: Graph, d: map<Node, nat>)
    requires Followed(g, d, []) && d.Keys <= g.live
    ensures ClosedUnderSup(g, d.Keys)
  {
  }

  /** The path found runs from the target (first) to the source (last), and none is shorter. When
      there is none, the nodes reached are closed under supsets and do not hold the target. */
  method FindPath(sup: map<Node, set<Node>>, sub: map<Node, set<Node>>, source: Node, target: Node, ghost g: Graph)
    returns (path: seq<Node>, ghost reached: set<Node>)
    requires g.Shape() && g.live <= g.nodes && g.sup == sup && g.sub == sub && sup.Keys == sub.Keys == g.nodes
    requires source in g.live && target in g.live && source != target
    ensures path != [] ==> |path| >= 2 && IsPath(g, path) && path[0] == target && path[|path| - 1] == source
    ensures path != [] ==> forall w {:trigger Way(g, w, source, target)} | Way(g, w, source, target) :: |path| <= |w|
    ensures path == [] ==> source in reached && target !in reached && ClosedUnderSup(g, reached)
  {
    hide Graph.Shape, IsPath, HasNearer, Short, ClosedUnderSup, Way;
    var distances := Search(sup, source, target, g);
    if target !in distances {
      return [], distances.Keys;
    }
    forall w | Way(g, w, source, target) ensures distances[target] <= |w| - 1 {
      NoShorter(g, source, target, distances, w);
    }
    reached := {};
    path := WalkBack(sub, source, target, distances, g);
  }

  method WalkBack(sub: map<Node, set<Node>>, source: Node, target: Node, distances: map<Node, nat>, ghost g: Graph)
    returns (path: seq<Node>)
    requires g.Shape() && g.sub == sub && sub.Keys == g.nodes && Layered(g, source, distances) && target in distances
    requires target != source
    ensures |path| >= 2 && IsPath(g, path) && path[0] == target && path[|path| - 1] == source
    ensures source in distances && distances[source] + |path| - 1 == distances[target]
  {
    hide Graph.Shape, Layered;
    var curr := target;
    path := [target];
    LayeredLive(g, source, distances);
    while curr != source
      invariant |path| > 0 && path[0] == target && path[|path| - 1] == curr && (curr == source ==> |path| >= 2)
      invariant forall i | 0 <= i < |path| :: path[i] in distances && distances[path[i]] + i == distances[target]
      invariant IsPath(g, path)
      decreases distances[curr]
    {
      assert HasNearer(g, distances, curr) by { NearerOf(g, source, distances, curr); }
      var n :| n in sub[curr] && n in distances && distances[n] + 1 == distances[curr];
      NearerEdge(g, curr, n);
      PathGrows(g, path, n, distances);
      curr := n;
      path := path + [curr];
    }
  }

  lemma LayeredLive(g: Graph, source: Node, d: map<Node, nat>)
    requires Layered(g, source, d)
    ensures d.Keys <= g.live
  {
  }

  lemma NearerOf(g: Graph, source: Node, d: map<Node, nat>, x: Node)
    requires Layered(g, source, d) && x in d && x != source
    ensures HasNearer(g, d, x)
  {
  }

  lemma NearerEdge(g: Graph, x: Node, n: Node)
    requires g.Shape() && x in g.live && n in g.Sub(x)
    ensures n in g.live && x in g.Sup(n)
  {
  }

  lemma PathGrows(g: Graph, path: seq<Node>, n: Node, d: map<Node, nat>)
    requires |path| > 0 && IsPath(g, path) && n in g.live && path[|path| - 1] in g.Sup(n) && n in d
    requires forall i | 0 <= i < |path| :: path[i] in d && d[n] < d[path[i]]
    ensures IsPath(g, path + [n])
  {
  }
}
