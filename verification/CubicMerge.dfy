/** Folding live nodes into one: the effect of one merge, of folding a whole cycle from its end, and the
    ranks of the acyclic graph that is left, in which the stale edges of dead nodes count as well. */
module CubicMerge {
  import opened CubicGraph

  lemma MergedNames(g: Graph, n1: Node, n2: Node)
    requires g.Keyed() && n1 in g.live && n2 in g.live && n1 != n2
    ensures var g' := g.Merged(n1, n2);
      && g'.nodes == g.nodes && g'.owner == g.owner && g'.dag.Keys == g.dag.Keys && g'.live == g.live - {n2}
      && (forall n {:trigger g'.Owner(n)} | n in g.nodes :: g'.Owner(n) == g.Owner(n))
      && (forall n {:trigger g'.Rep(n)} | n in g.nodes :: g'.Rep(n) == if g.Rep(n) == n2 then n1 else g.Rep(n))
      && (forall a {:trigger g'.dag[a]} | a in g.dag :: g'.dag[a] == if g.dag[a] == n2 then n1 else g.dag[a])
  {
  }

  lemma MergedContent(g: Graph, n1: Node, n2: Node)
    ensures var g' := g.Merged(n1, n2);
      && (forall n {:trigger g'.Bits(n)} | n in g.nodes ::
            g'.Bits(n) == if n == n1 then g.Bits(n1) + g.Bits(n2) else g.Bits(n))
      && (forall n {:trigger g'.Todos(n)} | n in g.nodes ::
            g'.Todos(n) == if n == n1 then g.Todos(n1) + g.Todos(n2) else g.Todos(n))
  {
  }

  lemma MergedEdges(g: Graph, n1: Node, n2: Node)
    ensures var g' := g.Merged(n1, n2);
      && (forall n {:trigger g'.Sup(n)} | n in g.nodes ::
            g'.Sup(n) == if n == n1 then g.Sup(n1) + (g.Sup(n2) - {n1}) - {n2}
                         else if n in g.Sub(n2) then g.Sup(n) - {n2} + {n1} else g.Sup(n))
      && (forall n {:trigger g'.Sub(n)} | n in g.nodes ::
            g'.Sub(n) == if n == n1 then g.Sub(n1) + (g.Sub(n2) - {n1}) - {n2}
                         else if n in g.Sup(n2) then g.Sub(n) - {n2} + {n1} else g.Sub(n))
  {
  }

  lemma MergedKeyed(g: Graph, n1: Node, n2: Node)
    requires g.Keyed() && n1 in g.live && n2 in g.live && n1 != n2
    ensures g.Merged(n1, n2).Keyed()
  {
    MergedNames(g, n1, n2);
    var g' := g.Merged(n1, n2);
    assert forall n {:trigger g'.Rep(n)} | n in g'.live :: g'.Rep(n) == n by {
      assert forall n | n in g.live :: g.Rep(n) == n;
    }
    assert forall a {:trigger g'.dag[a]} | a in g'.dag :: g'.dag[a] in g'.live by {
      assert forall a | a in g.dag :: g.dag[a] in g.live;
    }
  }

  lemma MergedSupAt(g: Graph, n1: Node, n2: Node, n: Node)
    requires g.live <= g.nodes && g.Closed() && n1 in g.live && n2 in g.live && n1 != n2 && n in g.nodes
    ensures var g' := g.Merged(n1, n2); g'.Sup(n) <= g.nodes && n !in g'.Sup(n)
    ensures n in g.live && n != n2 && (n2 in g.Sup(n) ==> n in g.Sub(n2)) ==>
              g.Merged(n1, n2).Sup(n) <= g.Merged(n1, n2).live
  {
    MergedEdges(g, n1, n2);
    assert g.Sup(n) <= g.nodes && n !in g.Sup(n) && g.Sup(n2) <= g.live && n2 !in g.Sup(n2);
    if n in g.live { assert g.Sup(n) <= g.live; }
  }

  lemma MergedSubAt(g: Graph, n1: Node, n2: Node, n: Node)
    requires g.Shape() && n1 in g.live && n2 in g.live && n1 != n2 && n in g.live && n != n2
    ensures var g' := g.Merged(n1, n2); g'.Sub(n) <= g'.live
  {
    MergedEdges(g, n1, n2);
    assert g.Sub(n) <= g.live && g.Sub(n2) <= g.live && n2 !in g.Sup(n2);
    assert n2 in g.Sub(n) <==> n in g.Sup(n2);
    assert n2 in g.Sup(n2) <==> n2 in g.Sub(n2);
  }

  lemma MergedClosed(g: Graph, n1: Node, n2: Node)
    requires g.Shape() && n1 in g.live && n2 in g.live && n1 != n2
    ensures g.Merged(n1, n2).Closed()
  {
    var g' := g.Merged(n1, n2);
    forall n | n in g.nodes
      ensures g'.Sup(n) <= g.nodes && n !in g'.Sup(n) && (n in g'.live ==> g'.Sup(n) <= g'.live)
    {
      assert n in g.live ==> (n2 in g.Sup(n) <==> n in g.Sub(n2));
      MergedSupAt(g, n1, n2, n);
    }
    forall n | n in g'.live ensures g'.Sub(n) <= g'.live { MergedSubAt(g, n1, n2, n); }
  }

  lemma MergedConverse(g: Graph, n1: Node, n2: Node)
    requires g.Shape() && n1 in g.live && n2 in g.live && n1 != n2
    ensures g.Merged(n1, n2).Converse()
  {
    var g' := g.Merged(n1, n2);
    MergedEdges(g, n1, n2);
    forall a, b | a in g'.live && b in g'.live ensures b in g'.Sup(a) <==> a in g'.Sub(b) {
      assert b in g.Sup(a) <==> a in g.Sub(b);
      assert b in g.Sup(n2) <==> n2 in g.Sub(b);
      assert n2 in g.Sup(a) <==> a in g.Sub(n2);
      assert n1 in g.Sup(n2) <==> n2 in g.Sub(n1);
      assert n2 in g.Sup(n1) <==> n1 in g.Sub(n2);
      assert b !in g.Sup(b);
      if a == n1 && b == n1 { assert n1 in g.Sup(n1) <==> n1 in g.Sub(n1); }
    }
  }

  lemma MergedShape(g: Graph, n1: Node, n2: Node)
    requires g.Shape() && n1 in g.live && n2 in g.live && n1 != n2
    ensures g.Merged(n1, n2).Shape()
  {
    MergedKeyed(g, n1, n2);
    MergedClosed(g, n1, n2);
    MergedConverse(g, n1, n2);
    MergedContent(g, n1, n2);
    var g' := g.Merged(n1, n2);
    forall n, t | n in g'.nodes && t in g'.Todos(n) ensures t.from in g'.dag && t.to in g'.dag {
      assert t in g.Todos(n) || t in g.Todos(n2);
    }
  }

  lemma RankDeadOf(g: Graph, r: Ranking, n2: Node)
    ensures var r' := g.RankDead(r, n2);
      r'.top == 2 * r.top + 2 && forall n {:trigger r'.Of(n)} | n in g.nodes ::
        r'.Of(n) == if n == n2 then r.top + 1 else if n in g.live then r.Of(n) else r.Of(n) + r.top + 2
  {
  }

  lemma MergedRankedAt(g: Graph, n1: Node, n2: Node, r: Ranking, c: set<Node>, a: Node, b: Node)
    requires g.Shape() && n1 in g.live && n2 in g.live && n1 != n2 && g.RankedBut(r, c)
    requires a in g.nodes && b in g.Merged(n1, n2).Sup(a)
    ensures g.Merged(n1, n2).Descends(g.RankDead(r, n2), c + {n1}, a, b)
  {
    MergedEdges(g, n1, n2);
    RankDeadOf(g, r, n2);
    assert g.Sup(n2) <= g.live && g.Sub(n2) <= g.live && g.Sup(a) <= g.nodes;
    if a !in g.live || (a != n1 && b != n1) {
      assert b in g.Sup(a);
      assert r.Of(b) <= r.top && g.Descends(r, c, a, b);
      assert a in g.live ==> (n2 in g.Sup(a) <==> a in g.Sub(n2));
    } else if a == n2 {
      assert r.Of(n1) <= r.top;
    }
  }

  lemma MergedRanked(g: Graph, n1: Node, n2: Node, r: Ranking, c: set<Node>)
    requires g.Shape() && n1 in g.live && n2 in g.live && n1 != n2 && g.RankedBut(r, c)
    ensures g.Merged(n1, n2).RankedBut(g.RankDead(r, n2), c + {n1})
  {
    var g' := g.Merged(n1, n2);
    var r' := g.RankDead(r, n2);
    assert forall n {:trigger r'.Of(n)} | n in g'.nodes :: r'.Of(n) <= r'.top by {
      RankDeadOf(g, r, n2);
      assert forall n | n in g.nodes :: r.Of(n) <= r.top;
    }
    forall a, b | a in g'.nodes && b in g'.Sup(a) ensures g'.Descends(r', c + {n1}, a, b) {
      MergedRankedAt(g, n1, n2, r, c, a, b);
    }
  }

  lemma MergedDead(g: Graph, n1: Node, n2: Node, ex: set<Node>)
    requires g.Shape() && n1 in g.live && n2 in g.live && n1 != n2 && g.DeadLead(ex)
    ensures g.Merged(n1, n2).DeadLead(ex + {n2})
  {
    var g' := g.Merged(n1, n2);
    MergedNames(g, n1, n2);
    MergedEdges(g, n1, n2);
    assert g.Sub(n2) <= g.live && g.Rep(n2) == n2 && g.Rep(n1) == n1;
    forall d | d in g'.nodes && d !in g'.live && d !in ex + {n2} ensures g'.Leads(d) {
      assert g.Leads(d);
      var s :| s in g.Sup(d) && g.Rep(s) == g.Rep(d);
      assert g.Sup(d) <= g.nodes;
      assert s in g'.Sup(d) && g'.Rep(s) == g'.Rep(d);
    }
  }

  // Once n2 is folded into n1 it stands for n1, so a dead node that pointed at it leads on.
  lemma MergedLeads(g: Graph, n1: Node, n2: Node, d: Node)
    requires g.Shape() && n1 in g.live && n2 in g.live && n1 != n2
    requires d in g.nodes && ((d !in g.live && n2 in g.Sup(d) && g.Rep(d) == n1) || (d == n2 && n1 in g.Sup(n2)))
    ensures g.Merged(n1, n2).Leads(d)
  {
    var g' := g.Merged(n1, n2);
    MergedNames(g, n1, n2);
    MergedEdges(g, n1, n2);
    assert g.Sub(n2) <= g.live && g.Rep(n2) == n2 && g.Rep(n1) == n1;
    if d == n2 {
      assert n2 !in g.Sup(n2) && (n2 in g.Sup(n2) <==> n2 in g.Sub(n2));
      assert n1 in g'.Sup(n2) && g'.Rep(n1) == n1 == g'.Rep(n2);
    } else {
      assert n2 in g'.Sup(d) && g'.Rep(n2) == n1 == g'.Rep(d);
    }
  }

  lemma MergedSoundBits(g: Graph, n1: Node, n2: Node, s: Assignment)
    requires n1 in g.nodes && n2 in g.nodes && g.SoundBits(s) && At(s, g.Owner(n1)) == At(s, g.Owner(n2))
    ensures g.Merged(n1, n2).SoundBits(s)
  {
    var g' := g.Merged(n1, n2);
    MergedContent(g, n1, n2);
    forall n | n in g.nodes ensures g'.Bits(n) <= At(s, g'.Owner(n)) {
      assert g.Bits(n) <= At(s, g.Owner(n)) && g.Bits(n2) <= At(s, g.Owner(n2));
    }
  }

  lemma MergedSoundTodos(g: Graph, n1: Node, n2: Node, s: Assignment)
    requires n1 in g.nodes && n2 in g.nodes && g.SoundTodos(s) && At(s, g.Owner(n1)) == At(s, g.Owner(n2))
    ensures g.Merged(n1, n2).SoundTodos(s)
  {
    var g' := g.Merged(n1, n2);
    MergedContent(g, n1, n2);
    forall n, t | n in g.nodes && t in g'.Todos(n) ensures t.fn in At(s, g'.Owner(n)) ==> At(s, t.from) <= At(s, t.to) {
      assert t in g.Todos(n) || t in g.Todos(n2);
    }
  }

  lemma MergedSoundEdge(g: Graph, n1: Node, n2: Node, s: Assignment, a: Node, b: Node)
    requires g.SoundEdges(s) && At(s, g.Owner(n1)) == At(s, g.Owner(n2)) && n2 in g.nodes && a in g.nodes
    requires a in g.Sub(n2) ==> n2 in g.Sup(a)
    requires b in g.Merged(n1, n2).Sup(a)
    ensures At(s, g.Owner(a)) <= At(s, g.Owner(b))
  {
    MergedEdges(g, n1, n2);
    if a == n1 {
      assert b in g.Sup(n1) || b in g.Sup(n2);
    }
  }

  lemma MergedSoundEdges(g: Graph, n1: Node, n2: Node, s: Assignment)
    requires g.Shape() && n1 in g.live && n2 in g.live && n1 != n2
    requires g.SoundEdges(s) && At(s, g.Owner(n1)) == At(s, g.Owner(n2))
    ensures g.Merged(n1, n2).SoundEdges(s)
  {
    var g' := g.Merged(n1, n2);
    assert g'.nodes == g.nodes;
    forall a, b | a in g.nodes && b in g'.Sup(a) ensures At(s, g'.Owner(a)) <= At(s, g'.Owner(b)) {
      assert g.Sub(n2) <= g.live;
      assert a in g.Sub(n2) ==> n2 in g.Sup(a);
      MergedSoundEdge(g, n1, n2, s, a, b);
    }
  }

  lemma MergedSound(g: Graph, n1: Node, n2: Node, s: Assignment)
    requires g.Shape() && n1 in g.live && n2 in g.live && n1 != n2
    requires g.Sound(s) && At(s, g.Owner(n1)) == At(s, g.Owner(n2))
    ensures g.Merged(n1, n2).Sound(s)
  {
    var g' := g.Merged(n1, n2);
    MergedSoundBits(g, n1, n2, s);
    MergedSoundTodos(g, n1, n2, s);
    MergedSoundEdges(g, n1, n2, s);
    MergedNames(g, n1, n2);
    forall a | a in g.dag ensures At(s, a) == At(s, g'.Owner(g'.dag[a])) {
      assert At(s, a) == At(s, g.Owner(g.dag[a])) && g.dag[a] in g.live;
    }
  }

  lemma MergedEdge(g: Graph, n1: Node, n2: Node, a: Node, b: Node)
    requires n1 in g.nodes && n2 in g.nodes && a in g.nodes && b in g.Sup(a)
    requires n2 in g.Sup(a) ==> a in g.Sub(n2)
    ensures var a', b' := if a == n2 then n1 else a, if b == n2 then n1 else b;
            a' == b' || b' in g.Merged(n1, n2).Sup(a')
  {
    MergedEdges(g, n1, n2);
  }

  lemma MergedCarries(g: Graph, n1: Node, n2: Node, p: Flow)
    requires g.Shape() && n1 in g.live && n2 in g.live && n1 != n2 && g.Carries(p)
    ensures g.Merged(n1, n2).Carries(p)
  {
    var a, b := g.dag[p.from], g.dag[p.to];
    assert a in g.live && b in g.live;
    if b in g.Sup(a) {
      assert n2 in g.Sup(a) ==> a in g.Sub(n2);
      MergedEdge(g, n1, n2, a, b);
    }
    MergedNames(g, n1, n2);
  }

  lemma MergedRecords(g: Graph, n1: Node, n2: Node, k: Ledger)
    requires g.Shape() && n1 in g.live && n2 in g.live && n1 != n2 && g.Recorded(k)
    ensures g.Merged(n1, n2).Recorded(k)
  {
    var g' := g.Merged(n1, n2);
    forall p | p in k.active ensures g'.Carries(p) {
      assert g.Carries(p);
      MergedCarries(g, n1, n2, p);
    }
    forall c | c in k.asked ensures g'.Records(c, k) {
      assert g.Records(c, k);
      MergedNames(g, n1, n2);
      MergedContent(g, n1, n2);
      if c.Conditional? { assert g.dag[c.inn] in g.live; }
      if c.ElementOf? { assert g.dag[c.node] in g.live; }
    }
  }

  lemma MergedMerges(g: Graph, n1: Node, n2: Node)
    requires g.Keyed() && n1 in g.live && n2 in g.live && n1 != n2
    ensures Merges(g, g.Merged(n1, n2))
  {
    var g' := g.Merged(n1, n2);
    MergedNames(g, n1, n2);
    assert g.Rep(n2) == n2;
    forall n | n in g.nodes ensures g'.Rep(n) == g'.Rep(g.Rep(n)) {
      assert g.Owner(n) in g.dag && g.Rep(n) in g.live && g.Rep(g.Rep(n)) == g.Rep(n);
    }
    forall a | a in g.dag ensures g'.dag[a] == g'.Rep(g.dag[a]) {
      assert g.dag[a] in g.live && g.Rep(g.dag[a]) == g.dag[a];
    }
  }

  lemma MergedGrows(g: Graph, n1: Node, n2: Node)
    requires g.Keyed() && n1 in g.live && n2 in g.live && n1 != n2
    ensures Grows(g, g.Merged(n1, n2))
  {
    var g' := g.Merged(n1, n2);
    MergedNames(g, n1, n2);
    MergedContent(g, n1, n2);
    forall n | n in g.nodes ensures g.Bits(n) <= g'.Bits(n) && g.Bits(g.Rep(n)) <= g'.Bits(g'.Rep(n)) {
      assert g.Owner(n) in g.dag && g.Rep(n) in g.live;
    }
  }

  // A node settled before the fold, other than the survivor, is settled after it.
  lemma MergedKept(g: Graph, n1: Node, n2: Node, x: Node)
    requires g.Shape() && n1 in g.live && n2 in g.live && n1 != n2 && x in g.nodes && x != n1
    ensures Kept(g, g.Merged(n1, n2), x)
  {
    MergedContent(g, n1, n2);
    if x !in g.live || x == n2 {
      MergedNames(g, n1, n2);
      assert g.Owner(x) in g.dag && g.Rep(x) in g.live;
    } else {
      MergedKeptLive(g, n1, n2, x);
    }
  }

  lemma MergedSupKept(g: Graph, n1: Node, n2: Node, x: Node)
    requires g.Shape() && n1 in g.live && n2 in g.live && n1 != n2 && x in g.live && x != n1 && x != n2
    ensures var g' := g.Merged(n1, n2);
            SupKept(g, g', x) && forall s' | s' in g'.Sup(x) :: s' in g.Sup(x) || (s' == n1 && n2 in g.Sup(x))
  {
    var g' := g.Merged(n1, n2);
    MergedEdges(g, n1, n2);
    MergedNames(g, n1, n2);
    assert g.Sup(x) <= g.live && g.Rep(n2) == n2;
    assert n2 in g.Sup(x) <==> x in g.Sub(n2);
    forall s' | s' in g'.Sup(x) ensures exists s :: s in g.Sup(x) && g'.Rep(s) == s' {
      if s' in g.Sup(x) { assert g.Rep(s') == s' && s' != n2; assert g'.Rep(s') == s'; }
      else { assert g'.Rep(n2) == s'; }
    }
  }

  lemma MergedKeptLive(g: Graph, n1: Node, n2: Node, x: Node)
    requires g.Shape() && n1 in g.live && n2 in g.live && n1 != n2 && x in g.live && x != n1 && x != n2
    ensures Kept(g, g.Merged(n1, n2), x)
  {
    var g' := g.Merged(n1, n2);
    MergedSupKept(g, n1, n2, x);
    MergedContent(g, n1, n2);
    if g.Settled(x) { MergedSettled(g, n1, n2, x); }
  }

  lemma MergedSettled(g: Graph, n1: Node, n2: Node, x: Node)
    requires n1 in g.nodes && g.live <= g.nodes && x in g.live && x != n1 && x != n2 && g.Settled(x)
    requires g.Sup(x) <= g.nodes
    requires forall s' | s' in g.Merged(n1, n2).Sup(x) :: s' in g.Sup(x) || (s' == n1 && n2 in g.Sup(x))
    ensures g.Merged(n1, n2).Settled(x)
  {
    var g' := g.Merged(n1, n2);
    MergedContent(g, n1, n2);
    forall s' | s' in g'.Sup(x) ensures g'.Bits(x) <= g'.Bits(s') {
      if s' in g.Sup(x) { assert g.Bits(x) <= g.Bits(s'); }
      else { assert g.Bits(x) <= g.Bits(n2); }
    }
  }

  lemma MergedLater(g: Graph, n1: Node, n2: Node)
    requires g.Shape() && n1 in g.live && n2 in g.live && n1 != n2
    ensures Later(g, g.Merged(n1, n2), {n1})
  {
    var g' := g.Merged(n1, n2);
    MergedMerges(g, n1, n2);
    MergedGrows(g, n1, n2);
    assert Freezes(g, g') by {
      MergedEdges(g, n1, n2);
      assert g.Sub(n2) <= g.live;
    }
    forall x | x in g.nodes && x != n1 ensures Kept(g, g', x) { MergedKept(g, n1, n2, x); }
  }

  // ----- folding a whole cycle, and ranking what is left -----

  ghost predicate Alike(g: Graph, cs: set<Constraint>, a: Node, b: Node) {
    forall s {:trigger Solves(s, cs)} | Solves(s, cs) :: At(s, g.Owner(a)) == At(s, g.Owner(b))
  }

  // path[0] is reached from path's last node by the edges path[i] -> path[i-1].
  ghost predicate IsPath(g: Graph, path: seq<Node>) {
    && (forall i {:trigger path[i]} | 0 <= i < |path| :: path[i] in g.live)
    && (forall i | 1 <= i < |path| :: path[i - 1] in g.Sup(path[i]))
    && (forall i, j | 0 <= i < j < |path| :: path[i] != path[j])
  }

  lemma {:induction false} PathBelow(g: Graph, path: seq<Node>, s: Assignment, i: nat)
    requires g.live <= g.nodes && IsPath(g, path) && g.SoundEdges(s) && i < |path|
    ensures At(s, g.Owner(path[i])) <= At(s, g.Owner(path[0]))
  {
    if i > 0 {
      PathBelow(g, path, s, i - 1);
      assert path[i] in g.nodes && path[i - 1] in g.Sup(path[i]);
    }
  }

  lemma {:induction false} PathAbove(g: Graph, path: seq<Node>, s: Assignment, i: nat)
    requires g.live <= g.nodes && IsPath(g, path) && g.SoundEdges(s) && i < |path|
    ensures At(s, g.Owner(path[|path| - 1])) <= At(s, g.Owner(path[i]))
    decreases |path| - i
  {
    if i < |path| - 1 {
      PathAbove(g, path, s, i + 1);
      assert path[i + 1] in g.nodes && path[i + 1 - 1] in g.Sup(path[i + 1]);
    }
  }

  // Around a cycle every solution assigns one and the same set.
  lemma CycleAlike(g: Graph, path: seq<Node>, cs: set<Constraint>)
    requires g.Shape() && g.SoundForAll(cs) && IsPath(g, path) && |path| > 0
    requires path[|path| - 1] in g.Sup(path[0])
    ensures forall i | 0 <= i < |path| :: Alike(g, cs, path[i], path[|path| - 1])
  {
    forall i, s | 0 <= i < |path| && Solves(s, cs)
      ensures At(s, g.Owner(path[i])) == At(s, g.Owner(path[|path| - 1]))
    {
      assert g.Sound(s);
      PathBelow(g, path, s, i);
      PathAbove(g, path, s, i);
      assert path[0] in g.nodes;
    }
  }

  /** The rest p of a cycle is being folded into t; the node folded last (in ex) is a dead
      end only until the next node of p is folded as well. */
  ghost predicate Folding(g: Graph, p: seq<Node>, t: Node, ex: set<Node>) {
    && t in g.live && t !in p && IsPath(g, p)
    && (|p| > 0 ==> t in g.Sup(p[0]))
    && (forall d {:trigger d in ex} | d in ex ::
          d in g.nodes && d !in g.live && g.Rep(d) == t && |p| > 0 && p[|p| - 1] in g.Sup(d))
  }

  // An edge between two nodes that are neither of the merged ones stays, and one to n2 goes to n1.
  lemma MergedStays(g: Graph, n1: Node, n2: Node, a: Node, b: Node)
    requires g.Shape() && n1 in g.live && n2 in g.live && n1 != n2 && a in g.live && a != n1 && a != n2 && b in g.Sup(a)
    ensures (if b == n2 then n1 else b) in g.Merged(n1, n2).Sup(a)
  {
    MergedEdges(g, n1, n2);
  }

  lemma FoldPath(g: Graph, p: seq<Node>, t: Node, ex: set<Node>)
    requires g.Shape() && Folding(g, p, t, ex) && |p| > 0
    ensures var n2, q := p[|p| - 1], p[..|p| - 1]; var g' := g.Merged(t, n2);
            IsPath(g', q) && (|q| > 0 ==> t in g'.Sup(q[0])) && t !in q && n2 !in q
  {
    var n2, q := p[|p| - 1], p[..|p| - 1];
    var g' := g.Merged(t, n2);
    assert n2 in g.live && n2 != t && g'.live == g.live - {n2};
    assert forall i | 0 <= i < |q| :: q[i] == p[i] && q[i] in g.live && q[i] != n2 && q[i] != t;
    hide Graph.Merged, Graph.Shape;
    forall i | 1 <= i < |q| ensures q[i - 1] in g'.Sup(q[i]) {
      assert p[i - 1] in g.Sup(p[i]);
      MergedStays(g, t, n2, q[i], q[i - 1]);
    }
    if |q| > 0 { MergedStays(g, t, n2, q[0], t); }
  }

  lemma FoldDead(g: Graph, p: seq<Node>, t: Node, ex: set<Node>)
    requires g.Shape() && Folding(g, p, t, ex) && |p| > 0 && g.DeadLead(ex)
    ensures var n2 := p[|p| - 1]; var g' := g.Merged(t, n2);
            g'.DeadLead(if |p| == 1 then {} else {n2})
  {
    var n2 := p[|p| - 1];
    assert n2 in g.live && n2 != t;
    var g' := g.Merged(t, n2);
    MergedDead(g, t, n2, ex);
    forall d | d in ex ensures g'.Leads(d) { MergedLeads(g, t, n2, d); }
    if |p| == 1 { MergedLeads(g, t, n2, n2); }
    var ex' := if |p| == 1 then {} else {n2};
    forall d | d in g'.nodes && d !in g'.live && d !in ex' ensures g'.Leads(d) {
      assert d in ex || d == n2 || d !in ex + {n2};
    }
  }

  lemma FoldInv(g: Graph, p: seq<Node>, t: Node, ex: set<Node>, k: Ledger, r: Ranking, c: set<Node>)
    requires g.Inv(k, r, c, ex) && Folding(g, p, t, ex) && |p| > 0 && Alike(g, k.asked, p[|p| - 1], t)
    ensures var n2 := p[|p| - 1];
            g.Merged(t, n2).Inv(k, g.RankDead(r, n2), c + {t}, if |p| == 1 then {} else {n2})
  {
    var n2 := p[|p| - 1];
    assert n2 in g.live && n2 != t;
    MergedShape(g, t, n2);
    MergedRanked(g, t, n2, r, c);
    FoldDead(g, p, t, ex);
    MergedRecords(g, t, n2, k);
    FoldSound(g, p, t, k.asked);
  }

  lemma FoldStep(g: Graph, p: seq<Node>, t: Node, ex: set<Node>)
    requires g.Shape() && Folding(g, p, t, ex) && |p| > 0
    ensures var n2 := p[|p| - 1];
            Folding(g.Merged(t, n2), p[..|p| - 1], t, if |p| == 1 then {} else {n2})
  {
    FoldPath(g, p, t, ex);
    if |p| > 1 { FoldExempt(g, p, t, ex); }
    assert t in g.Merged(t, p[|p| - 1]).live by { assert p[|p| - 1] != t; }
  }

  lemma FoldSound(g: Graph, p: seq<Node>, t: Node, cs: set<Constraint>)
    requires g.Shape() && g.SoundForAll(cs) && |p| > 0 && t in g.live && p[|p| - 1] in g.live && t != p[|p| - 1]
    requires Alike(g, cs, p[|p| - 1], t)
    ensures g.Merged(t, p[|p| - 1]).SoundForAll(cs)
  {
    forall s | Solves(s, cs) ensures g.Merged(t, p[|p| - 1]).Sound(s) {
      assert g.Sound(s);
      MergedSound(g, t, p[|p| - 1], s);
    }
  }

  lemma FoldExempt(g: Graph, p: seq<Node>, t: Node, ex: set<Node>)
    requires g.Shape() && Folding(g, p, t, ex) && |p| > 1
    ensures var n2 := p[|p| - 1]; var g' := g.Merged(t, n2);
            n2 in g'.nodes && n2 !in g'.live && g'.Rep(n2) == t && p[|p| - 2] in g'.Sup(n2)
  {
    var n2 := p[|p| - 1];
    assert n2 in g.live && n2 != t;
    MergedNames(g, t, n2);
    MergedEdges(g, t, n2);
    assert g.Rep(n2) == n2;
    assert n2 !in g.Sup(n2) && (n2 in g.Sup(n2) <==> n2 in g.Sub(n2));
    assert p[|p| - 2] in g.Sup(n2) && p[|p| - 2] in g.live;
  }

  ghost predicate ClosedUnderSup(g: Graph, r: set<Node>) {
    r <= g.live && forall x | x in r :: g.Sup(x) <= r
  }

  lemma RankAnewOf(g: Graph, r: Ranking, n: Node, below: set<Node>)
    ensures var r' := g.RankAnew(r, n, below);
      && r'.top == 3 * r.top + 4
      && (forall x {:trigger r'.Of(x)} | x in g.nodes ::
            r'.Of(x) == if x in below then r.Of(x) else if x == n then r.top + 1
                        else if x in g.live then r.Of(x) + r.top + 2 else r.Of(x) + 2 * r.top + 4)
  {
  }

  // When nothing reachable from n leads back to n, no edge is exempt any longer.
  lemma RankedAnew(g: Graph, r: Ranking, n: Node, below: set<Node>)
    requires g.Shape() && g.RankedBut(r, {n})
    requires n in g.live && n !in below && ClosedUnderSup(g, below) && g.Sup(n) <= below
    ensures g.RankedBut(g.RankAnew(r, n, below), {})
  {
    var r' := g.RankAnew(r, n, below);
    RankAnewOf(g, r, n, below);
    forall a, b | a in g.nodes && b in g.Sup(a) ensures g.Descends(r', {}, a, b) {
      assert g.Descends(r, {n}, a, b);
      assert g.Sup(a) <= g.nodes;
      assert r.Of(a) <= r.top && r.Of(b) <= r.top;
      if a in g.live { assert g.Sup(a) <= g.live; }
    }
    forall x | x in g.nodes ensures r'.Of(x) <= r'.top { assert r.Of(x) <= r.top; }
  }

  lemma RankedWider(g: Graph, r: Ranking, c: set<Node>, c': set<Node>)
    requires g.RankedBut(r, c) && forall n | n in c && n in g.live :: n in c'
    requires g.live <= g.nodes && g.Closed()
    ensures g.RankedBut(r, c')
  {
    forall a, b | a in g.nodes && b in g.Sup(a) ensures g.Descends(r, c', a, b) {
      assert g.Descends(r, c, a, b);
      if a in g.live { assert g.Sup(a) <= g.live; }
    }
  }

  lemma FoldStart(g: Graph, path: seq<Node>)
    requires |path| >= 2 && IsPath(g, path) && path[|path| - 1] in g.Sup(path[0])
    ensures Folding(g, path[..|path| - 1], path[|path| - 1], {})
  {
    var p := path[..|path| - 1];
    assert forall i | 0 <= i < |p| :: p[i] == path[i];
  }

  lemma AlikeSame(g: Graph, g': Graph, cs: set<Constraint>, a: Node, b: Node)
    requires g'.owner == g.owner && Alike(g, cs, a, b)
    ensures Alike(g', cs, a, b)
  {
  }

  lemma CycleStart(g: Graph, k: Ledger, r: Ranking, cycle: seq<Node>)
    requires |cycle| >= 2 && IsPath(g, cycle) && cycle[|cycle| - 1] in g.Sup(cycle[0])
    requires g.Inv(k, r, {cycle[0]}, {})
    ensures var t := cycle[|cycle| - 1];
      && t in g.live && cycle[0] in g.live && Folding(g, cycle[..|cycle| - 1], t, {})
      && g.Inv(k, r, {cycle[0], t}, {}) && Later(g, g, {t}) && g.Shape()
      && forall i | 0 <= i < |cycle| :: Alike(g, k.asked, cycle[i], t)
  {
    hide Graph.Converse, Graph.TodosKnown, Graph.SoundForAll, Graph.DeadLead, Graph.Recorded, Alike, Kept, Extends;
    FoldStart(g, cycle);
    LaterRefl(g);
    CycleAlike(g, cycle, k.asked);
    RankedWider(g, r, {cycle[0]}, {cycle[0], cycle[|cycle| - 1]});
  }

  lemma FoldingLast(g: Graph, p: seq<Node>, t: Node, ex: set<Node>)
    requires Folding(g, p, t, ex) && |p| > 0
    ensures t in g.live && p[|p| - 1] in g.live && p[|p| - 1] != t
  {
  }

  lemma CycleStep(g: Graph, k: Ledger, r: Ranking, p: seq<Node>, t: Node, ex: set<Node>, c: set<Node>)
    requires g.Inv(k, r, c, ex) && Folding(g, p, t, ex) && |p| > 0 && Alike(g, k.asked, p[|p| - 1], t) && t in c
    ensures var n2 := p[|p| - 1]; var g' := g.Merged(t, n2);
      var ex' := if |p| == 1 then {} else {n2};
      && g'.Inv(k, g.RankDead(r, n2), c, ex') && Folding(g', p[..|p| - 1], t, ex')
      && Later(g, g', {t}) && g'.owner == g.owner && t in g'.live && n2 !in g'.live && g'.Rep(n2) == t
      && g.Shape() && g'.Shape()
  {
    hide Graph.RankedBut, Graph.SoundForAll, Graph.DeadLead, Graph.Recorded, Alike, Later, IsPath;
    var n2 := p[|p| - 1];
    FoldingLast(g, p, t, ex);
    FoldInv(g, p, t, ex, k, r, c);
    assert c + {t} == c;
    FoldStep(g, p, t, ex);
    MergedLater(g, t, n2);
    MergedNames(g, t, n2);
  }

  lemma CycleEnd(g: Graph, k: Ledger, r: Ranking, n: Node, t: Node)
    requires g.Inv(k, r, {n, t}, {}) && n !in g.live
    ensures g.Inv(k, r, {t}, {})
  {
    hide Graph.Converse, Graph.TodosKnown, Graph.SoundForAll, Graph.DeadLead, Graph.Recorded;
    RankedWider(g, r, {n, t}, {t});
  }

  // A node that was merged away is settled: what it had went to the node that took it over.
  lemma DeadSettled(g: Graph, g': Graph, ex: set<Node>, n: Node)
    requires Later(g, g', ex) && n in g.nodes && n in g.live && n !in g'.live && n !in ex
    ensures g'.Settled(n)
  {
    assert Kept(g, g', n);
  }

  lemma CollapseStep(g: Graph, g1: Graph, g2: Graph, n0: Node, n: Node, r: Node)
    requires g.Shape() && g1.Shape() && g2.Shape() && n0 in g.nodes && n in g1.nodes
    requires Later(g, g1, {n}) && Later(g1, g2, {r}) && n in g1.live && n !in g2.live && r in g2.live
    requires g1.Rep(n0) == n && g2.Rep(n) == r
    ensures Later(g, g2, {r}) && g2.Rep(n0) == r && g2.live < g1.live
  {
    hide Graph.Shape, Graph.Settled, Kept, Grows, Freezes;
    DeadSettled(g1, g2, {r}, n);
    LaterTrans(g, g1, g2, {n}, {r}) by { ShapeKeyed(g1); ShapeKeyed(g2); }
    assert Merges(g1, g2);
    assert g2.Rep(n0) == g2.Rep(g1.Rep(n0));
  }

  lemma CollapseEnd(g: Graph, k: Ledger, r: Ranking, n: Node, below: set<Node>)
    requires g.Inv(k, r, {n}, {}) && n in g.live
    requires n !in below && ClosedUnderSup(g, below) && g.Sup(n) <= below
    ensures g.Inv(k, g.RankAnew(r, n, below), {}, {})
  {
    RankedAnew(g, r, n, below);
  }

  lemma CollapseStart(g: Graph, n: Node)
    requires g.Shape() && n in g.live
    ensures Later(g, g, {n}) && g.Rep(n) == n && n in g.nodes
  {
    LaterRefl(g);
  }

  lemma SupLive(g: Graph, n: Node, t: Node)
    requires g.Shape() && n in g.live && t in g.Sup(n)
    ensures t in g.live && t != n
  {
  }

  lemma ClosedNone(g: Graph)
    ensures ClosedUnderSup(g, {})
  {
  }

  lemma ClosedJoin(g: Graph, r1: set<Node>, r2: set<Node>)
    requires ClosedUnderSup(g, r1) && ClosedUnderSup(g, r2)
    ensures ClosedUnderSup(g, r1 + r2)
  {
  }
}
