/** How a control-flow graph grows while code is emitted: which blocks are still open, which are not
    in the function's list yet, and who jumps where. Each step of the builder and each pattern of
    blocks (branches, bounds checks, loops) is shown to leave a finished piece behind. */
module CfgGrowth {
  import opened TipTypes
  import opened TipLanguage
  import opened Ir
  import opened Emission
  import opened CodeShape

  predicate LeadsTo(t: Terminator, b: nat) {
    match t
    case Br(x) => x == b
    case CondBr(_, x, y) => x == b || y == b
    case Ret(_) => false
    case Unreachable => false
  }

  // p is a predecessor of b.
  predicate Jumps(c: Code, p: nat, b: nat) {
    p < |c.blocks| && c.BlockAt(p).term.Some? && LeadsTo(c.BlockAt(p).term.value, b)
  }

  predicate NoPhi(b: Block, from: nat) {
    forall i | from <= i < |b.instrs| :: !b.instrs[i].Phi?
  }

  // A phi comes first in its block, and has one operand for each predecessor, and no more.
  ghost predicate PhiFits(c: Code, b: nat) {
    && NoPhi(c.BlockAt(b), 1)
    && (c.BlockAt(b).instrs != [] && c.BlockAt(b).instrs[0].Phi? ==> Incoming(c, b, c.BlockAt(b).instrs[0].incoming))
  }

  ghost predicate Incoming(c: Code, b: nat, incoming: seq<(Operand, nat)>) {
    && (forall i, j | 0 <= i < j < |incoming| :: incoming[i].1 != incoming[j].1)
    && forall p: nat {:trigger Jumps(c, p, b)} ::
        Jumps(c, p, b) <==> exists i :: 0 <= i < |incoming| && incoming[i].1 == p
  }

  // A block that a piece of code started from c0 may have added to.
  predicate Own(c0: Code, b: nat) { b == c0.at || b >= |c0.blocks| }

  /** What was added to c0 so far: the blocks in `open` have no terminator yet and those in `off`
      are not in the list yet; all others are finished. Jumps stay among the new blocks. */
  ghost predicate Grows(c0: Code, c: Code, open: set<nat>, off: set<nat>) {
    && c0.Open() && Touches(c0, c, {c0.at})
    && (forall b: nat {:trigger b in open} {:trigger c.BlockAt(b)} | b < |c.blocks| && Own(c0, b) ::
         c.BlockAt(b).term.None? <==> b in open)
    && (forall b {:trigger b in open} | b in open :: b < |c.blocks| && Own(c0, b))
    && (forall b {:trigger b in off} | b in off :: b < |c.blocks|)
    && (forall b: nat {:trigger b in c.placed} ::
         b in c.placed <==> b in c0.placed || (|c0.blocks| <= b < |c.blocks| && b !in off))
    && (forall p: nat, b: nat {:trigger Jumps(c, p, b)} | Jumps(c, p, b) ::
         b < |c.blocks| && (Own(c0, p) ==> b >= |c0.blocks|))
    && (forall b: nat {:trigger PhiFits(c, b)} | |c0.blocks| <= b < |c.blocks| :: PhiFits(c, b))
    && NoPhi(c.BlockAt(c0.at), c0.End())
  }

  // A finished piece: only the block at the insertion point is open, and everything is in the list.
  ghost predicate Finished(c: Code, c': Code) {
    Grows(c, c', {c'.at}, {})
  }

  ghost predicate JumpsInRange(c: Code) {
    forall p: nat, b: nat {:trigger Jumps(c, p, b)} | Jumps(c, p, b) :: b < |c.blocks|
  }

  // ----- steps -----

  lemma GrowsNot(c: Code)
    requires c.Open() && JumpsInRange(c)
    ensures Finished(c, c)
  {
  }

  lemma GrowsEmit(c0: Code, c: Code, open: set<nat>, off: set<nat>, i: Instr)
    requires Grows(c0, c, open, off) && c.at in open && !i.Phi?
    ensures Grows(c0, c.Emit(i), open, off) && Grows(c0, c.Def(i), open, off)
    ensures forall p: nat, b: nat {:trigger Jumps(c.Emit(i), p, b)} :: Jumps(c.Emit(i), p, b) == Jumps(c, p, b)
  {
    var c' := c.Emit(i);
    EmitTouches(c, i);
    TouchesOwn(c0, c, c', c.at);
    TouchesOwn(c0, c, c.Def(i), c.at);
    forall p: nat, b: nat ensures Jumps(c', p, b) == Jumps(c, p, b) && Jumps(c.Def(i), p, b) == Jumps(c, p, b) {}
    forall b: nat | |c0.blocks| <= b < |c'.blocks| ensures PhiFits(c', b) && PhiFits(c.Def(i), b) {
      assert PhiFits(c, b);
    }
  }

  lemma TouchesOwn(c0: Code, c: Code, c': Code, b: nat)
    requires Touches(c0, c, {c0.at}) && Touches(c, c', {b}) && Own(c0, b)
    ensures Touches(c0, c', {c0.at})
  {
    TouchesTrans(c0, c, c', {c0.at}, {b});
  }

  lemma GrowsTerminate(c0: Code, c: Code, open: set<nat>, off: set<nat>, t: Terminator)
    requires Grows(c0, c, open, off) && c.at in open
    requires forall b: nat {:trigger LeadsTo(t, b)} | LeadsTo(t, b) ::
        |c0.blocks| <= b < |c.blocks| && NoPhi(c.BlockAt(b), 0)
    ensures Grows(c0, c.Terminate(t), open - {c.at}, off)
    ensures forall p: nat, b: nat {:trigger Jumps(c.Terminate(t), p, b)} ::
              Jumps(c.Terminate(t), p, b) == (Jumps(c, p, b) || (p == c.at && LeadsTo(t, b)))
  {
    var c' := c.Terminate(t);
    assert c.Open();
    TerminateTouches(c, t);
    TouchesOwn(c0, c, c', c.at);
    forall p: nat, b: nat ensures Jumps(c', p, b) == (Jumps(c, p, b) || (p == c.at && LeadsTo(t, b))) {
      if p != c.at { assert c'.BlockAt(p) == c.BlockAt(p); }
    }
    forall b: nat | |c0.blocks| <= b < |c'.blocks| ensures PhiFits(c', b) {
      assert PhiFits(c, b);
      assert c'.BlockAt(b).instrs == c.BlockAt(b).instrs;
      if c.BlockAt(b).instrs != [] && c.BlockAt(b).instrs[0].Phi? {
        assert !LeadsTo(t, b);
      }
    }
  }

  lemma GrowsNew(c0: Code, c: Code, open: set<nat>, off: set<nat>)
    requires Grows(c0, c, open, off)
    ensures Grows(c0, c.NewBlock(), open + {|c.blocks|}, off + {|c.blocks|})
    ensures forall p: nat, b: nat {:trigger Jumps(c.NewBlock(), p, b)} :: Jumps(c.NewBlock(), p, b) == Jumps(c, p, b)
    ensures c.NewBlock().BlockAt(|c.blocks|) == EMPTY && |c.NewBlock().blocks| == |c.blocks| + 1
  {
    var c' := c.NewBlock();
    assert Touches(c, c', {});
    TouchesTrans(c0, c, c', {c0.at}, {});
    forall p: nat, b: nat ensures Jumps(c', p, b) == Jumps(c, p, b) {
      if p < |c.blocks| { assert c'.BlockAt(p) == c.BlockAt(p); }
    }
    forall b: nat | |c0.blocks| <= b < |c'.blocks| ensures PhiFits(c', b) {
      if b < |c.blocks| { assert PhiFits(c, b) && c'.BlockAt(b) == c.BlockAt(b); }
    }
  }

  // Putting a block into the list, and moving the insertion point.
  lemma GrowsPlace(c0: Code, c: Code, open: set<nat>, off: set<nat>, b: nat)
    requires Grows(c0, c, open, off) && |c0.blocks| <= b < |c.blocks|
    ensures Grows(c0, c.Place(b), open, off - {b})
    ensures forall p: nat, x: nat {:trigger Jumps(c.Place(b), p, x)} :: Jumps(c.Place(b), p, x) == Jumps(c, p, x)
  {
    SameCode(c0, c, c.Place(b), open);
  }

  lemma GrowsMove(c0: Code, c: Code, open: set<nat>, off: set<nat>, b: nat)
    requires Grows(c0, c, open, off)
    ensures Grows(c0, c.MoveTo(b), open, off)
    ensures forall p: nat, x: nat {:trigger Jumps(c.MoveTo(b), p, x)} :: Jumps(c.MoveTo(b), p, x) == Jumps(c, p, x)
  {
    SameCode(c0, c, c.MoveTo(b), open);
  }

  lemma SameCode(c0: Code, c: Code, c': Code, open: set<nat>)
    requires Touches(c0, c, {c0.at}) && c'.blocks == c.blocks && c'.regs == c.regs
    ensures Touches(c0, c', {c0.at})
    ensures forall p: nat, b: nat {:trigger Jumps(c', p, b)} :: Jumps(c', p, b) == Jumps(c, p, b)
    ensures forall b: nat {:trigger c'.BlockAt(b)} :: c'.BlockAt(b) == c.BlockAt(b)
    ensures forall b: nat {:trigger PhiFits(c', b)} | PhiFits(c, b) :: PhiFits(c', b)
  {
    forall b: nat ensures c'.BlockAt(b) == c.BlockAt(b) {}
    forall p: nat, b: nat ensures Jumps(c', p, b) == Jumps(c, p, b) { assert c'.BlockAt(p) == c.BlockAt(p); }
    forall b: nat | PhiFits(c, b) ensures PhiFits(c', b) {
      assert c'.BlockAt(b) == c.BlockAt(b);
    }
  }

  // A phi at the start of a new block whose predecessors it lists.
  lemma GrowsPhi(c0: Code, c: Code, open: set<nat>, off: set<nat>, incoming: seq<(Operand, nat)>)
    requires Grows(c0, c, open, off) && c.at in open && c.at >= |c0.blocks| && c.End() == 0
    requires Incoming(c, c.at, incoming)
    ensures Grows(c0, c.Def(Phi(c.regs, incoming)), open, off)
  {
    var i := Phi(c.regs, incoming);
    var c' := c.Def(i);
    EmitTouches(c, i);
    TouchesOwn(c0, c, c', c.at);
    forall p: nat, b: nat ensures Jumps(c', p, b) == Jumps(c, p, b) {}
    forall b: nat | |c0.blocks| <= b < |c'.blocks| ensures PhiFits(c', b) {
      assert PhiFits(c, b);
    }
  }

  /** A finished piece on top of what was added before. */
  lemma GrowsSub(c0: Code, c: Code, c': Code, open: set<nat>, off: set<nat>)
    requires Grows(c0, c, open, off) && c.at in open && Finished(c, c') && Builds(c, c')
    ensures Grows(c0, c', open - {c.at} + {c'.at}, off)
    ensures forall p: nat, b: nat {:trigger Jumps(c', p, b)} | b < |c.blocks| :: Jumps(c', p, b) == Jumps(c, p, b)
  {
    TouchesOwn(c0, c, c', c.at);
    forall p: nat, b: nat | b < |c.blocks| ensures Jumps(c', p, b) == Jumps(c, p, b) {
      if p < |c.blocks| && p != c.at { assert c'.BlockAt(p) == c.BlockAt(p); }
    }
    forall b: nat | |c0.blocks| <= b < |c'.blocks| ensures PhiFits(c', b) {
      if b < |c.blocks| { SubPhiFits(c, c', b); }
    }
    SubOpen(c0, c, c', open, off);
  }

  lemma SubPhiFits(c: Code, c': Code, b: nat)
    requires b < |c.blocks| && PhiFits(c, b) && Finished(c, c')
    requires forall p: nat, x: nat {:trigger Jumps(c', p, x)} | x < |c.blocks| :: Jumps(c', p, x) == Jumps(c, p, x)
    ensures PhiFits(c', b)
  {
    var was, now := c.BlockAt(b), c'.BlockAt(b);
    if b != c.at { assert now == was; }
    assert Extended(was, now);
    if b == c.at && was.instrs == [] { assert NoPhi(now, 0); }
  }

  lemma SubOpen(c0: Code, c: Code, c': Code, open: set<nat>, off: set<nat>)
    requires Grows(c0, c, open, off) && c.at in open && Finished(c, c') && Builds(c, c')
    ensures forall b: nat {:trigger b in open} {:trigger c'.BlockAt(b)} | b < |c'.blocks| && Own(c0, b) ::
              c'.BlockAt(b).term.None? <==> b in open - {c.at} + {c'.at}
    ensures NoPhi(c'.BlockAt(c0.at), c0.End())
  {
    forall b: nat | b < |c'.blocks| && Own(c0, b) ensures c'.BlockAt(b).term.None? <==> b in open - {c.at} + {c'.at} {
      if b < |c.blocks| && b != c.at { assert c'.BlockAt(b) == c.BlockAt(b); }
    }
    if c0.at != c.at {
      assert c'.BlockAt(c0.at) == c.BlockAt(c0.at);
    } else {
      assert Extended(c.BlockAt(c.at), c'.BlockAt(c.at)) && Extended(c0.BlockAt(c.at), c.BlockAt(c.at));
    }
  }

  lemma GrowsRange(c0: Code, c: Code, open: set<nat>, off: set<nat>)
    requires Grows(c0, c, open, off)
    ensures JumpsInRange(c)
  {
  }

  lemma FinishedTrans(c: Code, c1: Code, c2: Code)
    requires Finished(c, c1) && Finished(c1, c2) && Builds(c1, c2)
    ensures Finished(c, c2)
  {
    GrowsSub(c, c1, c2, {c1.at}, {});
    assert {c1.at} - {c1.at} + {c2.at} == {c2.at};
  }

  lemma FinishedEmit(c: Code, c1: Code, i: Instr)
    requires Finished(c, c1) && !i.Phi?
    ensures Finished(c, c1.Emit(i)) && Finished(c, Yield(c1, i).c)
  {
    hide Grows;
    AtOpen(c, c1);
    GrowsEmit(c, c1, {c1.at}, {}, i);
  }

  lemma AtOpen(c: Code, c1: Code)
    requires Finished(c, c1)
    ensures c1.at < |c1.blocks| && c1.Open() && JumpsInRange(c1)
  {
  }

  // ----- branches -----

  // The three blocks of a branch: the first is in the list.
  lemma ThreeBlocksGrow(c0: Code, c: Code, open: set<nat>, off: set<nat>)
    requires Grows(c0, c, open, off) && |c0.blocks| <= |c.blocks|
    ensures var n, c' := |c.blocks|, ThreeBlocks(c);
            && Grows(c0, c', open + {n, n + 1, n + 2}, off + {n + 1, n + 2}) && |c'.blocks| == n + 3
            && c'.BlockAt(n) == c'.BlockAt(n + 1) == c'.BlockAt(n + 2) == EMPTY
    ensures forall p: nat, b: nat {:trigger Jumps(ThreeBlocks(c), p, b)} ::
        Jumps(ThreeBlocks(c), p, b) == Jumps(c, p, b)
  {
    hide Grows, Jumps;
    var n := |c.blocks|;
    var c1 := c.NewBlock();
    GrowsNew(c0, c, open, off);
    OffBelow(c0, c, open, off);
    GrowsPlace(c0, c1, open + {n}, off + {n}, n);
    var c2 := c1.Place(n);
    assert off + {n} - {n} == off;
    GrowsNew(c0, c2, open + {n}, off);
    var c3 := c2.NewBlock();
    GrowsNew(c0, c3, open + {n} + {n + 1}, off + {n + 1});
    assert open + {n} + {n + 1} + {n + 2} == open + {n, n + 1, n + 2};
    assert off + {n + 1} + {n + 2} == off + {n + 1, n + 2};
    ThreeBlocksTouches(c);
    forall p: nat, b: nat ensures Jumps(ThreeBlocks(c), p, b) == Jumps(c, p, b) {
      assert Jumps(c1, p, b) == Jumps(c, p, b) && Jumps(c2, p, b) == Jumps(c1, p, b);
      assert Jumps(c3, p, b) == Jumps(c2, p, b);
    }
  }

  lemma OffBelow(c0: Code, c: Code, open: set<nat>, off: set<nat>)
    requires Grows(c0, c, open, off)
    ensures forall b {:trigger b in off} | b in off :: b < |c.blocks|
  {
  }

  // No block jumps to b.
  ghost predicate Lonely(c: Code, b: nat) {
    forall p: nat {:trigger Jumps(c, p, b)} :: !Jumps(c, p, b)
  }

  lemma SplitGrows(c: Code, p: Piece)
    requires Finished(c, p.c) && Builds(c, p.c)
    ensures var s, n := Split(p), |p.c.blocks|;
            && Grows(c, s, {n, n + 1, n + 2}, {n + 1, n + 2})
            && Grows(c, s.MoveTo(n), {n, n + 1, n + 2}, {n + 1, n + 2})
            && Lonely(s.MoveTo(n), n + 2) && JumpsInRange(s.MoveTo(n))
  {
    hide Grows, Jumps;
    var n := |p.c.blocks|;
    var k := Test(p.c, NE, p.v, Const(0));
    FinishedEmit(c, p.c, ICmp(p.c.regs, NE, p.v, Const(0)));
    AtOpen(c, p.c);
    YieldBuilds(p.c, ICmp(p.c.regs, NE, p.v, Const(0)));
    AtOpen(c, k.c);
    MoreBlocks(c, p.c);
    ThreeBlocksGrow(c, k.c, {k.c.at}, {});
    var d, t := ThreeBlocks(k.c), CondBr(k.v, n, n + 1);
    var open := {k.c.at} + {n, n + 1, n + 2};
    GrowsTerminate(c, d, open, {} + {n + 1, n + 2}, t);
    assert open - {d.at} == {n, n + 1, n + 2};
    assert {} + {n + 1, n + 2} == {n + 1, n + 2};
    var s := Split(p);
    GrowsMove(c, s, {n, n + 1, n + 2}, {n + 1, n + 2}, n);
    GrowsRange(c, s.MoveTo(n), {n, n + 1, n + 2}, {n + 1, n + 2});
    var last := n + 2;
    forall q: nat ensures !Jumps(s.MoveTo(n), q, last) {
      assert Jumps(s.MoveTo(n), q, last) == Jumps(s, q, last) && Jumps(d, q, last) == Jumps(k.c, q, last);
    }
  }

  lemma ElseGrows(c: Code, p: Piece, t: Code)
    requires Finished(c, p.c) && Builds(c, p.c)
    requires var b := Split(p).MoveTo(|p.c.blocks|); Finished(b, t) && Builds(b, t)
    ensures var n := |p.c.blocks|;
            var c1 := Enter(t.Terminate(Br(n + 2)), n + 1);
            && Grows(c, c1, {n + 1, n + 2}, {n + 2}) && JumpsInRange(c1) && c1.BlockAt(n + 2) == EMPTY
            && n + 2 < |c1.blocks|
            && forall q: nat {:trigger Jumps(c1, q, n + 2)} :: Jumps(c1, q, n + 2) == (q == t.at)
  {
    hide Grows, Jumps, Split, Touches;
    var n := |p.c.blocks|;
    var b := Split(p).MoveTo(n);
    SplitGrows(c, p);
    SplitTouches(p);
    GrowsSub(c, b, t, {n, n + 1, n + 2}, {n + 1, n + 2});
    NextBranch(b, t, n + 2, n + 1);
    var open := {n, n + 1, n + 2} - {n} + {t.at};
    MoreBlocks(c, p.c);
    StillEmpty(b, t, n + 2);
    GrowsTerminate(c, t, open, {n + 1, n + 2}, Br(n + 2));
    StillEmpty(b, t, n + 1);
    TermAt(t);
    assert open - {t.at} == {n + 1, n + 2} by { AtApart(b, t, n + 1); AtApart(b, t, n + 2); }
    var t' := t.Terminate(Br(n + 2));
    GrowsPlace(c, t', {n + 1, n + 2}, {n + 1, n + 2}, n + 1) by { MoreBlocks(b, t); MoreBlocks(c, p.c); TermAt(t); }
    assert {n + 1, n + 2} - {n + 1} == {n + 2};
    GrowsMove(c, t'.Place(n + 1), {n + 1, n + 2}, {n + 2}, n + 1);
    var c1 := Enter(t', n + 1);
    GrowsRange(c, c1, {n + 1, n + 2}, {n + 2});
    var last := n + 2;
    forall q: nat ensures Jumps(c1, q, last) == (q == t.at) {
      assert Jumps(c1, q, last) == Jumps(t'.Place(n + 1), q, last);
      assert Jumps(t'.Place(n + 1), q, last) == Jumps(t', q, last);
      assert Jumps(t, q, last) == Jumps(b, q, last);
    }
  }

  // A block that was empty and apart is so still.
  lemma StillEmpty(b: Code, t: Code, x: nat)
    requires Builds(b, t) && x < |b.blocks| && x != b.at && b.BlockAt(x) == EMPTY
    ensures t.BlockAt(x) == EMPTY && x < |t.blocks| && t.at != x && NoPhi(t.BlockAt(x), 0)
  {
  }

  lemma AtApart(b: Code, t: Code, x: nat)
    requires Builds(b, t) && x < |b.blocks| && x != b.at
    ensures t.at != x
  {
  }

  lemma TermAt(t: Code)
    ensures forall x {:trigger t.Terminate(x)} :: |t.Terminate(x).blocks| == |t.blocks| && t.Terminate(x).at == t.at
  {
  }

  // Behind the branches: everything is finished, and there are just the two ways to get there.
  lemma BranchFinished(c: Code, p: Piece, t: Code, g: Code, x: Operand, y: Operand)
    requires Finished(c, p.c) && Builds(c, p.c)
    requires var b := Split(p).MoveTo(|p.c.blocks|); Finished(b, t) && Builds(b, t)
    requires var c1 := Enter(t.Terminate(Br(|p.c.blocks| + 2)), |p.c.blocks| + 1); Finished(c1, g) && Builds(c1, g)
    ensures var c2 := Enter(g.Terminate(Br(|p.c.blocks| + 2)), |p.c.blocks| + 2);
            Finished(c, c2) && Incoming(c2, c2.at, [(x, t.at), (y, g.at)])
  {
    hide Grows, Jumps, Split, Touches;
    var n := |p.c.blocks|;
    var b, c1 := Split(p).MoveTo(n), Enter(t.Terminate(Br(n + 2)), n + 1);
    ElseGrows(c, p, t);
    BranchBuilds(c, p, t, g);
    GrowsSub(c, c1, g, {n + 1, n + 2}, {n + 2});
    StillEmpty(c1, g, n + 2);
    var open := {n + 1, n + 2} - {n + 1} + {g.at};
    GrowsTerminate(c, g, open, {n + 2}, Br(n + 2)) by { MoreBlocks(c, p.c); }
    assert open - {g.at} == {n + 2};
    var g' := g.Terminate(Br(n + 2));
    TermAt(g);
    GrowsPlace(c, g', {n + 2}, {n + 2}, n + 2) by { MoreBlocks(c, p.c); }
    assert {n + 2} - {n + 2} == {};
    GrowsMove(c, g'.Place(n + 2), {n + 2}, {}, n + 2);
    var c2 := Enter(g', n + 2);
    BranchApart(c, p, t, g);
    var last := n + 2;
    forall q: nat ensures Jumps(c2, q, last) == (q == t.at || q == g.at) {
      assert Jumps(c2, q, last) == Jumps(g'.Place(last), q, last);
      assert Jumps(g'.Place(last), q, last) == Jumps(g', q, last);
      assert Jumps(g, q, last) == Jumps(c1, q, last);
    }
    TwoIncoming(c2, last, (x, t.at), (y, g.at));
  }

  lemma TwoIncoming(c: Code, b: nat, x: (Operand, nat), y: (Operand, nat))
    requires x.1 != y.1 && forall q: nat {:trigger Jumps(c, q, b)} :: Jumps(c, q, b) == (q == x.1 || q == y.1)
    ensures Incoming(c, b, [x, y])
  {
    var s := [x, y];
    assert s[0] == x && s[1] == y;
  }

  lemma OneIncoming(c: Code, b: nat, x: (Operand, nat))
    requires forall q: nat {:trigger Jumps(c, q, b)} :: Jumps(c, q, b) == (q == x.1)
    ensures Incoming(c, b, [x])
  {
    var s := [x];
    assert s[0] == x;
  }

  // The two branches end in different blocks.
  lemma BranchApart(c: Code, p: Piece, t: Code, g: Code)
    requires Builds(c, p.c) && Builds(Split(p).MoveTo(|p.c.blocks|), t)
    requires Builds(Enter(t.Terminate(Br(|p.c.blocks| + 2)), |p.c.blocks| + 1), g)
    ensures t.at != g.at
  {
    hide Split;
    SplitTouches(p);
    NextBranch(Split(p).MoveTo(|p.c.blocks|), t, |p.c.blocks| + 2, |p.c.blocks| + 1);
  }

  // ----- the bounds check -----

  lemma AheadGrow(c0: Code, c: Code, open: set<nat>)
    requires Grows(c0, c, open, {}) && |c0.blocks| <= |c.blocks|
    ensures var n, c' := |c.blocks|, Ahead(c);
            && Grows(c0, c', open + {n, n + 1, n + 2}, {}) && |c'.blocks| == n + 3 && c'.at == c.at
            && c'.BlockAt(n) == c'.BlockAt(n + 1) == c'.BlockAt(n + 2) == EMPTY
    ensures forall p: nat, b: nat {:trigger Jumps(Ahead(c), p, b)} :: Jumps(Ahead(c), p, b) == Jumps(c, p, b)
  {
    hide Grows, Jumps;
    var n := |c.blocks|;
    var c1 := c.NewBlock();
    GrowsNew(c0, c, open, {});
    GrowsPlace(c0, c1, open + {n}, {} + {n}, n);
    var c2 := c1.Place(n);
    var c3 := c2.NewBlock();
    assert {} + {n} - {n} == {};
    GrowsNew(c0, c2, open + {n}, {});
    GrowsPlace(c0, c3, open + {n} + {n + 1}, {} + {n + 1}, n + 1);
    var c4 := c3.Place(n + 1);
    var c5 := c4.NewBlock();
    assert {} + {n + 1} - {n + 1} == {};
    GrowsNew(c0, c4, open + {n} + {n + 1}, {});
    GrowsPlace(c0, c5, open + {n} + {n + 1} + {n + 2}, {} + {n + 2}, n + 2);
    assert {} + {n + 2} - {n + 2} == {};
    assert open + {n} + {n + 1} + {n + 2} == open + {n, n + 1, n + 2};
    AheadEmpty(c);
    forall p: nat, b: nat ensures Jumps(Ahead(c), p, b) == Jumps(c, p, b) {
      assert Jumps(c1, p, b) == Jumps(c, p, b) && Jumps(c2, p, b) == Jumps(c1, p, b);
      assert Jumps(c3, p, b) == Jumps(c2, p, b);
      assert Jumps(c4, p, b) == Jumps(c3, p, b) && Jumps(c5, p, b) == Jumps(c4, p, b);
    }
  }

  lemma AheadEmpty(c: Code)
    ensures var n, c' := |c.blocks|, Ahead(c);
            && c'.BlockAt(n) == c'.BlockAt(n + 1) == c'.BlockAt(n + 2) == EMPTY && |c'.blocks| == n + 3 && c'.at == c.at
  {
  }

  lemma CheckFinished(c: Code, p: Operand, length: Operand, i: Operand)
    requires c.Open() && JumpsInRange(c)
    ensures var q := CheckBounds(c, p, length, i);
            Finished(c, q.c) && q.c.at >= |c.blocks| + 2 && Incoming(q.c, q.c.at, [(q.v, q.c.at - 2)])
  {
    hide Grows, Jumps, Touches, Incoming, Finished;
    var neg := Test(c, SLT, i, Const(0));
    GrowsNot(c);
    FinishedEmit(c, c, ICmp(c.regs, SLT, i, Const(0)));
    var large := Test(neg.c, SGE, i, length);
    FinishedEmit(c, neg.c, ICmp(neg.c.regs, SGE, i, length));
    var out := Arith(large.c, BitOr, neg.v, large.v);
    FinishedEmit(c, large.c, Binary(large.c.regs, BitOr, neg.v, large.v));
    CheckSize(c, i, length);
    AfterCheckFinished(c, out, p, i);
  }

  lemma CheckSize(c: Code, i: Operand, length: Operand)
    requires c.Open()
    ensures var neg := Test(c, SLT, i, Const(0));
            var large := Test(neg.c, SGE, i, length);
            var out := Arith(large.c, BitOr, neg.v, large.v);
            |out.c.blocks| == |c.blocks| && out.c.at == c.at
  {
  }

  lemma AfterCheckFinished(c: Code, out: Piece, p: Operand, i: Operand)
    requires Finished(c, out.c) && |out.c.blocks| == |c.blocks|
    ensures var q := AfterCheck(out, p, i);
            Finished(c, q.c) && q.c.at >= |c.blocks| + 2 && Incoming(q.c, q.c.at, [(q.v, q.c.at - 2)])
  {
    hide Grows, Jumps, Touches, Incoming;
    var n := |out.c.blocks|;
    var cont := n + 2;
    AtOpen(c, out.c);
    var d := Ahead(out.c);
    AheadGrow(c, out.c, {out.c.at});
    var t := CondBr(out.v, n + 1, n);
    var open := {out.c.at} + {n, n + 1, n + 2};
    GrowsTerminate(c, d, open, {}, t);
    assert open - {d.at} == {n, n + 1, n + 2};
    var c1 := d.Terminate(t);
    TermEmpty(d, t, n);
    GrowsMove(c, c1, {n, n + 1, n + 2}, {}, n + 1);
    var c2 := c1.MoveTo(n + 1);
    GrowsEmit(c, c2, {n, n + 1, n + 2}, {}, CallError(Const(0)));
    var c3 := c2.Emit(CallError(Const(0)));
    GrowsTerminate(c, c3, {n, n + 1, n + 2}, {}, Unreachable);
    assert {n, n + 1, n + 2} - {n + 1} == {n, n + 2};
    var c4 := c3.Terminate(Unreachable);
    GrowsMove(c, c4, {n, n + 2}, {}, n);
    var c5 := c4.MoveTo(n);
    var j := Arith(c5, IAdd, i, Const(1));
    GrowsEmit(c, c5, {n, n + 2}, {}, Binary(c5.regs, IAdd, i, Const(1)));
    var q := At(j.c, p, j.v);
    GrowsEmit(c, j.c, {n, n + 2}, {}, Gep(j.c.regs, p, j.v));
    ContEmpty(d, t, p, i, n);
    GrowsTerminate(c, q.c, {n, n + 2}, {}, Br(cont));
    assert {n, n + 2} - {n} == {n + 2};
    var c6 := q.c.Terminate(Br(cont));
    GrowsMove(c, c6, {n + 2}, {}, cont);
    var c7 := c6.MoveTo(cont);
    forall x: nat ensures Jumps(c7, x, cont) == (x == n) {
      assert Jumps(c7, x, cont) == Jumps(c6, x, cont) == (Jumps(q.c, x, cont) || x == n);
      assert Jumps(q.c, x, cont) == Jumps(j.c.Emit(Gep(j.c.regs, p, j.v)), x, cont) by {
        DefJumps(j.c, Gep(j.c.regs, p, j.v), x, cont);
      }
      assert Jumps(j.c, x, cont) == Jumps(c5.Emit(Binary(c5.regs, IAdd, i, Const(1))), x, cont) by {
        DefJumps(c5, Binary(c5.regs, IAdd, i, Const(1)), x, cont);
      }
      assert Jumps(c5, x, cont) == Jumps(c4, x, cont) == Jumps(c3, x, cont) == Jumps(c2, x, cont) == Jumps(c1, x, cont);
      assert Jumps(c1, x, cont) == Jumps(d, x, cont) == Jumps(out.c, x, cont);
      NotBeyond(c, out.c, x, cont);
    }
    OneIncoming(c7, cont, (q.v, n));
  }

  lemma DefJumps(c: Code, i: Instr, p: nat, b: nat)
    ensures Jumps(c.Def(i), p, b) == Jumps(c.Emit(i), p, b)
  {
  }

  lemma NotBeyond(c0: Code, c: Code, p: nat, b: nat)
    requires Finished(c0, c) && b >= |c.blocks|
    ensures !Jumps(c, p, b)
  {
  }

  lemma TermEmpty(d: Code, t: Terminator, n: nat)
    requires d.Open() && d.at < n && |d.blocks| == n + 3
    requires d.BlockAt(n) == d.BlockAt(n + 1) == d.BlockAt(n + 2) == EMPTY
    ensures var c1 := d.Terminate(t);
            c1.BlockAt(n) == c1.BlockAt(n + 1) == c1.BlockAt(n + 2) == EMPTY && |c1.blocks| == n + 3
  {
  }

  lemma ContEmpty(d: Code, t: Terminator, p: Operand, i: Operand, n: nat)
    requires d.Open() && d.at < n && |d.blocks| == n + 3 && d.BlockAt(n + 2) == EMPTY
    requires d.BlockAt(n) == d.BlockAt(n + 1) == EMPTY
    ensures var c5 := d.Terminate(t).MoveTo(n + 1).Emit(CallError(Const(0))).Terminate(Unreachable).MoveTo(n);
            var j := Arith(c5, IAdd, i, Const(1));
            var q := At(j.c, p, j.v);
            NoPhi(q.c.BlockAt(n + 2), 0) && |q.c.blocks| == n + 3 && q.c.at == n && c5.at == n && j.c.at == n
  {
  }

  // ----- loops -----

  // A loop header's test has no phi, and leaves the body and the exit open.
  lemma LoopTestGrows(c: Code, l: Code, off: set<nat>, p: Operand, pred: Predicate, end: Operand)
    requires Grows(c, l, {l.at, l.at + 1, l.at + 2}, off) && l.at >= |c.blocks|
    requires l.BlockAt(l.at) == l.BlockAt(l.at + 1) == l.BlockAt(l.at + 2) == EMPTY
    ensures var c' := LoopTest(l, p, pred, end);
            && Grows(c, c', {l.at + 1, l.at + 2}, off) && NoPhi(c'.BlockAt(l.at), 0) && c'.at == l.at
            && |c'.blocks| == |l.blocks|
            && c'.BlockAt(l.at + 1) == c'.BlockAt(l.at + 2) == EMPTY
  {
    hide Grows, Jumps, Touches;
    var open := {l.at, l.at + 1, l.at + 2};
    InOpen(c, l, open, off);
    GrowsEmit(c, l, open, off, Load(l.regs, p));
    var x := LoadFrom(l, p);
    GrowsEmit(c, x.c, open, off, ICmp(x.c.regs, pred, x.v, end));
    var t := Test(x.c, pred, x.v, end);
    HeaderEmpty(l, p, pred, end);
    GrowsTerminate(c, t.c, open, off, CondBr(t.v, l.at + 1, l.at + 2));
    assert open - {l.at} == {l.at + 1, l.at + 2};
  }

  lemma InOpen(c: Code, l: Code, open: set<nat>, off: set<nat>)
    requires Grows(c, l, open, off)
    ensures forall b | b in open :: b < |l.blocks|
  {
  }

  lemma HeaderEmpty(l: Code, p: Operand, pred: Predicate, end: Operand)
    requires l.at + 2 < |l.blocks| && l.BlockAt(l.at) == l.BlockAt(l.at + 1) == l.BlockAt(l.at + 2) == EMPTY
    ensures var x := LoadFrom(l, p);
            var t := Test(x.c, pred, x.v, end);
            var c' := LoopTest(l, p, pred, end);
            && t.c.BlockAt(l.at + 1) == t.c.BlockAt(l.at + 2) == EMPTY
            && |t.c.blocks| == |x.c.blocks| == |l.blocks| == |c'.blocks|
            && t.c.at == x.c.at == l.at == c'.at
            && c'.BlockAt(l.at + 1) == c'.BlockAt(l.at + 2) == EMPTY && NoPhi(c'.BlockAt(l.at), 0)
  {
  }

  /** From the end of the body back to the header, and on in the exit block. */
  lemma LoopFinished(c: Code, h: Code, u: Code, header: nat, exit: nat)
    requires Grows(c, h, {h.at, exit}, {}) || Grows(c, h, {h.at, exit}, {exit})
    requires Finished(h, u) && Builds(h, u) && h.at >= |c.blocks| && h.BlockAt(exit) == EMPTY && exit != h.at
    requires exit >= |c.blocks|
    requires |c.blocks| <= header < |h.blocks| && header != h.at && NoPhi(h.BlockAt(header), 0)
    ensures Grows(c, h, {h.at, exit}, {}) ==> Finished(c, u.Terminate(Br(header)).MoveTo(exit))
    ensures Finished(c, Enter(u.Terminate(Br(header)), exit))
    ensures Finished(c, Enter(u.Terminate(Br(header)), exit).Emit(Nop))
  {
    hide Grows, Jumps, Touches;
    var u' := u.Terminate(Br(header));
    if Grows(c, h, {h.at, exit}, {}) {
      LoopClosed(c, h, u, header, exit, {});
      GrowsMove(c, u', {exit}, {}, exit);
      GrowsPlace(c, u', {exit}, {}, exit) by { TermAt(u); ExitThere(c, h, u, exit, {}); }
      assert {} - {exit} == {};
      GrowsMove(c, u'.Place(exit), {exit}, {}, exit);
    } else {
      LoopClosed(c, h, u, header, exit, {exit});
      GrowsPlace(c, u', {exit}, {exit}, exit) by { TermAt(u); ExitThere(c, h, u, exit, {exit}); }
      assert {exit} - {exit} == {};
      GrowsMove(c, u'.Place(exit), {exit}, {}, exit);
    }
    FinishedEmit(c, Enter(u', exit), Nop);
  }

  lemma ExitThere(c: Code, h: Code, u: Code, exit: nat, off: set<nat>)
    requires Grows(c, h, {h.at, exit}, off) && Builds(h, u) && exit >= |c.blocks|
    ensures |c.blocks| <= exit < |u.blocks|
  {
    assert exit in {h.at, exit};
  }

  lemma LoopClosed(c: Code, h: Code, u: Code, header: nat, exit: nat, off: set<nat>)
    requires Grows(c, h, {h.at, exit}, off) && Finished(h, u) && Builds(h, u) && h.BlockAt(exit) == EMPTY
    requires exit != h.at
    requires |c.blocks| <= header < |h.blocks| && header != h.at && NoPhi(h.BlockAt(header), 0)
    ensures Grows(c, u.Terminate(Br(header)), {exit}, off)
  {
    hide Grows, Jumps, Touches;
    GrowsSub(c, h, u, {h.at, exit}, off);
    var open := {h.at, exit} - {h.at} + {u.at};
    HeaderStays(h, u, header);
    GrowsTerminate(c, u, open, off, Br(header));
    ExitApart(c, h, u, exit, off);
    assert open - {u.at} == {exit};
  }

  lemma ExitApart(c: Code, h: Code, u: Code, exit: nat, off: set<nat>)
    requires Grows(c, h, {h.at, exit}, off) && Builds(h, u) && exit != h.at
    ensures u.at != exit
  {
    assert exit in {h.at, exit};
  }

  lemma HeaderStays(h: Code, u: Code, header: nat)
    requires Builds(h, u) && header < |h.blocks| && header != h.at
    ensures u.BlockAt(header) == h.BlockAt(header) && header < |u.blocks|
  {
  }

  lemma FillBodyGrows(n: Piece)
    requires n.c.Open() && JumpsInRange(n.c) && Known(n.v, n.c)
    ensures var l, b := FillStart(n).start, FillBody(n);
            && Grows(n.c, b, {b.at, b.at + 1}, {}) && JumpsInRange(b) && b.at == l.at + 1 && NoPhi(b.BlockAt(l.at), 0)
            && b.BlockAt(b.at + 1) == EMPTY
            && |n.c.blocks| <= l.at < |b.blocks|
  {
    hide Grows, Jumps, Touches, Finished;
    var c := n.c;
    GrowsNot(c);
    var items := Arith(c, IAdd, n.v, Const(1));
    FinishedEmit(c, c, Binary(c.regs, IAdd, n.v, Const(1)));
    var p := NewWords(items.c, items.v);
    FinishedEmit(c, items.c, Calloc(items.c.regs, items.v));
    var s := p.c.Emit(Store(n.v, p.v));
    FinishedEmit(c, p.c, Store(n.v, p.v));
    var index := Yield(s, Alloca(s.regs));
    FinishedEmit(c, s, Alloca(s.regs));
    var c1 := index.c.Emit(Store(Const(1), index.v));
    FinishedEmit(c, index.c, Store(Const(1), index.v));
    FillStartBuilds(n);
    FillStartSize(n, c1);
    ForkFinished(c, c1);
    var l := FillStart(n).start;
    LoopTestGrows(c, l, {}, FillStart(n).index, SLE, n.v);
    var t := LoopTest(l, FillStart(n).index, SLE, n.v);
    GrowsMove(c, t, {l.at + 1, l.at + 2}, {}, l.at + 1);
    GrowsRange(c, FillBody(n), {l.at + 1, l.at + 2}, {});
    MovedBlocks(t, l.at + 1);
  }

  lemma MovedBlocks(c: Code, b: nat)
    ensures forall x: nat {:trigger c.MoveTo(b).BlockAt(x)} :: c.MoveTo(b).BlockAt(x) == c.BlockAt(x)
  {
  }

  lemma FillStartSize(n: Piece, c1: Code)
    requires n.c.Open()
    ensures FillStart(n).start == Fork(c1, Br(|c1.blocks|)).MoveTo(|c1.blocks|) ==>
              |FillStart(n).start.blocks| == |c1.blocks| + 3
  {
    AheadEmpty(c1);
  }

  lemma ForkFinished(c: Code, c1: Code)
    requires Finished(c, c1) && |c.blocks| <= |c1.blocks|
    ensures var n := |c1.blocks|; Grows(c, Fork(c1, Br(n)).MoveTo(n), {n, n + 1, n + 2}, {})
  {
    hide Grows, Jumps, Touches;
    var n := |c1.blocks|;
    AtOpen(c, c1);
    AheadGrow(c, c1, {c1.at});
    var d := Ahead(c1);
    var open := {c1.at} + {n, n + 1, n + 2};
    GrowsTerminate(c, d, open, {}, Br(n));
    assert open - {d.at} == {n, n + 1, n + 2};
    GrowsMove(c, d.Terminate(Br(n)), {n, n + 1, n + 2}, {}, n);
  }

  lemma FillFinished(n: Piece, el: Piece)
    requires n.c.Open() && JumpsInRange(n.c) && Known(n.v, n.c) && Finished(FillBody(n), el.c)
    requires Builds(FillBody(n), el.c)
    ensures Finished(n.c, AsInt(FillEnd(n, el), FillStart(n).arr).c)
  {
    hide Grows, Jumps, Touches, FillStart, FillBody;
    FillBodyGrows(n);
    FillStartBuilds(n);
    FillNextBuilds(n, el);
    var l, b := FillStart(n), FillBody(n);
    var q := At(el.c, l.arr, FillCounter(n));
    FinishedEmit(b, el.c, Gep(el.c.regs, l.arr, FillCounter(n)));
    var c1 := q.c.Emit(Store(el.v, q.v));
    FinishedEmit(b, q.c, Store(el.v, q.v));
    var next := Arith(c1, IAdd, FillCounter(n), Const(1));
    FinishedEmit(b, c1, Binary(c1.regs, IAdd, FillCounter(n), Const(1)));
    FinishedEmit(b, next.c, Store(next.v, l.index));
    LoopFinished(n.c, b, FillNext(n, el), l.start.at, l.start.at + 2);
    FinishedEmit(n.c, FillEnd(n, el), PtrToInt(FillEnd(n, el).regs, l.arr));
  }
}
