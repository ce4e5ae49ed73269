/** What emission leaves alone: code is only added, at the insertion point or in new blocks. Blocks that
    existed keep their instructions, a terminator once set stays, and registers are numbered upwards;
    so what is said of a piece of code stays true of the whole function it ends up in. The lemmas
    follow the emission schemes, one for each. */
module CodeShape {
  import opened TipTypes
  import opened TipLanguage
  import opened Ir
  import opened Emission

  const EMPTY: Block := Block([], None)

  // From c to c' code was added in the blocks ts and in new blocks, and nowhere else.
  ghost predicate Touches(c: Code, c': Code, ts: set<nat>) {
    && Grown(c, c') && c.regs <= c'.regs
    && forall b: nat {:trigger c'.BlockAt(b)} {:trigger c.BlockAt(b)} | b < |c.blocks| && b !in ts ::
        c'.BlockAt(b) == c.BlockAt(b)
  }

  // A finished piece of code: it can be continued, and only the block it started in was added to.
  ghost predicate Builds(c: Code, c': Code) {
    c'.Open() && Touches(c, c', {c.at}) && (c'.at == c.at || c'.at >= |c.blocks|)
  }

  // An operand that stands for a value computed by now.
  predicate Known(v: Operand, c: Code) { v.Reg? ==> v.r < c.regs }

  lemma TouchesTrans(c: Code, c1: Code, c2: Code, ts: set<nat>, ts': set<nat>)
    requires Touches(c, c1, ts) && Touches(c1, c2, ts')
    requires forall b | b in ts' && b < |c.blocks| :: b in ts
    ensures Touches(c, c2, ts)
  {
    GrownTrans(c, c1, c2);
    forall b: nat | b < |c.blocks| && b !in ts ensures c2.BlockAt(b) == c.BlockAt(b) {
      assert c1.BlockAt(b) == c.BlockAt(b);
    }
  }

  lemma EmitTouches(c: Code, i: Instr)
    requires c.Open()
    ensures Builds(c, c.Emit(i)) && c.Emit(i).at == c.at && |c.Emit(i).blocks| == |c.blocks|
    ensures Builds(c, c.Def(i)) && c.Def(i).at == c.at && |c.Def(i).blocks| == |c.blocks|
  {
  }

  lemma TerminateTouches(c: Code, t: Terminator)
    requires c.Open()
    ensures Touches(c, c.Terminate(t), {c.at}) && |c.Terminate(t).blocks| == |c.blocks|
    ensures c.Terminate(t).BlockAt(c.at) == Block(c.BlockAt(c.at).instrs, Some(t))
  {
  }

  // The block is closed, and the insertion point moves on.
  lemma LeaveTouches(c: Code, t: Terminator, b: nat)
    requires c.Open()
    ensures var c' := c.Terminate(t).MoveTo(b);
            && Touches(c, c', {c.at}) && |c'.blocks| == |c.blocks| && c'.regs == c.regs
            && c'.BlockAt(c.at) == Block(c.BlockAt(c.at).instrs, Some(t))
    ensures var c' := Enter(c.Terminate(t), b);
            && Touches(c, c', {c.at}) && |c'.blocks| == |c.blocks| && c'.regs == c.regs
            && c'.BlockAt(c.at) == Block(c.BlockAt(c.at).instrs, Some(t))
  {
  }

  // Blocks that are new are empty; moving and placing touch nothing.
  lemma ThreeBlocksTouches(c: Code)
    ensures var c' := ThreeBlocks(c);
            && Touches(c, c', {}) && |c'.blocks| == |c.blocks| + 3 && c'.at == c.at && c'.regs == c.regs
            && c'.BlockAt(|c.blocks|) == c'.BlockAt(|c.blocks| + 1) == c'.BlockAt(|c.blocks| + 2) == Block([], None)
  {
  }

  lemma BuildsTrans(c: Code, c1: Code, c2: Code)
    requires Builds(c, c1) && Builds(c1, c2)
    ensures Builds(c, c2)
  {
    TouchesTrans(c, c1, c2, {c.at}, {c1.at});
  }

  lemma YieldBuilds(c: Code, i: Instr)
    requires c.Open()
    ensures var p := Yield(c, i);
            Builds(c, p.c) && Known(p.v, p.c) && p.c.at == c.at && |p.c.blocks| == |c.blocks| && p.c.regs == c.regs + 1
  {
    EmitTouches(c, i);
  }

  lemma RelationBuilds(c: Code, pred: Predicate, a: Operand, b: Operand)
    requires c.Open()
    ensures var p := Relation(c, pred, a, b); Builds(c, p.c) && Known(p.v, p.c)
  {
    hide Touches, Grown;
    var t := Test(c, pred, a, b);
    YieldBuilds(c, ICmp(c.regs, pred, a, b));
    YieldBuilds(t.c, ZExt(t.c.regs, t.v));
    BuildsTrans(c, t.c, Relation(c, pred, a, b).c);
  }

  lemma GenOpBuilds(op: BinaryOp, c: Code, a: Operand, b: Operand)
    requires c.Open()
    ensures var p := GenOp(op, c, a, b); Builds(c, p.c) && Known(p.v, p.c)
  {
    hide Builds, Relation;
    match op
    case Add => YieldBuilds(c, Binary(c.regs, IAdd, a, b));
    case Sub => YieldBuilds(c, Binary(c.regs, ISub, a, b));
    case Mul => YieldBuilds(c, Binary(c.regs, IMul, a, b));
    case Div => YieldBuilds(c, Binary(c.regs, SDiv, a, b));
    case Mod => YieldBuilds(c, Binary(c.regs, SRem, a, b));
    case And => YieldBuilds(c, Binary(c.regs, BitAnd, a, b));
    case Or => YieldBuilds(c, Binary(c.regs, BitOr, a, b));
    case Lt => RelationBuilds(c, SLT, a, b);
    case Gt => RelationBuilds(c, SGT, a, b);
    case Le => RelationBuilds(c, SLE, a, b);
    case Ge => RelationBuilds(c, SGE, a, b);
    case Eq => RelationBuilds(c, EQ, a, b);
    case Ne => RelationBuilds(c, NE, a, b);
  }

  // ----- two branches that meet again -----

  // The block the condition ends in is closed, and three empty blocks follow.
  lemma SplitTouches(p: Piece)
    requires p.c.Open()
    ensures var s, n := Split(p), |p.c.blocks|;
            && |s.blocks| == n + 3 && Touches(p.c, s, {p.c.at}) && s.BlockAt(p.c.at).term.Some?
            && s.BlockAt(n) == s.BlockAt(n + 1) == s.BlockAt(n + 2) == EMPTY
  {
    var k := Test(p.c, NE, p.v, Const(0));
    var n := |k.c.blocks|;
    YieldBuilds(p.c, ICmp(p.c.regs, NE, p.v, Const(0)));
    ThreeBlocksTouches(k.c);
    TerminateTouches(ThreeBlocks(k.c), CondBr(k.v, n, n + 1));
    TouchesTrans(p.c, k.c, ThreeBlocks(k.c), {p.c.at}, {});
    TouchesTrans(p.c, ThreeBlocks(k.c), Split(p), {p.c.at}, {p.c.at});
  }

  // From the end of one branch to the start of an empty block that was made before it.
  lemma NextBranch(s: Code, t: Code, target: nat, b: nat)
    requires Builds(s, t) && b < |s.blocks| && b != s.at && s.BlockAt(b) == EMPTY
    ensures var c := Enter(t.Terminate(Br(target)), b);
            && c.Open() && c.at == b && c.BlockAt(b) == EMPTY
            && Touches(s, c, {s.at}) && |c.blocks| == |t.blocks| && Touches(t, c, {t.at})
            && c.BlockAt(t.at).term == Some(Br(target))
            && forall b': nat | b' < |s.blocks| && b' != s.at :: c.BlockAt(b') == s.BlockAt(b')
  {
    assert t.BlockAt(b) == EMPTY;
    TerminateTouches(t, Br(target));
    TouchesTrans(s, t, t.Terminate(Br(target)), {s.at}, {t.at});
  }

  lemma SplitSize(p: Piece)
    ensures |Split(p).blocks| == |p.c.blocks| + 3
  {
  }

  lemma ThenOpen(c: Code, p: Piece)
    requires Builds(c, p.c)
    ensures Split(p).MoveTo(|p.c.blocks|).Open()
  {
    hide Split;
    SplitTouches(p);
  }

  lemma ElseOpen(c: Code, p: Piece, t: Code)
    requires Builds(c, p.c) && Builds(Split(p).MoveTo(|p.c.blocks|), t)
    ensures Enter(t.Terminate(Br(|p.c.blocks| + 2)), |p.c.blocks| + 1).Open()
  {
    hide Split;
    SplitTouches(p);
    NextBranch(Split(p).MoveTo(|p.c.blocks|), t, |p.c.blocks| + 2, |p.c.blocks| + 1);
  }

  lemma BranchBuilds(c: Code, p: Piece, t: Code, f: Code)
    requires Builds(c, p.c)
    requires var s := Split(p); Builds(s.MoveTo(|p.c.blocks|), t)
    requires Builds(Enter(t.Terminate(Br(|p.c.blocks| + 2)), |p.c.blocks| + 1), f)
    ensures Builds(c, Enter(f.Terminate(Br(|p.c.blocks| + 2)), |p.c.blocks| + 2))
    ensures Enter(f.Terminate(Br(|p.c.blocks| + 2)), |p.c.blocks| + 2).BlockAt(|p.c.blocks| + 2) == EMPTY
  {
    var s, n := Split(p).MoveTo(|p.c.blocks|), |p.c.blocks|;
    SplitTouches(p);
    var c1 := Enter(t.Terminate(Br(n + 2)), n + 1);
    NextBranch(s, t, n + 2, n + 1);
    var c2 := Enter(f.Terminate(Br(n + 2)), n + 2);
    assert c1.BlockAt(n + 2) == EMPTY;
    NextBranch(c1, f, n + 2, n + 2);
    TouchesTrans(c, p.c, s, {c.at}, {p.c.at});
    TouchesTrans(c, s, c1, {c.at}, {n});
    TouchesTrans(c, c1, c2, {c.at}, {n + 1});
  }

  // ----- the fixed parts of the other schemes -----

  lemma ForkTouches(c: Code, t: Terminator, b: nat)
    requires c.Open()
    ensures var c', n := Fork(c, t).MoveTo(b), |c.blocks|;
            && |c'.blocks| == n + 3 && Touches(c, c', {c.at}) && c'.BlockAt(c.at).term == Some(t)
            && c'.BlockAt(n) == c'.BlockAt(n + 1) == c'.BlockAt(n + 2) == EMPTY && c'.regs == c.regs
  {
  }

  lemma CheckBoundsBuilds(c: Code, p: Operand, length: Operand, i: Operand)
    requires c.Open()
    ensures var q := CheckBounds(c, p, length, i);
            && Builds(c, q.c) && Known(q.v, q.c) && q.c.at >= |c.blocks| + 2
            && q.c.BlockAt(q.c.at) == EMPTY
  {
    hide Grown;
    var neg := Test(c, SLT, i, Const(0));
    YieldBuilds(c, ICmp(c.regs, SLT, i, Const(0)));
    var large := Test(neg.c, SGE, i, length);
    YieldBuilds(neg.c, ICmp(neg.c.regs, SGE, i, length));
    var out := Arith(large.c, BitOr, neg.v, large.v);
    YieldBuilds(large.c, Binary(large.c.regs, BitOr, neg.v, large.v));
    BuildsTrans(c, neg.c, large.c);
    BuildsTrans(c, large.c, out.c);
    var inB := |out.c.blocks|;
    var t := CondBr(out.v, inB + 1, inB);
    ForkTouches(out.c, t, inB + 1);
    var c2 := Fork(out.c, t).MoveTo(inB + 1);
    TouchesTrans(c, out.c, c2, {c.at}, {out.c.at});
    var e := c2.Emit(CallError(Const(0)));
    EmitTouches(c2, CallError(Const(0)));
    LeaveTouches(e, Unreachable, inB);
    var c3 := e.Terminate(Unreachable).MoveTo(inB);
    TouchesTrans(c2, e, c3, {inB + 1}, {inB + 1});
    TouchesTrans(c, c2, c3, {c.at}, {inB + 1});
    CheckBoundsEnd(c, c3, p, i);
  }

  lemma CheckBoundsEnd(c: Code, c3: Code, p: Operand, i: Operand)
    requires Touches(c, c3, {c.at}) && c3.at >= |c.blocks| && c3.at + 2 < |c3.blocks|
    requires c3.BlockAt(c3.at) == EMPTY && c3.BlockAt(c3.at + 2) == EMPTY
    ensures var j := Arith(c3, IAdd, i, Const(1));
            var q := At(j.c, p, j.v);
            var c' := q.c.Terminate(Br(c3.at + 2)).MoveTo(c3.at + 2);
            Builds(c, c') && Known(q.v, c') && c'.BlockAt(c'.at) == EMPTY
  {
    hide Grown;
    var j := Arith(c3, IAdd, i, Const(1));
    YieldBuilds(c3, Binary(c3.regs, IAdd, i, Const(1)));
    var q := At(j.c, p, j.v);
    YieldBuilds(j.c, Gep(j.c.regs, p, j.v));
    BuildsTrans(c3, j.c, q.c);
    LeaveTouches(q.c, Br(c3.at + 2), c3.at + 2);
    var c' := q.c.Terminate(Br(c3.at + 2)).MoveTo(c3.at + 2);
    TouchesTrans(c3, q.c, c', {c3.at}, {c3.at});
    TouchesTrans(c, c3, c', {c.at}, {c3.at});
  }

  lemma FillStartBuilds(n: Piece)
    requires n.c.Open() && Known(n.v, n.c)
    ensures var l := FillStart(n);
            && Touches(n.c, l.start, {n.c.at}) && l.start.at >= |n.c.blocks| && |l.start.blocks| == l.start.at + 3
            && l.start.BlockAt(l.start.at) == l.start.BlockAt(l.start.at + 1) == EMPTY
            && l.start.BlockAt(l.start.at + 2) == EMPTY
            && Known(l.arr, l.start) && Known(l.index, l.start)
  {
    hide Grown;
    var items := Arith(n.c, IAdd, n.v, Const(1));
    YieldBuilds(n.c, Binary(n.c.regs, IAdd, n.v, Const(1)));
    var p := NewWords(items.c, items.v);
    YieldBuilds(items.c, Calloc(items.c.regs, items.v));
    BuildsTrans(n.c, items.c, p.c);
    var s := p.c.Emit(Store(n.v, p.v));
    EmitTouches(p.c, Store(n.v, p.v));
    BuildsTrans(n.c, p.c, s);
    var index := Yield(s, Alloca(s.regs));
    YieldBuilds(s, Alloca(s.regs));
    BuildsTrans(n.c, s, index.c);
    var c1 := index.c.Emit(Store(Const(1), index.v));
    EmitTouches(index.c, Store(Const(1), index.v));
    BuildsTrans(n.c, index.c, c1);
    ForkTouches(c1, Br(|c1.blocks|), |c1.blocks|);
    TouchesTrans(n.c, c1, FillStart(n).start, {n.c.at}, {c1.at});
  }

  // A loop header: load, compare, and branch to one of the two blocks behind it.
  lemma LoopTestTouches(c: Code, c2: Code, p: Operand, pred: Predicate, end: Operand, b: nat)
    requires Touches(c, c2, {c.at}) && c2.at >= |c.blocks| && c2.at + 2 < |c2.blocks| && c2.Open()
    ensures var c' := LoopTest(c2, p, pred, end);
            && Touches(c, c', {c.at}) && Touches(c2, c', {c2.at}) && |c'.blocks| == |c2.blocks| && c'.at == c2.at
            && c'.regs == c2.regs + 2 && c'.BlockAt(c2.at).term.Some?
            && Touches(c, Enter(c', b), {c.at}) && Touches(c2, Enter(c', b), {c2.at})
            && Touches(c, c'.MoveTo(b), {c.at}) && Touches(c2, c'.MoveTo(b), {c2.at})
  {
    hide Grown;
    var x := LoadFrom(c2, p);
    YieldBuilds(c2, Load(c2.regs, p));
    var t := Test(x.c, pred, x.v, end);
    YieldBuilds(x.c, ICmp(x.c.regs, pred, x.v, end));
    BuildsTrans(c2, x.c, t.c);
    var d := CondBr(t.v, c2.at + 1, c2.at + 2);
    TerminateTouches(t.c, d);
    LeaveTouches(t.c, d, b);
    var c' := t.c.Terminate(d);
    TouchesTrans(c2, t.c, c', {c2.at}, {c2.at});
    TouchesTrans(c2, t.c, Enter(c', b), {c2.at}, {c2.at});
    TouchesTrans(c2, t.c, c'.MoveTo(b), {c2.at}, {c2.at});
    TouchesTrans(c, c2, c', {c.at}, {c2.at});
    TouchesTrans(c, c2, Enter(c', b), {c.at}, {c2.at});
    TouchesTrans(c, c2, c'.MoveTo(b), {c.at}, {c2.at});
  }

  lemma FillBodyBuilds(n: Piece)
    requires n.c.Open() && Known(n.v, n.c)
    ensures var l, b := FillStart(n), FillBody(n);
            && Touches(n.c, b, {n.c.at}) && Touches(l.start, b, {l.start.at}) && b.Open() && b.at == l.start.at + 1
            && b.BlockAt(b.at) == b.BlockAt(b.at + 1) == EMPTY && b.at + 1 < |b.blocks| && b.at > |n.c.blocks|
            && Known(l.arr, b) && Known(l.index, b) && Known(n.v, b) && Known(FillCounter(n), b)
            && n.c.regs <= l.start.regs <= b.regs
  {
    hide Grown, FillStart;
    FillStartBuilds(n);
    var l := FillStart(n);
    LoopTestTouches(n.c, l.start, l.index, SLE, n.v, l.start.at + 1);
  }

  // From the end of a loop's body back to its header, and on in its exit block.
  lemma LoopBuilds(c: Code, h: Code, u: Code, header: nat, exit: nat)
    requires Touches(c, h, {c.at}) && h.at >= |c.blocks| && Builds(h, u)
    requires |c.blocks| <= exit < |h.blocks| && exit != h.at && h.BlockAt(exit) == EMPTY
    ensures var c' := Enter(u.Terminate(Br(header)), exit);
            Builds(c, c') && c'.BlockAt(exit) == EMPTY && Builds(c, c'.Emit(Nop))
    ensures var c' := u.Terminate(Br(header)).MoveTo(exit);
            Builds(c, c') && c'.BlockAt(exit) == EMPTY
  {
    NextBranch(h, u, header, exit);
    var c' := Enter(u.Terminate(Br(header)), exit);
    TouchesTrans(c, h, c', {c.at}, {h.at});
    EmitTouches(c', Nop);
    BuildsTrans(c, c', c'.Emit(Nop));
  }

  lemma FillNextBuilds(n: Piece, el: Piece)
    requires n.c.Open() && Known(n.v, n.c) && Builds(FillBody(n), el.c)
    ensures var l := FillStart(n);
            var q := At(el.c, l.arr, FillCounter(n));
            && Builds(el.c, FillNext(n, el)) && Builds(FillBody(n), FillNext(n, el))
            && Builds(q.c.Emit(Store(el.v, q.v)), FillNext(n, el)) && Builds(el.c, q.c.Emit(Store(el.v, q.v)))
            && Builds(q.c, FillNext(n, el))
  {
    hide Grown, FillStart, FillBody, Touches;
    var l, b := FillStart(n), FillBody(n);
    BuildsRefl(el.c);
    var q := At(el.c, l.arr, FillCounter(n));
    ThenYield(el.c, el.c, Gep(el.c.regs, l.arr, FillCounter(n)));
    var c1 := q.c.Emit(Store(el.v, q.v));
    ThenEmit(el.c, q.c, Store(el.v, q.v));
    BuildsRefl(q.c);
    ThenEmit(q.c, q.c, Store(el.v, q.v));
    var i := Arith(c1, IAdd, FillCounter(n), Const(1));
    BuildsRefl(c1);
    ThenYield(c1, c1, Binary(c1.regs, IAdd, FillCounter(n), Const(1)));
    ThenEmit(c1, i.c, Store(i.v, l.index));
    BuildsTrans(el.c, c1, FillNext(n, el));
    BuildsTrans(q.c, c1, FillNext(n, el));
    BuildsTrans(b, el.c, FillNext(n, el));
  }

  lemma FillTailBuilds(n: Piece, el: Piece)
    requires n.c.Open() && Known(n.v, n.c) && Builds(FillBody(n), el.c)
    ensures var x := FillEnd(n, el);
            var r := AsInt(x, FillStart(n).arr);
            Builds(n.c, x) && x.BlockAt(x.at) == EMPTY && Builds(n.c, r.c) && Known(r.v, r.c)
  {
    hide Grown, FillStart, FillBody, FillNext;
    FillStartBuilds(n);
    FillBodyBuilds(n);
    FillNextBuilds(n, el);
    var l, b, c2 := FillStart(n), FillBody(n), FillNext(n, el);
    LoopBuilds(n.c, b, c2, l.start.at, l.start.at + 2);
    ThenYield(n.c, FillEnd(n, el), PtrToInt(FillEnd(n, el).regs, l.arr));
  }

  // ----- expressions -----

  lemma {:induction false} GenBuilds(e: Expr, c: Code, names: Names)
    requires c.Open()
    ensures var p := Gen(e, c, names); Builds(c, p.c) && Known(p.v, p.c)
    decreases e, 1
  {
    hide Builds, GenOp, FillBody, FillStart, FillEnd, GenElement;
    BuildsRefl(c);
    match e
    case NumberExpr(_) =>
    case BoolExpr(_) =>
    case VariableExpr(x) =>
      if x in names { YieldBuilds(c, Load(c.regs, Slot(names[x]))); }
    case BinaryExpr(op, left, right) =>
      var l := Gen(left, c, names);
      ThenGen(c, c, left, names);
      var r := Gen(right, l.c, names);
      ThenGen(c, l.c, right, names);
      OpenOf(c, r.c);
      GenOpBuilds(op, r.c, l.v, r.v);
      BuildsTrans(c, r.c, GenOp(op, r.c, l.v, r.v).c);
    case NotExpr(arg) =>
      var a := Gen(arg, c, names);
      ThenGen(c, c, arg, names);
      ThenYield(c, a.c, Binary(a.c.regs, BitXor, a.v, Const(1)));
    case NegExpr(arg) =>
      var a := Gen(arg, c, names);
      ThenGen(c, c, arg, names);
      ThenYield(c, a.c, Binary(a.c.regs, ISub, Const(0), a.v));
    case TernaryExpr(_, _, _) => TernaryBuilds(e, c, names);
    case ArrayExpr(es) => ArrayBuilds(e, c, names);
    case ArrayOfExpr(e1, e2) =>
      var n := Gen(e1, c, names);
      ThenGen(c, c, e1, names);
      OpenOf(c, n.c);
      FillBodyBuilds(n);
      GenBuilds(e2, FillBody(n), names);
      FillTailBuilds(n, Gen(e2, FillBody(n), names));
      BuildsTrans(c, n.c, Gen(e, c, names).c);
    case ArrayLenExpr(ptr) =>
      ThenGen(c, c, ptr, names);
      PointerLoadBuilds(c, Gen(ptr, c, names));
    case IndexingExpr(_, _) =>
      GenElementBuilds(e, c, names);
      var p := GenElement(e, c, names);
      ThenYield(c, p.c, Load(p.c.regs, p.v));
    case AllocExpr(init) =>
      var a := Gen(init, c, names);
      ThenGen(c, c, init, names);
      AllocBuilds(c, a);
    case DeRefExpr(ptr) =>
      ThenGen(c, c, ptr, names);
      PointerLoadBuilds(c, Gen(ptr, c, names));
  }

  // One expression after another.
  lemma {:induction false} ThenGen(c: Code, c1: Code, e: Expr, names: Names)
    requires Builds(c, c1)
    ensures var p := Gen(e, c1, names); Builds(c1, p.c) && Builds(c, p.c) && Known(p.v, p.c)
    decreases e, 2
  {
    hide Builds, Gen;
    OpenOf(c, c1);
    GenBuilds(e, c1, names);
    BuildsTrans(c, c1, Gen(e, c1, names).c);
  }

  lemma OpenOf(c: Code, c1: Code)
    requires Builds(c, c1)
    ensures c1.Open()
  {
  }

  lemma AllocBuilds(c: Code, a: Piece)
    requires Builds(c, a.c)
    ensures var p := NewWords(a.c, Const(1));
            var q := AsInt(p.c.Emit(Store(a.v, p.v)), p.v);
            Builds(c, q.c) && Known(q.v, q.c)
  {
    hide Builds;
    var p := NewWords(a.c, Const(1));
    ThenYield(c, a.c, Calloc(a.c.regs, Const(1)));
    var c1 := p.c.Emit(Store(a.v, p.v));
    ThenEmit(c, p.c, Store(a.v, p.v));
    ThenYield(c, c1, PtrToInt(c1.regs, p.v));
  }

  lemma {:induction false} ArrayBuilds(e: Expr, c: Code, names: Names)
    requires c.Open() && e.ArrayExpr?
    ensures var p := Gen(e, c, names); Builds(c, p.c) && Known(p.v, p.c)
    decreases e, 0
  {
    hide Builds, GenItems;
    var es := e.elements;
    var n := Const(|es| + 1);
    var p := NewWords(c, n);
    YieldBuilds(c, Calloc(c.regs, n));
    var c1 := p.c.Emit(Store(Const(|es|), p.v));
    ThenEmit(c, p.c, Store(Const(|es|), p.v));
    var c2 := GenItems(es, 0, p.v, c1, names);
    OpenOf(c, c1);
    GenItemsBuilds(es, 0, p.v, c1, names);
    BuildsTrans(c, c1, c2);
    ThenYield(c, c2, PtrToInt(c2.regs, p.v));
  }

  lemma BuildsRefl(c: Code)
    requires c.Open()
    ensures Builds(c, c)
  {
  }

  lemma ThenYield(c: Code, c1: Code, i: Instr)
    requires Builds(c, c1)
    ensures Builds(c, Yield(c1, i).c) && Known(Yield(c1, i).v, Yield(c1, i).c)
  {
    hide Touches;
    YieldBuilds(c1, i);
    BuildsTrans(c, c1, Yield(c1, i).c);
  }

  lemma PointerLoadBuilds(c: Code, a: Piece)
    requires Builds(c, a.c)
    ensures var p := AsPointer(a.c, a.v);
            var l := LoadFrom(p.c, p.v);
            Builds(c, p.c) && Known(p.v, p.c) && Builds(c, l.c) && Known(l.v, l.c)
  {
    hide Touches;
    var p := AsPointer(a.c, a.v);
    ThenYield(c, a.c, IntToPtr(a.c.regs, a.v));
    ThenYield(c, p.c, Load(p.c.regs, p.v));
  }

  lemma {:induction false} TernaryBuilds(e: Expr, c: Code, names: Names)
    requires c.Open() && e.TernaryExpr?
    ensures var p := Gen(e, c, names); Builds(c, p.c) && Known(p.v, p.c)
    decreases e, 0
  {
    hide Builds, Split;
    var p := Gen(e.condition, c, names);
    GenBuilds(e.condition, c, names);
    var s, n := Split(p), |p.c.blocks|;
    SplitSize(p);
    ThenOpen(c, p);
    var t := Gen(e.thenE, s.MoveTo(n), names);
    GenBuilds(e.thenE, s.MoveTo(n), names);
    ElseOpen(c, p, t.c);
    var c1 := Enter(t.c.Terminate(Br(n + 2)), n + 1);
    var f := Gen(e.elseE, c1, names);
    GenBuilds(e.elseE, c1, names);
    BranchBuilds(c, p, t.c, f.c);
    var c2 := Enter(f.c.Terminate(Br(n + 2)), n + 2);
    ThenYield(c, c2, Phi(c2.regs, [(t.v, t.c.at), (f.v, f.c.at)]));
  }

  lemma {:induction false} GenItemsBuilds(es: seq<Expr>, i: nat, p: Operand, c: Code, names: Names)
    requires c.Open()
    ensures Builds(c, GenItems(es, i, p, c, names))
    decreases es, if i < |es| then |es| - i else 0
  {
    hide Touches, Grown;
    if i >= |es| {
      BuildsRefl(c);
    } else {
      var el := Gen(es[i], c, names);
      GenBuilds(es[i], c, names);
      var q := At(el.c, p, Const(i + 1));
      ThenYield(c, el.c, Gep(el.c.regs, p, Const(i + 1)));
      var c1 := q.c.Emit(Store(el.v, q.v));
      EmitTouches(q.c, Store(el.v, q.v));
      BuildsTrans(c, q.c, c1);
      GenItemsBuilds(es, i + 1, p, c1, names);
      BuildsTrans(c, c1, GenItems(es, i, p, c, names));
    }
  }

  lemma {:induction false} GenElementBuilds(e: Expr, c: Code, names: Names)
    requires c.Open() && e.IndexingExpr?
    ensures var p := GenElement(e, c, names);
            Builds(c, p.c) && Known(p.v, p.c) && p.c.at >= |c.blocks| + 2 && p.c.BlockAt(p.c.at) == EMPTY
    decreases e, 0
  {
    hide Touches, Grown, CheckBounds;
    var a := Gen(e.arr, c, names);
    GenBuilds(e.arr, c, names);
    PointerLoadBuilds(c, a);
    var p := AsPointer(a.c, a.v);
    var l := LoadFrom(p.c, p.v);
    var i := Gen(e.idx, l.c, names);
    GenBuilds(e.idx, l.c, names);
    BuildsTrans(c, l.c, i.c);
    CheckBoundsBuilds(i.c, p.v, l.v, i.v);
    BuildsTrans(c, i.c, CheckBounds(i.c, p.v, l.v, i.v).c);
    MoreBlocks(c, i.c);
  }

  lemma MoreBlocks(c: Code, c': Code)
    requires Builds(c, c')
    ensures |c.blocks| <= |c'.blocks| && c.regs <= c'.regs
  {
  }

  lemma GenTargetBuilds(e: Expr, c: Code, names: Names)
    requires c.Open()
    ensures var p := GenTarget(e, c, names); Builds(c, p.c) && Known(p.v, p.c)
  {
    hide Touches, Grown, GenElement;
    BuildsRefl(c);
    match e
    case IndexingExpr(_, _) =>
      var p := GenElement(e, c, names);
      GenElementBuilds(e, c, names);
      ThenYield(c, p.c, Phi(p.c.regs, [(p.v, p.c.at - 2)]));
    case DeRefExpr(ptr) =>
      var a := Gen(ptr, c, names);
      ThenGen(c, c, ptr, names);
      ThenYield(c, a.c, IntToPtr(a.c.regs, a.v));
    case _ =>
  }

  // ----- statements -----

  lemma ThenEmit(c: Code, c1: Code, i: Instr)
    requires Builds(c, c1)
    ensures Builds(c, c1.Emit(i))
  {
    hide Touches;
    EmitTouches(c1, i);
    BuildsTrans(c, c1, c1.Emit(i));
  }

  lemma {:induction false} GenStmtBuilds(st: Stmt, c: Code, names: Names)
    requires c.Open()
    ensures Builds(c, GenStmt(st, c, names))
    decreases st, 1
  {
    hide Touches, Grown, GenTarget;
    match st
    case AssignStmt(lhs, rhs) =>
      var p := GenTarget(lhs, c, names);
      GenTargetBuilds(lhs, c, names);
      var v := Gen(rhs, p.c, names);
      ThenGen(c, p.c, rhs, names);
      ThenEmit(c, v.c, Store(v.v, p.v));
    case UpdateStmt(target, increment) =>
      var p := GenTarget(target, c, names);
      GenTargetBuilds(target, c, names);
      var v := LoadFrom(p.c, p.v);
      ThenYield(c, p.c, Load(p.c.regs, p.v));
      var w := Arith(v.c, if increment then IAdd else ISub, v.v, Const(1));
      ThenYield(c, v.c, Binary(v.c.regs, if increment then IAdd else ISub, v.v, Const(1)));
      ThenEmit(c, w.c, Store(w.v, p.v));
    case BlockStmt(ss) => if ss == [] { EmitTouches(c, Nop); } else { GenStmtsBuilds(ss, 0, c, names); }
    case IfStmt(_, _, _) => IfBuilds(st, c, names);
    case WhileStmt(_, _) => WhileBuilds(st, c, names);
    case ForRangeStmt(_, _, _, _, _) => RangeBuilds(st, c, names);
    case ForEachStmt(_, _, _) => EachBuilds(st, c, names);
    case OutputStmt(arg) =>
      var a := Gen(arg, c, names);
      GenBuilds(arg, c, names);
      ThenEmit(c, a.c, CallOutput(a.v));
    case ErrorStmt(arg) =>
      var a := Gen(arg, c, names);
      GenBuilds(arg, c, names);
      ThenEmit(c, a.c, CallError(a.v));
  }

  lemma {:induction false} GenStmtsBuilds(ss: seq<Stmt>, i: nat, c: Code, names: Names)
    requires c.Open()
    ensures Builds(c, GenStmts(ss, i, c, names))
    decreases ss, if i < |ss| then |ss| - i else 0
  {
    hide Touches, Grown, GenStmt;
    if i >= |ss| {
      BuildsRefl(c);
    } else {
      var c1 := GenStmt(ss[i], c, names);
      GenStmtBuilds(ss[i], c, names);
      GenStmtsBuilds(ss, i + 1, c1, names);
      BuildsTrans(c, c1, GenStmts(ss, i, c, names));
    }
  }

  lemma {:induction false} IfBuilds(st: Stmt, c: Code, names: Names)
    requires c.Open() && st.IfStmt?
    ensures Builds(c, GenStmt(st, c, names))
    decreases st, 0
  {
    hide Builds, Gen, Split;
    var p := Gen(st.condition, c, names);
    GenBuilds(st.condition, c, names);
    var s, n := Split(p), |p.c.blocks|;
    SplitSize(p);
    ThenOpen(c, p);
    var t := GenStmt(st.thenS, s.MoveTo(n), names);
    GenStmtBuilds(st.thenS, s.MoveTo(n), names);
    ElseOpen(c, p, t);
    var c1 := Enter(t.Terminate(Br(n + 2)), n + 1);
    var f := if st.elseS.Some? then GenStmt(st.elseS.value, c1, names) else c1.Emit(Nop);
    if st.elseS.Some? { GenStmtBuilds(st.elseS.value, c1, names); } else { EmitTouches(c1, Nop); }
    BranchBuilds(c, p, t, f);
    ThenEmit(c, Enter(f.Terminate(Br(n + 2)), n + 2), Nop);
  }

  // Three new blocks, and a jump to the first of them.
  lemma HeaderTouches(c: Code)
    requires c.Open()
    ensures var n := |c.blocks|;
            var h := ThreeBlocks(c).Terminate(Br(n)).MoveTo(n);
            && Touches(c, h, {c.at}) && h.Open() && h.at == n && |h.blocks| == n + 3 && h.regs == c.regs
            && h.BlockAt(n) == h.BlockAt(n + 1) == h.BlockAt(n + 2) == EMPTY && h.BlockAt(c.at).term == Some(Br(n))
  {
  }

  lemma {:induction false} WhileBuilds(st: Stmt, c: Code, names: Names)
    requires c.Open() && st.WhileStmt?
    ensures Builds(c, GenStmt(st, c, names))
    decreases st, 0
  {
    hide Touches, Grown, Gen;
    var n := |c.blocks|;
    var h := ThreeBlocks(c).Terminate(Br(n)).MoveTo(n);
    HeaderTouches(c);
    var k := Gen(st.condition, h, names);
    GenBuilds(st.condition, h, names);
    MoreBlocks(h, k.c);
    WhileTestTouches(c, h, k);
    var t := Test(k.c, NE, k.v, Const(0));
    var c1 := Enter(t.c.Terminate(CondBr(t.v, n + 1, n + 2)), n + 1);
    var u := GenStmt(st.body, c1, names);
    GenStmtBuilds(st.body, c1, names);
    LoopEndBuilds(c, c1, u, n);
  }

  lemma WhileTestTouches(c: Code, h: Code, k: Piece)
    requires Touches(c, h, {c.at}) && h.at == |c.blocks| && |h.blocks| == h.at + 3 && Builds(h, k.c)
    requires h.BlockAt(h.at + 1) == h.BlockAt(h.at + 2) == EMPTY
    ensures var t := Test(k.c, NE, k.v, Const(0));
            var c1 := Enter(t.c.Terminate(CondBr(t.v, h.at + 1, h.at + 2)), h.at + 1);
            && Touches(c, c1, {c.at}) && c1.Open() && c1.BlockAt(h.at + 1) == c1.BlockAt(h.at + 2) == EMPTY
            && Touches(k.c, c1, {k.c.at}) && Builds(h, t.c) && |t.c.blocks| == |k.c.blocks| == |c1.blocks|
  {
    hide Grown;
    var t := Test(k.c, NE, k.v, Const(0));
    YieldBuilds(k.c, ICmp(k.c.regs, NE, k.v, Const(0)));
    BuildsTrans(h, k.c, t.c);
    var b := CondBr(t.v, h.at + 1, h.at + 2);
    LeaveTouches(t.c, b, h.at + 1);
    var c1 := Enter(t.c.Terminate(b), h.at + 1);
    assert t.c.BlockAt(h.at + 1) == t.c.BlockAt(h.at + 2) == EMPTY;
    TouchesTrans(k.c, t.c, c1, {k.c.at}, {t.c.at});
    TouchesTrans(h, t.c, c1, {h.at}, {t.c.at});
    TouchesTrans(c, h, c1, {c.at}, {h.at});
    MoreBlocks(h, t.c);
  }

  // Before a for loop: the target, and the other operands, with the loop's blocks waiting.
  lemma WaitingBuilds(c: Code, c': Code)
    requires c.Open() && Builds(ThreeBlocks(c), c')
    ensures Touches(c, c', {c.at}) && |c'.blocks| >= |c.blocks| + 3
    ensures c'.BlockAt(|c.blocks|) == c'.BlockAt(|c.blocks| + 1) == c'.BlockAt(|c.blocks| + 2) == EMPTY
    ensures c'.at == c.at || c'.at >= |c.blocks| + 3
  {
    ThreeBlocksTouches(c);
    TouchesTrans(c, ThreeBlocks(c), c', {c.at}, {c.at});
  }

  lemma ForHeaderTouches(c: Code, c': Code)
    requires c.Open() && Builds(ThreeBlocks(c), c')
    ensures var n := |c.blocks|;
            var h := c'.Terminate(Br(n)).MoveTo(n);
            && Touches(c, h, {c.at}) && h.Open() && h.BlockAt(n) == h.BlockAt(n + 1) == h.BlockAt(n + 2) == EMPTY
            && |h.blocks| == |c'.blocks| && h.regs == c'.regs && Touches(c', h, {c'.at})
  {
    WaitingBuilds(c, c');
    LeaveTouches(c', Br(|c.blocks|), |c.blocks|);
    TouchesTrans(c, c', c'.Terminate(Br(|c.blocks|)).MoveTo(|c.blocks|), {c.at}, {c'.at});
  }

  lemma RangeHeadTouches(c: Code, c': Code, p: Operand, end: Operand)
    requires c.Open() && Builds(ThreeBlocks(c), c')
    ensures var n := |c.blocks|;
            var h := RangeHead(c', n, p, end);
            && Touches(c, h, {c.at}) && h.Open() && h.at == n + 1 && h.BlockAt(n + 2) == h.BlockAt(n + 1) == EMPTY
            && |h.blocks| == |c'.blocks| && c'.regs <= h.regs
  {
    hide Grown, LoopTest;
    var n := |c.blocks|;
    ForHeaderTouches(c, c');
    WaitingBuilds(c, c');
    LoopTestTouches(c, c'.Terminate(Br(n)).MoveTo(n), p, SLT, end, n + 1);
  }

  lemma RangeNextBuilds(u: Code, p: Operand, step: Operand)
    requires u.Open()
    ensures Builds(u, RangeNext(u, p, step))
  {
    hide Touches, Grown;
    BuildsRefl(u);
    var x := LoadFrom(u, p);
    ThenYield(u, u, Load(u.regs, p));
    var y := Arith(x.c, IAdd, x.v, step);
    ThenYield(u, x.c, Binary(x.c.regs, IAdd, x.v, step));
    ThenEmit(u, y.c, Store(y.v, p));
  }

  lemma LoopEndBuilds(c: Code, h: Code, u: Code, header: nat)
    requires Touches(c, h, {c.at}) && h.at >= |c.blocks| && Builds(h, u)
    requires |c.blocks| <= header && header + 2 < |h.blocks| && header + 2 != h.at && h.BlockAt(header + 2) == EMPTY
    ensures Builds(c, LoopEnd(u, header))
  {
    LoopBuilds(c, h, u, header, header + 2);
  }

  lemma {:induction false} RangeBuilds(st: Stmt, c: Code, names: Names)
    requires c.Open() && st.ForRangeStmt?
    ensures Builds(c, GenStmt(st, c, names))
    decreases st, 0
  {
    hide Touches, Grown, Gen, GenTarget, RangeHead, RangeNext, LoopEnd, ThreeBlocks;
    var n, w := |c.blocks|, ThreeBlocks(c);
    ThreeBlocksTouches(c);
    StillOpen(c);
    var p := GenTarget(st.item, w, names);
    GenTargetBuilds(st.item, w, names);
    var a := Gen(st.start, p.c, names);
    ThenGen(w, p.c, st.start, names);
    var b := Gen(st.end, a.c, names);
    ThenGen(w, a.c, st.end, names);
    var k := if st.step.Some? then Gen(st.step.value, b.c, names) else Piece(b.c, Const(1));
    if st.step.Some? { ThenGen(w, b.c, st.step.value, names); }
    ThenEmit(w, k.c, Store(a.v, p.v));
    var c1 := k.c.Emit(Store(a.v, p.v));
    RangeHeadTouches(c, c1, p.v, b.v);
    WaitingBuilds(c, c1);
    var h := RangeHead(c1, n, p.v, b.v);
    var u := GenStmt(st.body, h, names);
    GenStmtBuilds(st.body, h, names);
    RangeNextBuilds(u, p.v, k.v);
    BuildsTrans(h, u, RangeNext(u, p.v, k.v));
    LoopEndBuilds(c, h, RangeNext(u, p.v, k.v), n);
  }

  lemma StillOpen(c: Code)
    requires c.Open()
    ensures ThreeBlocks(c).Open()
  {
  }

  lemma EachStartTouches(c: Code, a: Piece)
    requires c.Open() && Builds(ThreeBlocks(c), a.c)
    ensures var n, l := |c.blocks|, EachStart(a, |c.blocks|);
            && Touches(c, l.start, {c.at}) && l.start.Open() && l.start.at == n && n + 2 < |l.start.blocks|
            && l.start.BlockAt(n) == l.start.BlockAt(n + 1) == l.start.BlockAt(n + 2) == EMPTY
            && a.c.regs < l.start.regs && Known(l.arr, l.start) && Known(l.index, l.start)
  {
    hide Touches, Grown, ThreeBlocks;
    var n, w := |c.blocks|, ThreeBlocks(c);
    var index := Yield(a.c, Alloca(a.c.regs));
    ThenYield(w, a.c, Alloca(a.c.regs));
    var s := index.c.Emit(Store(Const(1), index.v));
    ThenEmit(w, index.c, Store(Const(1), index.v));
    var arr := AsPointer(s, a.v);
    ThenYield(w, s, IntToPtr(s.regs, a.v));
    var length := LoadFrom(arr.c, arr.v);
    ThenYield(w, arr.c, Load(arr.c.regs, arr.v));
    ForHeaderTouches(c, length.c);
    WaitingBuilds(c, length.c);
  }

  lemma EachBodyTouches(c: Code, a: Piece)
    requires c.Open() && Builds(ThreeBlocks(c), a.c)
    ensures var n, b := |c.blocks|, EachBody(a, |c.blocks|);
            && Touches(c, b, {c.at}) && Touches(EachStart(a, n).start, b, {n}) && b.Open() && b.at == n + 1
            && n + 2 < |b.blocks|
            && b.BlockAt(n + 1) == b.BlockAt(n + 2) == EMPTY && EachStart(a, n).start.regs <= b.regs
  {
    hide Grown, EachStart, ThreeBlocks;
    var n, l := |c.blocks|, EachStart(a, |c.blocks|);
    EachStartTouches(c, a);
    LoopTestTouches(c, l.start, l.index, SLE, EachLength(a, n), n + 1);
  }

  lemma EachHeadTouches(c: Code, a: Piece, p: Operand)
    requires c.Open() && Builds(ThreeBlocks(c), a.c)
    ensures var n, h := |c.blocks|, EachHead(a, |c.blocks|, p);
            && Touches(c, h, {c.at}) && Builds(EachBody(a, n), h) && h.Open() && h.at == n + 1 && n + 2 < |h.blocks|
            && h.BlockAt(n + 2) == EMPTY && EachBody(a, n).regs < h.regs
  {
    hide Grown, EachStart, EachBody, ThreeBlocks;
    var n, b, l := |c.blocks|, EachBody(a, |c.blocks|), EachStart(a, |c.blocks|);
    EachBodyTouches(c, a);
    var cur := LoadFrom(b, l.index);
    YieldBuilds(b, Load(b.regs, l.index));
    var q := At(cur.c, l.arr, cur.v);
    YieldBuilds(cur.c, Gep(cur.c.regs, l.arr, cur.v));
    BuildsTrans(b, cur.c, q.c);
    var x := LoadFrom(q.c, q.v);
    YieldBuilds(q.c, Load(q.c.regs, q.v));
    BuildsTrans(b, q.c, x.c);
    EmitTouches(x.c, Store(x.v, p));
    BuildsTrans(b, x.c, EachHead(a, n, p));
    TouchesTrans(c, b, EachHead(a, n, p), {c.at}, {n + 1});
  }

  lemma EachNextBuilds(u: Code, a: Piece, header: nat)
    requires u.Open()
    ensures Builds(u, EachNext(u, a, header))
  {
    hide Touches, Grown, EachStart, EachBody;
    BuildsRefl(u);
    var n := Arith(u, IAdd, EachCounter(a, header), Const(1));
    ThenYield(u, u, Binary(u.regs, IAdd, EachCounter(a, header), Const(1)));
    ThenEmit(u, n.c, Store(n.v, EachStart(a, header).index));
  }

  lemma {:induction false} EachBuilds(st: Stmt, c: Code, names: Names)
    requires c.Open() && st.ForEachStmt?
    ensures Builds(c, GenStmt(st, c, names))
    decreases st, 0
  {
    hide Touches, Grown, Gen, GenTarget, EachHead, EachNext, EachStart, EachBody, LoopEnd, ThreeBlocks;
    var n, w := |c.blocks|, ThreeBlocks(c);
    StillOpen(c);
    var p := GenTarget(st.item, w, names);
    GenTargetBuilds(st.item, w, names);
    var a := Gen(st.collection, p.c, names);
    ThenGen(w, p.c, st.collection, names);
    var h := EachHead(a, n, p.v);
    EachHeadTouches(c, a, p.v);
    var u := GenStmt(st.body, h, names);
    GenStmtBuilds(st.body, h, names);
    EachNextBuilds(u, a, n);
    BuildsTrans(h, u, EachNext(u, a, n));
    LoopEndBuilds(c, h, EachNext(u, a, n), n);
  }
}
