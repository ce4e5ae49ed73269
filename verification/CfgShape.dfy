/** The blocks that are emitted form a proper control-flow graph. */
module CfgShape {
  import opened TipTypes
  import opened TipLanguage
  import opened Ir
  import opened Emission
  import opened CodeShape
  import opened CfgGrowth

  // ----- expressions -----

  lemma {:induction false} GenFinished(e: Expr, c: Code, names: Names)
    requires c.Open() && JumpsInRange(c)
    ensures Finished(c, Gen(e, c, names).c)
    decreases e, 1
  {
    hide Finished, GenOp, FillBody, FillStart, FillEnd, GenElement, Builds;
    GrowsNot(c);
    match e
    case NumberExpr(_) =>
    case BoolExpr(_) =>
    case VariableExpr(x) => if x in names { FinishedEmit(c, c, Load(c.regs, Slot(names[x]))); }
    case BinaryExpr(op, left, right) =>
      var l := Gen(left, c, names);
      ThenFinished(left, c, c, names);
      var r := Gen(right, l.c, names);
      ThenFinished(right, c, l.c, names);
      GenOpFinished(op, c, r.c, l.v, r.v);
    case NotExpr(arg) =>
      var a := Gen(arg, c, names);
      ThenFinished(arg, c, c, names);
      FinishedEmit(c, a.c, Binary(a.c.regs, BitXor, a.v, Const(1)));
    case NegExpr(arg) =>
      var a := Gen(arg, c, names);
      ThenFinished(arg, c, c, names);
      FinishedEmit(c, a.c, Binary(a.c.regs, ISub, Const(0), a.v));
    case TernaryExpr(_, _, _) => TernaryFinished(e, c, names);
    case ArrayExpr(es) =>
      var p := NewWords(c, Const(|es| + 1));
      FinishedEmit(c, c, Calloc(c.regs, Const(|es| + 1)));
      var c1 := p.c.Emit(Store(Const(|es|), p.v));
      FinishedEmit(c, p.c, Store(Const(|es|), p.v));
      ItemsFinished(es, 0, p.v, c, c1, names);
      var c2 := GenItems(es, 0, p.v, c1, names);
      FinishedEmit(c, c2, PtrToInt(c2.regs, p.v));
    case ArrayOfExpr(e1, e2) =>
      var n := Gen(e1, c, names);
      ThenFinished(e1, c, c, names);
      GenBuilds(e1, c, names);
      AtOpen(c, n.c);
      FillBodyGrows(n);
      FillBodyBuilds(n);
      GenFinished(e2, FillBody(n), names);
      GenBuilds(e2, FillBody(n), names);
      FillFinished(n, Gen(e2, FillBody(n), names));
      FillTailBuilds(n, Gen(e2, FillBody(n), names));
      FinishedTrans(c, n.c, Gen(e, c, names).c);
    case ArrayLenExpr(ptr) =>
      var a := Gen(ptr, c, names);
      ThenFinished(ptr, c, c, names);
      PointerLoadFinished(c, a);
    case IndexingExpr(_, _) =>
      ElementFinished(e, c, names);
      var p := GenElement(e, c, names);
      FinishedEmit(c, p.c, Load(p.c.regs, p.v));
    case AllocExpr(init) =>
      var a := Gen(init, c, names);
      ThenFinished(init, c, c, names);
      var p := NewWords(a.c, Const(1));
      FinishedEmit(c, a.c, Calloc(a.c.regs, Const(1)));
      FinishedEmit(c, p.c, Store(a.v, p.v));
      var c1 := p.c.Emit(Store(a.v, p.v));
      FinishedEmit(c, c1, PtrToInt(c1.regs, p.v));
    case DeRefExpr(ptr) =>
      var a := Gen(ptr, c, names);
      ThenFinished(ptr, c, c, names);
      PointerLoadFinished(c, a);
  }

  lemma {:induction false} ThenFinished(e: Expr, c: Code, c1: Code, names: Names)
    requires Finished(c, c1)
    ensures Finished(c, Gen(e, c1, names).c) && Finished(c1, Gen(e, c1, names).c) && Builds(c1, Gen(e, c1, names).c)
    decreases e, 2
  {
    hide Grows, Gen, Builds;
    AtOpen(c, c1);
    GenFinished(e, c1, names);
    GenBuilds(e, c1, names);
    FinishedTrans(c, c1, Gen(e, c1, names).c);
  }

  lemma PointerLoadFinished(c: Code, a: Piece)
    requires Finished(c, a.c)
    ensures var p := AsPointer(a.c, a.v); Finished(c, p.c) && Finished(c, LoadFrom(p.c, p.v).c)
  {
    hide Finished;
    var p := AsPointer(a.c, a.v);
    FinishedEmit(c, a.c, IntToPtr(a.c.regs, a.v));
    FinishedEmit(c, p.c, Load(p.c.regs, p.v));
  }

  lemma GenOpFinished(op: BinaryOp, c: Code, c1: Code, a: Operand, b: Operand)
    requires Finished(c, c1)
    ensures Finished(c, GenOp(op, c1, a, b).c)
  {
    hide Finished;
    match op
    case Add => FinishedEmit(c, c1, Binary(c1.regs, IAdd, a, b));
    case Sub => FinishedEmit(c, c1, Binary(c1.regs, ISub, a, b));
    case Mul => FinishedEmit(c, c1, Binary(c1.regs, IMul, a, b));
    case Div => FinishedEmit(c, c1, Binary(c1.regs, SDiv, a, b));
    case Mod => FinishedEmit(c, c1, Binary(c1.regs, SRem, a, b));
    case And => FinishedEmit(c, c1, Binary(c1.regs, BitAnd, a, b));
    case Or => FinishedEmit(c, c1, Binary(c1.regs, BitOr, a, b));
    case Lt => RelationFinished(c, c1, SLT, a, b);
    case Gt => RelationFinished(c, c1, SGT, a, b);
    case Le => RelationFinished(c, c1, SLE, a, b);
    case Ge => RelationFinished(c, c1, SGE, a, b);
    case Eq => RelationFinished(c, c1, EQ, a, b);
    case Ne => RelationFinished(c, c1, NE, a, b);
  }

  lemma RelationFinished(c: Code, c1: Code, pred: Predicate, a: Operand, b: Operand)
    requires Finished(c, c1)
    ensures Finished(c, Relation(c1, pred, a, b).c)
  {
    hide Finished;
    var t := Test(c1, pred, a, b);
    FinishedEmit(c, c1, ICmp(c1.regs, pred, a, b));
    FinishedEmit(c, t.c, ZExt(t.c.regs, t.v));
  }

  lemma {:induction false} TernaryFinished(e: Expr, c: Code, names: Names)
    requires c.Open() && JumpsInRange(c) && e.TernaryExpr?
    ensures Finished(c, Gen(e, c, names).c)
    decreases e, 0
  {
    hide Grows, Jumps, Split, Builds, Incoming;
    var p := Gen(e.condition, c, names);
    GenFinished(e.condition, c, names);
    GenBuilds(e.condition, c, names);
    var s, n := Split(p), |p.c.blocks|;
    SplitSize(p);
    ThenOpen(c, p);
    SplitGrows(c, p);
    var t := Gen(e.thenE, s.MoveTo(n), names);
    GenFinished(e.thenE, s.MoveTo(n), names);
    GenBuilds(e.thenE, s.MoveTo(n), names);
    ElseOpen(c, p, t.c);
    ElseGrows(c, p, t.c);
    var c1 := Enter(t.c.Terminate(Br(n + 2)), n + 1);
    var g := Gen(e.elseE, c1, names);
    GenFinished(e.elseE, c1, names);
    GenBuilds(e.elseE, c1, names);
    BranchFinished(c, p, t.c, g.c, t.v, g.v);
    BranchBuilds(c, p, t.c, g.c);
    var c2 := Enter(g.c.Terminate(Br(n + 2)), n + 2);
    MoreBlocks(c, p.c);
    GrowsPhi(c, c2, {c2.at}, {}, [(t.v, t.c.at), (g.v, g.c.at)]);
  }

  lemma {:induction false} ItemsFinished(es: seq<Expr>, i: nat, p: Operand, c: Code, c1: Code, names: Names)
    requires Finished(c, c1)
    ensures Finished(c, GenItems(es, i, p, c1, names))
    decreases es, if i < |es| then |es| - i else 0
  {
    hide Finished;
    if i < |es| {
      var el := Gen(es[i], c1, names);
      ThenFinished(es[i], c, c1, names);
      var q := At(el.c, p, Const(i + 1));
      FinishedEmit(c, el.c, Gep(el.c.regs, p, Const(i + 1)));
      FinishedEmit(c, q.c, Store(el.v, q.v));
      ItemsFinished(es, i + 1, p, c, q.c.Emit(Store(el.v, q.v)), names);
    }
  }

  lemma {:induction false} ElementFinished(e: Expr, c: Code, names: Names)
    requires c.Open() && JumpsInRange(c) && e.IndexingExpr?
    ensures var q := GenElement(e, c, names);
            Finished(c, q.c) && q.c.at >= |c.blocks| && Incoming(q.c, q.c.at, [(q.v, q.c.at - 2)])
    ensures GenElement(e, c, names).c.at >= 2
    decreases e, 0
  {
    hide Finished, Incoming, CheckBounds, Builds;
    GrowsNot(c);
    var a := Gen(e.arr, c, names);
    ThenFinished(e.arr, c, c, names);
    PointerLoadFinished(c, a);
    var p := AsPointer(a.c, a.v);
    var l := LoadFrom(p.c, p.v);
    var i := Gen(e.idx, l.c, names);
    ThenFinished(e.idx, c, l.c, names);
    AtOpen(c, i.c);
    CheckFinished(i.c, p.v, l.v, i.v);
    CheckBoundsBuilds(i.c, p.v, l.v, i.v);
    GenElementBuilds(e, c, names);
    FinishedTrans(c, i.c, CheckBounds(i.c, p.v, l.v, i.v).c);
  }

  lemma TargetFinished(e: Expr, c: Code, names: Names)
    requires c.Open() && JumpsInRange(c)
    ensures Finished(c, GenTarget(e, c, names).c)
  {
    hide Incoming, GenElement, Grows, Builds;
    GrowsNot(c);
    match e
    case IndexingExpr(_, _) =>
      ElementFinished(e, c, names);
      GenElementBuilds(e, c, names);
      var p := GenElement(e, c, names);
      GrowsPhi(c, p.c, {p.c.at}, {}, [(p.v, p.c.at - 2)]);
    case DeRefExpr(ptr) =>
      var a := Gen(ptr, c, names);
      ThenFinished(ptr, c, c, names);
      FinishedEmit(c, a.c, IntToPtr(a.c.regs, a.v));
    case _ =>
  }

  // ----- statements -----

  lemma {:induction false} StmtFinished(st: Stmt, c: Code, names: Names)
    requires c.Open() && JumpsInRange(c)
    ensures Finished(c, GenStmt(st, c, names))
    decreases st, 1
  {
    hide Finished, GenTarget, Builds;
    GrowsNot(c);
    match st
    case AssignStmt(lhs, rhs) =>
      var p := GenTarget(lhs, c, names);
      TargetFinished(lhs, c, names);
      ThenFinished(rhs, c, p.c, names);
      var v := Gen(rhs, p.c, names);
      FinishedEmit(c, v.c, Store(v.v, p.v));
    case UpdateStmt(target, increment) =>
      var op := if increment then IAdd else ISub;
      var p := GenTarget(target, c, names);
      TargetFinished(target, c, names);
      var v := LoadFrom(p.c, p.v);
      FinishedEmit(c, p.c, Load(p.c.regs, p.v));
      var w := Arith(v.c, op, v.v, Const(1));
      FinishedEmit(c, v.c, Binary(v.c.regs, op, v.v, Const(1)));
      FinishedEmit(c, w.c, Store(w.v, p.v));
    case BlockStmt(ss) => if ss == [] { FinishedEmit(c, c, Nop); } else { StmtsFinished(ss, 0, c, c, names); }
    case IfStmt(_, _, _) => IfFinished(st, c, names);
    case WhileStmt(_, _) => WhileFinished(st, c, names);
    case ForRangeStmt(_, _, _, _, _) => RangeFinished(st, c, names);
    case ForEachStmt(_, _, _) => EachFinished(st, c, names);
    case OutputStmt(arg) =>
      ThenFinished(arg, c, c, names);
      FinishedEmit(c, Gen(arg, c, names).c, CallOutput(Gen(arg, c, names).v));
    case ErrorStmt(arg) =>
      ThenFinished(arg, c, c, names);
      FinishedEmit(c, Gen(arg, c, names).c, CallError(Gen(arg, c, names).v));
  }

  lemma {:induction false} StmtsFinished(ss: seq<Stmt>, i: nat, c: Code, c1: Code, names: Names)
    requires Finished(c, c1)
    ensures Finished(c, GenStmts(ss, i, c1, names))
    decreases ss, if i < |ss| then |ss| - i else 0
  {
    hide Grows, GenStmt, Builds;
    if i < |ss| {
      var c2 := GenStmt(ss[i], c1, names);
      AtOpen(c, c1);
      StmtFinished(ss[i], c1, names);
      GenStmtBuilds(ss[i], c1, names);
      FinishedTrans(c, c1, c2);
      StmtsFinished(ss, i + 1, c, c2, names);
    }
  }

  lemma {:induction false} IfFinished(st: Stmt, c: Code, names: Names)
    requires c.Open() && JumpsInRange(c) && st.IfStmt?
    ensures Finished(c, GenStmt(st, c, names))
    decreases st, 0
  {
    hide Grows, Jumps, Split, Builds, Incoming, Gen;
    var p := Gen(st.condition, c, names);
    GenFinished(st.condition, c, names);
    GenBuilds(st.condition, c, names);
    var s, n := Split(p), |p.c.blocks|;
    SplitSize(p);
    ThenOpen(c, p);
    SplitGrows(c, p);
    var t := GenStmt(st.thenS, s.MoveTo(n), names);
    StmtFinished(st.thenS, s.MoveTo(n), names);
    GenStmtBuilds(st.thenS, s.MoveTo(n), names);
    ElseOpen(c, p, t);
    ElseGrows(c, p, t);
    var c1 := Enter(t.Terminate(Br(n + 2)), n + 1);
    var g := if st.elseS.Some? then GenStmt(st.elseS.value, c1, names) else c1.Emit(Nop);
    if st.elseS.Some? {
      StmtFinished(st.elseS.value, c1, names);
      GenStmtBuilds(st.elseS.value, c1, names);
    } else {
      GrowsNot(c1);
      FinishedEmit(c1, c1, Nop);
      EmitTouches(c1, Nop);
    }
    BranchFinished(c, p, t, g, Const(0), Const(0));
    FinishedEmit(c, Enter(g.Terminate(Br(n + 2)), n + 2), Nop);
  }

  lemma HeaderGrows(c: Code)
    requires c.Open() && JumpsInRange(c)
    ensures var n := |c.blocks|;
            var h := ThreeBlocks(c).Terminate(Br(n)).MoveTo(n);
            Grows(c, h, {n, n + 1, n + 2}, {n + 1, n + 2}) && JumpsInRange(h)
  {
    hide Grows, Jumps, Touches;
    var n := |c.blocks|;
    GrowsNot(c);
    ThreeBlocksGrow(c, c, {c.at}, {});
    var w := ThreeBlocks(c);
    var open := {c.at} + {n, n + 1, n + 2};
    assert {} + {n + 1, n + 2} == {n + 1, n + 2};
    GrowsTerminate(c, w, open, {n + 1, n + 2}, Br(n));
    assert open - {w.at} == {n, n + 1, n + 2};
    GrowsMove(c, w.Terminate(Br(n)), {n, n + 1, n + 2}, {n + 1, n + 2}, n);
    GrowsRange(c, w.Terminate(Br(n)).MoveTo(n), {n, n + 1, n + 2}, {n + 1, n + 2});
  }

  lemma {:induction false} WhileFinished(st: Stmt, c: Code, names: Names)
    requires c.Open() && JumpsInRange(c) && st.WhileStmt?
    ensures Finished(c, GenStmt(st, c, names))
    decreases st, 0
  {
    hide Grows, Jumps, Touches, Gen, Builds;
    var n := |c.blocks|;
    var h := ThreeBlocks(c).Terminate(Br(n)).MoveTo(n);
    HeaderTouches(c);
    HeaderGrows(c);
    var k := Gen(st.condition, h, names);
    GenFinished(st.condition, h, names);
    GenBuilds(st.condition, h, names);
    MoreBlocks(h, k.c);
    WhileTestTouches(c, h, k);
    WhileTestGrows(c, h, k);
    var t := Test(k.c, NE, k.v, Const(0));
    var c1 := Enter(t.c.Terminate(CondBr(t.v, n + 1, n + 2)), n + 1);
    GrowsRange(c, c1, {n + 1, n + 2}, {n + 2});
    var u := GenStmt(st.body, c1, names);
    StmtFinished(st.body, c1, names);
    GenStmtBuilds(st.body, c1, names);
    LoopFinished(c, c1, u, n, n + 2);
  }

  // The end of the condition branches to the body, or to the exit; the header has no phi.
  lemma WhileTestGrows(c: Code, h: Code, k: Piece)
    requires Grows(c, h, {h.at, h.at + 1, h.at + 2}, {h.at + 1, h.at + 2}) && h.at == |c.blocks|
    requires Finished(h, k.c) && Builds(h, k.c)
    requires h.BlockAt(h.at) == h.BlockAt(h.at + 1) == h.BlockAt(h.at + 2) == EMPTY
    ensures var t := Test(k.c, NE, k.v, Const(0));
            var c1 := Enter(t.c.Terminate(CondBr(t.v, h.at + 1, h.at + 2)), h.at + 1);
            Grows(c, c1, {h.at + 1, h.at + 2}, {h.at + 2}) && NoPhi(c1.BlockAt(h.at), 0)
  {
    hide Grows, Jumps, Touches;
    var n := h.at;
    var off := {n + 1, n + 2};
    InOpen(c, h, {n, n + 1, n + 2}, off);
    assert n in {n, n + 1, n + 2} && n + 1 in {n, n + 1, n + 2} && n + 2 in {n, n + 1, n + 2};
    var i := ICmp(k.c.regs, NE, k.v, Const(0));
    var t := Test(k.c, NE, k.v, Const(0));
    FinishedEmit(h, k.c, i);
    OpenOf(h, k.c);
    YieldBuilds(k.c, i);
    BuildsTrans(h, k.c, t.c);
    GrowsSub(c, h, t.c, {n, n + 1, n + 2}, off);
    var open := {n, n + 1, n + 2} - {n} + {t.c.at};
    StillEmpty(h, t.c, n + 1);
    StillEmpty(h, t.c, n + 2);
    var d := CondBr(t.v, n + 1, n + 2);
    GrowsTerminate(c, t.c, open, off, d);
    assert open - {t.c.at} == {n + 1, n + 2};
    var t' := t.c.Terminate(d);
    TermAt(t.c);
    GrowsPlace(c, t', {n + 1, n + 2}, off, n + 1);
    assert off - {n + 1} == {n + 2};
    GrowsMove(c, t'.Place(n + 1), {n + 1, n + 2}, {n + 2}, n + 1);
    NoPhiStart(h, t.c);
    SameInstrs(t.c, d, n + 1, n);
  }

  lemma NoPhiStart(h: Code, c: Code)
    requires Finished(h, c) && h.End() == 0
    ensures NoPhi(c.BlockAt(h.at), 0)
  {
  }

  lemma SameInstrs(c: Code, t: Terminator, b: nat, x: nat)
    ensures Enter(c.Terminate(t), b).BlockAt(x).instrs == c.BlockAt(x).instrs
  {
  }

  // Before a for loop, its three blocks are waiting.
  lemma BeforeGrows(c: Code, c': Code)
    requires c.Open() && JumpsInRange(c) && Finished(ThreeBlocks(c), c') && Builds(ThreeBlocks(c), c')
    ensures var n := |c.blocks|; Grows(c, c', {c'.at, n, n + 1, n + 2}, {n + 1, n + 2})
  {
    hide Grows, Jumps, Touches;
    var n, w := |c.blocks|, ThreeBlocks(c);
    GrowsNot(c);
    ThreeBlocksGrow(c, c, {c.at}, {});
    var open := {c.at} + {n, n + 1, n + 2};
    assert {} + {n + 1, n + 2} == {n + 1, n + 2};
    GrowsSub(c, w, c', open, {n + 1, n + 2});
    AtBelow(c);
    assert open - {w.at} + {c'.at} == {c'.at, n, n + 1, n + 2};
  }

  lemma AtBelow(c: Code)
    requires c.Open()
    ensures ThreeBlocks(c).at == c.at < |c.blocks|
  {
  }

  lemma WaitRange(c: Code)
    requires c.Open() && JumpsInRange(c)
    ensures JumpsInRange(ThreeBlocks(c)) && ThreeBlocks(c).Open()
  {
    GrowsNot(c);
    ThreeBlocksGrow(c, c, {c.at}, {});
  }

  // The header of a for loop, and the way into its body.
  lemma ForGrows(c: Code, c': Code, p: Operand, pred: Predicate, end: Operand)
    requires c.Open() && JumpsInRange(c) && Finished(ThreeBlocks(c), c') && Builds(ThreeBlocks(c), c')
    ensures var n := |c.blocks|;
            var l := c'.Terminate(Br(n)).MoveTo(n);
            var b := Enter(LoopTest(l, p, pred, end), n + 1);
            && Grows(c, b, {n + 1, n + 2}, {n + 2}) && JumpsInRange(b) && NoPhi(b.BlockAt(n), 0) && b.at == n + 1
            && b.BlockAt(n + 2) == EMPTY && n + 2 < |b.blocks|
  {
    hide Grows, Jumps, Touches, LoopTest;
    var n := |c.blocks|;
    var off := {n + 1, n + 2};
    WaitingBuilds(c, c');
    BeforeGrows(c, c');
    ForHeaderTouches(c, c');
    var open := {c'.at, n, n + 1, n + 2};
    GrowsTerminate(c, c', open, off, Br(n));
    AtBelow(c);
    assert open - {c'.at} == {n, n + 1, n + 2};
    var c1 := c'.Terminate(Br(n));
    GrowsMove(c, c1, {n, n + 1, n + 2}, off, n);
    var l := c1.MoveTo(n);
    LoopTestGrows(c, l, off, p, pred, end);
    var t := LoopTest(l, p, pred, end);
    GrowsPlace(c, t, {n + 1, n + 2}, off, n + 1);
    assert off - {n + 1} == {n + 2};
    GrowsMove(c, t.Place(n + 1), {n + 1, n + 2}, {n + 2}, n + 1);
    GrowsRange(c, Enter(t, n + 1), {n + 1, n + 2}, {n + 2});
    EnterBlocks(t, n + 1);
  }

  lemma EnterBlocks(c: Code, b: nat)
    ensures forall x: nat {:trigger Enter(c, b).BlockAt(x)} :: Enter(c, b).BlockAt(x) == c.BlockAt(x)
    ensures |Enter(c, b).blocks| == |c.blocks|
  {
  }

  lemma {:induction false} RangeFinished(st: Stmt, c: Code, names: Names)
    requires c.Open() && JumpsInRange(c) && st.ForRangeStmt?
    ensures Finished(c, GenStmt(st, c, names))
    decreases st, 0
  {
    hide Grows, Jumps, Touches, Gen, GenTarget, Builds, ThreeBlocks, LoopTest;
    var n, w := |c.blocks|, ThreeBlocks(c);
    WaitRange(c);
    var p := GenTarget(st.item, w, names);
    TargetFinished(st.item, w, names);
    GenTargetBuilds(st.item, w, names);
    var a := Gen(st.start, p.c, names);
    ThenFinished(st.start, w, p.c, names);
    BuildsTrans(w, p.c, a.c);
    var b := Gen(st.end, a.c, names);
    ThenFinished(st.end, w, a.c, names);
    BuildsTrans(w, a.c, b.c);
    var k := if st.step.Some? then Gen(st.step.value, b.c, names) else Piece(b.c, Const(1));
    if st.step.Some? { ThenFinished(st.step.value, w, b.c, names); BuildsTrans(w, b.c, k.c); }
    var c1 := k.c.Emit(Store(a.v, p.v));
    FinishedEmit(w, k.c, Store(a.v, p.v));
    ThenEmit(w, k.c, Store(a.v, p.v));
    ForGrows(c, c1, p.v, SLT, b.v);
    var h := RangeHead(c1, n, p.v, b.v);
    RangeHeadTouches(c, c1, p.v, b.v);
    var u := GenStmt(st.body, h, names);
    StmtFinished(st.body, h, names);
    GenStmtBuilds(st.body, h, names);
    var v := RangeNext(u, p.v, k.v);
    RangeNextFinished(h, u, p.v, k.v);
    OpenOf(h, u);
    RangeNextBuilds(u, p.v, k.v);
    BuildsTrans(h, u, v);
    LoopFinished(c, h, v, n, n + 2);
  }

  lemma RangeNextFinished(h: Code, u: Code, p: Operand, step: Operand)
    requires Finished(h, u)
    ensures Finished(h, RangeNext(u, p, step))
  {
    hide Grows;
    var x := LoadFrom(u, p);
    FinishedEmit(h, u, Load(u.regs, p));
    var y := Arith(x.c, IAdd, x.v, step);
    FinishedEmit(h, x.c, Binary(x.c.regs, IAdd, x.v, step));
    FinishedEmit(h, y.c, Store(y.v, p));
  }

  lemma {:induction false} EachFinished(st: Stmt, c: Code, names: Names)
    requires c.Open() && JumpsInRange(c) && st.ForEachStmt?
    ensures Finished(c, GenStmt(st, c, names))
    decreases st, 0
  {
    hide Grows, Jumps, Touches, Gen, GenTarget, Builds, ThreeBlocks, EachStart, EachBody, EachHead, EachNext, LoopEnd;
    var n, w := |c.blocks|, ThreeBlocks(c);
    WaitRange(c);
    var p := GenTarget(st.item, w, names);
    TargetFinished(st.item, w, names);
    GenTargetBuilds(st.item, w, names);
    var a := Gen(st.collection, p.c, names);
    ThenFinished(st.collection, w, p.c, names);
    BuildsTrans(w, p.c, a.c);
    EachBodyGrows(c, a);
    EachBodyTouches(c, a);
    EachHeadTouches(c, a, p.v);
    var b, h := EachBody(a, n), EachHead(a, n, p.v);
    EachHeadFinished(b, a, n, p.v);
    AtOpen(b, h);
    var u := GenStmt(st.body, h, names);
    StmtFinished(st.body, h, names);
    GenStmtBuilds(st.body, h, names);
    FinishedTrans(b, h, u);
    BuildsTrans(b, h, u);
    var v := EachNext(u, a, n);
    EachNextFinished(b, u, a, n);
    OpenOf(h, u);
    EachNextBuilds(u, a, n);
    BuildsTrans(b, u, v);
    LoopFinished(c, b, v, n, n + 2);
    LoopEndIs(v, n);
  }

  lemma LoopEndIs(v: Code, n: nat)
    ensures LoopEnd(v, n) == Enter(v.Terminate(Br(n)), n + 2).Emit(Nop)
  {
  }

  lemma EachBodyGrows(c: Code, a: Piece)
    requires c.Open() && JumpsInRange(c) && Finished(ThreeBlocks(c), a.c) && Builds(ThreeBlocks(c), a.c)
    ensures var n, b := |c.blocks|, EachBody(a, |c.blocks|);
            && Grows(c, b, {n + 1, n + 2}, {n + 2}) && JumpsInRange(b) && NoPhi(b.BlockAt(n), 0) && b.at == n + 1
            && b.BlockAt(n + 2) == EMPTY && n + 2 < |b.blocks|
  {
    hide Grows, Jumps, Touches, ThreeBlocks, LoopTest;
    var n, w := |c.blocks|, ThreeBlocks(c);
    var index := Yield(a.c, Alloca(a.c.regs));
    FinishedEmit(w, a.c, Alloca(a.c.regs));
    ThenYield(w, a.c, Alloca(a.c.regs));
    var s := index.c.Emit(Store(Const(1), index.v));
    FinishedEmit(w, index.c, Store(Const(1), index.v));
    ThenEmit(w, index.c, Store(Const(1), index.v));
    var arr := AsPointer(s, a.v);
    FinishedEmit(w, s, IntToPtr(s.regs, a.v));
    ThenYield(w, s, IntToPtr(s.regs, a.v));
    var length := LoadFrom(arr.c, arr.v);
    FinishedEmit(w, arr.c, Load(arr.c.regs, arr.v));
    ThenYield(w, arr.c, Load(arr.c.regs, arr.v));
    ForGrows(c, length.c, index.v, SLE, EachLength(a, n));
  }

  lemma EachHeadFinished(b: Code, a: Piece, n: nat, p: Operand)
    requires b == EachBody(a, n) && b.Open() && JumpsInRange(b)
    ensures Finished(b, EachHead(a, n, p))
  {
    hide Grows, EachBody, EachStart;
    GrowsNot(b);
    var l := EachStart(a, n);
    var cur := LoadFrom(b, l.index);
    FinishedEmit(b, b, Load(b.regs, l.index));
    var q := At(cur.c, l.arr, cur.v);
    FinishedEmit(b, cur.c, Gep(cur.c.regs, l.arr, cur.v));
    var x := LoadFrom(q.c, q.v);
    FinishedEmit(b, q.c, Load(q.c.regs, q.v));
    FinishedEmit(b, x.c, Store(x.v, p));
  }

  lemma EachNextFinished(b: Code, u: Code, a: Piece, n: nat)
    requires Finished(b, u)
    ensures Finished(b, EachNext(u, a, n))
  {
    hide Grows, EachBody, EachStart;
    var x := Arith(u, IAdd, EachCounter(a, n), Const(1));
    FinishedEmit(b, u, Binary(u.regs, IAdd, EachCounter(a, n), Const(1)));
    FinishedEmit(b, x.c, Store(x.v, EachStart(a, n).index));
  }

  // ----- whole functions -----

  /** A proper graph: every block is in the function's list and has a terminator, which leads to
      blocks that exist; and each phi comes first in its block, with one operand for each
      predecessor and for nothing else. */
  ghost predicate Proper(c: Code) {
    forall b: nat {:trigger c.BlockAt(b)} | b < |c.blocks| ::
      && c.BlockAt(b).term.Some? && b in c.placed && PhiFits(c, b)
      && forall x: nat {:trigger LeadsTo(c.BlockAt(b).term.value, x)} | LeadsTo(c.BlockAt(b).term.value, x) ::
          x < |c.blocks|
  }

  lemma EmittedGrows(fn: Function)
    requires Declared(fn)
    ensures Grows(ENTRY, Emitted(fn), {}, {}) && |Emitted(fn).blocks| > 0
  {
    hide Gen, GenStmt;
    var names := Slots(fn);
    GrowsNot(ENTRY);
    StmtFinished(fn.body, ENTRY, names);
    var c := GenStmt(fn.body, ENTRY, names);
    ThenFinished(fn.result, ENTRY, c, names);
    var r := Gen(fn.result, c, names);
    GrowsTerminate(ENTRY, r.c, {r.c.at}, {}, Ret(r.v));
    assert {r.c.at} - {r.c.at} == {};
  }

  lemma EmittedIsProper(fn: Function)
    requires Declared(fn)
    ensures Proper(Emitted(fn))
  {
    var f := Emitted(fn);
    EmittedGrows(fn);
    hide Emitted;
    forall b: nat | b < |f.blocks| ensures f.BlockAt(b).term.Some? && b in f.placed && PhiFits(f, b) {
      assert Own(ENTRY, b);
      if b == 0 { EntryPhi(f); }
    }
    forall b: nat, x: nat | b < |f.blocks| && LeadsTo(f.BlockAt(b).term.value, x) ensures x < |f.blocks| {
      assert Jumps(f, b, x);
    }
  }

  lemma EntryPhi(f: Code)
    requires NoPhi(f.BlockAt(0), 0)
    ensures PhiFits(f, 0)
  {
  }

  // ----- what a proper graph means for runs -----

  /** The edges of the graph are the ways that runs can take out of a block. */
  lemma EdgesAreExits(t: Terminator, b: nat)
    ensures (exists m: Machine :: Leaves(m, t, b)) ==> LeadsTo(t, b)
    ensures LeadsTo(t, b) && (t.CondBr? ==> t.c.Reg?) ==> exists m: Machine :: Leaves(m, t, b)
  {
    if LeadsTo(t, b) && (t.CondBr? ==> t.c.Reg?) {
      var truth := if t.CondBr? && b != t.ifTrue then 0 else 1;
      var regs := if t.CondBr? then map[t.c.r := Int(truth)] else map[];
      var m := Machine(0, 0, 0, regs, [], map[], 1, [], Running);
      assert Leaves(m, t, b);
    }
  }

  // With the terminator t the machine goes on at the start of block b.
  ghost predicate Leaves(m: Machine, t: Terminator, b: nat) {
    m.status == Running && Finish(m, t) == m.(block := b, index := 0, prev := m.block)
  }

  // The machine is in a block of the function; a phi that it is about to run has an operand for its way there.
  ghost predicate OnEdge(f: Code, m: Machine) {
    && m.block < |f.blocks|
    && var b := f.BlockAt(m.block);
      (m.index == 0 && b.instrs != [] && b.instrs[0].Phi? ==> HasOperand(b.instrs[0].incoming, m.prev))
  }

  ghost predicate HasOperand(incoming: seq<(Operand, nat)>, p: nat) {
    exists i :: 0 <= i < |incoming| && incoming[i].1 == p
  }

  // Inside a block, only the index goes up.
  lemma DoStays(m: Machine, i: Instr)
    ensures Do(m, i).block == m.block && Do(m, i).prev == m.prev && Do(m, i).index >= m.index
  {
  }

  lemma FinishLeads(m: Machine, t: Terminator)
    requires m.status == Running
    ensures var m' := Finish(m, t);
            if m'.status == Running then LeadsTo(t, m'.block) && m'.prev == m.block
            else m'.block == m.block && m'.index == m.index && m'.prev == m.prev
  {
  }

  lemma EdgeStep(f: Code, m: Machine)
    requires Proper(f) && OnEdge(f, m)
    ensures OnEdge(f, Step(f, m))
  {
    hide Do, Finish, LeadsTo;
    var b := f.BlockAt(m.block);
    if m.status == Running {
      if m.index < |b.instrs| {
        DoStays(m, b.instrs[m.index]);
      } else {
        FinishLeads(m, b.term.value);
        EdgeTaken(f, m, Step(f, m));
      }
    }
  }

  lemma EdgeTaken(f: Code, m: Machine, m': Machine)
    requires Proper(f) && OnEdge(f, m) && f.BlockAt(m.block).term.Some?
    requires if m'.status == Running then LeadsTo(f.BlockAt(m.block).term.value, m'.block) && m'.prev == m.block
             else m'.block == m.block && m'.index == m.index && m'.prev == m.prev
    ensures OnEdge(f, m')
  {
    hide LeadsTo;
    if m'.status == Running { assert Jumps(f, m.block, m'.block) && PhiFits(f, m'.block); }
  }

  lemma {:induction false} RunOnEdges(f: Code, m: Machine, n: nat)
    requires Proper(f) && OnEdge(f, m)
    ensures OnEdge(f, Run(f, m, n))
    decreases n
  {
    if n > 0 {
      EdgeStep(f, m);
      RunOnEdges(f, Step(f, m), n - 1);
    }
  }

  lemma {:induction false} ChosenIs(incoming: seq<(Operand, nat)>, p: nat)
    ensures HasOperand(incoming, p) <==> Chosen(incoming, p).Some?
  {
    if incoming != [] {
      var rest := incoming[1..];
      ChosenIs(rest, p);
      if HasOperand(incoming, p) && incoming[0].1 != p {
        var i :| 0 <= i < |incoming| && incoming[i].1 == p;
        assert rest[i - 1].1 == p;
      }
      if HasOperand(rest, p) {
        var i :| 0 <= i < |rest| && rest[i].1 == p;
        assert incoming[i + 1].1 == p;
      }
    }
  }

  /** Whatever the source does, no run of the emitted code leaves its blocks, and none comes to a phi
      from a block that the phi does not list. */
  lemma PhisAreFed(fn: Function, m: Machine, n: nat)
    requires Declared(fn) && m.block == 0 && m.index == 0
    ensures var f := Emitted(fn);
            var m' := Run(f, m, n);
            && m'.block < |f.blocks|
            && (m'.index < |f.BlockAt(m'.block).instrs| && f.BlockAt(m'.block).instrs[m'.index].Phi? ==>
                  Chosen(f.BlockAt(m'.block).instrs[m'.index].incoming, m'.prev).Some?)
  {
    hide Emitted, Run;
    var f := Emitted(fn);
    EmittedIsProper(fn);
    EntryHasNoPhi(fn);
    RunOnEdges(f, m, n);
    var m' := Run(f, m, n);
    var b := f.BlockAt(m'.block);
    assert PhiFits(f, m'.block);
    if m'.index < |b.instrs| && b.instrs[m'.index].Phi? {
      assert m'.index == 0;
      ChosenIs(b.instrs[0].incoming, m'.prev);
    }
  }

  lemma EntryHasNoPhi(fn: Function)
    requires Declared(fn)
    ensures |Emitted(fn).blocks| > 0 && NoPhi(Emitted(fn).BlockAt(0), 0)
  {
    var f := Emitted(fn);
    EmittedGrows(fn);
    assert ENTRY.End() == 0;
  }
}
