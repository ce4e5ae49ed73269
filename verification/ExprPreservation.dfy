/** The code of an expression computes its value, with the same effects and the same errors; one lemma for
    each kind of expression, and the loops that fill arrays by induction on the items that are left. */
module ExprPreservation {
  import opened TipTypes
  import opened TipLanguage
  import opened Persistence
  import opened Ir
  import opened Emission
  import opened CodeShape
  import opened MachineState

  /** How the machine m that stands at c gets on in the finished code f, when the outcome is o:
      it arrives at the end of the piece with the value, or stops with the error. */
  ghost predicate Follows(o: Outcome<int>, p: Piece, f: Code, m: Machine, m': Machine, c: Code, names: Names) {
    match o
    case Value(n, s) => Arrives(f, m, m', c, p.c, names, s) && m'.Of(p.v) == Int(n)
    case Failed(code, out) => Goes(f, m, m') && m'.status == Stopped(code) && m'.out == out
    case _ => true
  }

  lemma FollowsAfter(o: Outcome<int>, p: Piece, f: Code, m: Machine, m1: Machine, m': Machine,
                     c: Code, c1: Code, names: Names, s1: State)
    requires Arrives(f, m, m1, c, c1, names, s1) && Follows(o, p, f, m1, m', c1, names) && c.regs <= c1.regs
    ensures Follows(o, p, f, m, m', c, names)
  {
    match o
    case Value(_, s) => ArrivesTrans(f, m, m1, m', c, c1, p.c, names, s1, s);
    case Failed(_, _) => GoesOn(f, m, m1, m');
    case _ =>
  }

  // What was built on is still there in the finished code.
  lemma GrownBack(c: Code, c1: Code, f: Code)
    requires Builds(c, c1) && Grown(c1, f)
    ensures Grown(c, f) && c.regs <= c1.regs
  {
    GrownTrans(c, c1, f);
  }

  // ----- bounds -----

  /** Inside the bounds the check leads to the address of the item, by way of the first of its
      three blocks; outside it stops with error 0. */
  lemma CheckRuns(c: Code, p: Operand, length: Operand, i: Operand, f: Code, m: Machine, names: Names, s: State,
                  a: int, n: nat, k: int) returns (m': Machine)
    requires c.Open() && Standing(c, m) && Fits(s, m, names) && Grown(CheckBounds(c, p, length, i).c, f)
    requires m.Of(p) == Word(a) && m.Of(length) == Int(n) && m.Of(i) == Int(k) && n < TWO63 - 1
    requires Known(p, c) && Known(length, c) && Known(i, c)
    ensures var q := CheckBounds(c, p, length, i);
            if 0 <= k < n then
              Arrives(f, m, m', c, q.c, names, s) && m'.Of(q.v) == Word(a + 1 + k) && m'.prev == q.c.at - 2
            else Goes(f, m, m') && m'.status == Stopped(0) && m'.out == s.out
  {
    hide Fits, Framed, Goes, Grown;
    var neg := Test(c, SLT, i, Const(0));
    YieldBuilds(c, ICmp(c.regs, SLT, i, Const(0)));
    var large := Test(neg.c, SGE, i, length);
    YieldBuilds(neg.c, ICmp(neg.c.regs, SGE, i, length));
    var out := Arith(large.c, BitOr, neg.v, large.v);
    YieldBuilds(large.c, Binary(large.c.regs, BitOr, neg.v, large.v));
    CheckGrown(c, p, length, i, f);
    var m1 := TestArrives(SLT, c, i, Const(0), f, m, names, s, k, 0);
    StillKnown(f, m, m1, c, neg.c, names, s, i);
    StillKnown(f, m, m1, c, neg.c, names, s, length);
    var m2 := TestArrives(SGE, neg.c, i, length, f, m1, names, s, k, n);
    StillKnown(f, m1, m2, neg.c, large.c, names, s, neg.v);
    LogicIs(Truth(k < 0), Truth(k >= n));
    var m3 := ArithArrives(BitOr, large.c, neg.v, large.v, f, m2, names, s, Truth(k < 0), Truth(k >= n));
    ArrivesTrans(f, m, m1, m2, c, neg.c, large.c, names, s, s);
    ArrivesTrans(f, m, m2, m3, c, large.c, out.c, names, s, s);
    StillKnown(f, m, m3, c, out.c, names, s, i);
    StillKnown(f, m, m3, c, out.c, names, s, p);
    m' := CheckedRuns(out, p, i, f, m3, names, s, a, n, k);
    if 0 <= k < n {
      ArrivesTrans(f, m, m3, m', c, out.c, CheckBounds(c, p, length, i).c, names, s, s);
    } else {
      GoesOn(f, m, m3, m');
    }
  }

  lemma CheckGrown(c: Code, p: Operand, length: Operand, i: Operand, f: Code)
    requires c.Open() && Grown(CheckBounds(c, p, length, i).c, f)
    ensures var neg := Test(c, SLT, i, Const(0));
            var large := Test(neg.c, SGE, i, length);
            var out := Arith(large.c, BitOr, neg.v, large.v);
            && Grown(neg.c, f) && Grown(large.c, f) && Grown(out.c, f)
            && c.regs <= neg.c.regs <= large.c.regs <= out.c.regs && Grown(AfterCheck(out, p, i).c, f)
  {
  }

  lemma AfterCheckGrown(out: Piece, p: Operand, i: Operand, f: Code)
    requires out.c.Open() && Grown(AfterCheck(out, p, i).c, f)
    ensures var inB := |out.c.blocks|;
            var t := CondBr(out.v, inB + 1, inB);
            var c2 := Fork(out.c, t).MoveTo(inB + 1);
            var c3 := c2.Emit(CallError(Const(0))).Terminate(Unreachable).MoveTo(inB);
            var j := Arith(c3, IAdd, i, Const(1));
            var q := At(j.c, p, j.v);
            && Grown(q.c.Terminate(Br(inB + 2)), f) && Grown(q.c, f) && Grown(j.c, f) && Grown(c3, f)
            && Grown(c2.Emit(CallError(Const(0))), f) && Grown(c2, f) && Grown(Ahead(out.c).Terminate(t), f)
  {
    hide Grown, Touches, AfterCheck, Builds, Ahead, Test;
    var inB := |out.c.blocks|;
    var t := CondBr(out.v, inB + 1, inB);
    var c2 := Fork(out.c, t).MoveTo(inB + 1);
    var e := c2.Emit(CallError(Const(0)));
    var c3 := e.Terminate(Unreachable).MoveTo(inB);
    var j := Arith(c3, IAdd, i, Const(1));
    var q := At(j.c, p, j.v);
    AfterCheckOpen(out, p, i);
    SameBlocks(q.c.Terminate(Br(inB + 2)), AfterCheck(out, p, i).c, f);
    ThenTerminated(q.c, Br(inB + 2), f);
    ThenYielded(j.c, Gep(j.c.regs, p, j.v), f);
    ThenYielded(c3, Binary(c3.regs, IAdd, i, Const(1)), f);
    SameBlocks(e.Terminate(Unreachable), c3, f);
    ThenTerminated(e, Unreachable, f);
    EmitTouches(c2, CallError(Const(0)));
    TouchedGrown(c2, e, f);
    SameBlocks(Ahead(out.c).Terminate(t), c2, f);
  }

  // The blocks of a bounds check are open while they are written to, and empty before.
  lemma AfterCheckOpen(out: Piece, p: Operand, i: Operand)
    requires out.c.Open()
    ensures var inB := |out.c.blocks|;
            var t := CondBr(out.v, inB + 1, inB);
            var c2 := Fork(out.c, t).MoveTo(inB + 1);
            var c3 := c2.Emit(CallError(Const(0))).Terminate(Unreachable).MoveTo(inB);
            var j := Arith(c3, IAdd, i, Const(1));
            var q := At(j.c, p, j.v);
            && Ahead(out.c).Open() && Ahead(out.c).End() == out.c.End() && Ahead(out.c).regs == out.c.regs
            && c2.Open() && c2.Emit(CallError(Const(0))).Open() && c3.Open() && j.c.Open() && q.c.Open()
            && c2.End() == 0 && c3.End() == 0 && AfterCheck(out, p, i).c.End() == 0
            && c3.regs == out.c.regs && j.c.regs == c3.regs + 1 && q.c.at == inB
            && AfterCheck(out, p, i).c.blocks == q.c.Terminate(Br(inB + 2)).blocks
  {
  }

  lemma TouchedGrown(c: Code, c': Code, f: Code)
    requires Touches(c, c', {c.at}) && Grown(c', f)
    ensures Grown(c, f)
  {
    GrownTrans(c, c', f);
  }

  lemma ThenTerminated(c: Code, t: Terminator, f: Code)
    requires c.Open() && Grown(c.Terminate(t), f)
    ensures Grown(c, f)
  {
    TerminateTouches(c, t);
    TouchedGrown(c, c.Terminate(t), f);
  }

  lemma ThenYielded(c: Code, i: Instr, f: Code)
    requires c.Open() && Grown(Yield(c, i).c, f)
    ensures Grown(c, f)
  {
    YieldBuilds(c, i);
    GrownBack(c, Yield(c, i).c, f);
  }

  lemma CheckedRuns(out: Piece, p: Operand, i: Operand, f: Code, m: Machine, names: Names, s: State,
                    a: int, n: nat, k: int) returns (m': Machine)
    requires out.c.Open() && Standing(out.c, m) && Fits(s, m, names) && Grown(AfterCheck(out, p, i).c, f)
    requires m.Of(p) == Word(a) && m.Of(i) == Int(k) && n < TWO63 - 1 && Known(p, out.c) && Known(i, out.c)
    requires m.Of(out.v) == Int(Truth(k < 0 || k >= n))
    ensures var q := AfterCheck(out, p, i);
            if 0 <= k < n then
              Arrives(f, m, m', out.c, q.c, names, s) && m'.Of(q.v) == Word(a + 1 + k) && m'.prev == q.c.at - 2
            else Goes(f, m, m') && m'.status == Stopped(0) && m'.out == s.out
  {
    hide Fits, Grown, Goes, Framed, AfterCheck, Standing;
    if 0 <= k < n {
      m' := CheckedInside(out, p, i, f, m, names, s, a, k);
    } else {
      m' := CheckedOutside(out, p, i, f, m, names, s);
    }
  }

  lemma CheckedInside(out: Piece, p: Operand, i: Operand, f: Code, m: Machine, names: Names, s: State, a: int, k: int)
    returns (m': Machine)
    requires out.c.Open() && Standing(out.c, m) && Fits(s, m, names) && Grown(AfterCheck(out, p, i).c, f)
    requires m.Of(p) == Word(a) && m.Of(i) == Int(k) && 0 <= k < TWO63 - 1 && Known(p, out.c) && Known(i, out.c)
    requires m.Of(out.v) == Int(0)
    ensures var q := AfterCheck(out, p, i);
            Arrives(f, m, m', out.c, q.c, names, s) && m'.Of(q.v) == Word(a + 1 + k) && m'.prev == q.c.at - 2
  {
    hide Fits, Grown, Goes, Framed;
    var inB, d := |out.c.blocks|, Ahead(out.c);
    var t := CondBr(out.v, inB + 1, inB);
    var c3 := Fork(out.c, t).MoveTo(inB + 1).Emit(CallError(Const(0))).Terminate(Unreachable).MoveTo(inB);
    AfterCheckGrown(out, p, i, f);
    AfterCheckOpen(out, p, i);
    JumpArrives(d, t, c3, f, m, names, s);
    var m1 := m.Jump(inB);
    m' := ItemAddress(c3, p, i, f, m1, names, s, a, k);
    ArrivesTrans(f, m, m1, m', d, c3, AfterCheck(out, p, i).c, names, s, s);
  }

  lemma CheckedOutside(out: Piece, p: Operand, i: Operand, f: Code, m: Machine, names: Names, s: State)
    returns (m': Machine)
    requires out.c.Open() && Standing(out.c, m) && Fits(s, m, names) && Grown(AfterCheck(out, p, i).c, f)
    requires m.Of(out.v) == Int(1)
    ensures Goes(f, m, m') && m'.status == Stopped(0) && m'.out == s.out
  {
    hide Fits, Grown, Goes, Framed;
    var inB, d := |out.c.blocks|, Ahead(out.c);
    var t := CondBr(out.v, inB + 1, inB);
    var c2 := Fork(out.c, t).MoveTo(inB + 1);
    AfterCheckGrown(out, p, i, f);
    AfterCheckOpen(out, p, i);
    JumpArrives(d, t, c2, f, m, names, s);
    var m1 := m.Jump(inB + 1);
    NextInstr(c2, CallError(Const(0)), f, m1);
    m' := Step(f, m1);
    GoesOne(f, m1);
    GoesOn(f, m, m1, m');
    SameOut(s, m1, names);
  }

  lemma SameOut(s: State, m: Machine, names: Names)
    requires Fits(s, m, names)
    ensures m.out == s.out
  {
  }

  lemma ItemAddress(c3: Code, p: Operand, i: Operand, f: Code, m: Machine, names: Names, s: State, a: int, k: int)
    returns (m': Machine)
    requires c3.Open() && Standing(c3, m) && Fits(s, m, names) && m.Of(p) == Word(a) && m.Of(i) == Int(k)
    requires 0 <= k < TWO63 - 1
    requires Known(p, c3)
    requires var j := Arith(c3, IAdd, i, Const(1));
             var q := At(j.c, p, j.v);
             && Grown(j.c, f) && Grown(q.c, f) && Grown(q.c.Terminate(Br(c3.at + 2)), f)
             && j.c.Open() && q.c.Open() && q.c.Terminate(Br(c3.at + 2)).MoveTo(c3.at + 2).End() == 0
    ensures var j := Arith(c3, IAdd, i, Const(1));
            var q := At(j.c, p, j.v);
            && Arrives(f, m, m', c3, q.c.Terminate(Br(c3.at + 2)).MoveTo(c3.at + 2), names, s)
            && m'.Of(q.v) == Word(a + 1 + k) && m'.prev == c3.at
  {
    hide Fits, Grown;
    var j := Arith(c3, IAdd, i, Const(1));
    var q := At(j.c, p, j.v);
    var m1 := ArithArrives(IAdd, c3, i, Const(1), f, m, names, s, k, 1);
    StillKnown(f, m, m1, c3, j.c, names, s, p);
    YieldArrives(j.c, Gep(j.c.regs, p, j.v), f, m1, names, s, Word(a + (k + 1)));
    var m2 := m1.Put(j.c.regs, Word(a + (k + 1)));
    var c' := q.c.Terminate(Br(c3.at + 2)).MoveTo(c3.at + 2);
    JumpArrives(q.c, Br(c3.at + 2), c', f, m2, names, s);
    m' := m2.Jump(c3.at + 2);
    ArrivesTrans(f, m, m1, m2, c3, j.c, q.c, names, s, s);
    ArrivesTrans(f, m, m2, m', c3, q.c, c', names, s, s);
  }

  // ----- expressions -----

  lemma {:induction false} GenRuns(e: Expr, c: Code, f: Code, m: Machine, s: State, names: Names) returns (m': Machine)
    requires c.Open() && Grown(Gen(e, c, names).c, f) && Standing(c, m) && Fits(s, m, names)
    ensures Follows(Eval(e, s), Gen(e, c, names), f, m, m', c, names)
    decreases e, 3
  {
    hide Fits, Framed, Goes, Grown, Builds, Standing, GenOp;
    match e
    case NumberExpr(_) => ArrivesAt(f, m, c, names, s); m' := m;
    case BoolExpr(_) => ArrivesAt(f, m, c, names, s); m' := m;
    case VariableExpr(x) => m' := VariableRuns(x, c, f, m, s, names);
    case BinaryExpr(_, _, _) => m' := BinaryRuns(e, c, f, m, s, names);
    case NotExpr(arg) => m' := NotRuns(e, c, f, m, s, names);
    case NegExpr(arg) => m' := NegRuns(e, c, f, m, s, names);
    case TernaryExpr(_, _, _) => m' := TernaryRuns(e, c, f, m, s, names);
    case ArrayExpr(_) => m' := ArrayRuns(e, c, f, m, s, names);
    case ArrayOfExpr(_, _) => m' := ArrayOfRuns(e, c, f, m, s, names);
    case ArrayLenExpr(_) => m' := ArrayLenRuns(e, c, f, m, s, names);
    case IndexingExpr(_, _) => m' := IndexingRuns(e, c, f, m, s, names);
    case AllocExpr(_) => m' := AllocRuns(e, c, f, m, s, names);
    case DeRefExpr(_) => m' := DeRefRuns(e, c, f, m, s, names);
  }

  lemma VariableRuns(x: string, c: Code, f: Code, m: Machine, s: State, names: Names) returns (m': Machine)
    requires c.Open() && Grown(Gen(VariableExpr(x), c, names).c, f) && Standing(c, m) && Fits(s, m, names)
    ensures Follows(Eval(VariableExpr(x), s), Gen(VariableExpr(x), c, names), f, m, m', c, names)
  {
    hide Framed, Goes, Grown;
    m' := m;
    if x in names {
      ReadPlace(s, m, names, VariableAt(x));
      var v := Int(s.vars[x]);
      YieldArrives(c, Load(c.regs, Slot(names[x])), f, m, names, s, v);
      m' := m.Put(c.regs, v);
    }
  }

  /** A first expression, then what is built on it: the machine gets to the end of the first,
      or that is where it stops. */
  lemma {:induction false} FirstRuns(e: Expr, c: Code, c2: Code, f: Code, m: Machine, s: State, names: Names)
    returns (m1: Machine)
    requires c.Open() && Builds(Gen(e, c, names).c, c2) && Grown(c2, f) && Standing(c, m) && Fits(s, m, names)
    ensures Follows(Eval(e, s), Gen(e, c, names), f, m, m1, c, names)
    ensures var p := Gen(e, c, names);
            && Builds(c, p.c) && p.c.Open() && Grown(p.c, f) && c.regs <= p.c.regs && Known(p.v, p.c)
            && (Eval(e, s).Value? ==> Standing(p.c, m1) && Fits(Eval(e, s).s, m1, names))
    decreases e, 4
  {
    hide Fits, Framed, Goes, Grown, Builds, Standing, Gen;
    var p := Gen(e, c, names);
    GenBuilds(e, c, names);
    OpenOf(c, p.c);
    MoreBlocks(c, p.c);
    GrownBack(p.c, c2, f);
    m1 := GenRuns(e, c, f, m, s, names);
  }

  lemma {:induction false} BinaryRuns(e: Expr, c: Code, f: Code, m: Machine, s: State, names: Names)
    returns (m': Machine)
    requires e.BinaryExpr? && c.Open() && Grown(Gen(e, c, names).c, f) && Standing(c, m) && Fits(s, m, names)
    ensures Follows(Eval(e, s), Gen(e, c, names), f, m, m', c, names)
    decreases e, 2
  {
    hide Fits, Framed, Goes, Grown, Builds, Standing, GenOp, Apply;
    var l := Gen(e.left, c, names);
    GenBuilds(e.left, c, names);
    OpenOf(c, l.c);
    var r := Gen(e.right, l.c, names);
    GenBuilds(e.right, l.c, names);
    OpenOf(l.c, r.c);
    var p := GenOp(e.op, r.c, l.v, r.v);
    GenOpBuilds(e.op, r.c, l.v, r.v);
    BuildsTrans(l.c, r.c, p.c);
    m' := FirstRuns(e.left, c, p.c, f, m, s, names);
    if Eval(e.left, s).Value? {
      var s1, m1 := Eval(e.left, s).s, m';
      m' := FirstRuns(e.right, l.c, p.c, f, m1, s1, names);
      if Eval(e.right, s1).Value? {
        var s2, m2 := Eval(e.right, s1).s, m';
        StillKnown(f, m1, m2, l.c, r.c, names, s2, l.v);
        if Apply(e.op, Eval(e.left, s).v, Eval(e.right, s1).v).Some? {
          m' := OpArrives(e.op, r.c, l.v, r.v, f, m2, names, s2, Eval(e.left, s).v, Eval(e.right, s1).v);
          ArrivesTrans(f, m1, m2, m', l.c, r.c, p.c, names, s2, s2);
        }
      }
      FollowsAfter(Eval(e, s), p, f, m, m1, m', c, l.c, names, s1);
    }
  }

  lemma {:induction false} NotRuns(e: Expr, c: Code, f: Code, m: Machine, s: State, names: Names) returns (m': Machine)
    requires e.NotExpr? && c.Open() && Grown(Gen(e, c, names).c, f) && Standing(c, m) && Fits(s, m, names)
    ensures Follows(Eval(e, s), Gen(e, c, names), f, m, m', c, names)
    decreases e, 2
  {
    hide Fits, Framed, Goes, Grown, Builds, Standing, IrApply;
    var a := Gen(e.arg, c, names);
    GenBuilds(e.arg, c, names);
    var p := Arith(a.c, BitXor, a.v, Const(1));
    OpenOf(c, a.c);
    YieldBuilds(a.c, Binary(a.c.regs, BitXor, a.v, Const(1)));
    m' := FirstRuns(e.arg, c, p.c, f, m, s, names);
    if Eval(e.arg, s).Value? && IsTruth(Eval(e.arg, s).v) {
      var s1, m1, x := Eval(e.arg, s).s, m', Eval(e.arg, s).v;
      LogicIs(x, 1);
      m' := ArithArrives(BitXor, a.c, a.v, Const(1), f, m1, names, s1, x, 1);
      ArrivesTrans(f, m, m1, m', c, a.c, p.c, names, s1, s1);
    }
  }

  lemma {:induction false} NegRuns(e: Expr, c: Code, f: Code, m: Machine, s: State, names: Names) returns (m': Machine)
    requires e.NegExpr? && c.Open() && Grown(Gen(e, c, names).c, f) && Standing(c, m) && Fits(s, m, names)
    ensures Follows(Eval(e, s), Gen(e, c, names), f, m, m', c, names)
    decreases e, 2
  {
    hide Fits, Framed, Goes, Grown, Builds, Standing;
    var a := Gen(e.arg, c, names);
    GenBuilds(e.arg, c, names);
    var p := Arith(a.c, ISub, Const(0), a.v);
    OpenOf(c, a.c);
    YieldBuilds(a.c, Binary(a.c.regs, ISub, Const(0), a.v));
    m' := FirstRuns(e.arg, c, p.c, f, m, s, names);
    if Eval(e.arg, s).Value? {
      var s1, m1, x := Eval(e.arg, s).s, m', Eval(e.arg, s).v;
      m' := ArithArrives(ISub, a.c, Const(0), a.v, f, m1, names, s1, 0, x);
      ArrivesTrans(f, m, m1, m', c, a.c, p.c, names, s1, s1);
    }
  }

  lemma {:induction false} ArrayLenRuns(e: Expr, c: Code, f: Code, m: Machine, s: State, names: Names)
    returns (m': Machine)
    requires e.ArrayLenExpr? && c.Open() && Grown(Gen(e, c, names).c, f) && Standing(c, m) && Fits(s, m, names)
    ensures Follows(Eval(e, s), Gen(e, c, names), f, m, m', c, names)
    decreases e, 2
  {
    hide Fits, Framed, Goes, Grown, Builds, Standing;
    var a := Gen(e.ptr, c, names);
    GenBuilds(e.ptr, c, names);
    OpenOf(c, a.c);
    var p := AsPointer(a.c, a.v);
    BuildsRefl(a.c);
    PointerLoadBuilds(a.c, a);
    OpenOf(a.c, p.c);
    var l := LoadFrom(p.c, p.v);
    YieldBuilds(p.c, Load(p.c.regs, p.v));
    m' := FirstRuns(e.ptr, c, l.c, f, m, s, names);
    GrownBack(p.c, l.c, f);
    MoreBlocks(a.c, p.c);
    if Eval(e.ptr, s).Value? && Eval(e.ptr, s).s.HasArray(Eval(e.ptr, s).v) {
      var s1, m1, x := Eval(e.ptr, s).s, m', Eval(e.ptr, s).v;
      var m2 := PointerArrives(a.c, a.v, f, m1, names, s1, x);
      ReadLength(s1, m2, names, x);
      m' := LoadArrives(p.c, p.v, f, m2, names, s1, |s1.Items(x)|);
      ArrivesTrans(f, m1, m2, m', a.c, p.c, l.c, names, s1, s1);
      FollowsAfter(Eval(e, s), l, f, m, m1, m', c, a.c, names, s1);
    }
  }

  lemma {:induction false} DeRefRuns(e: Expr, c: Code, f: Code, m: Machine, s: State, names: Names)
    returns (m': Machine)
    requires e.DeRefExpr? && c.Open() && Grown(Gen(e, c, names).c, f) && Standing(c, m) && Fits(s, m, names)
    ensures Follows(Eval(e, s), Gen(e, c, names), f, m, m', c, names)
    decreases e, 2
  {
    hide Fits, Framed, Goes, Grown, Builds, Standing;
    var a := Gen(e.ptr, c, names);
    GenBuilds(e.ptr, c, names);
    OpenOf(c, a.c);
    var p := AsPointer(a.c, a.v);
    BuildsRefl(a.c);
    PointerLoadBuilds(a.c, a);
    OpenOf(a.c, p.c);
    var l := LoadFrom(p.c, p.v);
    YieldBuilds(p.c, Load(p.c.regs, p.v));
    m' := FirstRuns(e.ptr, c, l.c, f, m, s, names);
    GrownBack(p.c, l.c, f);
    MoreBlocks(a.c, p.c);
    if Eval(e.ptr, s).Value? && Eval(e.ptr, s).s.HasCell(Eval(e.ptr, s).v) {
      var s1, m1, x := Eval(e.ptr, s).s, m', Eval(e.ptr, s).v;
      var m2 := PointerArrives(a.c, a.v, f, m1, names, s1, x);
      ReadPlace(s1, m2, names, CellAt(x));
      m' := LoadArrives(p.c, p.v, f, m2, names, s1, s1.heap[x].content);
      ArrivesTrans(f, m1, m2, m', a.c, p.c, l.c, names, s1, s1);
      FollowsAfter(Eval(e, s), l, f, m, m1, m', c, a.c, names, s1);
    }
  }

  lemma {:induction false} AllocRuns(e: Expr, c: Code, f: Code, m: Machine, s: State, names: Names)
    returns (m': Machine)
    requires e.AllocExpr? && c.Open() && Grown(Gen(e, c, names).c, f) && Standing(c, m) && Fits(s, m, names)
    ensures Follows(Eval(e, s), Gen(e, c, names), f, m, m', c, names)
    decreases e, 2
  {
    hide Fits, Framed, Goes, Grown, Builds, Standing;
    var a := Gen(e.initializer, c, names);
    GenBuilds(e.initializer, c, names);
    OpenOf(c, a.c);
    var p := NewWords(a.c, Const(1));
    YieldBuilds(a.c, Calloc(a.c.regs, Const(1)));
    OpenOf(a.c, p.c);
    var c1 := p.c.Emit(Store(a.v, p.v));
    EmitTouches(p.c, Store(a.v, p.v));
    OpenOf(p.c, c1);
    BuildsTrans(a.c, p.c, c1);
    var q := AsInt(c1, p.v);
    YieldBuilds(c1, PtrToInt(c1.regs, p.v));
    BuildsTrans(a.c, c1, q.c);
    m' := FirstRuns(e.initializer, c, q.c, f, m, s, names);
    GrownBack(c1, q.c, f);
    MoreBlocks(a.c, c1);
    if Eval(e.initializer, s).Value? {
      var s1, m1, x := Eval(e.initializer, s).s, m', Eval(e.initializer, s).v;
      CellArrives(a.c, a.v, f, m1, names, s1, x);
      var m2 := AfterAlloc(m1, a.c.regs, 1, x);
      ArrivedFacts(f, m1, m2, a.c, c1, names, s1.NewCell(x));
      m' := NumberArrives(c1, p.v, f, m2, names, s1.NewCell(x), s1.next);
      ArrivesTrans(f, m1, m2, m', a.c, c1, q.c, names, s1.NewCell(x), s1.NewCell(x));
      FollowsAfter(Eval(e, s), q, f, m, m1, m', c, a.c, names, s1);
    }
  }

  /** The address of an item: the place that was located, or the error of the bounds check. */
  lemma {:induction false} ElementRuns(e: Expr, c: Code, f: Code, m: Machine, s: State, names: Names)
    returns (m': Machine)
    requires e.IndexingExpr? && c.Open() && Grown(GenElement(e, c, names).c, f) && Standing(c, m) && Fits(s, m, names)
    ensures match Locate(e, s)
            case Value(place, s') =>
              && Arrives(f, m, m', c, GenElement(e, c, names).c, names, s')
              && m'.Of(GenElement(e, c, names).v) == Address(place, names)
              && m'.prev == GenElement(e, c, names).c.at - 2
            case Failed(code, out) => Goes(f, m, m') && m'.status == Stopped(code) && m'.out == out
            case _ => true
    decreases e, 1
  {
    hide Fits, Framed, Goes, Grown, Builds, Standing, CheckBounds;
    var a := Gen(e.arr, c, names);
    GenBuilds(e.arr, c, names);
    OpenOf(c, a.c);
    var p := AsPointer(a.c, a.v);
    BuildsRefl(a.c);
    PointerLoadBuilds(a.c, a);
    OpenOf(a.c, p.c);
    var l := LoadFrom(p.c, p.v);
    YieldBuilds(p.c, Load(p.c.regs, p.v));
    OpenOf(p.c, l.c);
    var i := Gen(e.idx, l.c, names);
    GenBuilds(e.idx, l.c, names);
    OpenOf(l.c, i.c);
    var q := CheckBounds(i.c, p.v, l.v, i.v);
    CheckBoundsBuilds(i.c, p.v, l.v, i.v);
    BuildsTrans(p.c, l.c, i.c);
    BuildsTrans(a.c, p.c, i.c);
    BuildsTrans(a.c, i.c, q.c);
    BuildsTrans(l.c, i.c, q.c);
    BuildsTrans(p.c, l.c, q.c);
    m' := FirstRuns(e.arr, c, q.c, f, m, s, names);
    GrownBack(p.c, q.c, f);
    GrownBack(l.c, q.c, f);
    MoreBlocks(a.c, p.c);
    MoreBlocks(p.c, l.c);
    MoreBlocks(l.c, i.c);
    if Eval(e.arr, s).Value? && Eval(e.arr, s).s.HasArray(Eval(e.arr, s).v) {
      var s1, m1, x := Eval(e.arr, s).s, m', Eval(e.arr, s).v;
      var n := |s1.Items(x)|;
      var m2 := PointerArrives(a.c, a.v, f, m1, names, s1, x);
      ArrivedFacts(f, m1, m2, a.c, p.c, names, s1);
      ReadLength(s1, m2, names, x);
      var m3 := LoadArrives(p.c, p.v, f, m2, names, s1, n);
      ArrivedFacts(f, m2, m3, p.c, l.c, names, s1);
      StillKnown(f, m2, m3, p.c, l.c, names, s1, p.v);
      ArrivesTrans(f, m, m1, m2, c, a.c, p.c, names, s1, s1);
      ArrivesTrans(f, m, m2, m3, c, p.c, l.c, names, s1, s1);
      m' := IndexRuns(e, c, l, p.v, q, f, m, m3, s, s1, names, x, n);
    }
  }

  // The rest, from where the length is known.
  lemma {:induction false} IndexRuns(e: Expr, c: Code, l: Piece, p: Operand, q: Piece, f: Code, m: Machine, m3: Machine,
                                     s: State, s1: State, names: Names, x: int, n: nat) returns (m': Machine)
    requires e.IndexingExpr? && l.c.Open() && Known(l.v, l.c) && Known(p, l.c) && c.regs <= l.c.regs
    requires Arrives(f, m, m3, c, l.c, names, s1) && m3.Of(l.v) == Int(n) && m3.Of(p) == Word(x)
    requires var i := Gen(e.idx, l.c, names); q == CheckBounds(i.c, p, l.v, i.v) && Grown(q.c, f) && Builds(i.c, q.c)
    requires Eval(e.arr, s) == Value(x, s1) && s1.HasArray(x) && n == |s1.Items(x)| < TWO63 - 1
    ensures match Locate(e, s)
            case Value(place, s') =>
              && Arrives(f, m, m', c, q.c, names, s')
              && m'.Of(q.v) == Address(place, names) && m'.prev == q.c.at - 2
            case Failed(code, out) => Goes(f, m, m') && m'.status == Stopped(code) && m'.out == out
            case _ => true
    decreases e, 0
  {
    hide Fits, Framed, Goes, Grown, Builds, Standing, CheckBounds;
    ArrivedFacts(f, m, m3, c, l.c, names, s1);
    FitsPlaced(s1, m3, names);
    EvalLater(e.idx, s1);
    var i := Gen(e.idx, l.c, names);
    m' := FirstRuns(e.idx, l.c, q.c, f, m3, s1, names);
    FollowsAfter(Eval(e.idx, s1), i, f, m, m3, m', c, l.c, names, s1);
    if Eval(e.idx, s1).Value? {
      var s2, k, m4 := Eval(e.idx, s1).s, Eval(e.idx, s1).v, m';
      ArrayStays(s1, s2, x);
      StillKnown(f, m3, m4, l.c, i.c, names, s2, l.v);
      StillKnown(f, m3, m4, l.c, i.c, names, s2, p);
      m' := CheckRuns(i.c, p, l.v, i.v, f, m4, names, s2, x, n, k);
      if 0 <= k < n {
        ArrivesTrans(f, m, m4, m', c, i.c, q.c, names, s2, s2);
      } else {
        GoesOn(f, m, m4, m');
      }
    }
  }

  lemma {:induction false} IndexingRuns(e: Expr, c: Code, f: Code, m: Machine, s: State, names: Names)
    returns (m': Machine)
    requires e.IndexingExpr? && c.Open() && Grown(Gen(e, c, names).c, f) && Standing(c, m) && Fits(s, m, names)
    ensures Follows(Eval(e, s), Gen(e, c, names), f, m, m', c, names)
    decreases e, 2
  {
    hide Fits, Framed, Goes, Grown, Builds, Standing, GenElement, Eval, Locate;
    var p := GenElement(e, c, names);
    GenElementBuilds(e, c, names);
    OpenOf(c, p.c);
    MoreBlocks(c, p.c);
    var l := LoadFrom(p.c, p.v);
    YieldBuilds(p.c, Load(p.c.regs, p.v));
    GrownBack(p.c, l.c, f);
    m' := ElementRuns(e, c, f, m, s, names);
    TargetValue(e, s);
    if Locate(e, s).Value? {
      var s1, m1, place := Locate(e, s).s, m', Locate(e, s).v;
      FitsPlaced(s, m, names);
      LocateLater(e, s);
      ArrivedFacts(f, m, m1, c, p.c, names, s1);
      ReadPlace(s1, m1, names, place);
      m' := LoadArrives(p.c, p.v, f, m1, names, s1, s1.Get(place).value);
      ArrivesTrans(f, m, m1, m', c, p.c, l.c, names, s1, s1);
    }
  }

  // ----- array literals -----

  lemma {:induction false} ArrayRuns(e: Expr, c: Code, f: Code, m: Machine, s: State, names: Names)
    returns (m': Machine)
    requires e.ArrayExpr? && c.Open() && Grown(Gen(e, c, names).c, f) && Standing(c, m) && Fits(s, m, names)
    ensures Follows(Eval(e, s), Gen(e, c, names), f, m, m', c, names)
    decreases e, 2
  {
    hide Fits, Framed, Goes, Grown, Builds, Standing, GenItems, EvalItems;
    var es, n := e.elements, |e.elements|;
    var p := NewWords(c, Const(n + 1));
    YieldBuilds(c, Calloc(c.regs, Const(n + 1)));
    OpenOf(c, p.c);
    var c1 := p.c.Emit(Store(Const(n), p.v));
    EmitTouches(p.c, Store(Const(n), p.v));
    OpenOf(p.c, c1);
    MoreBlocks(p.c, c1);
    var c2 := GenItems(es, 0, p.v, c1, names);
    GenItemsBuilds(es, 0, p.v, c1, names);
    OpenOf(c1, c2);
    MoreBlocks(c1, c2);
    var q := AsInt(c2, p.v);
    YieldBuilds(c2, PtrToInt(c2.regs, p.v));
    GrownBack(c2, q.c, f);
    GrownBack(c1, c2, f);
    m' := m;
    if n < TWO63 - 1 {
      ArrayArrives(c, Const(n + 1), Const(n), f, m, names, s, n);
      var m1, s1, a := AfterAlloc(m, c.regs, n + 1, n), s.NewArray(n), s.next;
      ArrivedFacts(f, m, m1, c, c1, names, s1);
      FitsPlaced(s, m, names);
      LaterNew(s, n, 0);
      m' := ItemsRun(es, 0, p.v, c1, f, m1, s1, names, a);
      if EvalItems(es, 0, a, s1).Value? {
        var m2, s2 := m', EvalItems(es, 0, a, s1).s;
        StillKnown(f, m1, m2, c1, c2, names, s2, p.v);
        ArrivedFacts(f, m1, m2, c1, c2, names, s2);
        m' := NumberArrives(c2, p.v, f, m2, names, s2, a);
        ArrivesTrans(f, m1, m2, m', c1, c2, q.c, names, s2, s2);
      }
      FollowsAfter(EvalItems(es, 0, a, s1), q, f, m, m1, m', c, c1, names, s1);
    }
  }

  lemma {:induction false} ItemsRun(es: seq<Expr>, i: nat, p: Operand, c: Code, f: Code, m: Machine, s: State,
                                    names: Names, a: int)
    returns (m': Machine)
    requires c.Open() && Grown(GenItems(es, i, p, c, names), f) && Standing(c, m) && Fits(s, m, names)
    requires Known(p, c) && m.Of(p) == Word(a) && s.HasArray(a) && |s.Items(a)| == |es|
    ensures match EvalItems(es, i, a, s)
            case Value(v, s') => v == a && Arrives(f, m, m', c, GenItems(es, i, p, c, names), names, s')
            case Failed(code, out) => Goes(f, m, m') && m'.status == Stopped(code) && m'.out == out
            case _ => true
    decreases es, if i < |es| then |es| - i else 0
  {
    hide Fits, Framed, Goes, Grown, Builds, Standing, Arrives, Eval, Gen, Later, Placed;
    if i >= |es| {
      ArrivesAt(f, m, c, names, s);
      m' := m;
    } else {
      var el := Gen(es[i], c, names);
      GenBuilds(es[i], c, names);
      OpenOf(c, el.c);
      var q := At(el.c, p, Const(i + 1));
      YieldBuilds(el.c, Gep(el.c.regs, p, Const(i + 1)));
      OpenOf(el.c, q.c);
      var c1 := q.c.Emit(Store(el.v, q.v));
      EmitTouches(q.c, Store(el.v, q.v));
      OpenOf(q.c, c1);
      var c2 := GenItems(es, i + 1, p, c1, names);
      GenItemsBuilds(es, i + 1, p, c1, names);
      BuildsTrans(el.c, q.c, c1);
      BuildsTrans(el.c, c1, c2);
      BuildsTrans(q.c, c1, c2);
      GrownBack(c1, c2, f);
      GrownBack(q.c, c2, f);
      MoreBlocks(c, el.c);
      MoreBlocks(el.c, q.c);
      MoreBlocks(q.c, c1);
      m' := FirstRuns(es[i], c, c2, f, m, s, names);
      if Eval(es[i], s).Value? {
        var x, s1, m1 := Eval(es[i], s).v, Eval(es[i], s).s, m';
        FitsPlaced(s, m, names);
        EvalLater(es[i], s);
        ArrayStays(s, s1, a);
        StillKnown(f, m, m1, c, el.c, names, s1, p);
        var m3 := PutItem(el, p, Const(i + 1), f, m1, s1, names, a, i, x);
        var s2 := s1.Set(ItemAt(a, i), x);
        ArrivesTrans(f, m, m1, m3, c, el.c, c1, names, s1, s2);
        StillKnown(f, m, m3, c, c1, names, s2, p);
        ArrivedFacts(f, m, m3, c, c1, names, s2);
        m' := ItemsRun(es, i + 1, p, c1, f, m3, s2, names, a);
        match EvalItems(es, i + 1, a, s2)
        case Value(_, s') => ArrivesTrans(f, m, m3, m', c, c1, c2, names, s2, s');
        case Failed(_, _) =>
          GoesThere(f, m, m3, c, c1, names, s2);
          GoesOn(f, m, m3, m');
        case _ =>
      }
    }
  }

  // The value of an element is stored behind the length of its array.
  lemma PutItem(el: Piece, p: Operand, idx: Operand, f: Code, m: Machine, s: State, names: Names, a: int, i: nat,
                x: int)
    returns (m': Machine)
    requires el.c.Open() && Standing(el.c, m) && Fits(s, m, names) && m.Of(p) == Word(a) && m.Of(idx) == Int(i + 1)
    requires m.Of(el.v) == Int(x)
    requires Known(el.v, el.c) && s.HasArray(a) && i < |s.Items(a)|
    requires var q := At(el.c, p, idx); Grown(q.c, f) && Grown(q.c.Emit(Store(el.v, q.v)), f)
    ensures var q := At(el.c, p, idx);
            Arrives(f, m, m', el.c, q.c.Emit(Store(el.v, q.v)), names, s.Set(ItemAt(a, i), x))
  {
    hide Fits, Framed, Goes, Grown, Builds, Standing;
    var q := At(el.c, p, idx);
    YieldBuilds(el.c, Gep(el.c.regs, p, idx));
    OpenOf(el.c, q.c);
    MoreBlocks(el.c, q.c);
    var m1 := ItemArrives(el.c, p, idx, f, m, names, s, a, i + 1);
    ArrivedFacts(f, m, m1, el.c, q.c, names, s);
    StillKnown(f, m, m1, el.c, q.c, names, s, el.v);
    StoreArrives(q.c, el.v, q.v, f, m1, names, s, ItemAt(a, i), x);
    m' := m1.Write(Word(a + 1 + i), x).Advance();
    ArrivesTrans(f, m, m1, m', el.c, q.c, q.c.Emit(Store(el.v, q.v)), names, s, s.Set(ItemAt(a, i), x));
  }

  // ----- the conditional expression -----

  lemma {:induction false} TernaryRuns(e: Expr, c: Code, f: Code, m: Machine, s: State, names: Names)
    returns (m': Machine)
    requires e.TernaryExpr? && c.Open() && Grown(Gen(e, c, names).c, f) && Standing(c, m) && Fits(s, m, names)
    ensures Follows(Eval(e, s), Gen(e, c, names), f, m, m', c, names)
    decreases e, 2
  {
    hide Fits, Framed, Goes, Grown, Builds, Standing, Split;
    var p := Gen(e.condition, c, names);
    GenBuilds(e.condition, c, names);
    var b, n := Split(p), |p.c.blocks|;
    SplitSize(p);
    ThenOpen(c, p);
    var t := Gen(e.thenE, b.MoveTo(n), names);
    GenBuilds(e.thenE, b.MoveTo(n), names);
    ElseOpen(c, p, t.c);
    var c1 := Enter(t.c.Terminate(Br(n + 2)), n + 1);
    var g := Gen(e.elseE, c1, names);
    GenBuilds(e.elseE, c1, names);
    BranchBuilds(c, p, t.c, g.c);
    var c2 := Enter(g.c.Terminate(Br(n + 2)), n + 2);
    var r := Yield(c2, Phi(c2.regs, [(t.v, t.c.at), (g.v, g.c.at)]));
    OpenOf(c, c2);
    YieldBuilds(c2, Phi(c2.regs, [(t.v, t.c.at), (g.v, g.c.at)]));
    GrownBack(c2, r.c, f);
    BranchGrown(c, p, t.c, g.c, f);
    OpenOf(c, p.c);
    MoreBlocks(c, p.c);
    m' := GenRuns(e.condition, c, f, m, s, names);
    if Eval(e.condition, s).Value? {
      var s1, m1, x := Eval(e.condition, s).s, m', Eval(e.condition, s).v;
      ArrivedFacts(f, m, m1, c, p.c, names, s1);
      var m2 := SplitRuns(c, p, t.c, f, m1, s1, names, x);
      if x != 0 {
        ArrivedFacts(f, m1, m2, p.c, b.MoveTo(n), names, s1);
        m' := GenRuns(e.thenE, b.MoveTo(n), f, m2, s1, names);
        if Eval(e.thenE, s1).Value? {
          m' := MergeRuns(b.MoveTo(n), t, r.v, c2, [(t.v, t.c.at), (g.v, g.c.at)], f, m2, m', names,
                          Eval(e.thenE, s1).s, Eval(e.thenE, s1).v);
        }
        FollowsAfter(Eval(e.thenE, s1), r, f, m1, m2, m', p.c, b.MoveTo(n), names, s1);
      } else {
        ArrivedFacts(f, m1, m2, p.c, c1, names, s1);
        m' := GenRuns(e.elseE, c1, f, m2, s1, names);
        if Eval(e.elseE, s1).Value? {
          m' := MergeRuns(c1, g, r.v, c2, [(t.v, t.c.at), (g.v, g.c.at)], f, m2, m', names, Eval(e.elseE, s1).s,
                          Eval(e.elseE, s1).v);
        }
        FollowsAfter(Eval(e.elseE, s1), r, f, m1, m2, m', p.c, c1, names, s1);
      }
      FollowsAfter(Eval(e, s), r, f, m, m1, m', c, p.c, names, s1);
    }
  }

  // All of the code of two branches is in the finished code, and they end in different blocks.
  lemma BranchGrown(c: Code, p: Piece, t: Code, g: Code, f: Code)
    requires Builds(c, p.c) && Builds(Split(p).MoveTo(|p.c.blocks|), t)
    requires var c1 := Enter(t.Terminate(Br(|p.c.blocks| + 2)), |p.c.blocks| + 1); Builds(c1, g)
    requires Grown(Enter(g.Terminate(Br(|p.c.blocks| + 2)), |p.c.blocks| + 2), f)
    ensures var n := |p.c.blocks|;
            && Grown(g.Terminate(Br(n + 2)), f) && Grown(g, f) && Grown(t.Terminate(Br(n + 2)), f) && Grown(t, f)
            && Grown(Split(p), f) && Grown(p.c, f) && t.at != g.at && t.Open() && g.Open()
            && p.c.regs <= Split(p).regs <= t.regs <= g.regs
  {
    hide Split, Grown;
    var n := |p.c.blocks|;
    var b, c1 := Split(p).MoveTo(n), Enter(t.Terminate(Br(n + 2)), n + 1);
    SplitTouches(p);
    NextBranch(b, t, n + 2, n + 1);
    LeaveTouches(g, Br(n + 2), n + 2);
    TerminateTouches(g, Br(n + 2));
    TerminateTouches(t, Br(n + 2));
    SameBlocks(g.Terminate(Br(n + 2)), Enter(g.Terminate(Br(n + 2)), n + 2), f);
    GrownTrans(g, g.Terminate(Br(n + 2)), f);
    GrownTrans(c1, g, f);
    SameBlocks(t.Terminate(Br(n + 2)), c1, f);
    GrownTrans(t, t.Terminate(Br(n + 2)), f);
    GrownTrans(b, t, f);
    SameBlocks(Split(p), b, f);
    GrownTrans(p.c, Split(p), f);
  }

  lemma SameBlocks(c: Code, c': Code, f: Code)
    requires c'.blocks == c.blocks && Grown(c', f)
    ensures Grown(c, f)
  {
    forall b | 0 <= b < |c.blocks| ensures Extended(c.BlockAt(b), f.BlockAt(b)) {
      assert c'.BlockAt(b) == c.BlockAt(b);
    }
  }

  // The condition sends the machine to the start of the branch it selects.
  lemma SplitRuns(c: Code, p: Piece, t: Code, f: Code, m: Machine, s: State, names: Names, x: int) returns (m': Machine)
    requires Builds(c, p.c) && Standing(p.c, m) && Fits(s, m, names) && m.Of(p.v) == Int(x) && Grown(Split(p), f)
    requires Builds(Split(p).MoveTo(|p.c.blocks|), t)
    ensures var n := |p.c.blocks|;
            && (x != 0 ==> Arrives(f, m, m', p.c, Split(p).MoveTo(n), names, s))
            && (x == 0 ==> Arrives(f, m, m', p.c, Enter(t.Terminate(Br(n + 2)), n + 1), names, s))
  {
    hide Fits, Framed, Goes, Grown;
    var n := |p.c.blocks|;
    SplitTouches(p);
    var c1 := Enter(t.Terminate(Br(n + 2)), n + 1);
    NextBranch(Split(p).MoveTo(n), t, n + 2, n + 1);
    var k := Test(p.c, NE, p.v, Const(0));
    YieldBuilds(p.c, ICmp(p.c.regs, NE, p.v, Const(0)));
    var d := ThreeBlocks(k.c);
    ThreeBlocksTouches(k.c);
    TerminateTouches(d, CondBr(k.v, n, n + 1));
    GrownTrans(d, Split(p), f);
    GrownTrans(k.c, d, f);
    var m1 := TestArrives(NE, p.c, p.v, Const(0), f, m, names, s, x, 0);
    var to := if x != 0 then Split(p).MoveTo(n) else c1;
    JumpArrives(d, CondBr(k.v, n, n + 1), to, f, m1, names, s);
    m' := m1.Jump(to.at);
    ArrivesTrans(f, m, m1, m', p.c, d, to, names, s, s);
  }

  // The end of a branch leads to the phi, which takes the branch's own value.
  lemma MergeRuns(b: Code, t: Piece, v: Operand, c2: Code, incoming: seq<(Operand, nat)>, f: Code, m: Machine,
                  m1: Machine,
                  names: Names, s: State, x: int) returns (m': Machine)
    requires Arrives(f, m, m1, b, t.c, names, s) && m1.Of(t.v) == Int(x) && t.c.Open() && b.regs <= t.c.regs <= c2.regs
    requires Grown(t.c.Terminate(Br(c2.at)), f) && c2.Open() && c2.End() == 0
    requires Grown(Yield(c2, Phi(c2.regs, incoming)).c, f)
    requires Chosen(incoming, t.c.at) == Some(t.v) && v == Reg(c2.regs)
    ensures Arrives(f, m, m', b, Yield(c2, Phi(c2.regs, incoming)).c, names, s) && m'.Of(v) == Int(x)
  {
    hide Framed, Goes, Grown, Fits;
    ArrivedFacts(f, m, m1, b, t.c, names, s);
    JumpArrives(t.c, Br(c2.at), c2, f, m1, names, s);
    var m2 := m1.Jump(c2.at);
    YieldArrives(c2, Phi(c2.regs, incoming), f, m2, names, s, Int(x));
    m' := m2.Put(c2.regs, Int(x));
    ArrivesTrans(f, m1, m2, m', t.c, c2, Yield(c2, Phi(c2.regs, incoming)).c, names, s, s);
    ArrivesTrans(f, m, m1, m', b, t.c, Yield(c2, Phi(c2.regs, incoming)).c, names, s, s);
  }

  // ----- array-of expressions -----

  lemma FillStartRuns(n: Piece, f: Code, m: Machine, names: Names, s: State, k: int) returns (m': Machine, j: nat)
    requires n.c.Open() && Known(n.v, n.c) && Standing(n.c, m) && Fits(s, m, names) && m.Of(n.v) == Int(k)
    requires 0 <= k < TWO63 - 1
    requires Grown(FillStart(n).start, f)
    ensures var l := FillStart(n);
            && Arrives(f, m, m', n.c, l.start, names, s.NewArray(k)) && m'.Of(n.v) == Int(k)
            && m'.Of(l.arr) == Word(s.next) && m'.Of(l.index) == Local(j)
            && |m.slots| <= j < |m'.slots| && m'.slots[j] == 1 && j !in names.Values
  {
    hide Fits, Framed, Goes, Grown, Builds;
    var items := Arith(n.c, IAdd, n.v, Const(1));
    YieldBuilds(n.c, Binary(n.c.regs, IAdd, n.v, Const(1)));
    OpenOf(n.c, items.c);
    var p := NewWords(items.c, items.v);
    YieldBuilds(items.c, Calloc(items.c.regs, items.v));
    OpenOf(items.c, p.c);
    var b := p.c.Emit(Store(n.v, p.v));
    EmitTouches(p.c, Store(n.v, p.v));
    OpenOf(p.c, b);
    BuildsTrans(items.c, p.c, b);
    var index := Yield(b, Alloca(b.regs));
    YieldBuilds(b, Alloca(b.regs));
    OpenOf(b, index.c);
    var c1 := index.c.Emit(Store(Const(1), index.v));
    EmitTouches(index.c, Store(Const(1), index.v));
    OpenOf(index.c, c1);
    var condB := |c1.blocks|;
    AheadGrown(c1, Br(condB), condB, f);
    GrownBack(index.c, c1, f);
    GrownBack(b, index.c, f);
    GrownBack(items.c, b, f);
    MoreBlocks(n.c, items.c);
    MoreBlocks(items.c, b);
    MoreBlocks(b, index.c);
    MoreBlocks(index.c, c1);
    var m1 := ArithArrives(IAdd, n.c, n.v, Const(1), f, m, names, s, k, 1);
    ArrivedFacts(f, m, m1, n.c, items.c, names, s);
    StillKnown(f, m, m1, n.c, items.c, names, s, n.v);
    ArrayArrives(items.c, items.v, n.v, f, m1, names, s, k);
    var m2, s1 := AfterAlloc(m1, items.c.regs, k + 1, k), s.NewArray(k);
    ArrivesTrans(f, m, m1, m2, n.c, items.c, b, names, s, s1);
    ArrivedFacts(f, m, m2, n.c, b, names, s1);
    SlotsGrow(f, m, m2, n.c, b, names, s1);
    j := |m2.slots|;
    var m3 := CounterArrives(b, f, m2, names, s1);
    StillKnown(f, m2, m3, b, c1, names, s1, p.v);
    ArrivesTrans(f, m, m2, m3, n.c, b, c1, names, s1, s1);
    ArrivedFacts(f, m, m3, n.c, c1, names, s1);
    var to := FillStart(n).start;
    AheadStanding(c1, m3);
    JumpArrives(Ahead(c1), Br(condB), to, f, m3, names, s1);
    m' := m3.Jump(condB);
    ArrivesTrans(f, m, m3, m', n.c, Ahead(c1), to, names, s1, s1);
    StillKnown(f, m, m', n.c, to, names, s1, n.v);
  }

  lemma SlotsGrow(f: Code, m: Machine, m': Machine, c: Code, c': Code, names: Names, s: State)
    requires Arrives(f, m, m', c, c', names, s)
    ensures |m.slots| <= |m'.slots|
  {
  }

  lemma AheadGrown(c: Code, t: Terminator, b: nat, f: Code)
    requires c.Open() && Grown(Fork(c, t).MoveTo(b), f) && b == |c.blocks|
    ensures Grown(c, f) && Grown(Ahead(c).Terminate(t), f) && Ahead(c).Open() && Ahead(c).regs == c.regs
    ensures Fork(c, t).MoveTo(b).End() == 0
  {
    ForkTouches(c, t, b);
    SameBlocks(Fork(c, t), Fork(c, t).MoveTo(b), f);
    GrownTrans(c, Fork(c, t).MoveTo(b), f);
  }

  lemma AheadStanding(c: Code, m: Machine)
    requires c.Open() && Standing(c, m)
    ensures Standing(Ahead(c), m)
  {
  }

  /** What holds at the header of the loop, before the i-th item. */
  ghost predicate FillReady(n: Piece, m: Machine, names: Names, s: State, a: int, i: nat, k: nat, j: nat) {
    var l := FillStart(n);
    && Standing(l.start, m) && Fits(s, m, names) && m.Of(n.v) == Int(k) && m.Of(l.arr) == Word(a)
    && m.Of(l.index) == Local(j)
    && j < |m.slots| && m.slots[j] == i + 1 && j !in names.Values
    && s.HasArray(a) && |s.Items(a)| == k < TWO63 - 1 && i <= k
  }

  // All of the loop's code is in the finished code.
  lemma FillGrown(n: Piece, el: Piece, f: Code)
    requires n.c.Open() && Known(n.v, n.c) && Builds(FillBody(n), el.c) && Grown(FillEnd(n, el), f)
    ensures var l := FillStart(n);
            && Grown(FillNext(n, el).Terminate(Br(l.start.at)), f) && Grown(FillNext(n, el), f)
            && Grown(FillBody(n), f) && Grown(LoopTest(l.start, l.index, SLE, n.v), f) && Grown(l.start, f)
            && l.start.Open() && l.start.End() == 0 && FillBody(n).End() == 0 && FillEnd(n, el).End() == 0
  {
    hide Grown, FillStart, FillBody, FillNext;
    FillStartBuilds(n);
    FillBodyBuilds(n);
    FillNextBuilds(n, el);
    FillTailBuilds(n, el);
    var l, x := FillStart(n), FillNext(n, el);
    SameBlocks(x.Terminate(Br(l.start.at)), FillEnd(n, el), f);
    OpenOf(el.c, x);
    TerminateTouches(x, Br(l.start.at));
    GrownTrans(x, x.Terminate(Br(l.start.at)), f);
    GrownBack(FillBody(n), x, f);
    FillBodyIs(n);
    SameBlocks(LoopTest(l.start, l.index, SLE, n.v), FillBody(n), f);
    GrownTrans(l.start, FillBody(n), f);
  }

  lemma FillBodyIs(n: Piece)
    ensures var l := FillStart(n); FillBody(n) == LoopTest(l.start, l.index, SLE, n.v).MoveTo(l.start.at + 1)
    ensures FillCounter(n) == Reg(FillStart(n).start.regs)
  {
  }

  // From the value of an element back to the header, with the element in its place.
  lemma FillBack(n: Piece, el: Piece, f: Code, m: Machine, names: Names, s: State, a: int, i: nat, k: nat, j: nat,
                 x: int)
    returns (m': Machine)
    requires n.c.Open() && Known(n.v, n.c) && Builds(FillBody(n), el.c) && Known(el.v, el.c) && Grown(FillEnd(n, el), f)
    requires var l := FillStart(n);
             && Standing(el.c, m) && Fits(s, m, names) && m.Of(el.v) == Int(x) && m.Of(l.arr) == Word(a)
             && m.Of(l.index) == Local(j)
             && m.Of(FillCounter(n)) == Int(i + 1) && j < |m.slots| && j !in names.Values
    requires s.HasArray(a) && |s.Items(a)| == k < TWO63 - 1 && i < k
    ensures Loops(f, m, m', el.c, FillStart(n).start, names, s.Set(ItemAt(a, i), x), j) && j < |m'.slots|
    ensures m'.slots[j] == i + 2
  {
    hide Fits, Framed, Goes, Grown, Builds, FillStart, FillBody, FillEnd, FillCounter;
    var l := FillStart(n);
    FillGrown(n, el, f);
    FillNextBuilds(n, el);
    FillBodyBuilds(n);
    MoreBlocks(FillBody(n), el.c);
    OpenOf(FillBody(n), el.c);
    var counter, next := FillCounter(n), FillNext(n, el);
    var q := At(el.c, l.arr, counter);
    var c1 := q.c.Emit(Store(el.v, q.v));
    GrownBack(q.c, next, f);
    GrownBack(c1, next, f);
    OpenOf(el.c, c1);
    MoreBlocks(el.c, c1);
    var m1 := PutItem(el, l.arr, counter, f, m, s, names, a, i, x);
    var s1 := s.Set(ItemAt(a, i), x);
    ArrivedFacts(f, m, m1, el.c, c1, names, s1);
    StillKnown(f, m, m1, el.c, c1, names, s1, counter);
    StillKnown(f, m, m1, el.c, c1, names, s1, l.index);
    SlotStays(f, m, m1, el.c, c1, names, s1, j);
    var m3 := CountUp(c1, counter, l.index, next, f, m1, names, s1, i, j);
    LoopsTrans(f, m, m1, m3, el.c, c1, next, names, s1, s1, j);
    LoopedFacts(f, m1, m3, c1, next, names, s1, j);
    OpenOf(el.c, next);
    MoreBlocks(c1, next);
    JumpArrives(next, Br(l.start.at), l.start, f, m3, names, s1);
    m' := m3.Jump(l.start.at);
    MoreBlocks(el.c, next);
    LoopsTrans(f, m, m3, m', el.c, next, l.start, names, s1, s1, j);
  }

  // The counter goes up by one.
  lemma CountUp(c: Code, counter: Operand, index: Operand, next: Code, f: Code, m: Machine, names: Names, s: State,
                i: nat, j: nat)
    returns (m': Machine)
    requires c.Open() && Standing(c, m) && Fits(s, m, names) && m.Of(counter) == Int(i + 1) && i + 1 < TWO63 - 1
    requires m.Of(index) == Local(j) && Known(index, c) && j < |m.slots| && j !in names.Values
    requires next == (var n := Arith(c, IAdd, counter, Const(1)); n.c.Emit(Store(n.v, index))) && Grown(next, f)
    ensures Loops(f, m, m', c, next, names, s, j) && j < |m'.slots| && m'.slots[j] == i + 2
  {
    hide Fits, Goes, Grown;
    var n := Arith(c, IAdd, counter, Const(1));
    YieldBuilds(c, Binary(c.regs, IAdd, counter, Const(1)));
    EmitTouches(n.c, Store(n.v, index));
    GrownBack(n.c, next, f);
    var m1 := ArithArrives(IAdd, c, counter, Const(1), f, m, names, s, i + 1, 1);
    StillKnown(f, m, m1, c, n.c, names, s, index);
    SlotStays(f, m, m1, c, n.c, names, s, j);
    CounterStored(n.c, n.v, index, f, m1, names, s, j, i + 2);
    m' := m1.Write(Local(j), i + 2).Advance();
    LoopsTrans(f, m, m1, m', c, n.c, next, names, s, s, j);
  }

  lemma GoesThere(f: Code, m: Machine, m': Machine, c: Code, c': Code, names: Names, s: State)
    requires Arrives(f, m, m', c, c', names, s)
    ensures Goes(f, m, m')
  {
  }

  // One round, from the loop's header back to it.
  lemma {:induction false} FillRound(n: Piece, e2: Expr, f: Code, m: Machine, m1: Machine, names: Names, s: State,
                                     a: int, i: nat, k: nat, j: nat) returns (m': Machine)
    requires n.c.Open() && Known(n.v, n.c) && FillReady(n, m, names, s, a, i, k, j) && i < k
    requires FillBody(n).Open() && Grown(FillEnd(n, Gen(e2, FillBody(n), names)), f)
    requires Arrives(f, m, m1, FillStart(n).start, FillBody(n), names, s) && m1.Of(FillCounter(n)) == Int(i + 1)
    ensures var l := FillStart(n).start;
            match Eval(e2, s)
            case Value(x, s1) =>
              var s2 := s1.Set(ItemAt(a, i), x);
              Loops(f, m, m', l, l, names, s2, j) && FillReady(n, m', names, s2, a, i + 1, k, j)
            case Failed(code, out) => Goes(f, m, m') && m'.status == Stopped(code) && m'.out == out
            case _ => true
    decreases e2, 5
  {
    hide Fits, Framed, Goes, Grown, Builds, FillStart, FillBody, FillEnd, FillNext, FillCounter, Loops, Gen, Eval;
    hide Later, Placed;
    hide Arrives, Standing;
    var l, b := FillStart(n), FillBody(n);
    var el := Gen(e2, b, names);
    GenBuilds(e2, b, names);
    FillStartBuilds(n);
    FillGrown(n, el, f);
    FillBodyIs(n);
    FillBodyBuilds(n);
    ArrivedFacts(f, m, m1, l.start, b, names, s);
    FillNextBuilds(n, el);
    m' := FirstRuns(e2, b, FillNext(n, el), f, m1, s, names);
    if Eval(e2, s).Value? {
      var x, s1, m2 := Eval(e2, s).v, Eval(e2, s).s, m';
      FitsPlaced(s, m, names);
      EvalLater(e2, s);
      ArrayStays(s, s1, a);
      MoreBlocks(b, el.c);
      ArrivesTrans(f, m, m1, m2, l.start, b, el.c, names, s, s1);
      StillKnown(f, m, m2, l.start, el.c, names, s1, l.arr);
      StillKnown(f, m, m2, l.start, el.c, names, s1, l.index);
      StillKnown(f, m1, m2, b, el.c, names, s1, FillCounter(n));
      SlotStays(f, m, m2, l.start, el.c, names, s1, j);
      ArrivedFacts(f, m, m2, l.start, el.c, names, s1);
      var m3 := FillBack(n, el, f, m2, names, s1, a, i, k, j, x);
      var s2 := s1.Set(ItemAt(a, i), x);
      LoopsTrans(f, m, m2, m3, l.start, el.c, l.start, names, s1, s2, j);
      LoopedFacts(f, m, m3, l.start, l.start, names, s2, j);
      LoopsKnown(f, m, m3, l.start, l.start, names, s2, j, l.arr);
      LoopsKnown(f, m, m3, l.start, l.start, names, s2, j, l.index);
      KnownStill(n.v, n.c, l.start);
      LoopsKnown(f, m, m3, l.start, l.start, names, s2, j, n.v);
      m' := m3;
    } else if Eval(e2, s).Failed? {
      GoesThere(f, m, m1, l.start, b, names, s);
      GoesOn(f, m, m1, m');
    }
  }

  lemma {:induction false} FillLoop(n: Piece, e2: Expr, f: Code, m: Machine, names: Names, s: State, a: int, i: nat,
                                    k: nat, j: nat)
    returns (m': Machine)
    requires n.c.Open() && Known(n.v, n.c) && FillReady(n, m, names, s, a, i, k, j)
    requires FillBody(n).Open() && Grown(FillEnd(n, Gen(e2, FillBody(n), names)), f)
    ensures match EvalFill(e2, i, k, a, s)
            case Value(v, s') =>
              v == a && Loops(f, m, m', FillStart(n).start, FillEnd(n, Gen(e2, FillBody(n), names)), names, s', j)
            case Failed(code, out) => Goes(f, m, m') && m'.status == Stopped(code) && m'.out == out
            case _ => true
    decreases e2, 6 + if i < k then k - i else 0
  {
    hide Fits, Framed, Goes, Grown, Builds, FillStart, FillBody, FillEnd, FillNext, FillCounter, Loops, Gen, Eval;
    hide Later, Placed;
    hide Arrives, Standing;
    var l, b := FillStart(n), FillBody(n);
    var el := Gen(e2, b, names);
    GenBuilds(e2, b, names);
    FillStartBuilds(n);
    FillBodyBuilds(n);
    FillGrown(n, el, f);
    FillEndAt(n, el);
    FillBodyIs(n);
    var end := FillEnd(n, el);
    var m1 := LoopTestRuns(l.start, l.index, SLE, n.v, b, end, f, m, names, s, i + 1, k);
    if i >= k {
      m' := m1;
      LoopsOnce(f, m, m1, l.start, end, names, s, j);
    } else {
      m' := FillRound(n, e2, f, m, m1, names, s, a, i, k, j);
      if Eval(e2, s).Value? {
        var m3, s2 := m', Eval(e2, s).s.Set(ItemAt(a, i), Eval(e2, s).v);
        m' := FillLoop(n, e2, f, m3, names, s2, a, i + 1, k, j);
        match EvalFill(e2, i + 1, k, a, s2)
        case Value(_, s') => LoopsTrans(f, m, m3, m', l.start, l.start, end, names, s2, s', j);
        case Failed(_, _) =>
          LoopsGo(f, m, m3, l.start, l.start, names, s2, j);
          GoesOn(f, m, m3, m');
        case _ =>
      }
    }
  }

  lemma KnownStill(v: Operand, c: Code, c': Code)
    requires Known(v, c) && c.regs <= c'.regs
    ensures Known(v, c')
  {
  }

  lemma FillEndAt(n: Piece, el: Piece)
    ensures FillEnd(n, el).at == FillStart(n).start.at + 2
  {
  }

  lemma LoopsOnce(f: Code, m: Machine, m': Machine, c: Code, c': Code, names: Names, s: State, j: nat)
    requires Arrives(f, m, m', c, c', names, s)
    ensures Loops(f, m, m', c, c', names, s, j)
  {
  }

  lemma LoopsGo(f: Code, m: Machine, m': Machine, c: Code, c': Code, names: Names, s: State, j: nat)
    requires Loops(f, m, m', c, c', names, s, j)
    ensures Goes(f, m, m')
  {
  }

  lemma {:induction false} ArrayOfRuns(e: Expr, c: Code, f: Code, m: Machine, s: State, names: Names)
    returns (m': Machine)
    requires e.ArrayOfExpr? && c.Open() && Grown(Gen(e, c, names).c, f) && Standing(c, m) && Fits(s, m, names)
    ensures Follows(Eval(e, s), Gen(e, c, names), f, m, m', c, names)
    decreases e, 2
  {
    hide Fits, Framed, Goes, Grown, Builds, Standing, FillStart, FillBody, FillEnd;
    var n := Gen(e.e1, c, names);
    GenBuilds(e.e1, c, names);
    OpenOf(c, n.c);
    var b, l := FillBody(n), FillStart(n);
    FillBodyBuilds(n);
    FillStartBuilds(n);
    var el := Gen(e.e2, b, names);
    GenBuilds(e.e2, b, names);
    FillTailBuilds(n, el);
    var x := FillEnd(n, el);
    var r := AsInt(x, l.arr);
    OpenOf(n.c, x);
    YieldBuilds(x, PtrToInt(x.regs, l.arr));
    m' := FirstRuns(e.e1, c, r.c, f, m, s, names);
    GrownBack(x, r.c, f);
    FillGrown(n, el, f);
    if Eval(e.e1, s).Value? && 0 <= Eval(e.e1, s).v < TWO63 - 1 {
      var s1, m1, k := Eval(e.e1, s).s, m', Eval(e.e1, s).v;
      var m2, j := FillStartRuns(n, f, m1, names, s1, k);
      var s2, a := s1.NewArray(k), s1.next;
      FitsPlaced(s1, m1, names);
      LaterNew(s1, k, 0);
      ArrivedFacts(f, m1, m2, n.c, l.start, names, s2);
      m' := FillLoop(n, e.e2, f, m2, names, s2, a, 0, k, j);
      match EvalFill(e.e2, 0, k, a, s2)
      case Value(_, s3) =>
        var m3 := m';
        LoopsOut(f, m1, m2, m3, n.c, l.start, x, names, s2, s3, j);
        LoopedFacts(f, m2, m3, l.start, x, names, s3, j);
        LoopsKnown(f, m2, m3, l.start, x, names, s3, j, l.arr);
        m' := NumberArrives(x, l.arr, f, m3, names, s3, a);
        MoreBlocks(n.c, x);
        ArrivesTrans(f, m1, m3, m', n.c, x, r.c, names, s3, s3);
        ArrivesTrans(f, m, m1, m', c, n.c, r.c, names, s1, s3);
      case Failed(_, _) =>
        GoesOn(f, m1, m2, m');
        GoesOn(f, m, m1, m');
      case _ =>
    }
  }
}
