/** The code of a statement has its effects, its errors, and runs on when it does. */
module StmtPreservation {
  import opened TipTypes
  import opened TipLanguage
  import opened Persistence
  import opened Ir
  import opened Emission
  import opened CodeShape
  import opened MachineState
  import opened ExprPreservation

  // ----- targets -----

  /** The pointer of a target is the address of its place. */
  lemma TargetRuns(e: Expr, c: Code, f: Code, m: Machine, s: State, names: Names) returns (m': Machine)
    requires c.Open() && Grown(GenTarget(e, c, names).c, f) && Standing(c, m) && Fits(s, m, names)
    ensures match Locate(e, s)
            case Value(place, s') =>
              Arrives(f, m, m', c, GenTarget(e, c, names).c, names, s')
              && m'.Of(GenTarget(e, c, names).v) == Address(place, names)
            case Failed(code, out) => Goes(f, m, m') && m'.status == Stopped(code) && m'.out == out
            case _ => true
  {
    hide Fits, Framed, Goes, Grown, Builds, Standing, GenElement, Arrives, Eval;
    match e
    case VariableExpr(x) =>
      m' := m;
      ArrivesAt(f, m, c, names, s);
      if x in s.vars { VariableNamed(s, m, names, x); }
    case IndexingExpr(_, _) =>
      var p := GenElement(e, c, names);
      GenElementBuilds(e, c, names);
      OpenOf(c, p.c);
      MoreBlocks(c, p.c);
      var i := Phi(p.c.regs, [(p.v, p.c.at - 2)]);
      YieldBuilds(p.c, i);
      GrownBack(p.c, Yield(p.c, i).c, f);
      m' := ElementRuns(e, c, f, m, s, names);
      if Locate(e, s).Value? {
        var m1, s1, v := m', Locate(e, s).s, Address(Locate(e, s).v, names);
        ArrivedFacts(f, m, m1, c, p.c, names, s1);
        YieldArrives(p.c, i, f, m1, names, s1, v);
        m' := m1.Put(p.c.regs, v);
        ArrivesTrans(f, m, m1, m', c, p.c, Yield(p.c, i).c, names, s1, s1);
      }
    case DeRefExpr(ptr) =>
      var a := Gen(ptr, c, names);
      GenBuilds(ptr, c, names);
      OpenOf(c, a.c);
      var p := AsPointer(a.c, a.v);
      YieldBuilds(a.c, IntToPtr(a.c.regs, a.v));
      m' := FirstRuns(ptr, c, p.c, f, m, s, names);
      if Eval(ptr, s).Value? {
        var m1, s1, x := m', Eval(ptr, s).s, Eval(ptr, s).v;
        m' := PointerArrives(a.c, a.v, f, m1, names, s1, x);
        ArrivesTrans(f, m, m1, m', c, a.c, p.c, names, s1, s1);
      }
    case _ => m' := m;
  }

  /** For every target that weeding accepts: the address that l-value generation yields is where
      the value of the expression is, and the code has the effects of evaluating it. */
  lemma AddressHoldsValue(e: Expr, c: Code, f: Code, m: Machine, s: State, names: Names) returns (m': Machine)
    requires IsTarget(e) && c.Open() && Grown(GenTarget(e, c, names).c, f) && Standing(c, m) && Fits(s, m, names)
    ensures match Eval(e, s)
            case Value(x, s') =>
              && Arrives(f, m, m', c, GenTarget(e, c, names).c, names, s')
              && m'.Read(m'.Of(GenTarget(e, c, names).v)) == Some(x)
            case Failed(code, out) => Goes(f, m, m') && m'.status == Stopped(code) && m'.out == out
            case _ => true
  {
    hide Fits, Framed, Grown, Standing, Goes, Eval, GenTarget;
    TargetValue(e, s);
    m' := TargetRuns(e, c, f, m, s, names);
    match Locate(e, s)
    case Value(place, s') =>
      ArrivedFacts(f, m, m', c, GenTarget(e, c, names).c, names, s');
      if s'.Get(place).Some? { ReadPlace(s', m', names, place); }
    case _ =>
  }

  lemma VariableNamed(s: State, m: Machine, names: Names, x: string)
    requires Fits(s, m, names) && x in s.vars
    ensures x in names
  {
    assert x in s.vars.Keys;
  }

  // ----- statements -----

  /** How the machine gets on: to the end of the code, to the error, or, when the fuel is used
      up, at least so many steps without stopping. */
  ghost predicate Obeys(o: Outcome<()>, f: Code, m: Machine, m': Machine, c: Code, c': Code, names: Names, fuel: nat) {
    match o
    case Value(_, s) => Arrives(f, m, m', c, c', names, s)
    case Failed(code, out) => Goes(f, m, m') && m'.status == Stopped(code) && m'.out == out
    case OutOfFuel => Keeps(f, m, fuel)
    case Undefined => true
  }

  lemma ObeysAfter(o: Outcome<()>, f: Code, m: Machine, m1: Machine, m': Machine,
                   c: Code, c1: Code, c': Code, names: Names, s1: State, fuel: nat)
    requires Arrives(f, m, m1, c, c1, names, s1) && Obeys(o, f, m1, m', c1, c', names, fuel) && c.regs <= c1.regs
    ensures Obeys(o, f, m, m', c, c', names, fuel)
  {
    match o
    case Value(_, s) => ArrivesTrans(f, m, m1, m', c, c1, c', names, s1, s);
    case Failed(_, _) => GoesOn(f, m, m1, m');
    case OutOfFuel => KeepsFrom(f, m, m1, fuel);
    case Undefined =>
  }

  // A target, then what is built on it.
  lemma FirstTarget(e: Expr, c: Code, c2: Code, f: Code, m: Machine, s: State, names: Names) returns (m1: Machine)
    requires c.Open() && Builds(GenTarget(e, c, names).c, c2) && Grown(c2, f) && Standing(c, m) && Fits(s, m, names)
    ensures match Locate(e, s)
            case Value(place, s') =>
              && Arrives(f, m, m1, c, GenTarget(e, c, names).c, names, s')
              && m1.Of(GenTarget(e, c, names).v) == Address(place, names)
              && Standing(GenTarget(e, c, names).c, m1) && Fits(s', m1, names) && Placed(s) && Later(s, s')
              && s'.Get(place).Some?
            case Failed(code, out) => Goes(f, m, m1) && m1.status == Stopped(code) && m1.out == out
            case OutOfFuel => false
            case _ => true
    ensures var p := GenTarget(e, c, names);
            Builds(c, p.c) && p.c.Open() && Grown(p.c, f) && c.regs <= p.c.regs && Known(p.v, p.c)
  {
    hide Fits, Framed, Goes, Grown, Builds, Standing, GenTarget, Locate, Later, Placed;
    GenTargetBuilds(e, c, names);
    var p := GenTarget(e, c, names);
    OpenOf(c, p.c);
    MoreBlocks(c, p.c);
    GrownBack(p.c, c2, f);
    m1 := TargetRuns(e, c, f, m, s, names);
    FitsPlaced(s, m, names);
    LocateLater(e, s);
    EvalHasFuel(e, s);
  }

  // Expressions never run out of fuel.
  lemma {:induction false} EvalHasFuel(e: Expr, s: State)
    ensures Eval(e, s) != OutOfFuel && Locate(e, s) != OutOfFuel
    decreases e, 0
  {
    match e
    case BinaryExpr(_, l, r) => EvalHasFuel(l, s); if Eval(l, s).Value? { EvalHasFuel(r, Eval(l, s).s); }
    case NotExpr(a) => EvalHasFuel(a, s);
    case NegExpr(a) => EvalHasFuel(a, s);
    case TernaryExpr(c, t, g) =>
      EvalHasFuel(c, s);
      if Eval(c, s).Value? { EvalHasFuel(t, Eval(c, s).s); EvalHasFuel(g, Eval(c, s).s); }
    case ArrayExpr(es) => ItemsHaveFuel(es, 0, s.next, s.NewArray(|es|));
    case ArrayOfExpr(e1, e2) =>
      EvalHasFuel(e1, s);
      if Eval(e1, s).Value? && Eval(e1, s).v >= 0 {
        FillHasFuel(e2, 0, Eval(e1, s).v, Eval(e1, s).s.next, Eval(e1, s).s.NewArray(Eval(e1, s).v));
      }
    case ArrayLenExpr(p) => EvalHasFuel(p, s);
    case IndexingExpr(a, i) => EvalHasFuel(a, s); if Eval(a, s).Value? { EvalHasFuel(i, Eval(a, s).s); }
    case AllocExpr(i) => EvalHasFuel(i, s);
    case DeRefExpr(p) => EvalHasFuel(p, s);
    case _ =>
  }

  lemma {:induction false} ItemsHaveFuel(es: seq<Expr>, i: nat, a: int, s: State)
    ensures EvalItems(es, i, a, s) != OutOfFuel
    decreases es, if i < |es| then |es| - i else 0
  {
    if i < |es| {
      EvalHasFuel(es[i], s);
      if Eval(es[i], s).Value? { ItemsHaveFuel(es, i + 1, a, Eval(es[i], s).s.Set(ItemAt(a, i), Eval(es[i], s).v)); }
    }
  }

  lemma {:induction false} FillHasFuel(e: Expr, i: nat, n: nat, a: int, s: State)
    ensures EvalFill(e, i, n, a, s) != OutOfFuel
    decreases e, if i < n then n - i + 1 else 1
  {
    if i < n {
      EvalHasFuel(e, s);
      if Eval(e, s).Value? { FillHasFuel(e, i + 1, n, a, Eval(e, s).s.Set(ItemAt(a, i), Eval(e, s).v)); }
    }
  }

  lemma {:induction false} StmtRuns(st: Stmt, c: Code, f: Code, m: Machine, s: State, names: Names, fuel: nat)
    returns (m': Machine)
    requires c.Open() && Grown(GenStmt(st, c, names), f) && Standing(c, m) && Fits(s, m, names)
    ensures Obeys(Exec(st, s, fuel), f, m, m', c, GenStmt(st, c, names), names, fuel)
    decreases fuel, st, 3
  {
    hide Fits, Framed, Goes, Grown, Builds, Standing, Eval, Gen;
    match st
    case AssignStmt(_, _) => m' := AssignRuns(st, c, f, m, s, names, fuel);
    case UpdateStmt(_, _) => m' := UpdateRuns(st, c, f, m, s, names, fuel);
    case BlockStmt(ss) =>
      if ss == [] {
        NopArrives(c, f, m, s, names);
        m' := m.Advance();
      } else {
        m' := AllRun(ss, 0, c, f, m, s, names, fuel);
      }
    case IfStmt(_, _, _) => m' := IfRuns(st, c, f, m, s, names, fuel);
    case WhileStmt(_, _) => m' := WhileRuns(st, c, f, m, s, names, fuel);
    case ForRangeStmt(_, _, _, _, _) => m' := RangeRuns(st, c, f, m, s, names, fuel);
    case ForEachStmt(_, _, _) => m' := EachRuns(st, c, f, m, s, names, fuel);
    case OutputStmt(_) => m' := OutputRuns(st, c, f, m, s, names, fuel);
    case ErrorStmt(_) => m' := ErrorRuns(st, c, f, m, s, names, fuel);
  }

  lemma NopArrives(c: Code, f: Code, m: Machine, s: State, names: Names)
    requires c.Open() && Grown(c.Emit(Nop), f) && Standing(c, m) && Fits(s, m, names)
    ensures Arrives(f, m, m.Advance(), c, c.Emit(Nop), names, s)
  {
    NextInstr(c, Nop, f, m);
    GoesOne(f, m);
  }

  lemma AssignRuns(st: Stmt, c: Code, f: Code, m: Machine, s: State, names: Names, fuel: nat) returns (m': Machine)
    requires st.AssignStmt? && c.Open() && Grown(GenStmt(st, c, names), f) && Standing(c, m) && Fits(s, m, names)
    ensures Obeys(Exec(st, s, fuel), f, m, m', c, GenStmt(st, c, names), names, fuel)
  {
    hide Fits, Framed, Goes, Grown, Builds, Standing, Eval, Gen, GenTarget, Locate, Later, Placed;
    var p := GenTarget(st.lhs, c, names);
    GenTargetBuilds(st.lhs, c, names);
    OpenOf(c, p.c);
    var v := Gen(st.rhs, p.c, names);
    GenBuilds(st.rhs, p.c, names);
    OpenOf(p.c, v.c);
    var d := v.c.Emit(Store(v.v, p.v));
    EmitTouches(v.c, Store(v.v, p.v));
    BuildsTrans(p.c, v.c, d);
    m' := FirstTarget(st.lhs, c, d, f, m, s, names);
    if Locate(st.lhs, s).Value? {
      var place, s1, m1 := Locate(st.lhs, s).v, Locate(st.lhs, s).s, m';
      m' := FirstRuns(st.rhs, p.c, d, f, m1, s1, names);
      EvalHasFuel(st.rhs, s1);
      match Eval(st.rhs, s1)
      case Value(x, s2) =>
        var m2 := m';
        ThenEvalLater(s, s1, st.rhs);
        PlaceStays(s1, s2, place);
        StillKnown(f, m1, m2, p.c, v.c, names, s2, p.v);
        StoreArrives(v.c, v.v, p.v, f, m2, names, s2, place, x);
        m' := m2.Write(Address(place, names), x).Advance();
        MoreBlocks(p.c, v.c);
        ArrivesTrans(f, m, m1, m2, c, p.c, v.c, names, s1, s2);
        ArrivesTrans(f, m, m2, m', c, v.c, d, names, s2, s2.Set(place, x));
      case Failed(_, _) => GoesThere(f, m, m1, c, p.c, names, s1); GoesOn(f, m, m1, m');
      case _ =>
    }
  }

  lemma UpdateRuns(st: Stmt, c: Code, f: Code, m: Machine, s: State, names: Names, fuel: nat) returns (m': Machine)
    requires st.UpdateStmt? && c.Open() && Grown(GenStmt(st, c, names), f) && Standing(c, m) && Fits(s, m, names)
    ensures Obeys(Exec(st, s, fuel), f, m, m', c, GenStmt(st, c, names), names, fuel)
  {
    hide Fits, Framed, Goes, Grown, Builds, Standing, GenTarget, Locate, Later, Placed, Arrives, Known, Address;
    var p := GenTarget(st.target, c, names);
    GenTargetBuilds(st.target, c, names);
    OpenOf(c, p.c);
    var op := if st.increment then IAdd else ISub;
    var v := LoadFrom(p.c, p.v);
    YieldBuilds(p.c, Load(p.c.regs, p.v));
    OpenOf(p.c, v.c);
    var w := Arith(v.c, op, v.v, Const(1));
    YieldBuilds(v.c, Binary(v.c.regs, op, v.v, Const(1)));
    OpenOf(v.c, w.c);
    var d := w.c.Emit(Store(w.v, p.v));
    EmitTouches(w.c, Store(w.v, p.v));
    BuildsTrans(v.c, w.c, d);
    BuildsTrans(p.c, v.c, d);
    m' := FirstTarget(st.target, c, d, f, m, s, names);
    GrownBack(w.c, d, f);
    GrownBack(v.c, d, f);
    if Locate(st.target, s).Value? {
      var place, s1, m1 := Locate(st.target, s).v, Locate(st.target, s).s, m';
      var x := s1.Get(place).value;
      ReadPlace(s1, m1, names, place);
      var m2 := LoadArrives(p.c, p.v, f, m1, names, s1, x);
      ArrivedFacts(f, m1, m2, p.c, v.c, names, s1);
      var m3 := ArithArrives(op, v.c, v.v, Const(1), f, m2, names, s1, x, 1);
      ArrivedFacts(f, m2, m3, v.c, w.c, names, s1);
      MoreBlocks(p.c, v.c);
      MoreBlocks(v.c, w.c);
      ArrivesTrans(f, m1, m2, m3, p.c, v.c, w.c, names, s1, s1);
      StillKnown(f, m1, m3, p.c, w.c, names, s1, p.v);
      var y := Wrap(x + if st.increment then 1 else -1);
      StoreArrives(w.c, w.v, p.v, f, m3, names, s1, place, y);
      m' := m3.Write(Address(place, names), y).Advance();
      ArrivesTrans(f, m1, m3, m', p.c, w.c, d, names, s1, s1.Set(place, y));
      ArrivesTrans(f, m, m1, m', c, p.c, d, names, s1, s1.Set(place, y));
    }
  }

  lemma OutputRuns(st: Stmt, c: Code, f: Code, m: Machine, s: State, names: Names, fuel: nat) returns (m': Machine)
    requires st.OutputStmt? && c.Open() && Grown(GenStmt(st, c, names), f) && Standing(c, m) && Fits(s, m, names)
    ensures Obeys(Exec(st, s, fuel), f, m, m', c, GenStmt(st, c, names), names, fuel)
  {
    hide Framed, Goes, Grown, Builds, Standing, Eval, Gen, HeapFits, VarsFit;
    var a := Gen(st.arg, c, names);
    GenBuilds(st.arg, c, names);
    OpenOf(c, a.c);
    var d := a.c.Emit(CallOutput(a.v));
    EmitTouches(a.c, CallOutput(a.v));
    m' := FirstRuns(st.arg, c, d, f, m, s, names);
    EvalHasFuel(st.arg, s);
    if Eval(st.arg, s).Value? {
      var x, s1, m1 := Eval(st.arg, s).v, Eval(st.arg, s).s, m';
      m' := Printed(a.c, a.v, f, m1, s1, names, x);
      ArrivesTrans(f, m, m1, m', c, a.c, d, names, s1, s1.(out := s1.out + [x]));
    }
  }

  lemma Printed(c: Code, v: Operand, f: Code, m: Machine, s: State, names: Names, x: int) returns (m': Machine)
    requires c.Open() && Grown(c.Emit(CallOutput(v)), f) && Standing(c, m) && Fits(s, m, names) && m.Of(v) == Int(x)
    ensures Arrives(f, m, m', c, c.Emit(CallOutput(v)), names, s.(out := s.out + [x]))
  {
    NextInstr(c, CallOutput(v), f, m);
    GoesOne(f, m);
    m' := Do(m, CallOutput(v));
    HeapFitsSame(s, s.(out := s.out + [x]), m.mem, m.next);
  }

  lemma ErrorRuns(st: Stmt, c: Code, f: Code, m: Machine, s: State, names: Names, fuel: nat) returns (m': Machine)
    requires st.ErrorStmt? && c.Open() && Grown(GenStmt(st, c, names), f) && Standing(c, m) && Fits(s, m, names)
    ensures Obeys(Exec(st, s, fuel), f, m, m', c, GenStmt(st, c, names), names, fuel)
  {
    hide Framed, Goes, Grown, Builds, Standing, Eval, Gen, HeapFits, VarsFit;
    var a := Gen(st.arg, c, names);
    GenBuilds(st.arg, c, names);
    OpenOf(c, a.c);
    var d := a.c.Emit(CallError(a.v));
    EmitTouches(a.c, CallError(a.v));
    m' := FirstRuns(st.arg, c, d, f, m, s, names);
    EvalHasFuel(st.arg, s);
    if Eval(st.arg, s).Value? {
      var m1 := m';
      NextInstr(a.c, CallError(a.v), f, m1);
      m' := Step(f, m1);
      GoesOne(f, m1);
      GoesThere(f, m, m1, c, a.c, names, Eval(st.arg, s).s);
      GoesOn(f, m, m1, m');
    }
  }

  lemma {:induction false} AllRun(ss: seq<Stmt>, i: nat, c: Code, f: Code, m: Machine, s: State, names: Names,
                                  fuel: nat) returns (m': Machine)
    requires c.Open() && Grown(GenStmts(ss, i, c, names), f) && Standing(c, m) && Fits(s, m, names)
    ensures Obeys(ExecAll(ss, i, s, fuel), f, m, m', c, GenStmts(ss, i, c, names), names, fuel)
    decreases fuel, ss, if i < |ss| then |ss| - i else 0
  {
    hide Fits, Framed, Goes, Grown, Builds, Standing, Exec, GenStmt;
    if i >= |ss| {
      ArrivesAt(f, m, c, names, s);
      m' := m;
    } else {
      var c1 := GenStmt(ss[i], c, names);
      GenStmtBuilds(ss[i], c, names);
      OpenOf(c, c1);
      MoreBlocks(c, c1);
      var c2 := GenStmts(ss, i + 1, c1, names);
      GenStmtsBuilds(ss, i + 1, c1, names);
      GrownBack(c1, c2, f);
      m' := StmtRuns(ss[i], c, f, m, s, names, fuel);
      if Exec(ss[i], s, fuel).Value? {
        var m1, s1 := m', Exec(ss[i], s, fuel).s;
        ArrivedFacts(f, m, m1, c, c1, names, s1);
        m' := AllRun(ss, i + 1, c1, f, m1, s1, names, fuel);
        ObeysAfter(ExecAll(ss, i + 1, s1, fuel), f, m, m1, m', c, c1, c2, names, s1, fuel);
      }
    }
  }

  lemma {:induction false} IfRuns(st: Stmt, c: Code, f: Code, m: Machine, s: State, names: Names, fuel: nat)
    returns (m': Machine)
    requires st.IfStmt? && c.Open() && Grown(GenStmt(st, c, names), f) && Standing(c, m) && Fits(s, m, names)
    ensures Obeys(Exec(st, s, fuel), f, m, m', c, GenStmt(st, c, names), names, fuel)
    decreases fuel, st, 2
  {
    hide Fits, Framed, Goes, Grown, Builds, Standing, Split, Eval, Gen;
    var p := Gen(st.condition, c, names);
    GenBuilds(st.condition, c, names);
    var b, n := Split(p), |p.c.blocks|;
    SplitSize(p);
    ThenOpen(c, p);
    var t := GenStmt(st.thenS, b.MoveTo(n), names);
    GenStmtBuilds(st.thenS, b.MoveTo(n), names);
    ElseOpen(c, p, t);
    var c1 := Enter(t.Terminate(Br(n + 2)), n + 1);
    var g := if st.elseS.Some? then GenStmt(st.elseS.value, c1, names) else c1.Emit(Nop);
    if st.elseS.Some? { GenStmtBuilds(st.elseS.value, c1, names); } else { EmitTouches(c1, Nop); }
    BranchBuilds(c, p, t, g);
    var c2 := Enter(g.Terminate(Br(n + 2)), n + 2);
    OpenOf(c, c2);
    EmitTouches(c2, Nop);
    GrownBack(c2, c2.Emit(Nop), f);
    BranchGrown(c, p, t, g, f);
    OpenOf(c, p.c);
    MoreBlocks(c, p.c);
    m' := GenRuns(st.condition, c, f, m, s, names);
    EvalHasFuel(st.condition, s);
    if Eval(st.condition, s).Value? {
      var s1, m1, x := Eval(st.condition, s).s, m', Eval(st.condition, s).v;
      ArrivedFacts(f, m, m1, c, p.c, names, s1);
      var m2 := SplitRuns(c, p, t, f, m1, s1, names, x);
      if x != 0 {
        ArrivedFacts(f, m1, m2, p.c, b.MoveTo(n), names, s1);
        m' := StmtRuns(st.thenS, b.MoveTo(n), f, m2, s1, names, fuel);
        m' := MeetAgain(Exec(st.thenS, s1, fuel), b.MoveTo(n), t, c2, f, m2, m', names, fuel);
        ObeysAfter(Exec(st.thenS, s1, fuel), f, m1, m2, m', p.c, b.MoveTo(n), c2.Emit(Nop), names, s1, fuel);
      } else {
        ArrivedFacts(f, m1, m2, p.c, c1, names, s1);
        if st.elseS.Some? {
          m' := StmtRuns(st.elseS.value, c1, f, m2, s1, names, fuel);
        } else {
          NopArrives(c1, f, m2, s1, names);
          m' := m2.Advance();
        }
        var o := if st.elseS.Some? then Exec(st.elseS.value, s1, fuel) else Value((), s1);
        m' := MeetAgain(o, c1, g, c2, f, m2, m', names, fuel);
        ObeysAfter(o, f, m1, m2, m', p.c, c1, c2.Emit(Nop), names, s1, fuel);
      }
      ObeysAfter(Exec(st, s, fuel), f, m, m1, m', c, p.c, c2.Emit(Nop), names, s1, fuel);
    }
  }

  // From the end of a branch to behind the if.
  lemma MeetAgain(o: Outcome<()>, b: Code, t: Code, c2: Code, f: Code, m: Machine, m1: Machine, names: Names, fuel: nat)
    returns (m': Machine)
    requires Obeys(o, f, m, m1, b, t, names, fuel) && t.Open() && b.regs <= t.regs <= c2.regs
    requires Grown(t.Terminate(Br(c2.at)), f) && c2.Open() && c2.End() == 0 && Grown(c2.Emit(Nop), f)
    ensures Obeys(o, f, m, m', b, c2.Emit(Nop), names, fuel)
  {
    hide Fits, Framed, Goes, Grown;
    m' := m1;
    if o.Value? {
      ArrivedFacts(f, m, m1, b, t, names, o.s);
      JumpArrives(t, Br(c2.at), c2, f, m1, names, o.s);
      var m2 := m1.Jump(c2.at);
      NopArrives(c2, f, m2, o.s, names);
      m' := m2.Advance();
      ArrivesTrans(f, m1, m2, m', t, c2, c2.Emit(Nop), names, o.s, o.s);
      ArrivesTrans(f, m, m1, m', b, t, c2.Emit(Nop), names, o.s, o.s);
    }
  }

  // ----- loops -----

  // A jump back to the header is a step more.
  lemma BackAgain(u: Code, header: nat, f: Code, m: Machine, m1: Machine, k: nat)
    requires u.Open() && Standing(u, m1) && Grown(u.Terminate(Br(header)), f) && Goes(f, m, m1)
    ensures Keeps(f, m1.Jump(header), k) ==> Keeps(f, m, k + 1)
  {
    if Keeps(f, m1.Jump(header), k) {
      NextTerminator(u, Br(header), f, m1);
      GoesNowhere(f, Step(f, m1));
      KeepsLonger(f, m1, m1.Jump(header), k);
      KeepsFrom(f, m, m1, k + 1);
    }
  }

  lemma LoopEndGrown(c: Code, h: Code, u: Code, header: nat, f: Code)
    requires Touches(c, h, {c.at}) && h.at >= |c.blocks| && Builds(h, u)
    requires |c.blocks| <= header && header + 2 < |h.blocks| && header + 2 != h.at && h.BlockAt(header + 2) == EMPTY
    requires Grown(LoopEnd(u, header), f)
    ensures var x := Enter(u.Terminate(Br(header)), header + 2);
            && x.Open() && x.End() == 0 && x.at == header + 2 && Grown(x.Emit(Nop), f)
            && Grown(u.Terminate(Br(header)), f) && Grown(u, f) && Grown(h, f) && u.Open() && h.regs <= u.regs == x.regs
  {
    hide Grown;
    LoopBuilds(c, h, u, header, header + 2);
    var x := Enter(u.Terminate(Br(header)), header + 2);
    EmitTouches(x, Nop);
    GrownTrans(x, x.Emit(Nop), f);
    SameBlocks(u.Terminate(Br(header)), x, f);
    TerminateTouches(u, Br(header));
    GrownTrans(u, u.Terminate(Br(header)), f);
    GrownTrans(h, u, f);
  }

  lemma NewStanding(c: Code, m: Machine)
    requires c.Open() && Standing(c, m)
    ensures Standing(ThreeBlocks(c), m) && ThreeBlocks(c).Open() && ThreeBlocks(c).regs == c.regs
  {
  }

  // ----- while -----

  // The code of the loop: its header, the end of its test, and its body.
  function WhileHeader(c: Code): Code { ThreeBlocks(c).Terminate(Br(|c.blocks|)).MoveTo(|c.blocks|) }

  function WhileTest(st: Stmt, c: Code, names: Names): Piece
    requires st.WhileStmt?
  {
    var k := Gen(st.condition, WhileHeader(c), names);
    Test(k.c, NE, k.v, Const(0))
  }

  function WhileBody(st: Stmt, c: Code, names: Names): Code
    requires st.WhileStmt?
  {
    var n, t := |c.blocks|, WhileTest(st, c, names);
    Enter(t.c.Terminate(CondBr(t.v, n + 1, n + 2)), n + 1)
  }

  lemma WhileGrown(st: Stmt, c: Code, f: Code, names: Names)
    requires st.WhileStmt? && c.Open() && Grown(GenStmt(st, c, names), f)
    ensures var n, h, t, b := |c.blocks|, WhileHeader(c), WhileTest(st, c, names), WhileBody(st, c, names);
            var k := Gen(st.condition, h, names);
            var u := GenStmt(st.body, b, names);
            var x := Enter(u.Terminate(Br(n)), n + 2);
            && GenStmt(st, c, names) == x.Emit(Nop)
            && h.Open() && h.at == n && h.End() == 0 && Grown(h, f) && Grown(ThreeBlocks(c).Terminate(Br(n)), f)
            && h.regs == c.regs
            && Builds(h, k.c) && Builds(k.c, t.c) && t.c.Open() && Grown(t.c, f)
            && Grown(t.c.Terminate(CondBr(t.v, n + 1, n + 2)), f)
            && b.Open() && b.at == n + 1 && b.End() == 0 && h.regs <= t.c.regs == b.regs && Builds(b, u)
            && x.Open() && x.End() == 0 && x.at == n + 2 && Grown(x.Emit(Nop), f)
            && Grown(u.Terminate(Br(n)), f) && Grown(u, f) && b.regs <= u.regs == x.regs
  {
    hide Touches, Grown, Gen;
    var n, h := |c.blocks|, WhileHeader(c);
    HeaderTouches(c);
    var k := Gen(st.condition, h, names);
    GenBuilds(st.condition, h, names);
    MoreBlocks(h, k.c);
    OpenOf(h, k.c);
    WhileTestTouches(c, h, k);
    var t := WhileTest(st, c, names);
    YieldBuilds(k.c, ICmp(k.c.regs, NE, k.v, Const(0)));
    MoreBlocks(k.c, t.c);
    var b := WhileBody(st, c, names);
    var u := GenStmt(st.body, b, names);
    GenStmtBuilds(st.body, b, names);
    LoopEndGrown(c, b, u, n, f);
    var d := CondBr(t.v, n + 1, n + 2);
    SameBlocks(t.c.Terminate(d), b, f);
    TerminateTouches(t.c, d);
    TouchesGrown(t.c, t.c.Terminate(d), {t.c.at}, f);
    GrownBack(k.c, t.c, f);
    GrownBack(h, k.c, f);
    SameBlocks(ThreeBlocks(c).Terminate(Br(n)), h, f);
  }

  lemma TouchesGrown(c: Code, c': Code, ts: set<nat>, f: Code)
    requires Touches(c, c', ts) && Grown(c', f)
    ensures Grown(c, f)
  {
    GrownTrans(c, c', f);
  }

  lemma {:induction false} WhileRuns(st: Stmt, c: Code, f: Code, m: Machine, s: State, names: Names, fuel: nat)
    returns (m': Machine)
    requires st.WhileStmt? && c.Open() && Grown(GenStmt(st, c, names), f) && Standing(c, m) && Fits(s, m, names)
    ensures Obeys(Exec(st, s, fuel), f, m, m', c, GenStmt(st, c, names), names, fuel)
    decreases fuel, st, 2
  {
    hide Fits, Framed, Goes, Grown, Builds, Exec, GenStmt;
    WhileGrown(st, c, f, names);
    NewStanding(c, m);
    var h := WhileHeader(c);
    JumpArrives(ThreeBlocks(c), Br(|c.blocks|), h, f, m, names, s);
    var m1 := m.Jump(h.at);
    m' := WhileLoop(st, c, f, m1, s, names, fuel);
    ObeysAfter(Exec(st, s, fuel), f, m, m1, m', ThreeBlocks(c), h, GenStmt(st, c, names), names, s, fuel);
  }

  lemma {:induction false} WhileLoop(st: Stmt, c: Code, f: Code, m: Machine, s: State, names: Names, fuel: nat)
    returns (m': Machine)
    requires st.WhileStmt? && c.Open() && Grown(GenStmt(st, c, names), f) && Standing(WhileHeader(c), m)
    requires Fits(s, m, names)
    ensures Obeys(Exec(st, s, fuel), f, m, m', WhileHeader(c), GenStmt(st, c, names), names, fuel)
    decreases fuel, st, 1
  {
    hide Fits, Framed, Goes, Grown, Builds, GenStmt, Gen, Eval, WhileHeader, WhileTest, WhileBody;
    m' := m;
    if fuel == 0 { return; }
    WhileGrown(st, c, f, names);
    var n, h, t, b := |c.blocks|, WhileHeader(c), WhileTest(st, c, names), WhileBody(st, c, names);
    var u := GenStmt(st.body, b, names);
    var x := Enter(u.Terminate(Br(n)), n + 2);
    EvalHasFuel(st.condition, s);
    m' := ConditionRuns(st, c, x, f, m, s, names);
    if Eval(st.condition, s).Value? {
      var s1, m1 := Eval(st.condition, s).s, m';
      if Eval(st.condition, s).v == 0 {
        ArrivedFacts(f, m, m1, h, x, names, s1);
        NopArrives(x, f, m1, s1, names);
        m' := m1.Advance();
        ArrivesTrans(f, m, m1, m', h, x, x.Emit(Nop), names, s1, s1);
      } else {
        ArrivedFacts(f, m, m1, h, b, names, s1);
        m' := StmtRuns(st.body, b, f, m1, s1, names, fuel);
        if Exec(st.body, s1, fuel).Value? {
          var s2, m2 := Exec(st.body, s1, fuel).s, m';
          OpenOf(b, u);
          ArrivesTrans(f, m, m1, m2, h, b, u, names, s1, s2);
          m' := WhileAgain(st, c, h, u, f, m, m2, s2, names, fuel);
        } else {
          ObeysAfter(Exec(st.body, s1, fuel), f, m, m1, m', h, b, GenStmt(st, c, names), names, s1, fuel) by {
            NotArrived(Exec(st.body, s1, fuel), f, m1, m', b, u, GenStmt(st, c, names), names, fuel);
          }
        }
      }
    }
  }

  // Where it does not arrive it does not matter where.
  lemma NotArrived(o: Outcome<()>, f: Code, m: Machine, m': Machine, c: Code, c1: Code, c2: Code, names: Names,
                   fuel: nat)
    requires Obeys(o, f, m, m', c, c1, names, fuel) && !o.Value?
    ensures Obeys(o, f, m, m', c, c2, names, fuel)
  {
  }

  // The condition of a while sends the machine into the body or behind the loop.
  lemma ConditionRuns(st: Stmt, c: Code, x: Code, f: Code, m: Machine, s: State, names: Names) returns (m': Machine)
    requires st.WhileStmt? && c.Open() && Grown(GenStmt(st, c, names), f) && Standing(WhileHeader(c), m)
    requires Fits(s, m, names)
    requires x.at == |c.blocks| + 2 && x.End() == 0
    ensures match Eval(st.condition, s)
            case Value(v, s') =>
              Arrives(f, m, m', WhileHeader(c), if v != 0 then WhileBody(st, c, names) else x, names, s')
            case Failed(code, out) => Goes(f, m, m') && m'.status == Stopped(code) && m'.out == out
            case _ => true
  {
    hide Fits, Framed, Goes, Grown, Builds, GenStmt, Gen, Eval, WhileHeader;
    WhileGrown(st, c, f, names);
    var n, h, t, b := |c.blocks|, WhileHeader(c), WhileTest(st, c, names), WhileBody(st, c, names);
    var k := Gen(st.condition, h, names);
    m' := FirstRuns(st.condition, h, t.c, f, m, s, names);
    if Eval(st.condition, s).Value? {
      var v, s1, m1 := Eval(st.condition, s).v, Eval(st.condition, s).s, m';
      var m2 := TestArrives(NE, k.c, k.v, Const(0), f, m1, names, s1, v, 0);
      ArrivesTrans(f, m, m1, m2, h, k.c, t.c, names, s1, s1);
      ArrivedFacts(f, m, m2, h, t.c, names, s1);
      var to := if v != 0 then b else x;
      JumpArrives(t.c, CondBr(t.v, n + 1, n + 2), to, f, m2, names, s1);
      m' := m2.Jump(to.at);
      ArrivesTrans(f, m, m2, m', h, t.c, to, names, s1, s1);
    }
  }

  lemma {:induction false} WhileAgain(st: Stmt, c: Code, h: Code, u: Code, f: Code, m: Machine, m2: Machine, s2: State,
                                      names: Names, fuel: nat)
    returns (m': Machine)
    requires st.WhileStmt? && c.Open() && Grown(GenStmt(st, c, names), f) && fuel > 0 && h == WhileHeader(c)
    requires u.Open() && Arrives(f, m, m2, h, u, names, s2) && Grown(u.Terminate(Br(h.at)), f) && h.End() == 0
    requires h.regs <= u.regs
    ensures Obeys(Exec(st, s2, fuel - 1), f, m, m', h, GenStmt(st, c, names), names, fuel)
    decreases fuel, st, 0
  {
    hide Fits, Framed, Goes, Grown, GenStmt, Exec, WhileHeader;
    ArrivedFacts(f, m, m2, h, u, names, s2);
    JumpArrives(u, Br(h.at), h, f, m2, names, s2);
    var m3 := m2.Jump(h.at);
    ArrivesTrans(f, m, m2, m3, h, u, h, names, s2, s2);
    ArrivedFacts(f, m, m3, h, h, names, s2);
    m' := WhileLoop(st, c, f, m3, s2, names, fuel - 1);
    match Exec(st, s2, fuel - 1)
    case OutOfFuel =>
      GoesThere(f, m, m2, h, u, names, s2);
      BackAgain(u, h.at, f, m, m2, fuel - 1);
    case Value(_, s3) => ArrivesTrans(f, m, m3, m', h, h, GenStmt(st, c, names), names, s2, s3);
    case Failed(_, _) => GoesThere(f, m, m3, h, h, names, s2); GoesOn(f, m, m3, m');
    case Undefined =>
  }

  // ----- ranges -----

  /** The code of a range loop around its body: what comes before, the header, and the end of an
      iteration. */
  datatype Range = Range(before: Code, header: nat, target: Operand, end: Operand, step: Operand) {
    function Header(): Code { before.Terminate(Br(header)).MoveTo(header) }
    function Body(): Code { RangeHead(before, header, target, end) }
  }

  function RangeOf(st: Stmt, c: Code, names: Names): Range
    requires st.ForRangeStmt?
  {
    var p := GenTarget(st.item, ThreeBlocks(c), names);
    var a := Gen(st.start, p.c, names);
    var b := Gen(st.end, a.c, names);
    var k := if st.step.Some? then Gen(st.step.value, b.c, names) else Piece(b.c, Const(1));
    Range(k.c.Emit(Store(a.v, p.v)), |c.blocks|, p.v, b.v, k.v)
  }

  // How it is put together, and that all of it is in the finished code.
  ghost predicate RangeInside(r: Range, c: Code, u: Code, f: Code) {
    var l, b, v := r.Header(), r.Body(), RangeNext(u, r.target, r.step);
    var x := Enter(v.Terminate(Br(r.header)), r.header + 2);
    && Builds(ThreeBlocks(c), r.before) && r.before.Open() && Grown(r.before.Terminate(Br(r.header)), f)
    && Grown(r.before, f)
    && l.Open() && l.at == r.header && l.End() == 0 && l.regs == r.before.regs
    && Grown(LoopTest(l, r.target, SLT, r.end), f)
    && Known(r.target, l) && Known(r.end, l) && Known(r.step, l)
    && b.Open() && b.at == r.header + 1 && b.End() == 0 && l.regs <= b.regs && Builds(b, u) && u.Open()
    && Builds(u, v) && v.Open() && Grown(v, f) && Grown(u, f) && Grown(v.Terminate(Br(r.header)), f)
    && b.regs <= u.regs <= v.regs
    && x.Open() && x.End() == 0 && x.at == r.header + 2 && x.regs == v.regs && Grown(x.Emit(Nop), f)
  }

  // What comes before the loop: the place, the start, the end and the step.
  lemma RangeBefore(st: Stmt, c: Code, names: Names)
    requires st.ForRangeStmt? && c.Open()
    ensures var r := RangeOf(st, c, names);
            && Builds(ThreeBlocks(c), r.before) && r.before.Open() && r.header == |c.blocks|
            && Known(r.target, r.before) && Known(r.end, r.before) && Known(r.step, r.before)
  {
    hide Touches, Grown, Gen, GenTarget, ThreeBlocks, Builds;
    var w := ThreeBlocks(c);
    StillOpen(c);
    var p := GenTarget(st.item, w, names);
    GenTargetBuilds(st.item, w, names);
    var a := Gen(st.start, p.c, names);
    ThenGen(w, p.c, st.start, names);
    MoreBlocks(p.c, a.c);
    var b := Gen(st.end, a.c, names);
    ThenGen(w, a.c, st.end, names);
    MoreBlocks(a.c, b.c);
    var k := if st.step.Some? then Gen(st.step.value, b.c, names) else Piece(b.c, Const(1));
    if st.step.Some? {
      ThenGen(w, b.c, st.step.value, names);
      MoreBlocks(b.c, k.c);
    }
    ThenEmit(w, k.c, Store(a.v, p.v));
    OpenOf(w, RangeOf(st, c, names).before);
  }

  lemma RangeGrown(st: Stmt, c: Code, f: Code, names: Names)
    requires st.ForRangeStmt? && c.Open() && Grown(GenStmt(st, c, names), f)
    ensures var r := RangeOf(st, c, names);
            var u := GenStmt(st.body, r.Body(), names);
            RangeInside(r, c, u, f) && GenStmt(st, c, names) == LoopEnd(RangeNext(u, r.target, r.step), r.header)
  {
    hide Touches, Grown, Gen, GenTarget, RangeNext, ThreeBlocks, RangeHead;
    var n, r := |c.blocks|, RangeOf(st, c, names);
    RangeBefore(st, c, names);
    ForHeaderTouches(c, r.before);
    RangeHeadTouches(c, r.before, r.target, r.end);
    WaitingBuilds(c, r.before);
    var h := r.Body();
    var u := GenStmt(st.body, h, names);
    GenStmtBuilds(st.body, h, names);
    RangeNextBuilds(u, r.target, r.step);
    BuildsTrans(h, u, RangeNext(u, r.target, r.step));
    LoopEndGrown(c, h, RangeNext(u, r.target, r.step), n, f);
    MoreBlocks(h, u);
    MoreBlocks(u, RangeNext(u, r.target, r.step));
    GrownBack(u, RangeNext(u, r.target, r.step), f);
    RangeHeaderGrown(c, r, f);
    RangeKnown(r);
  }

  lemma RangeKnown(r: Range)
    requires Known(r.target, r.before) && Known(r.end, r.before) && Known(r.step, r.before)
    ensures Known(r.target, r.Header()) && Known(r.end, r.Header()) && Known(r.step, r.Header())
  {
  }

  lemma RangeHeaderGrown(c: Code, r: Range, f: Code)
    requires c.Open() && Builds(ThreeBlocks(c), r.before) && r.header == |c.blocks| && Grown(r.Body(), f)
    ensures Grown(r.before.Terminate(Br(r.header)), f) && Grown(r.before, f)
    ensures Grown(LoopTest(r.Header(), r.target, SLT, r.end), f)
  {
    hide Grown, LoopTest;
    var l := r.Header();
    ForHeaderTouches(c, r.before);
    WaitingBuilds(c, r.before);
    LoopTestTouches(c, l, r.target, SLT, r.end, r.header + 1);
    SameBlocks(LoopTest(l, r.target, SLT, r.end), r.Body(), f);
    TouchesGrown(l, LoopTest(l, r.target, SLT, r.end), {l.at}, f);
    SameBlocks(r.before.Terminate(Br(r.header)), l, f);
    TerminateTouches(r.before, Br(r.header));
    TouchesGrown(r.before, r.before.Terminate(Br(r.header)), {r.before.at}, f);
  }

  // One round, from the loop's header back to it.
  lemma {:induction false} RangeRound(r: Range, place: Place, step: int, body: Stmt, c: Code, f: Code,
                                      m: Machine, m1: Machine, s: State, names: Names, fuel: nat) returns (m3: Machine)
    requires RangeInside(r, c, GenStmt(body, r.Body(), names), f) && Fits(s, m, names) && Standing(r.Header(), m)
    requires Arrives(f, m, m1, r.Header(), r.Body(), names, s)
    requires m.Of(r.target) == Address(place, names) && m.Of(r.step) == Int(step) && s.Get(place).Some?
    ensures var u := GenStmt(body, r.Body(), names);
            var v := RangeNext(u, r.target, r.step);
            match Exec(body, s, fuel)
            case Value(_, s2) =>
              s2.Get(place).Some? && (
              var s3 := s2.Set(place, Wrap(s2.Get(place).value + step));
              s3.Get(place).Some? && Arrives(f, m, m3, r.Header(), v, names, s3) && Standing(v, m3)
              && Arrives(f, m, m3.Jump(r.header), r.Header(), r.Header(), names, s3))
            case o => Obeys(Exec(body, s, fuel), f, m, m3, r.Header(), LoopEnd(v, r.header), names, fuel)
    decreases fuel, body, 4
  {
    hide Fits, Framed, Goes, Grown, Builds, GenStmt, Exec, Later, Placed, RangeHead, RangeNext, LoopTest, Obeys;
    hide Arrives, Standing, Known;
    var l, b := r.Header(), r.Body();
    var u := GenStmt(body, b, names);
    var v := RangeNext(u, r.target, r.step);
    ArrivedFacts(f, m, m1, l, b, names, s);
    var m2 := StmtRuns(body, b, f, m1, s, names, fuel);
    if Exec(body, s, fuel).Value? {
      var s2 := Exec(body, s, fuel).s;
      FitsPlaced(s, m, names);
      ExecLater(body, s, fuel);
      PlaceStays(s, s2, place);
      assert Exec(body, s, fuel).v == ();
      ArrivedBy(f, m1, m2, b, u, names, s2, fuel);
      ArrivesTrans(f, m, m1, m2, l, b, u, names, s, s2);
      m3 := RangeStep(r, c, u, place, step, f, m, m2, s2, names);
      var y := Wrap(s2.Get(place).value + step);
      var s3 := s2.Set(place, y);
      SetStays(s2, place, y);
      ArrivedFacts(f, m, m3, l, v, names, s3);
      JumpArrives(v, Br(r.header), l, f, m3, names, s3);
      ArrivesTrans(f, m, m3, m3.Jump(l.at), l, v, l, names, s3, s3);
    } else {
      m3 := m2;
      NotArrived(Exec(body, s, fuel), f, m1, m2, b, u, LoopEnd(v, r.header), names, fuel);
      ObeysAfter(Exec(body, s, fuel), f, m, m1, m2, l, b, LoopEnd(v, r.header), names, s, fuel);
    }
  }

  lemma {:induction false} RangeLoop(r: Range, place: Place, end: int, step: int, body: Stmt, c: Code, f: Code,
                                     m: Machine, s: State, names: Names, fuel: nat) returns (m': Machine)
    requires RangeInside(r, c, GenStmt(body, r.Body(), names), f) && Standing(r.Header(), m) && Fits(s, m, names)
    requires m.Of(r.target) == Address(place, names) && m.Of(r.end) == Int(end) && m.Of(r.step) == Int(step)
    requires s.Get(place).Some?
    ensures var u := GenStmt(body, r.Body(), names);
            Obeys(ExecRange(place, end, step, body, s, fuel), f, m, m', r.Header(),
                  LoopEnd(RangeNext(u, r.target, r.step), r.header), names, fuel)
    decreases fuel, body, 5
  {
    hide Fits, Framed, Goes, Grown, Builds, GenStmt, Exec, Later, Placed, RangeHead, RangeNext, LoopTest, Obeys;
    hide Arrives, Standing, Known;
    m' := m;
    if fuel == 0 { FuelGone(place, end, step, body, s, f, m, r, GenStmt(body, r.Body(), names), names); return; }
    var l, b := r.Header(), r.Body();
    var u := GenStmt(body, b, names);
    var v := RangeNext(u, r.target, r.step);
    var x := Enter(v.Terminate(Br(r.header)), r.header + 2);
    var i := s.Get(place).value;
    ReadPlace(s, m, names, place);
    var m1 := LoopTestRuns(l, r.target, SLT, r.end, b, x, f, m, names, s, i, end);
    if i >= end {
      ArrivedFacts(f, m, m1, l, x, names, s);
      NopArrives(x, f, m1, s, names);
      m' := m1.Advance();
      ArrivesTrans(f, m, m1, m', l, x, x.Emit(Nop), names, s, s);
      Arrived(f, m, m', l, x.Emit(Nop), names, s, fuel);
    } else {
      m' := RangeRound(r, place, step, body, c, f, m, m1, s, names, fuel);
      if Exec(body, s, fuel).Value? {
        var s2, m3 := Exec(body, s, fuel).s, m';
        var s3, m4 := s2.Set(place, Wrap(s2.Get(place).value + step)), m3.Jump(l.at);
        ArrivedFacts(f, m, m4, l, l, names, s3);
        StillKnown(f, m, m4, l, l, names, s3, r.target);
        StillKnown(f, m, m4, l, l, names, s3, r.end);
        StillKnown(f, m, m4, l, l, names, s3, r.step);
        m' := RangeLoop(r, place, end, step, body, c, f, m4, s3, names, fuel - 1);
        GoesThere(f, m, m3, l, v, names, s3);
        AgainObeys(ExecRange(place, end, step, body, s3, fuel - 1), v, r.header, f, m, m3, m', l, LoopEnd(v, r.header),
                   names, s3, fuel);
      }
    }
  }

  lemma FuelGone(place: Place, end: int, step: int, body: Stmt, s: State, f: Code, m: Machine, r: Range, u: Code,
                 names: Names)
    requires Standing(r.Header(), m)
    ensures Obeys(ExecRange(place, end, step, body, s, 0), f, m, m, r.Header(),
                  LoopEnd(RangeNext(u, r.target, r.step), r.header), names, 0)
  {
  }

  lemma Arrived(f: Code, m: Machine, m': Machine, c: Code, c': Code, names: Names, s: State, fuel: nat)
    requires Arrives(f, m, m', c, c', names, s)
    ensures Obeys(Value((), s), f, m, m', c, c', names, fuel)
  {
  }

  lemma ArrivedBy(f: Code, m: Machine, m': Machine, c: Code, c': Code, names: Names, s: State, fuel: nat)
    requires Obeys(Value((), s), f, m, m', c, c', names, fuel)
    ensures Arrives(f, m, m', c, c', names, s)
  {
  }

  // Another iteration, with a unit of fuel less.
  lemma AgainObeys(o: Outcome<()>, v: Code, header: nat, f: Code, m: Machine, m3: Machine, m': Machine,
                   l: Code, end: Code, names: Names, s: State, fuel: nat)
    requires fuel > 0 && v.Open() && Standing(v, m3) && Grown(v.Terminate(Br(header)), f) && Goes(f, m, m3)
    requires Arrives(f, m, m3.Jump(header), l, l, names, s) && Obeys(o, f, m3.Jump(header), m', l, end, names, fuel - 1)
    ensures Obeys(o, f, m, m', l, end, names, fuel)
  {
    if o.OutOfFuel? {
      BackAgain(v, header, f, m, m3, fuel - 1);
    } else {
      ObeysAfter(o, f, m, m3.Jump(header), m', l, l, end, names, s, fuel - 1);
    }
  }

  // After the body: the item goes up by the step.
  lemma RangeStep(r: Range, c: Code, u: Code, place: Place, step: int, f: Code, m: Machine, m2: Machine, s: State,
                  names: Names)
    returns (m3: Machine)
    requires RangeInside(r, c, u, f) && Arrives(f, m, m2, r.Header(), u, names, s) && s.Get(place).Some?
    requires m.Of(r.target) == Address(place, names) && m.Of(r.step) == Int(step)
    ensures var y := Wrap(s.Get(place).value + step);
            Arrives(f, m, m3, r.Header(), RangeNext(u, r.target, r.step), names, s.Set(place, y))
  {
    hide Fits, Framed, Goes, Grown, Builds, RangeHead, LoopTest;
    var l := r.Header();
    ArrivedFacts(f, m, m2, l, u, names, s);
    StillKnown(f, m, m2, l, u, names, s, r.target);
    StillKnown(f, m, m2, l, u, names, s, r.step);
    var x := LoadFrom(u, r.target);
    YieldBuilds(u, Load(u.regs, r.target));
    OpenOf(u, x.c);
    var z := Arith(x.c, IAdd, x.v, r.step);
    YieldBuilds(x.c, Binary(x.c.regs, IAdd, x.v, r.step));
    OpenOf(x.c, z.c);
    var v := RangeNext(u, r.target, r.step);
    EmitTouches(z.c, Store(z.v, r.target));
    GrownBack(z.c, v, f);
    GrownBack(x.c, z.c, f);
    var i := s.Get(place).value;
    ReadPlace(s, m2, names, place);
    var a1 := LoadArrives(u, r.target, f, m2, names, s, i);
    ArrivedFacts(f, m2, a1, u, x.c, names, s);
    StillKnown(f, m2, a1, u, x.c, names, s, r.step);
    var a2 := ArithArrives(IAdd, x.c, x.v, r.step, f, a1, names, s, i, step);
    ArrivedFacts(f, a1, a2, x.c, z.c, names, s);
    MoreBlocks(u, x.c);
    ArrivesTrans(f, m2, a1, a2, u, x.c, z.c, names, s, s);
    StillKnown(f, m2, a2, u, z.c, names, s, r.target);
    StoreArrives(z.c, z.v, r.target, f, a2, names, s, place, Wrap(i + step));
    m3 := a2.Write(Address(place, names), Wrap(i + step)).Advance();
    MoreBlocks(x.c, z.c);
    ArrivesTrans(f, m2, a2, m3, u, z.c, v, names, s, s.Set(place, Wrap(i + step)));
    ArrivesTrans(f, m, m2, m3, l, u, v, names, s, s.Set(place, Wrap(i + step)));
  }

  lemma {:induction false} RangeRuns(st: Stmt, c: Code, f: Code, m: Machine, s: State, names: Names, fuel: nat)
    returns (m': Machine)
    requires st.ForRangeStmt? && c.Open() && Grown(GenStmt(st, c, names), f) && Standing(c, m) && Fits(s, m, names)
    ensures Obeys(Exec(st, s, fuel), f, m, m', c, GenStmt(st, c, names), names, fuel)
    decreases fuel, st, 2
  {
    hide Fits, Framed, Goes, Grown, Builds, GenStmt, ExecRange, Later, Placed, RangeHead, RangeNext, LoopTest;
    hide GenTarget, Gen, Locate, Eval, ThreeBlocks, LoopEnd;
    var w, r := ThreeBlocks(c), RangeOf(st, c, names);
    RangeGrown(st, c, f, names);
    NewStanding(c, m);
    var p := GenTarget(st.item, w, names);
    GenTargetBuilds(st.item, w, names);
    OpenOf(w, p.c);
    var a := Gen(st.start, p.c, names);
    GenBuilds(st.start, p.c, names);
    OpenOf(p.c, a.c);
    var b := Gen(st.end, a.c, names);
    GenBuilds(st.end, a.c, names);
    OpenOf(a.c, b.c);
    var k := if st.step.Some? then Gen(st.step.value, b.c, names) else Piece(b.c, Const(1));
    BuildsRefl(b.c);
    if st.step.Some? { GenBuilds(st.step.value, b.c, names); }
    OpenOf(b.c, k.c);
    EmitTouches(k.c, Store(a.v, p.v));
    BuildsTrans(b.c, k.c, r.before);
    BuildsTrans(a.c, b.c, r.before);
    BuildsTrans(p.c, a.c, r.before);
    m' := FirstTarget(st.item, w, r.before, f, m, s, names);
    if Locate(st.item, s).Value? {
      var place, s1, m1 := Locate(st.item, s).v, Locate(st.item, s).s, m';
      EvalHasFuel(st.start, s1);
      m' := FirstRuns(st.start, p.c, r.before, f, m1, s1, names);
      ThenFailed(Eval(st.start, s1), f, m, m1, m', w, p.c, names, s1);
      if Eval(st.start, s1).Value? {
        var x, s2, m2 := Eval(st.start, s1).v, Eval(st.start, s1).s, m';
        ThenEvalLater(s, s1, st.start);
        ArrivesTrans(f, m, m1, m2, w, p.c, a.c, names, s1, s2);
        StillKnown(f, m1, m2, p.c, a.c, names, s2, p.v);
        EvalHasFuel(st.end, s2);
        m' := FirstRuns(st.end, a.c, r.before, f, m2, s2, names);
        ThenFailed(Eval(st.end, s2), f, m, m2, m', w, a.c, names, s2);
        if Eval(st.end, s2).Value? {
          var y, s3, m3 := Eval(st.end, s2).v, Eval(st.end, s2).s, m';
          ThenEvalLater(s1, s2, st.end);
          ArrivesTrans(f, m, m2, m3, w, a.c, b.c, names, s2, s3);
          StillKnown(f, m2, m3, a.c, b.c, names, s3, p.v);
          StillKnown(f, m2, m3, a.c, b.c, names, s3, a.v);
          PlaceStays(s1, s3, place);
          m' := RangeStarts(st, c, p, a, b, k, f, m, m3, s, s1, s3, names, place, x, y, fuel);
        }
      }
    }
  }

  lemma ThenFailed(o: Outcome<int>, f: Code, m: Machine, m1: Machine, m': Machine, c: Code, c1: Code, names: Names,
                   s1: State)
    requires Arrives(f, m, m1, c, c1, names, s1)
    ensures Goes(f, m1, m') ==> Goes(f, m, m')
  {
    if Goes(f, m1, m') { GoesOn(f, m, m1, m'); }
  }

  // With target, start and end computed: the step, the first item, and the loop.
  lemma {:induction false} RangeStarts(st: Stmt, c: Code, p: Piece, a: Piece, b: Piece, k: Piece, f: Code, m: Machine,
                                       m3: Machine, s: State, s1: State, s3: State, names: Names, place: Place,
                                       x: int, y: int, fuel: nat)
    returns (m': Machine)
    requires st.ForRangeStmt? && c.Open() && Grown(GenStmt(st, c, names), f)
    requires p == GenTarget(st.item, ThreeBlocks(c), names) && a == Gen(st.start, p.c, names)
    requires b == Gen(st.end, a.c, names)
    requires k == (if st.step.Some? then Gen(st.step.value, b.c, names) else Piece(b.c, Const(1)))
    requires b.c.Open() && Builds(b.c, k.c) && Builds(k.c, k.c.Emit(Store(a.v, p.v))) && k.c.Open() && Known(p.v, b.c)
    requires Known(a.v, b.c) && Known(b.v, b.c)
    requires Arrives(f, m, m3, ThreeBlocks(c), b.c, names, s3) && c.regs <= b.c.regs && ThreeBlocks(c).regs == c.regs
    requires m3.Of(p.v) == Address(place, names) && m3.Of(a.v) == Int(x) && m3.Of(b.v) == Int(y)
    requires Later(s1, s3) && s1.Get(place).Some?
    ensures var o := (var (z, s4) :- if st.step.Some? then Eval(st.step.value, s3) else Value(1, s3);
                      ExecRange(place, y, z, st.body, s4.Set(place, x), fuel));
            Obeys(o, f, m, m', c, GenStmt(st, c, names), names, fuel)
    decreases fuel, st, 1
  {
    hide Fits, Framed, Goes, Grown, Builds, GenStmt, ExecRange, Later, Placed, RangeHead, RangeNext, LoopTest;
    hide GenTarget, Gen, Eval, ThreeBlocks, LoopEnd;
    var w, r := ThreeBlocks(c), RangeOf(st, c, names);
    RangeGrown(st, c, f, names);
    ArrivedFacts(f, m, m3, w, b.c, names, s3);
    GrownBack(k.c, r.before, f);
    MoreBlocks(b.c, k.c);
    if st.step.Some? {
      m' := FirstRuns(st.step.value, b.c, r.before, f, m3, s3, names);
      EvalHasFuel(st.step.value, s3);
    } else {
      ArrivesAt(f, m3, b.c, names, s3);
      m' := m3;
    }
    var o := if st.step.Some? then Eval(st.step.value, s3) else Value(1, s3);
    ThenFailed(o, f, m, m3, m', w, b.c, names, s3);
    if o.Value? {
      var z, s4, m4 := o.v, o.s, m';
      if st.step.Some? { ThenEvalLater(s1, s3, st.step.value); }
      PlaceStays(s1, s4, place);
      StillKnown(f, m3, m4, b.c, k.c, names, s4, p.v);
      StillKnown(f, m3, m4, b.c, k.c, names, s4, a.v);
      StillKnown(f, m3, m4, b.c, k.c, names, s4, b.v);
      ArrivesTrans(f, m, m3, m4, w, b.c, k.c, names, s3, s4);
      ArrivedFacts(f, m3, m4, b.c, k.c, names, s4);
      StoreArrives(k.c, a.v, p.v, f, m4, names, s4, place, x);
      var m5, s5 := m4.Write(Address(place, names), x).Advance(), s4.Set(place, x);
      SetStays(s4, place, x);
      ArrivesTrans(f, m, m4, m5, w, k.c, r.before, names, s4, s5);
      ArrivedFacts(f, m, m5, w, r.before, names, s5);
      var l := r.Header();
      JumpArrives(r.before, Br(r.header), l, f, m5, names, s5);
      var m6 := m5.Jump(l.at);
      MoreBlocks(k.c, r.before);
      ArrivesTrans(f, m, m5, m6, w, r.before, l, names, s5, s5);
      ArrivedFacts(f, m5, m6, r.before, l, names, s5);
      WrittenOf(m4, Address(place, names), x, r);
      m' := RangeLoop(r, place, y, z, st.body, c, f, m6, s5, names, fuel);
      ObeysAfter(ExecRange(place, y, z, st.body, s5, fuel), f, m, m6, m', w, l, GenStmt(st, c, names), names, s5, fuel);
      RegsOnly(ExecRange(place, y, z, st.body, s5, fuel), f, m, m', w, c, GenStmt(st, c, names), names, fuel);
    }
  }

  // Writing and jumping leave registers alone.
  lemma WrittenOf(m: Machine, p: Val, x: int, r: Range)
    requires m.Read(p).Some?
    ensures forall v: Operand :: m.Write(p, x).Advance().Jump(r.header).Of(v) == m.Of(v)
  {
  }

  lemma RegsOnly(o: Outcome<()>, f: Code, m: Machine, m': Machine, c: Code, c1: Code, c': Code, names: Names, fuel: nat)
    requires Obeys(o, f, m, m', c, c', names, fuel) && c1.regs == c.regs
    ensures Obeys(o, f, m, m', c1, c', names, fuel)
  {
  }

  // ----- loops over arrays -----

  // The code of the loop around its body, and that all of it is in the finished code.
  ghost predicate EachInside(a: Piece, p: Operand, c: Code, u: Code, f: Code) {
    var n, l, b, h, v := |c.blocks|, EachStart(a, |c.blocks|), EachBody(a, |c.blocks|), EachHead(a, |c.blocks|, p),
                         EachNext(u, a, |c.blocks|);
    var x := Enter(v.Terminate(Br(n)), n + 2);
    && Builds(ThreeBlocks(c), a.c) && Known(a.v, a.c) && Known(p, a.c) && a.c.Open()
    && l.start.Open() && l.start.at == n && l.start.End() == 0
    && Grown(LoopTest(l.start, l.index, SLE, EachLength(a, n)), f) && Grown(l.start, f)
    && Known(l.arr, l.start) && Known(l.index, l.start) && Known(EachLength(a, n), l.start) && a.c.regs <= l.start.regs
    && b.Open() && b.at == n + 1 && b.End() == 0 && l.start.regs <= b.regs < h.regs && Builds(b, h) && Grown(h, f)
    && h.Open()
    && Builds(h, u) && u.Open() && Builds(u, v) && v.Open() && Grown(v, f) && Grown(u, f)
    && Grown(v.Terminate(Br(n)), f)
    && h.regs <= u.regs <= v.regs && x.Open() && x.End() == 0 && x.at == n + 2 && x.regs == v.regs
    && Grown(x.Emit(Nop), f)
  }

  lemma EachGrown(st: Stmt, c: Code, f: Code, names: Names)
    requires st.ForEachStmt? && c.Open() && Grown(GenStmt(st, c, names), f)
    ensures var p := GenTarget(st.item, ThreeBlocks(c), names);
            var a := Gen(st.collection, p.c, names);
            var u := GenStmt(st.body, EachHead(a, |c.blocks|, p.v), names);
            EachInside(a, p.v, c, u, f) && GenStmt(st, c, names) == LoopEnd(EachNext(u, a, |c.blocks|), |c.blocks|)
  {
    hide Touches, Grown, Gen, GenTarget, EachHead, EachNext, EachStart, EachBody, ThreeBlocks;
    var n, w := |c.blocks|, ThreeBlocks(c);
    StillOpen(c);
    var p := GenTarget(st.item, w, names);
    GenTargetBuilds(st.item, w, names);
    var a := Gen(st.collection, p.c, names);
    ThenGen(w, p.c, st.collection, names);
    OpenOf(w, a.c);
    MoreBlocks(p.c, a.c);
    EachStartTouches(c, a);
    EachBodyTouches(c, a);
    EachHeadTouches(c, a, p.v);
    var h := EachHead(a, n, p.v);
    var u := GenStmt(st.body, h, names);
    GenStmtBuilds(st.body, h, names);
    OpenOf(h, u);
    EachNextBuilds(u, a, n);
    var v := EachNext(u, a, n);
    BuildsTrans(h, u, v);
    LoopEndGrown(c, h, v, n, f);
    MoreBlocks(h, u);
    MoreBlocks(u, v);
    GrownBack(u, v, f);
    GrownBack(EachBody(a, n), h, f);
    EachHeaderGrown(c, a, f);
    EachLengthKnown(a, n);
  }

  lemma EachLengthKnown(a: Piece, n: nat)
    ensures EachStart(a, n).start.regs > 0
  {
  }

  lemma EachHeaderGrown(c: Code, a: Piece, f: Code)
    requires c.Open() && Builds(ThreeBlocks(c), a.c) && Grown(EachBody(a, |c.blocks|), f)
    ensures var n, l := |c.blocks|, EachStart(a, |c.blocks|);
            Grown(LoopTest(l.start, l.index, SLE, EachLength(a, n)), f) && Grown(l.start, f)
  {
    hide Grown, LoopTest, EachStart;
    var n, l := |c.blocks|, EachStart(a, |c.blocks|);
    EachStartTouches(c, a);
    LoopTestTouches(c, l.start, l.index, SLE, EachLength(a, n), n + 1);
    SameBlocks(LoopTest(l.start, l.index, SLE, EachLength(a, n)), EachBody(a, n), f);
    TouchesGrown(l.start, LoopTest(l.start, l.index, SLE, EachLength(a, n)), {n}, f);
  }

  lemma EachStartRuns(c: Code, a: Piece, p: Operand, u: Code, f: Code, m: Machine, s: State, names: Names, x: int)
    returns (m': Machine, j: nat)
    requires c.Open() && EachInside(a, p, c, u, f) && Standing(a.c, m) && Fits(s, m, names) && m.Of(a.v) == Int(x)
    requires s.HasArray(x)
    ensures var n, l := |c.blocks|, EachStart(a, |c.blocks|);
            && Arrives(f, m, m', a.c, l.start, names, s) && m'.Of(l.arr) == Word(x) && m'.Of(l.index) == Local(j)
            && m'.Of(EachLength(a, n)) == Int(|s.Items(x)|) && m'.Of(p) == m.Of(p) && |s.Items(x)| < TWO63 - 1
            && |m.slots| <= j < |m'.slots| && m'.slots[j] == 1 && j !in names.Values
  {
    hide Fits, Framed, Goes, Grown, EachBody, EachHead, EachNext;
    var n, l := |c.blocks|, EachStart(a, |c.blocks|);
    var index := Yield(a.c, Alloca(a.c.regs));
    YieldBuilds(a.c, Alloca(a.c.regs));
    var b := index.c.Emit(Store(Const(1), index.v));
    EmitTouches(index.c, Store(Const(1), index.v));
    var arr := AsPointer(b, a.v);
    YieldBuilds(b, IntToPtr(b.regs, a.v));
    var length := LoadFrom(arr.c, arr.v);
    YieldBuilds(arr.c, Load(arr.c.regs, arr.v));
    LeaveTouches(length.c, Br(n), n);
    SameBlocks(length.c.Terminate(Br(n)), l.start, f);
    TouchesGrown(length.c, l.start, {length.c.at}, f);
    GrownBack(arr.c, length.c, f);
    GrownBack(b, arr.c, f);
    GrownBack(index.c, b, f);
    j := |m.slots|;
    var m1 := CounterArrives(a.c, f, m, names, s);
    ArrivedFacts(f, m, m1, a.c, b, names, s);
    StillKnown(f, m, m1, a.c, b, names, s, a.v);
    StillKnown(f, m, m1, a.c, b, names, s, p);
    var m2 := PointerArrives(b, a.v, f, m1, names, s, x);
    ArrivedFacts(f, m1, m2, b, arr.c, names, s);
    StillKnown(f, m1, m2, b, arr.c, names, s, index.v);
    StillKnown(f, m1, m2, b, arr.c, names, s, p);
    SlotStays(f, m1, m2, b, arr.c, names, s, j);
    ReadLength(s, m2, names, x);
    var m3 := LoadArrives(arr.c, arr.v, f, m2, names, s, |s.Items(x)|);
    ArrivedFacts(f, m2, m3, arr.c, length.c, names, s);
    StillKnown(f, m2, m3, arr.c, length.c, names, s, index.v);
    StillKnown(f, m2, m3, arr.c, length.c, names, s, arr.v);
    StillKnown(f, m2, m3, arr.c, length.c, names, s, p);
    SlotStays(f, m2, m3, arr.c, length.c, names, s, j);
    JumpArrives(length.c, Br(n), l.start, f, m3, names, s);
    m' := m3.Jump(n);
    ArrivesTrans(f, m, m1, m2, a.c, b, arr.c, names, s, s);
    ArrivesTrans(f, m, m2, m3, a.c, arr.c, length.c, names, s, s);
    ArrivesTrans(f, m, m3, m', a.c, length.c, l.start, names, s, s);
  }

  // What holds at the header before the i-th item.
  ghost predicate EachReady(a: Piece, p: Operand, c: Code, m: Machine, s: State, names: Names, place: Place, x: int,
                            i: nat, k: nat, j: nat) {
    var n, l := |c.blocks|, EachStart(a, |c.blocks|);
    && Standing(l.start, m) && Fits(s, m, names) && m.Of(l.arr) == Word(x) && m.Of(l.index) == Local(j)
    && m.Of(EachLength(a, n)) == Int(k) && m.Of(p) == Address(place, names)
    && j < |m.slots| && m.slots[j] == i + 1 && j !in names.Values
    && s.HasArray(x) && |s.Items(x)| == k < TWO63 - 1 && i <= k && s.Get(place).Some?
  }

  // As Obeys, but the slot j may change.
  ghost predicate ObeysBut(o: Outcome<()>, f: Code, m: Machine, m': Machine, c: Code, c': Code, names: Names, fuel: nat,
                           j: nat) {
    match o
    case Value(_, s) => Loops(f, m, m', c, c', names, s, j)
    case Failed(code, out) => Goes(f, m, m') && m'.status == Stopped(code) && m'.out == out
    case OutOfFuel => Keeps(f, m, fuel)
    case Undefined => true
  }

  lemma ObeysButAfter(o: Outcome<()>, f: Code, m: Machine, m1: Machine, m': Machine,
                      c: Code, c1: Code, c': Code, names: Names, s1: State, fuel: nat, j: nat)
    requires Arrives(f, m, m1, c, c1, names, s1) || Loops(f, m, m1, c, c1, names, s1, j)
    requires Obeys(o, f, m1, m', c1, c', names, fuel) || ObeysBut(o, f, m1, m', c1, c', names, fuel, j)
    requires c.regs <= c1.regs
    ensures ObeysBut(o, f, m, m', c, c', names, fuel, j)
  {
    hide Fits;
    match o
    case Value(_, s) => LoopsTrans(f, m, m1, m', c, c1, c', names, s1, s, j);
    case Failed(_, _) => GoesOn(f, m, m1, m');
    case OutOfFuel => KeepsFrom(f, m, m1, fuel);
    case Undefined =>
  }

  // The item of this iteration, from the header to the start of the body proper.
  lemma ItemTaken(c: Code, a: Piece, p: Operand, u: Code, f: Code, m: Machine, m1: Machine, s: State, names: Names,
                  place: Place, x: int, i: nat, k: nat, j: nat) returns (m': Machine)
    requires EachInside(a, p, c, u, f) && EachReady(a, p, c, m, s, names, place, x, i, k, j) && i < k
    requires Arrives(f, m, m1, EachStart(a, |c.blocks|).start, EachBody(a, |c.blocks|), names, s)
    ensures var s' := s.Set(place, s.Items(x)[i]);
            && Arrives(f, m, m', EachStart(a, |c.blocks|).start, EachHead(a, |c.blocks|, p), names, s')
            && m'.Of(EachCounter(a, |c.blocks|)) == Int(i + 1)
  {
    hide Fits, Framed, Goes, Grown, EachStart, EachBody, EachNext;
    var n, l, b := |c.blocks|, EachStart(a, |c.blocks|), EachBody(a, |c.blocks|);
    ArrivedFacts(f, m, m1, l.start, b, names, s);
    StillKnown(f, m, m1, l.start, b, names, s, l.arr);
    StillKnown(f, m, m1, l.start, b, names, s, l.index);
    StillKnown(f, m, m1, l.start, b, names, s, p);
    SlotStays(f, m, m1, l.start, b, names, s, j);
    var cur := LoadFrom(b, l.index);
    YieldBuilds(b, Load(b.regs, l.index));
    var q := At(cur.c, l.arr, cur.v);
    YieldBuilds(cur.c, Gep(cur.c.regs, l.arr, cur.v));
    var y := LoadFrom(q.c, q.v);
    YieldBuilds(q.c, Load(q.c.regs, q.v));
    var h := EachHead(a, n, p);
    EmitTouches(y.c, Store(y.v, p));
    GrownBack(y.c, h, f);
    GrownBack(q.c, y.c, f);
    GrownBack(cur.c, q.c, f);
    var m2 := LoadArrives(b, l.index, f, m1, names, s, i + 1);
    ArrivedFacts(f, m1, m2, b, cur.c, names, s);
    StillKnown(f, m1, m2, b, cur.c, names, s, l.arr);
    StillKnown(f, m1, m2, b, cur.c, names, s, p);
    var m3 := ItemArrives(cur.c, l.arr, cur.v, f, m2, names, s, x, i + 1);
    ArrivedFacts(f, m2, m3, cur.c, q.c, names, s);
    StillKnown(f, m2, m3, cur.c, q.c, names, s, p);
    StillKnown(f, m2, m3, cur.c, q.c, names, s, cur.v);
    ReadPlace(s, m3, names, ItemAt(x, i));
    var m4 := LoadArrives(q.c, q.v, f, m3, names, s, s.Items(x)[i]);
    ArrivedFacts(f, m3, m4, q.c, y.c, names, s);
    StillKnown(f, m3, m4, q.c, y.c, names, s, p);
    StillKnown(f, m3, m4, q.c, y.c, names, s, cur.v);
    StoreArrives(y.c, y.v, p, f, m4, names, s, place, s.Items(x)[i]);
    m' := m4.Write(Address(place, names), s.Items(x)[i]).Advance();
    var s' := s.Set(place, s.Items(x)[i]);
    StillKnown(f, m4, m', y.c, h, names, s', cur.v);
    ArrivesTrans(f, m1, m2, m3, b, cur.c, q.c, names, s, s);
    ArrivesTrans(f, m1, m3, m4, b, q.c, y.c, names, s, s);
    ArrivesTrans(f, m1, m4, m', b, y.c, h, names, s, s');
    ArrivesTrans(f, m, m1, m', l.start, b, h, names, s, s');
  }

  // One round, from the loop's header back to it.
  lemma {:induction false} EachRound(a: Piece, p: Operand, place: Place, x: int, i: nat, k: nat, body: Stmt, c: Code,
                                     f: Code, m: Machine, m1: Machine, s: State, names: Names, fuel: nat, j: nat)
    returns (m': Machine)
    requires EachInside(a, p, c, GenStmt(body, EachHead(a, |c.blocks|, p), names), f)
    requires EachReady(a, p, c, m, s, names, place, x, i, k, j) && i < k
    requires Arrives(f, m, m1, EachStart(a, |c.blocks|).start, EachBody(a, |c.blocks|), names, s)
    ensures var s1 := s.Set(place, s.Items(x)[i]);
            var u := GenStmt(body, EachHead(a, |c.blocks|, p), names);
            var l := EachStart(a, |c.blocks|).start;
            match Exec(body, s1, fuel)
            case Value(_, s2) =>
              Loops(f, m, m', l, l, names, s2, j) && EachReady(a, p, c, m', s2, names, place, x, i + 1, k, j)
            case o =>
              ObeysBut(Exec(body, s1, fuel), f, m, m', l,
                       LoopEnd(EachNext(u, a, |c.blocks|), |c.blocks|), names, fuel, j)
    decreases fuel, body, 4
  {
    hide Fits, Framed, Goes, Grown, Builds, GenStmt, Exec, Later, Placed, LoopTest, Obeys, ObeysBut, Arrives;
    hide Standing, Loops;
    hide EachStart, EachBody, EachHead, EachNext, EachLength, EachCounter, Touches, Known;
    var n, l, b, h := |c.blocks|, EachStart(a, |c.blocks|), EachBody(a, |c.blocks|), EachHead(a, |c.blocks|, p);
    var u := GenStmt(body, h, names);
    var v := EachNext(u, a, n);
    var s1 := s.Set(place, s.Items(x)[i]);
    var m2 := ItemTaken(c, a, p, u, f, m, m1, s, names, place, x, i, k, j);
    ArrivedFacts(f, m, m2, l.start, h, names, s1);
    m' := StmtRuns(body, h, f, m2, s1, names, fuel);
    if Exec(body, s1, fuel).Value? {
      var s2, m3 := Exec(body, s1, fuel).s, m';
      assert Exec(body, s1, fuel).v == ();
      ArrivedBy(f, m2, m3, h, u, names, s2, fuel);
      FitsPlaced(s, m, names);
      BodyLater(s, place, s.Items(x)[i], body, fuel, x);
      m' := EachBack(c, a, p, u, f, m, m2, m3, s, s1, s2, names, place, x, i, k, j);
    } else {
      NotArrived(Exec(body, s1, fuel), f, m2, m', h, u, LoopEnd(v, n), names, fuel);
      ObeysButAfter(Exec(body, s1, fuel), f, m, m2, m', l.start, h, LoopEnd(v, n), names, s1, fuel, j);
    }
  }

  lemma {:induction false} EachLoop(a: Piece, p: Operand, place: Place, x: int, i: nat, k: nat, body: Stmt, c: Code,
                                    f: Code, m: Machine, s: State, names: Names, fuel: nat, j: nat)
    returns (m': Machine)
    requires EachInside(a, p, c, GenStmt(body, EachHead(a, |c.blocks|, p), names), f)
    requires EachReady(a, p, c, m, s, names, place, x, i, k, j)
    ensures var u := GenStmt(body, EachHead(a, |c.blocks|, p), names);
            ObeysBut(ExecEach(place, x, i, k, body, s, fuel), f, m, m', EachStart(a, |c.blocks|).start,
                     LoopEnd(EachNext(u, a, |c.blocks|), |c.blocks|), names, fuel, j)
    decreases fuel, body, 5 + if i < k then k - i else 0
  {
    hide Fits, Framed, Goes, Grown, Builds, GenStmt, Exec, Later, Placed, LoopTest, Obeys, ObeysBut, Arrives, Standing;
    hide EachStart, EachBody, EachHead, EachNext, EachLength, EachCounter, Touches, Known, Loops;
    var n, l, b, h := |c.blocks|, EachStart(a, |c.blocks|), EachBody(a, |c.blocks|), EachHead(a, |c.blocks|, p);
    var u := GenStmt(body, h, names);
    var v := EachNext(u, a, n);
    var z := Enter(v.Terminate(Br(n)), n + 2);
    var m1 := LoopTestRuns(l.start, l.index, SLE, EachLength(a, n), b, z, f, m, names, s, i + 1, k);
    if i >= k {
      ArrivedFacts(f, m, m1, l.start, z, names, s);
      NopArrives(z, f, m1, s, names);
      m' := m1.Advance();
      Arrived(f, m1, m', z, z.Emit(Nop), names, s, fuel);
      ObeysButAfter(Value((), s), f, m, m1, m', l.start, z, LoopEnd(v, n), names, s, fuel, j);
    } else {
      m' := EachRound(a, p, place, x, i, k, body, c, f, m, m1, s, names, fuel, j);
      if Exec(body, s.Set(place, s.Items(x)[i]), fuel).Value? {
        var s2, m4 := Exec(body, s.Set(place, s.Items(x)[i]), fuel).s, m';
        m' := EachLoop(a, p, place, x, i + 1, k, body, c, f, m4, s2, names, fuel, j);
        ObeysButAfter(ExecEach(place, x, i + 1, k, body, s2, fuel), f, m, m4, m', l.start, l.start, LoopEnd(v, n),
                      names, s2, fuel, j);
      }
    }
  }

  lemma BodyLater(s: State, place: Place, y: int, body: Stmt, fuel: nat, x: int)
    requires Placed(s) && s.Get(place).Some? && s.HasArray(x) && Exec(body, s.Set(place, y), fuel).Value?
    ensures var s2 := Exec(body, s.Set(place, y), fuel).s;
            s2.Get(place).Some? && s2.HasArray(x) && |s2.Items(x)| == |s.Items(x)|
  {
    hide Later, Placed, Exec;
    var s1 := s.Set(place, y);
    LaterSet(s, place, y);
    LaterPlaced(s, s1);
    SetStays(s, place, y);
    ExecLater(body, s1, fuel);
    PlaceStays(s1, Exec(body, s1, fuel).s, place);
    ArrayStays(s, s1, x);
    ArrayStays(s1, Exec(body, s1, fuel).s, x);
  }

  // From the end of the body, with the counter up by one, back to the header.
  lemma EachBack(c: Code, a: Piece, p: Operand, u: Code, f: Code, m: Machine, m2: Machine, m3: Machine, s: State,
                 s1: State, s2: State,
                 names: Names, place: Place, x: int, i: nat, k: nat, j: nat) returns (m': Machine)
    requires EachInside(a, p, c, u, f) && EachReady(a, p, c, m, s, names, place, x, i, k, j) && i < k
    requires Arrives(f, m, m2, EachStart(a, |c.blocks|).start, EachHead(a, |c.blocks|, p), names, s1)
    requires m2.Of(EachCounter(a, |c.blocks|)) == Int(i + 1)
    requires Arrives(f, m2, m3, EachHead(a, |c.blocks|, p), u, names, s2)
    requires s2.Get(place).Some? && s2.HasArray(x) && |s2.Items(x)| == k
    ensures Loops(f, m, m', EachStart(a, |c.blocks|).start, EachStart(a, |c.blocks|).start, names, s2, j)
    ensures EachReady(a, p, c, m', s2, names, place, x, i + 1, k, j)
  {
    hide Fits, Framed, Goes, Grown, Builds, EachStart, EachBody, EachHead, EachLength;
    var n, l, b, h := |c.blocks|, EachStart(a, |c.blocks|), EachBody(a, |c.blocks|), EachHead(a, |c.blocks|, p);
    var v := EachNext(u, a, n);
    ArrivesTrans(f, m, m2, m3, l.start, h, u, names, s1, s2);
    ArrivedFacts(f, m, m3, l.start, u, names, s2);
    StillKnown(f, m, m3, l.start, u, names, s2, l.index);
    StillKnown(f, m2, m3, h, u, names, s2, EachCounter(a, n));
    SlotStays(f, m, m3, l.start, u, names, s2, j);
    var m4 := CountUp(u, EachCounter(a, n), l.index, v, f, m3, names, s2, i, j);
    LoopedFacts(f, m3, m4, u, v, names, s2, j);
    LoopsTrans(f, m, m3, m4, l.start, u, v, names, s2, s2, j);
    JumpArrives(v, Br(n), l.start, f, m4, names, s2);
    m' := m4.Jump(n);
    LoopsTrans(f, m, m4, m', l.start, v, l.start, names, s2, s2, j);
    LoopedFacts(f, m, m', l.start, l.start, names, s2, j);
    LoopsKnown(f, m, m', l.start, l.start, names, s2, j, l.arr);
    LoopsKnown(f, m, m', l.start, l.start, names, s2, j, l.index);
    LoopsKnown(f, m, m', l.start, l.start, names, s2, j, EachLength(a, n));
    LoopsKnown(f, m, m', l.start, l.start, names, s2, j, p);
  }

  lemma {:induction false} EachRuns(st: Stmt, c: Code, f: Code, m: Machine, s: State, names: Names, fuel: nat)
    returns (m': Machine)
    requires st.ForEachStmt? && c.Open() && Grown(GenStmt(st, c, names), f) && Standing(c, m) && Fits(s, m, names)
    ensures Obeys(Exec(st, s, fuel), f, m, m', c, GenStmt(st, c, names), names, fuel)
    decreases fuel, st, 2
  {
    hide Fits, Framed, Goes, Grown, Builds, GenStmt, ExecEach, Later, Placed, EachStart, EachBody, EachHead, EachNext;
    hide GenTarget, Gen, Locate, Eval, ThreeBlocks, LoopEnd, EachLength;
    var w, n := ThreeBlocks(c), |c.blocks|;
    EachGrown(st, c, f, names);
    NewStanding(c, m);
    var p := GenTarget(st.item, w, names);
    GenTargetBuilds(st.item, w, names);
    OpenOf(w, p.c);
    var a := Gen(st.collection, p.c, names);
    GenBuilds(st.collection, p.c, names);
    var u := GenStmt(st.body, EachHead(a, n, p.v), names);
    var l := EachStart(a, n);
    EachStartBuilds(c, a, f);
    m' := FirstTarget(st.item, w, a.c, f, m, s, names);
    if Locate(st.item, s).Value? {
      var place, s1, m1 := Locate(st.item, s).v, Locate(st.item, s).s, m';
      EvalHasFuel(st.collection, s1);
      BuildsReflOf(p.c, a.c);
      m' := FirstRuns(st.collection, p.c, a.c, f, m1, s1, names);
      ThenFailed(Eval(st.collection, s1), f, m, m1, m', w, p.c, names, s1);
      if Eval(st.collection, s1).Value? && Eval(st.collection, s1).s.HasArray(Eval(st.collection, s1).v) {
        var x, s2, m2 := Eval(st.collection, s1).v, Eval(st.collection, s1).s, m';
        ThenEvalLater(s, s1, st.collection);
        PlaceStays(s1, s2, place);
        StillKnown(f, m1, m2, p.c, a.c, names, s2, p.v);
        ArrivesTrans(f, m, m1, m2, w, p.c, a.c, names, s1, s2);
        SlotsGrow(f, m, m2, w, a.c, names, s2);
        var m3, j := EachStartRuns(c, a, p.v, u, f, m2, s2, names, x);
        MoreBlocks(w, a.c);
        ArrivesTrans(f, m, m2, m3, w, a.c, l.start, names, s2, s2);
        ArrivedFacts(f, m2, m3, a.c, l.start, names, s2);
        m' := EachLoop(a, p.v, place, x, 0, |s2.Items(x)|, st.body, c, f, m3, s2, names, fuel, j);
        ButOut(ExecEach(place, x, 0, |s2.Items(x)|, st.body, s2, fuel), f, m, m3, m', w, l.start, GenStmt(st, c, names),
               names, s2, fuel, j);
        RegsOnly(ExecEach(place, x, 0, |s2.Items(x)|, st.body, s2, fuel), f, m, m', w, c, GenStmt(st, c, names), names,
                 fuel);
      }
    }
  }

  lemma BuildsReflOf(c: Code, c1: Code)
    requires Builds(c, c1)
    ensures Builds(c1, c1)
  {
  }

  lemma EachStartBuilds(c: Code, a: Piece, f: Code)
    requires c.Open() && Builds(ThreeBlocks(c), a.c) && Grown(EachStart(a, |c.blocks|).start, f)
    ensures Grown(a.c, f) && Builds(a.c, a.c)
  {
    hide Grown;
    var n := |c.blocks|;
    BuildsReflOf(ThreeBlocks(c), a.c);
    var index := Yield(a.c, Alloca(a.c.regs));
    ThenYield(a.c, a.c, Alloca(a.c.regs));
    var b := index.c.Emit(Store(Const(1), index.v));
    ThenEmit(a.c, index.c, Store(Const(1), index.v));
    var arr := AsPointer(b, a.v);
    ThenYield(a.c, b, IntToPtr(b.regs, a.v));
    var length := LoadFrom(arr.c, arr.v);
    ThenYield(a.c, arr.c, Load(arr.c.regs, arr.v));
    LeaveTouches(length.c, Br(n), n);
    TouchesGrown(length.c, EachStart(a, n).start, {length.c.at}, f);
    GrownBack(a.c, length.c, f);
  }

  lemma ButOut(o: Outcome<()>, f: Code, m: Machine, m1: Machine, m': Machine, c: Code, c1: Code, c': Code,
               names: Names, s1: State, fuel: nat, j: nat)
    requires Arrives(f, m, m1, c, c1, names, s1) && ObeysBut(o, f, m1, m', c1, c', names, fuel, j)
    requires j >= |m.slots| && c.regs <= c1.regs
    ensures Obeys(o, f, m, m', c, c', names, fuel)
  {
    hide Fits;
    match o
    case Value(_, s) => LoopsOut(f, m, m1, m', c, c1, c', names, s1, s, j);
    case Failed(_, _) => GoesOn(f, m, m1, m');
    case OutOfFuel => KeepsFrom(f, m, m1, fuel);
    case Undefined =>
  }
}
