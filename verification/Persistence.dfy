/** What running a program cannot undo: nothing that was allocated goes away, a cell stays a cell, an
    array keeps its length, and the variables stay the same. So a place that was located once is
    still there later, when a right-hand side, an index or the body of a loop has been run. */
module Persistence {
  import opened TipTypes
  import opened TipLanguage

  ghost predicate Placed(s: State) {
    forall a {:trigger s.heap[a]} | a in s.heap :: a < s.next
  }

  // Nothing goes away, and no array changes its length.
  ghost predicate Later(s: State, s': State) {
    && s'.vars.Keys == s.vars.Keys && s.next <= s'.next && Placed(s')
    && forall a {:trigger Alike(s, s', a)} | a in s.heap :: Alike(s, s', a)
  }

  ghost predicate Alike(s: State, s': State, a: int) {
    && (s.HasCell(a) ==> s'.HasCell(a))
    && (s.HasArray(a) ==> s'.HasArray(a) && |s'.Items(a)| == |s.Items(a)|)
  }

  lemma LaterTrans(s: State, s1: State, s2: State)
    requires Later(s, s1) && Later(s1, s2)
    ensures Later(s, s2)
  {
    forall a | a in s.heap ensures Alike(s, s2, a) { assert Alike(s, s1, a) && Alike(s1, s2, a); }
  }

  lemma LaterSame(s: State)
    requires Placed(s)
    ensures Later(s, s)
  {
  }

  lemma LaterSet(s: State, p: Place, x: int)
    requires Placed(s) && s.Get(p).Some?
    ensures Later(s, s.Set(p, x))
  {
  }

  lemma LaterNew(s: State, n: nat, x: int)
    requires Placed(s)
    ensures Later(s, s.NewArray(n)) && s.NewArray(n).HasArray(s.next) && |s.NewArray(n).Items(s.next)| == n
    ensures Later(s, s.NewCell(x))
  {
  }

  lemma PlaceStays(s: State, s': State, p: Place)
    requires Later(s, s') && s.Get(p).Some?
    ensures s'.Get(p).Some?
  {
    match p
    case VariableAt(x) => assert x in s.vars.Keys;
    case ItemAt(a, _) => assert Alike(s, s', a);
    case CellAt(a) => assert Alike(s, s', a);
  }

  lemma {:induction false} EvalLater(e: Expr, s: State)
    requires Placed(s)
    ensures Eval(e, s).Value? ==> Later(s, Eval(e, s).s)
    decreases e, 0
  {
    hide Later, Placed, Apply;
    if Eval(e, s).Value? {
      LaterSame(s);
      match e
      case NumberExpr(_) =>
      case BoolExpr(_) =>
      case VariableExpr(_) =>
      case BinaryExpr(_, l, r) =>
        EvalLater(l, s);
        var s1 := Eval(l, s).s;
        LaterPlaced(s, s1);
        EvalLater(r, s1);
        LaterTrans(s, s1, Eval(r, s1).s);
      case NotExpr(a) => EvalLater(a, s);
      case NegExpr(a) => EvalLater(a, s);
      case TernaryExpr(c, t, f) =>
        EvalLater(c, s);
        var s1 := Eval(c, s).s;
        LaterPlaced(s, s1);
        if Eval(c, s).v != 0 { EvalLater(t, s1); } else { EvalLater(f, s1); }
        LaterTrans(s, s1, Eval(e, s).s);
      case ArrayExpr(es) =>
        LaterNew(s, |es|, 0);
        var s1 := s.NewArray(|es|);
        LaterPlaced(s, s1);
        ItemsLater(es, 0, s.next, s1);
        LaterTrans(s, s1, Eval(e, s).s);
      case ArrayOfExpr(e1, e2) =>
        EvalLater(e1, s);
        var s1, n := Eval(e1, s).s, Eval(e1, s).v;
        LaterPlaced(s, s1);
        LaterNew(s1, n, 0);
        var s2 := s1.NewArray(n);
        LaterPlaced(s1, s2);
        FillLater(e2, 0, n, s1.next, s2);
        LaterTrans(s, s1, s2);
        LaterTrans(s, s2, Eval(e, s).s);
      case ArrayLenExpr(p) => EvalLater(p, s);
      case IndexingExpr(arr, idx) =>
        EvalLater(arr, s);
        var s1 := Eval(arr, s).s;
        LaterPlaced(s, s1);
        EvalLater(idx, s1);
        LaterTrans(s, s1, Eval(idx, s1).s);
      case AllocExpr(e1) =>
        EvalLater(e1, s);
        var s1 := Eval(e1, s).s;
        LaterPlaced(s, s1);
        LaterNew(s1, 0, Eval(e1, s).v);
        LaterTrans(s, s1, Eval(e, s).s);
      case DeRefExpr(p) => EvalLater(p, s);
    }
  }

  lemma LaterPlaced(s: State, s': State)
    requires Later(s, s')
    ensures Placed(s')
  {
  }

  lemma ArrayStays(s: State, s': State, a: int)
    requires Later(s, s') && s.HasArray(a)
    ensures s'.HasArray(a) && |s'.Items(a)| == |s.Items(a)|
  {
    assert Alike(s, s', a);
  }

  lemma {:induction false} ItemsLater(es: seq<Expr>, i: nat, a: int, s: State)
    requires Placed(s) && s.HasArray(a) && |s.Items(a)| == |es|
    ensures EvalItems(es, i, a, s).Value? ==> EvalItems(es, i, a, s).v == a && Later(s, EvalItems(es, i, a, s).s)
    decreases es, if i < |es| then |es| - i else 0
  {
    hide Later, Placed;
    LaterSame(s);
    if i < |es| && Eval(es[i], s).Value? {
      EvalLater(es[i], s);
      var x, s1 := Eval(es[i], s).v, Eval(es[i], s).s;
      ArrayStays(s, s1, a);
      LaterPlaced(s, s1);
      LaterSet(s1, ItemAt(a, i), x);
      var s2 := s1.Set(ItemAt(a, i), x);
      LaterPlaced(s1, s2);
      ArrayStays(s1, s2, a);
      LaterTrans(s, s1, s2);
      ItemsLater(es, i + 1, a, s2);
      if EvalItems(es, i + 1, a, s2).Value? { LaterTrans(s, s2, EvalItems(es, i + 1, a, s2).s); }
    }
  }

  lemma {:induction false} FillLater(e: Expr, i: nat, n: nat, a: int, s: State)
    requires Placed(s) && s.HasArray(a) && |s.Items(a)| == n
    ensures EvalFill(e, i, n, a, s).Value? ==> EvalFill(e, i, n, a, s).v == a && Later(s, EvalFill(e, i, n, a, s).s)
    decreases e, if i < n then n - i + 1 else 1
  {
    hide Later, Placed;
    LaterSame(s);
    if i < n && Eval(e, s).Value? {
      EvalLater(e, s);
      var x, s1 := Eval(e, s).v, Eval(e, s).s;
      ArrayStays(s, s1, a);
      LaterPlaced(s, s1);
      LaterSet(s1, ItemAt(a, i), x);
      var s2 := s1.Set(ItemAt(a, i), x);
      LaterPlaced(s1, s2);
      ArrayStays(s1, s2, a);
      LaterTrans(s, s1, s2);
      FillLater(e, i + 1, n, a, s2);
      if EvalFill(e, i + 1, n, a, s2).Value? { LaterTrans(s, s2, EvalFill(e, i + 1, n, a, s2).s); }
    }
  }

  lemma LocateLater(e: Expr, s: State)
    requires Placed(s)
    ensures Locate(e, s).Value? ==> Later(s, Locate(e, s).s) && Locate(e, s).s.Get(Locate(e, s).v).Some?
  {
    hide Later, Placed;
    if Locate(e, s).Value? {
      LaterSame(s);
      match e
      case VariableExpr(_) =>
      case IndexingExpr(arr, idx) =>
        EvalLater(arr, s);
        var s1 := Eval(arr, s).s;
        LaterPlaced(s, s1);
        EvalLater(idx, s1);
        LaterTrans(s, s1, Eval(idx, s1).s);
        ArrayStays(s1, Eval(idx, s1).s, Eval(arr, s).v);
      case DeRefExpr(p) => EvalLater(p, s);
      case _ =>
    }
  }

  lemma {:induction false} ExecLater(st: Stmt, s: State, fuel: nat)
    requires Placed(s)
    ensures Exec(st, s, fuel).Value? ==> Later(s, Exec(st, s, fuel).s)
    decreases fuel, st, 0
  {
    hide Later, Placed, Eval, Locate;
    if Exec(st, s, fuel).Value? {
      LaterSame(s);
      match st
      case AssignStmt(lhs, rhs) =>
        LocateLater(lhs, s);
        var p, s1 := Locate(lhs, s).v, Locate(lhs, s).s;
        ThenEvalLater(s, s1, rhs);
        var s2 := Eval(rhs, s1).s;
        PlaceStays(s1, s2, p);
        ThenSetLater(s, s2, p, Eval(rhs, s1).v);
      case UpdateStmt(target, _) =>
        LocateLater(target, s);
        var p, s1 := Locate(target, s).v, Locate(target, s).s;
        ThenSetLater(s, s1, p, Wrap(s1.Get(p).value + if st.increment then 1 else -1));
      case BlockStmt(ss) => ExecAllLater(ss, 0, s, fuel);
      case IfStmt(c, t, f) =>
        EvalLater(c, s);
        var s1 := Eval(c, s).s;
        LaterPlaced(s, s1);
        if Eval(c, s).v != 0 {
          ExecLater(t, s1, fuel);
          LaterTrans(s, s1, Exec(t, s1, fuel).s);
        } else if f.Some? {
          ExecLater(f.value, s1, fuel);
          LaterTrans(s, s1, Exec(f.value, s1, fuel).s);
        }
      case WhileStmt(c, body) =>
        EvalLater(c, s);
        var s1 := Eval(c, s).s;
        LaterPlaced(s, s1);
        if Eval(c, s).v != 0 {
          ExecLater(body, s1, fuel);
          var s2 := Exec(body, s1, fuel).s;
          LaterPlaced(s1, s2);
          ExecLater(st, s2, fuel - 1);
          LaterTrans(s, s1, s2);
          LaterTrans(s, s2, Exec(st, s2, fuel - 1).s);
        }
      case ForRangeStmt(item, start, end, step, body) =>
        LocateLater(item, s);
        var p, s1 := Locate(item, s).v, Locate(item, s).s;
        ThenEvalLater(s, s1, start);
        var a, s2 := Eval(start, s1).v, Eval(start, s1).s;
        ThenEvalLater(s, s2, end);
        var b, s3 := Eval(end, s2).v, Eval(end, s2).s;
        LaterTrans(s1, s2, s3);
        if step.Some? { ThenEvalLater(s, s3, step.value); LaterTrans(s1, s3, Eval(step.value, s3).s); }
        var c, s4 := if step.Some? then Eval(step.value, s3).v else 1,
                     if step.Some? then Eval(step.value, s3).s else s3;
        PlaceStays(s1, s4, p);
        ThenSetLater(s, s4, p, a);
        var s5 := s4.Set(p, a);
        LaterPlaced(s, s5);
        SetStays(s4, p, a);
        ExecRangeLater(p, b, c, body, s5, fuel);
        LaterTrans(s, s5, Exec(st, s, fuel).s);
      case ForEachStmt(item, collection, body) =>
        LocateLater(item, s);
        var p, s1 := Locate(item, s).v, Locate(item, s).s;
        ThenEvalLater(s, s1, collection);
        var a, s2 := Eval(collection, s1).v, Eval(collection, s1).s;
        PlaceStays(s1, s2, p);
        LaterPlaced(s, s2);
        ExecEachLater(p, a, 0, |s2.Items(a)|, body, s2, fuel);
        LaterTrans(s, s2, Exec(st, s, fuel).s);
      case OutputStmt(a) =>
        EvalLater(a, s);
        var s1 := Eval(a, s).s;
        LaterPlaced(s, s1);
        OutputLater(s1, Eval(a, s).v);
        LaterTrans(s, s1, Exec(st, s, fuel).s);
      case ErrorStmt(_) =>
    }
  }

  lemma ThenEvalLater(s: State, s1: State, e: Expr)
    requires Later(s, s1)
    ensures Eval(e, s1).Value? ==> Later(s1, Eval(e, s1).s) && Later(s, Eval(e, s1).s)
  {
    LaterPlaced(s, s1);
    EvalLater(e, s1);
    if Eval(e, s1).Value? { LaterTrans(s, s1, Eval(e, s1).s); }
  }

  lemma ThenSetLater(s: State, s1: State, p: Place, x: int)
    requires Later(s, s1) && s1.Get(p).Some?
    ensures Later(s, s1.Set(p, x))
  {
    LaterPlaced(s, s1);
    LaterSet(s1, p, x);
    LaterTrans(s, s1, s1.Set(p, x));
  }

  lemma SetStays(s: State, p: Place, x: int)
    requires s.Get(p).Some?
    ensures s.Set(p, x).Get(p) == Some(x)
  {
  }

  lemma {:induction false} ExecAllLater(ss: seq<Stmt>, i: nat, s: State, fuel: nat)
    requires Placed(s)
    ensures ExecAll(ss, i, s, fuel).Value? ==> Later(s, ExecAll(ss, i, s, fuel).s)
    decreases fuel, ss, if i < |ss| then |ss| - i else 0
  {
    hide Later, Placed, Exec;
    LaterSame(s);
    if i < |ss| && ExecAll(ss, i, s, fuel).Value? {
      ExecLater(ss[i], s, fuel);
      var s1 := Exec(ss[i], s, fuel).s;
      LaterPlaced(s, s1);
      ExecAllLater(ss, i + 1, s1, fuel);
      LaterTrans(s, s1, ExecAll(ss, i, s, fuel).s);
    }
  }

  lemma {:induction false} ExecRangeLater(p: Place, end: int, step: int, body: Stmt, s: State, fuel: nat)
    requires Placed(s) && s.Get(p).Some?
    ensures ExecRange(p, end, step, body, s, fuel).Value? ==> Later(s, ExecRange(p, end, step, body, s, fuel).s)
    decreases fuel, body, 1
  {
    hide Later, Placed, Exec;
    LaterSame(s);
    if ExecRange(p, end, step, body, s, fuel).Value? && s.Get(p).value < end {
      ExecLater(body, s, fuel);
      var s1 := Exec(body, s, fuel).s;
      PlaceStays(s, s1, p);
      var x := Wrap(s1.Get(p).value + step);
      ThenSetLater(s, s1, p, x);
      var s2 := s1.Set(p, x);
      SetStays(s1, p, x);
      LaterPlaced(s, s2);
      ExecRangeLater(p, end, step, body, s2, fuel - 1);
      LaterTrans(s, s2, ExecRange(p, end, step, body, s, fuel).s);
    }
  }

  lemma {:induction false} ExecEachLater(p: Place, a: int, i: nat, n: nat, body: Stmt, s: State, fuel: nat)
    requires Placed(s) && s.Get(p).Some?
    ensures ExecEach(p, a, i, n, body, s, fuel).Value? ==> Later(s, ExecEach(p, a, i, n, body, s, fuel).s)
    decreases fuel, body, if i < n then n - i + 1 else 1
  {
    hide Later, Placed, Exec;
    LaterSame(s);
    if i < n && ExecEach(p, a, i, n, body, s, fuel).Value? {
      var x := s.Get(ItemAt(a, i)).value;
      LaterSet(s, p, x);
      var s1 := s.Set(p, x);
      LaterPlaced(s, s1);
      SetStays(s, p, x);
      ExecLater(body, s1, fuel);
      var s2 := Exec(body, s1, fuel).s;
      PlaceStays(s1, s2, p);
      LaterPlaced(s1, s2);
      LaterTrans(s, s1, s2);
      ExecEachLater(p, a, i + 1, n, body, s2, fuel);
      LaterTrans(s, s2, ExecEach(p, a, i, n, body, s, fuel).s);
    }
  }

  lemma OutputLater(s: State, x: int)
    requires Placed(s)
    ensures Later(s, s.(out := s.out + [x]))
  {
  }
}
