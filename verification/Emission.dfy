/** The emission schemes as functions from code to code, with separate schemes for r-values and
    l-values. */
module Emission {
  import opened TipTypes
  import opened TipLanguage
  import opened Ir

  // The stack slots of the variables.
  type Names = map<string, nat>

  // Code that was added to, and the operand that has the value of interest.
  datatype Piece = Piece(c: Code, v: Operand)

  // An instruction, whose result is in the next register.
  function Yield(c: Code, i: Instr): Piece { Piece(c.Def(i), Reg(c.regs)) }

  function Arith(c: Code, op: IrOp, a: Operand, b: Operand): Piece { Yield(c, Binary(c.regs, op, a, b)) }

  function Test(c: Code, pred: Predicate, a: Operand, b: Operand): Piece { Yield(c, ICmp(c.regs, pred, a, b)) }

  // A comparison, widened to 64 bits.
  function Relation(c: Code, pred: Predicate, a: Operand, b: Operand): Piece {
    var t := Test(c, pred, a, b);
    Yield(t.c, ZExt(t.c.regs, t.v))
  }

  function GenOp(op: BinaryOp, c: Code, a: Operand, b: Operand): Piece {
    match op
    case Add => Arith(c, IAdd, a, b)
    case Sub => Arith(c, ISub, a, b)
    case Mul => Arith(c, IMul, a, b)
    case Div => Arith(c, SDiv, a, b)
    case Mod => Arith(c, SRem, a, b)
    case And => Arith(c, BitAnd, a, b)
    case Or => Arith(c, BitOr, a, b)
    case Lt => Relation(c, SLT, a, b)
    case Gt => Relation(c, SGT, a, b)
    case Le => Relation(c, SLE, a, b)
    case Ge => Relation(c, SGE, a, b)
    case Eq => Relation(c, EQ, a, b)
    case Ne => Relation(c, NE, a, b)
  }

  function LoadFrom(c: Code, p: Operand): Piece { Yield(c, Load(c.regs, p)) }

  function AsPointer(c: Code, v: Operand): Piece { Yield(c, IntToPtr(c.regs, v)) }

  function AsInt(c: Code, p: Operand): Piece { Yield(c, PtrToInt(c.regs, p)) }

  function At(c: Code, p: Operand, idx: Operand): Piece { Yield(c, Gep(c.regs, p, idx)) }

  function NewWords(c: Code, items: Operand): Piece { Yield(c, Calloc(c.regs, items)) }

  // Three new blocks, the first of them in place; the insertion point is still before them.
  function ThreeBlocks(c: Code): Code { c.NewBlock().Place(|c.blocks|).NewBlock().NewBlock() }

  // On to block b, which is put into the function's list.
  function Enter(c: Code, b: nat): Code { c.Place(b).MoveTo(b) }

  function Gen(e: Expr, c: Code, names: Names): Piece
    decreases e, 1
  {
    match e
    case NumberExpr(n) => Piece(c, Const(n))
    case BoolExpr(b) => Piece(c, Const(Truth(b)))
    case VariableExpr(x) => if x in names then LoadFrom(c, Slot(names[x])) else Piece(c, Const(0))
    case BinaryExpr(op, left, right) =>
      var l := Gen(left, c, names);
      var r := Gen(right, l.c, names);
      GenOp(op, r.c, l.v, r.v)
    case NotExpr(arg) =>
      var a := Gen(arg, c, names);
      Arith(a.c, BitXor, a.v, Const(1))
    case NegExpr(arg) =>
      var a := Gen(arg, c, names);
      Arith(a.c, ISub, Const(0), a.v)
    case TernaryExpr(condition, thenE, elseE) =>
      var s := Split(Gen(condition, c, names));
      var thenB := |s.blocks| - 3;
      var t := Gen(thenE, s.MoveTo(thenB), names);
      var c1 := Enter(t.c.Terminate(Br(thenB + 2)), thenB + 1);
      var f := Gen(elseE, c1, names);
      var c2 := Enter(f.c.Terminate(Br(thenB + 2)), thenB + 2);
      Yield(c2, Phi(c2.regs, [(t.v, t.c.at), (f.v, f.c.at)]))
    case ArrayExpr(es) =>
      var p := NewWords(c, Const(|es| + 1));
      var c1 := GenItems(es, 0, p.v, p.c.Emit(Store(Const(|es|), p.v)), names);
      AsInt(c1, p.v)
    case ArrayOfExpr(e1, e2) =>
      var n := Gen(e1, c, names);
      var el := Gen(e2, FillBody(n), names);
      AsInt(FillEnd(n, el), FillStart(n).arr)
    case ArrayLenExpr(ptr) =>
      var a := Gen(ptr, c, names);
      var p := AsPointer(a.c, a.v);
      LoadFrom(p.c, p.v)
    case IndexingExpr(arr, idx) =>
      var p := GenElement(e, c, names);
      LoadFrom(p.c, p.v)
    case AllocExpr(init) =>
      var a := Gen(init, c, names);
      var p := NewWords(a.c, Const(1));
      AsInt(p.c.Emit(Store(a.v, p.v)), p.v)
    case DeRefExpr(ptr) =>
      var a := Gen(ptr, c, names);
      var p := AsPointer(a.c, a.v);
      LoadFrom(p.c, p.v)
  }

  // The elements of an array literal, each into its place behind the length.
  function GenItems(es: seq<Expr>, i: nat, p: Operand, c: Code, names: Names): Code
    decreases es, if i < |es| then |es| - i else 0
  {
    if i >= |es| then c else
    var el := Gen(es[i], c, names);
    var q := At(el.c, p, Const(i + 1));
    GenItems(es, i + 1, p, q.c.Emit(Store(el.v, q.v)), names)
  }

  // The condition is compared to 0, and decides between the first two of three new blocks.
  function Split(condition: Piece): Code {
    var k := Test(condition.c, NE, condition.v, Const(0));
    var thenB := |k.c.blocks|;
    ThreeBlocks(k.c).Terminate(CondBr(k.v, thenB, thenB + 1))
  }

  // Three new blocks, all in place.
  function Ahead(c: Code): Code {
    var n := |c.blocks|;
    c.NewBlock().Place(n).NewBlock().Place(n + 1).NewBlock().Place(n + 2)
  }

  function Fork(c: Code, t: Terminator): Code { Ahead(c).Terminate(t) }

  /** The address of an array element: the length is loaded, then the index is computed and
      checked, and what comes next goes into a new block. */
  function GenElement(e: Expr, c: Code, names: Names): Piece
    requires e.IndexingExpr?
    decreases e, 0
  {
    var a := Gen(e.arr, c, names);
    var p := AsPointer(a.c, a.v);
    var l := LoadFrom(p.c, p.v);
    var i := Gen(e.idx, l.c, names);
    CheckBounds(i.c, p.v, l.v, i.v)
  }

  // Blocks inB, outB and contB are in place from the start.
  function CheckBounds(c: Code, p: Operand, length: Operand, i: Operand): Piece {
    var neg := Test(c, SLT, i, Const(0));
    var large := Test(neg.c, SGE, i, length);
    var out := Arith(large.c, BitOr, neg.v, large.v);
    AfterCheck(out, p, i)
  }

  // An error in the second block; the address in the first, and from there on to the third.
  function AfterCheck(out: Piece, p: Operand, i: Operand): Piece {
    var inB := |out.c.blocks|;
    var c2 := Fork(out.c, CondBr(out.v, inB + 1, inB)).MoveTo(inB + 1);
    var c3 := c2.Emit(CallError(Const(0))).Terminate(Unreachable).MoveTo(inB);
    var j := Arith(c3, IAdd, i, Const(1));
    var q := At(j.c, p, j.v);
    Piece(q.c.Terminate(Br(inB + 2)).MoveTo(inB + 2), q.v)
  }

  // A loop: the start of its header, an array, and the slot of an index.
  datatype Loop = Loop(start: Code, arr: Operand, index: Operand)

  // The loop of an array-of expression: the array is allocated, and its items count from 1.
  function FillStart(n: Piece): Loop {
    var items := Arith(n.c, IAdd, n.v, Const(1));
    var p := NewWords(items.c, items.v);
    var s := p.c.Emit(Store(n.v, p.v));
    var index := Yield(s, Alloca(s.regs));
    var c1 := index.c.Emit(Store(Const(1), index.v));
    var condB := |c1.blocks|;
    Loop(Fork(c1, Br(condB)).MoveTo(condB), p.v, index.v)
  }

  // A loop header: the counter is loaded and compared, and decides between the next two blocks.
  function LoopTest(c: Code, p: Operand, pred: Predicate, end: Operand): Code {
    var x := LoadFrom(c, p);
    var t := Test(x.c, pred, x.v, end);
    t.c.Terminate(CondBr(t.v, c.at + 1, c.at + 2))
  }

  function FillBody(n: Piece): Code {
    var l := FillStart(n);
    LoopTest(l.start, l.index, SLE, n.v).MoveTo(l.start.at + 1)
  }

  // The counter as it was loaded in the header.
  function FillCounter(n: Piece): Operand { Reg(FillStart(n).start.regs) }

  // The element goes into its place, and the counter goes up.
  function FillNext(n: Piece, el: Piece): Code {
    var l := FillStart(n);
    var q := At(el.c, l.arr, FillCounter(n));
    var next := Arith(q.c.Emit(Store(el.v, q.v)), IAdd, FillCounter(n), Const(1));
    next.c.Emit(Store(next.v, l.index))
  }

  function FillEnd(n: Piece, el: Piece): Code {
    var l := FillStart(n);
    FillNext(n, el).Terminate(Br(l.start.at)).MoveTo(l.start.at + 2)
  }

  // The pointer to a target. In a place of its own, an element pointer passes through a phi.
  function GenTarget(e: Expr, c: Code, names: Names): Piece {
    match e
    case VariableExpr(x) => if x in names then Piece(c, Slot(names[x])) else Piece(c, Const(0))
    case IndexingExpr(arr, idx) =>
      var p := GenElement(e, c, names);
      Yield(p.c, Phi(p.c.regs, [(p.v, p.c.at - 2)]))
    case DeRefExpr(ptr) =>
      var a := Gen(ptr, c, names);
      AsPointer(a.c, a.v)
    case _ => Piece(c, Const(0))
  }

  // ----- statements -----

  function GenStmt(st: Stmt, c: Code, names: Names): Code
    decreases st, 0
  {
    match st
    case AssignStmt(lhs, rhs) =>
      var p := GenTarget(lhs, c, names);
      var v := Gen(rhs, p.c, names);
      v.c.Emit(Store(v.v, p.v))
    case UpdateStmt(target, increment) =>
      var p := GenTarget(target, c, names);
      var v := LoadFrom(p.c, p.v);
      var w := Arith(v.c, if increment then IAdd else ISub, v.v, Const(1));
      w.c.Emit(Store(w.v, p.v))
    case BlockStmt(ss) => if ss == [] then c.Emit(Nop) else GenStmts(ss, 0, c, names)
    case IfStmt(condition, thenS, elseS) =>
      var s := Split(Gen(condition, c, names));
      var thenB := |s.blocks| - 3;
      var c1 := Enter(GenStmt(thenS, s.MoveTo(thenB), names).Terminate(Br(thenB + 2)), thenB + 1);
      var c2 := if elseS.Some? then GenStmt(elseS.value, c1, names) else c1.Emit(Nop);
      Enter(c2.Terminate(Br(thenB + 2)), thenB + 2).Emit(Nop)
    case WhileStmt(condition, body) =>
      var header := |c.blocks|;
      var k := Gen(condition, ThreeBlocks(c).Terminate(Br(header)).MoveTo(header), names);
      var t := Test(k.c, NE, k.v, Const(0));
      var c1 := Enter(t.c.Terminate(CondBr(t.v, header + 1, header + 2)), header + 1);
      LoopEnd(GenStmt(body, c1, names), header)
    case ForRangeStmt(item, start, end, step, body) =>
      var header := |c.blocks|;
      var p := GenTarget(item, ThreeBlocks(c), names);
      var a := Gen(start, p.c, names);
      var b := Gen(end, a.c, names);
      var k := if step.Some? then Gen(step.value, b.c, names) else Piece(b.c, Const(1));
      var c1 := RangeHead(k.c.Emit(Store(a.v, p.v)), header, p.v, b.v);
      LoopEnd(RangeNext(GenStmt(body, c1, names), p.v, k.v), header)
    case ForEachStmt(item, collection, body) =>
      var header := |c.blocks|;
      var p := GenTarget(item, ThreeBlocks(c), names);
      var a := Gen(collection, p.c, names);
      var u := GenStmt(body, EachHead(a, header, p.v), names);
      LoopEnd(EachNext(u, a, header), header)
    case OutputStmt(arg) =>
      var a := Gen(arg, c, names);
      a.c.Emit(CallOutput(a.v))
    case ErrorStmt(arg) =>
      var a := Gen(arg, c, names);
      a.c.Emit(CallError(a.v))
  }

  function GenStmts(ss: seq<Stmt>, i: nat, c: Code, names: Names): Code
    decreases ss, if i < |ss| then |ss| - i else 0
  {
    if i >= |ss| then c else GenStmts(ss, i + 1, GenStmt(ss[i], c, names), names)
  }

  // The item is loaded and compared with the end each time round.
  function RangeHead(c: Code, header: nat, p: Operand, end: Operand): Code {
    Enter(LoopTest(c.Terminate(Br(header)).MoveTo(header), p, SLT, end), header + 1)
  }

  function RangeNext(c: Code, p: Operand, step: Operand): Code {
    var x := LoadFrom(c, p);
    var y := Arith(x.c, IAdd, x.v, step);
    y.c.Emit(Store(y.v, p))
  }

  // Back to the header, and on behind the loop.
  function LoopEnd(c: Code, header: nat): Code { Enter(c.Terminate(Br(header)), header + 2).Emit(Nop) }

  // An index of its own counts the items; the length was loaded once.
  function EachStart(a: Piece, header: nat): Loop {
    var index := Yield(a.c, Alloca(a.c.regs));
    var arr := AsPointer(index.c.Emit(Store(Const(1), index.v)), a.v);
    var length := LoadFrom(arr.c, arr.v);
    Loop(length.c.Terminate(Br(header)).MoveTo(header), arr.v, index.v)
  }

  function EachLength(a: Piece, header: nat): Operand { Reg(EachStart(a, header).start.regs - 1) }

  function EachBody(a: Piece, header: nat): Code {
    var l := EachStart(a, header);
    Enter(LoopTest(l.start, l.index, SLE, EachLength(a, header)), header + 1)
  }

  function EachCounter(a: Piece, header: nat): Operand { Reg(EachBody(a, header).regs) }

  // The item's turn: it is stored to the target.
  function EachHead(a: Piece, header: nat, p: Operand): Code {
    var l := EachStart(a, header);
    var cur := LoadFrom(EachBody(a, header), l.index);
    var q := At(cur.c, l.arr, cur.v);
    var x := LoadFrom(q.c, q.v);
    x.c.Emit(Store(x.v, p))
  }

  function EachNext(c: Code, a: Piece, header: nat): Code {
    var n := Arith(c, IAdd, EachCounter(a, header), Const(1));
    n.c.Emit(Store(n.v, EachStart(a, header).index))
  }

  // ----- whole functions -----

  // A function: its parameters and local variables, its body, and what it returns.
  datatype Function = Function(formals: seq<string>, locals: seq<string>, body: Stmt, result: Expr) {
    function Variables(): seq<string> { formals + locals }
  }

  predicate Declared(fn: Function) {
    forall i, j | 0 <= i < j < |fn.Variables()| :: fn.Variables()[i] != fn.Variables()[j]
  }

  // No name is declared twice, as a parameter or as a local variable.
  lemma DeclaredOnce(fn: Function)
    ensures Declared(fn) <==> forall x :: multiset(fn.formals)[x] + multiset(fn.locals)[x] <= 1
  {
    OnceEach(fn.Variables());
    assert forall x :: multiset(fn.Variables())[x] == multiset(fn.formals)[x] + multiset(fn.locals)[x];
  }

  lemma {:induction false} OnceEach(xs: seq<string>)
    ensures (forall i, j | 0 <= i < j < |xs| :: xs[i] != xs[j]) <==> forall x :: multiset(xs)[x] <= 1
  {
    if xs != [] {
      var n := |xs| - 1;
      var rest, last := xs[..n], xs[n];
      OnceEach(rest);
      assert xs == rest + [last];
      assert forall x :: multiset(xs)[x] == multiset(rest)[x] + if x == last then 1 else 0;
      assert last in rest <==> multiset(rest)[last] > 0;
      if forall i, j | 0 <= i < j < |xs| :: xs[i] != xs[j] {
        assert forall i | 0 <= i < n :: rest[i] == xs[i] != xs[n];
        assert last !in rest;
      } else {
        var i, j :| 0 <= i < j < |xs| && xs[i] == xs[j];
        if j < n { assert rest[i] == rest[j]; } else { assert rest[i] == last; }
      }
    }
  }

  // One stack slot each, in order.
  function Slots(fn: Function): (names: Names)
    requires Declared(fn)
    ensures names.Keys == set x | x in fn.Variables()
  {
    SlotsOf(fn.Variables())
  }

  function SlotsOf(xs: seq<string>): (names: Names)
    ensures names.Keys == set x | x in xs
    ensures forall x | x in names :: names[x] < |xs| && xs[names[x]] == x
  {
    if xs == [] then map[] else
    var rest := SlotsOf(xs[..|xs| - 1]);
    assert xs == xs[..|xs| - 1] + [xs[|xs| - 1]];
    rest[xs[|xs| - 1] := |xs| - 1]
  }

  const ENTRY: Code := Code([Block([], None)], {0}, 0, 0)

  function Emitted(fn: Function): Code
    requires Declared(fn)
  {
    var r := Gen(fn.result, GenStmt(fn.body, ENTRY, Slots(fn)), Slots(fn));
    r.c.Terminate(Ret(r.v))
  }
}
