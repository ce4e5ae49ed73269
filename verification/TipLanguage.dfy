/** The part of the language whose code generation is modelled, and what it means. Every
    value is a 64-bit integer; arrays and allocated cells are referred to by their address. */
module TipLanguage {
  import opened TipTypes

  datatype BinaryOp = Add | Sub | Mul | Div | Mod | Lt | Gt | Le | Ge | Eq | Ne | And | Or

  datatype Expr =
    | NumberExpr(value: int)
    | BoolExpr(b: bool)
    | VariableExpr(name: string)
    | BinaryExpr(op: BinaryOp, left: Expr, right: Expr)
    | NotExpr(arg: Expr)
    | NegExpr(arg: Expr)
    | TernaryExpr(condition: Expr, thenE: Expr, elseE: Expr)
    | ArrayExpr(elements: seq<Expr>)
    | ArrayOfExpr(e1: Expr, e2: Expr)
    | ArrayLenExpr(ptr: Expr)
    | IndexingExpr(arr: Expr, idx: Expr)
    | AllocExpr(initializer: Expr)
    | DeRefExpr(ptr: Expr)

  datatype Stmt =
    | AssignStmt(lhs: Expr, rhs: Expr)
    | UpdateStmt(target: Expr, increment: bool)
    | BlockStmt(stmts: seq<Stmt>)
    | IfStmt(condition: Expr, thenS: Stmt, elseS: Option<Stmt>)
    | WhileStmt(condition: Expr, body: Stmt)
    | ForRangeStmt(item: Expr, start: Expr, end: Expr, step: Option<Expr>, body: Stmt)
    | ForEachStmt(item: Expr, collection: Expr, body: Stmt)
    | OutputStmt(arg: Expr)
    | ErrorStmt(arg: Expr)

  // Accepted as the target of an assignment, an update or a loop by the weeding pass.
  predicate IsTarget(e: Expr) {
    match e
    case VariableExpr(_) => true
    case IndexingExpr(arr, _) => arr.VariableExpr? || arr.DeRefExpr?
    case DeRefExpr(_) => true
    case _ => false
  }

  // Variables, what pointers lead to, and items of arrays that are named by either.
  lemma TargetsAre(x: string, p: Expr, i: Expr)
    ensures IsTarget(VariableExpr(x)) && IsTarget(DeRefExpr(p))
    ensures IsTarget(IndexingExpr(VariableExpr(x), i)) && IsTarget(IndexingExpr(DeRefExpr(p), i))
    ensures forall e :: IsTarget(e) ==> e.VariableExpr? || e.DeRefExpr? || e.IndexingExpr?
  {
  }

  // ----- values -----

  const TWO63: int := 0x8000_0000_0000_0000

  // Two's complement wrap-around.
  function Wrap(x: int): int { (x + TWO63) % (2 * TWO63) - TWO63 }

  // Division truncates towards zero.
  function Quotient(x: int, y: int): int
    requires y != 0
  {
    var q := (if x < 0 then -x else x) / (if y < 0 then -y else y);
    if (x < 0) == (y < 0) then q else -q
  }

  function Truth(b: bool): int { if b then 1 else 0 }

  predicate IsTruth(x: int) { x == 0 || x == 1 }

  // Nothing is said of division by zero or beyond the range, nor of logic on other than truth values.
  function Apply(op: BinaryOp, x: int, y: int): Option<int> {
    match op
    case Add => Some(Wrap(x + y))
    case Sub => Some(Wrap(x - y))
    case Mul => Some(Wrap(x * y))
    case Div => if y == 0 || (x == -TWO63 && y == -1) then None else Some(Quotient(x, y))
    case Mod => if y == 0 || (x == -TWO63 && y == -1) then None else Some(x - y * Quotient(x, y))
    case Lt => Some(Truth(x < y))
    case Gt => Some(Truth(x > y))
    case Le => Some(Truth(x <= y))
    case Ge => Some(Truth(x >= y))
    case Eq => Some(Truth(x == y))
    case Ne => Some(Truth(x != y))
    case And => if IsTruth(x) && IsTruth(y) then Some(Truth(x == 1 && y == 1)) else None
    case Or => if IsTruth(x) && IsTruth(y) then Some(Truth(x == 1 || y == 1)) else None
  }

  // ----- states -----

  datatype Thing = Cell(content: int) | Array(items: seq<int>)

  /** Variables, what is on the heap by address, the lowest address not used so far, and what
      was printed. */
  datatype State = State(vars: map<string, int>, heap: map<int, Thing>, next: int, out: seq<int>) {
    predicate HasArray(a: int) { a in heap && heap[a].Array? }
    predicate HasCell(a: int) { a in heap && heap[a].Cell? }
    function Items(a: int): seq<int> { if HasArray(a) then heap[a].items else [] }

    function NewArray(n: nat): State { this.(heap := heap[next := Array(seq(n, _ => 0))], next := next + n + 1) }
    function NewCell(v: int): State { this.(heap := heap[next := Cell(v)], next := next + 1) }

    function Get(p: Place): Option<int> {
      match p
      case VariableAt(x) => if x in vars then Some(vars[x]) else None
      case ItemAt(a, i) => if HasArray(a) && 0 <= i < |heap[a].items| then Some(heap[a].items[i]) else None
      case CellAt(a) => if HasCell(a) then Some(heap[a].content) else None
    }

    function Set(p: Place, v: int): State {
      match p
      case VariableAt(x) => this.(vars := vars[x := v])
      case ItemAt(a, i) =>
        if HasArray(a) && 0 <= i < |heap[a].items| then this.(heap := heap[a := Array(heap[a].items[i := v])]) else this
      case CellAt(a) => this.(heap := heap[a := Cell(v)])
    }
  }

  datatype Place = VariableAt(x: string) | ItemAt(a: int, i: int) | CellAt(c: int)

  /** A run yields a value, stops with an error, does something the language leaves undefined,
      or has used up its fuel. */
  datatype Outcome<T> = Value(v: T, s: State) | Failed(code: int, out: seq<int>) | Undefined | OutOfFuel {
    predicate IsFailure() { !Value? }
    function PropagateFailure<U>(): Outcome<U>
      requires IsFailure()
    {
      match this
      case Failed(code, out) => Failed(code, out)
      case Undefined => Undefined
      case OutOfFuel => OutOfFuel
    }
    function Extract(): (T, State)
      requires !IsFailure()
    {
      (v, s)
    }
  }

  function Defined<T>(v: Option<T>, s: State): Outcome<T> {
    if v.Some? then Value(v.value, s) else Undefined
  }

  // ----- expressions -----

  function Eval(e: Expr, s: State): Outcome<int>
    decreases e, 0
  {
    match e
    case NumberExpr(n) => Value(n, s)
    case BoolExpr(b) => Value(Truth(b), s)
    case VariableExpr(x) => Defined(s.Get(VariableAt(x)), s)
    case BinaryExpr(op, l, r) =>
      var (x, s1) :- Eval(l, s);
      var (y, s2) :- Eval(r, s1);
      Defined(Apply(op, x, y), s2)
    case NotExpr(a) =>
      var (x, s1) :- Eval(a, s);
      if IsTruth(x) then Value(1 - x, s1) else Undefined
    case NegExpr(a) =>
      var (x, s1) :- Eval(a, s);
      Value(Wrap(-x), s1)
    case TernaryExpr(c, t, f) =>
      var (x, s1) :- Eval(c, s);
      if x != 0 then Eval(t, s1) else Eval(f, s1)
    case ArrayExpr(es) => if |es| < TWO63 - 1 then EvalItems(es, 0, s.next, s.NewArray(|es|)) else Undefined
    case ArrayOfExpr(e1, e2) =>
      var (n, s1) :- Eval(e1, s);
      if 0 <= n < TWO63 - 1 then EvalFill(e2, 0, n, s1.next, s1.NewArray(n)) else Undefined
    case ArrayLenExpr(p) =>
      var (a, s1) :- Eval(p, s);
      if s1.HasArray(a) then Value(|s1.Items(a)|, s1) else Undefined
    case IndexingExpr(arr, idx) =>
      var (a, s1) :- Eval(arr, s);
      if !s1.HasArray(a) then Undefined else
      var (i, s2) :- Eval(idx, s1);
      if 0 <= i < |s2.Items(a)| then Value(s2.Items(a)[i], s2) else Failed(0, s2.out)
    case AllocExpr(e1) =>
      var (x, s1) :- Eval(e1, s);
      Value(s1.next, s1.NewCell(x))
    case DeRefExpr(p) =>
      var (a, s1) :- Eval(p, s);
      Defined(s1.Get(CellAt(a)), s1)
  }

  // The elements from the i-th on, into the array at a, which is the value.
  function EvalItems(es: seq<Expr>, i: nat, a: int, s: State): Outcome<int>
    decreases es, if i < |es| then |es| - i else 0
  {
    if i >= |es| then Value(a, s) else
    var (x, s1) :- Eval(es[i], s);
    EvalItems(es, i + 1, a, s1.Set(ItemAt(a, i), x))
  }

  // The same expression, evaluated again for every item of an array.
  function EvalFill(e: Expr, i: nat, n: nat, a: int, s: State): Outcome<int>
    decreases e, if i < n then n - i + 1 else 1
  {
    if i >= n then Value(a, s) else
    var (x, s1) :- Eval(e, s);
    EvalFill(e, i + 1, n, a, s1.Set(ItemAt(a, i), x))
  }

  // Where a target is.
  function Locate(e: Expr, s: State): Outcome<Place> {
    match e
    case VariableExpr(x) => if x in s.vars then Value(VariableAt(x), s) else Undefined
    case IndexingExpr(arr, idx) =>
      var (a, s1) :- Eval(arr, s);
      if !s1.HasArray(a) then Undefined else
      var (i, s2) :- Eval(idx, s1);
      if 0 <= i < |s2.Items(a)| then Value(ItemAt(a, i), s2) else Failed(0, s2.out)
    case DeRefExpr(p) =>
      var (a, s1) :- Eval(p, s);
      if s1.HasCell(a) then Value(CellAt(a), s1) else Undefined
    case _ => Undefined
  }

  predicate HasPlace(e: Expr) { e.VariableExpr? || e.IndexingExpr? || e.DeRefExpr? }

  // The value of a target is what is at its place.
  lemma TargetValue(e: Expr, s: State)
    requires HasPlace(e)
    ensures Eval(e, s) == (var (p, s1) :- Locate(e, s); Defined(s1.Get(p), s1))
  {
  }

  // ----- statements -----

  // Only loops that are not bounded by an array use up fuel.
  function Exec(st: Stmt, s: State, fuel: nat): Outcome<()>
    decreases fuel, st, 0
  {
    match st
    case AssignStmt(lhs, rhs) =>
      var (p, s1) :- Locate(lhs, s);
      var (x, s2) :- Eval(rhs, s1);
      Value((), s2.Set(p, x))
    case UpdateStmt(target, increment) =>
      var (p, s1) :- Locate(target, s);
      var (x, s2) :- Defined(s1.Get(p), s1);
      Value((), s2.Set(p, Wrap(x + if increment then 1 else -1)))
    case BlockStmt(ss) => ExecAll(ss, 0, s, fuel)
    case IfStmt(c, t, f) =>
      var (x, s1) :- Eval(c, s);
      if x != 0 then Exec(t, s1, fuel) else if f.Some? then Exec(f.value, s1, fuel) else Value((), s1)
    case WhileStmt(c, body) =>
      if fuel == 0 then OutOfFuel else
      var (x, s1) :- Eval(c, s);
      if x == 0 then Value((), s1) else
      var (_, s2) :- Exec(body, s1, fuel);
      Exec(st, s2, fuel - 1)
    case ForRangeStmt(item, start, end, step, body) =>
      var (p, s1) :- Locate(item, s);
      var (a, s2) :- Eval(start, s1);
      var (b, s3) :- Eval(end, s2);
      var (c, s4) :- if step.Some? then Eval(step.value, s3) else Value(1, s3);
      ExecRange(p, b, c, body, s4.Set(p, a), fuel)
    case ForEachStmt(item, collection, body) =>
      var (p, s1) :- Locate(item, s);
      var (a, s2) :- Eval(collection, s1);
      if s2.HasArray(a) then ExecEach(p, a, 0, |s2.Items(a)|, body, s2, fuel) else Undefined
    case OutputStmt(a) =>
      var (x, s1) :- Eval(a, s);
      Value((), s1.(out := s1.out + [x]))
    case ErrorStmt(a) =>
      var (x, s1) :- Eval(a, s);
      Failed(x, s1.out)
  }

  function ExecAll(ss: seq<Stmt>, i: nat, s: State, fuel: nat): Outcome<()>
    decreases fuel, ss, if i < |ss| then |ss| - i else 0
  {
    if i >= |ss| then Value((), s) else
    var (_, s1) :- Exec(ss[i], s, fuel);
    ExecAll(ss, i + 1, s1, fuel)
  }

  // The end and the step were evaluated once; the place is read again after the body.
  function ExecRange(p: Place, end: int, step: int, body: Stmt, s: State, fuel: nat): Outcome<()>
    decreases fuel, body, 1
  {
    if fuel == 0 then OutOfFuel else
    var (x, s1) :- Defined(s.Get(p), s);
    if x >= end then Value((), s1) else
    var (_, s2) :- Exec(body, s1, fuel);
    var (y, s3) :- Defined(s2.Get(p), s2);
    ExecRange(p, end, step, body, s3.Set(p, Wrap(y + step)), fuel - 1)
  }

  // Each item is read when its turn comes.
  function ExecEach(p: Place, a: int, i: nat, n: nat, body: Stmt, s: State, fuel: nat): Outcome<()>
    decreases fuel, body, if i < n then n - i + 1 else 1
  {
    if i >= n then Value((), s) else
    var (x, s1) :- Defined(s.Get(ItemAt(a, i)), s);
    var (_, s2) :- Exec(body, s1.Set(p, x), fuel);
    ExecEach(p, a, i + 1, n, body, s2, fuel)
  }
}
