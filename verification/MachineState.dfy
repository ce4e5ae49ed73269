/** How a state of the language is laid out in the machine: variables in stack slots, arrays with their
    length in the first word and the items after it, cells in one word; and what single steps of emitted
    code do to machine and state together: reading and writing a place, allocating, arithmetic,
    comparing, jumping, and testing the counter of a loop. */
module MachineState {
  import opened TipTypes
  import opened TipLanguage
  import opened Persistence
  import opened Ir
  import opened Emission
  import opened CodeShape
  import Words

  // ----- layout -----

  function Size(t: Thing): nat { if t.Array? then |t.items| + 1 else 1 }

  // An array starts with its length.
  ghost predicate ThingAt(mem: map<int, int>, a: int, t: Thing) {
    match t
    case Cell(v) => a in mem && mem[a] == v
    case Array(items) =>
      && |items| < TWO63 - 1 && a in mem && mem[a] == |items|
      && forall i {:trigger ItemIs(mem, a, items, i)} | 0 <= i < |items| :: ItemIs(mem, a, items, i)
  }

  ghost predicate ItemIs(mem: map<int, int>, a: int, items: seq<int>, i: int)
    requires 0 <= i < |items|
  {
    a + 1 + i in mem && mem[a + 1 + i] == items[i]
  }

  ghost predicate Apart(s: State, a: int, b: int) requires a in s.heap {
    a < b ==> a + Size(s.heap[a]) <= b
  }

  // Everything on the heap has its own words, below the first free one.
  ghost predicate HeapFits(s: State, mem: map<int, int>, next: int) {
    && next == s.next && 0 < next
    && (forall a {:trigger s.heap[a]} | a in s.heap ::
         0 < a && a + Size(s.heap[a]) <= next && ThingAt(mem, a, s.heap[a]))
    && (forall a, b {:trigger Apart(s, a, b)} | a in s.heap && b in s.heap :: Apart(s, a, b))
  }

  ghost predicate Distinct(names: Names) {
    forall x, y {:trigger names[x], names[y]} | x in names && y in names && x != y :: names[x] != names[y]
  }

  ghost predicate VarsFit(s: State, slots: seq<int>, names: Names) {
    && s.vars.Keys == names.Keys && Distinct(names)
    && forall x {:trigger names[x]} | x in names :: names[x] < |slots| && slots[names[x]] == s.vars[x]
  }

  ghost predicate Fits(s: State, m: Machine, names: Names) {
    VarsFit(s, m.slots, names) && HeapFits(s, m.mem, m.next) && m.out == s.out
  }

  // The machine's address of a place.
  function Address(p: Place, names: Names): Val {
    match p
    case VariableAt(x) => if x in names then Local(names[x]) else Int(0)
    case ItemAt(a, i) => Word(a + 1 + i)
    case CellAt(a) => Word(a)
  }

  lemma ReadPlace(s: State, m: Machine, names: Names, p: Place)
    requires Fits(s, m, names) && s.Get(p).Some?
    ensures m.Read(Address(p, names)) == s.Get(p)
  {
    match p
    case VariableAt(x) => assert x in names && names[x] < |m.slots|;
    case ItemAt(a, i) => assert ThingAt(m.mem, a, s.heap[a]) && ItemIs(m.mem, a, s.heap[a].items, i);
    case CellAt(a) => assert ThingAt(m.mem, a, s.heap[a]);
  }

  lemma ReadLength(s: State, m: Machine, names: Names, a: int)
    requires Fits(s, m, names) && s.HasArray(a)
    ensures m.Read(Word(a)) == Some(|s.Items(a)|) && |s.Items(a)| < TWO63 - 1
  {
    assert ThingAt(m.mem, a, s.heap[a]);
  }

  ghost predicate Same(mem: map<int, int>, mem': map<int, int>, w: int) {
    w in mem ==> w in mem' && mem'[w] == mem[w]
  }

  lemma ThingKept(mem: map<int, int>, mem': map<int, int>, a: int, t: Thing)
    requires ThingAt(mem, a, t) && forall w {:trigger Same(mem, mem', w)} | a <= w < a + Size(t) :: Same(mem, mem', w)
    ensures ThingAt(mem', a, t)
  {
    assert Same(mem, mem', a);
    if t.Array? {
      forall i | 0 <= i < |t.items| ensures ItemIs(mem', a, t.items, i) {
        assert ItemIs(mem, a, t.items, i) && Same(mem, mem', a + 1 + i);
      }
    }
  }

  // A thing of the same size, changed in one word, in a heap that otherwise stays.
  lemma WriteHeap(s: State, mem: map<int, int>, next: int, a: int, t: Thing, w: int, x: int)
    requires HeapFits(s, mem, next) && a in s.heap && Size(t) == Size(s.heap[a])
    requires a <= w < a + Size(t) && ThingAt(mem[w := x], a, t)
    ensures HeapFits(s.(heap := s.heap[a := t]), mem[w := x], next)
  {
    var s', mem' := s.(heap := s.heap[a := t]), mem[w := x];
    forall b | b in s'.heap ensures 0 < b && b + Size(s'.heap[b]) <= next && ThingAt(mem', b, s'.heap[b]) {
      if b != a {
        assert ThingAt(mem, b, s.heap[b]);
        assert Apart(s, a, b) && Apart(s, b, a);
        ThingKept(mem, mem', b, s.heap[b]);
      } else {
        assert 0 < a && a + Size(s.heap[a]) <= next;
      }
    }
    forall b, c | b in s'.heap && c in s'.heap ensures Apart(s', b, c) { assert Apart(s, b, c); }
  }

  lemma HeapFitsSame(s: State, s': State, mem: map<int, int>, next: int)
    requires HeapFits(s, mem, next) && s'.heap == s.heap && s'.next == s.next
    ensures HeapFits(s', mem, next)
  {
    forall a, b | a in s'.heap && b in s'.heap ensures Apart(s', a, b) { assert Apart(s, a, b); }
  }

  lemma ItemWritten(mem: map<int, int>, a: int, items: seq<int>, i: int, x: int)
    requires ThingAt(mem, a, Array(items)) && 0 <= i < |items|
    ensures ThingAt(mem[a + 1 + i := x], a, Array(items[i := x]))
  {
    var items', mem' := items[i := x], mem[a + 1 + i := x];
    forall j | 0 <= j < |items'| ensures ItemIs(mem', a, items', j) {
      assert ItemIs(mem, a, items, j);
    }
  }

  lemma WritePlace(s: State, m: Machine, names: Names, p: Place, x: int)
    requires Fits(s, m, names) && s.Get(p).Some?
    ensures m.Read(Address(p, names)).Some? && Fits(s.Set(p, x), m.Write(Address(p, names), x), names)
  {
    ReadPlace(s, m, names, p);
    match p
    case VariableAt(v) =>
      assert names[v] < |m.slots|;
      HeapFitsSame(s, s.Set(p, x), m.mem, m.next);
    case ItemAt(a, i) =>
      var items := s.heap[a].items;
      assert ThingAt(m.mem, a, s.heap[a]);
      ItemWritten(m.mem, a, items, i, x);
      WriteHeap(s, m.mem, m.next, a, Array(items[i := x]), a + 1 + i, x);
    case CellAt(a) =>
      WriteHeap(s, m.mem, m.next, a, Cell(x), a, x);
  }

  // A new thing in the first free words.
  lemma NewHeap(s: State, mem: map<int, int>, mem': map<int, int>, next: int, t: Thing)
    requires HeapFits(s, mem, next) && ThingAt(mem', next, t)
    requires forall w {:trigger Same(mem, mem', w)} | w < next :: Same(mem, mem', w)
    ensures HeapFits(s.(heap := s.heap[next := t], next := next + Size(t)), mem', next + Size(t))
  {
    var s' := s.(heap := s.heap[next := t], next := next + Size(t));
    forall b | b in s'.heap ensures 0 < b && b + Size(s'.heap[b]) <= s'.next && ThingAt(mem', b, s'.heap[b]) {
      if b in s.heap {
        assert ThingAt(mem, b, s.heap[b]) && 0 < b && b + Size(s.heap[b]) <= next;
        ThingKept(mem, mem', b, s.heap[b]);
      }
    }
    forall b, c | b in s'.heap && c in s'.heap ensures Apart(s', b, c) {
      if b in s.heap { assert 0 < b && b + Size(s.heap[b]) <= next; }
      if c in s.heap { assert 0 < c && c + Size(s.heap[c]) <= next; }
      if b in s.heap && c in s.heap { assert Apart(s, b, c); }
    }
  }

  // ----- where the machine stands -----

  // About to run what will be emitted next.
  ghost predicate Standing(c: Code, m: Machine) {
    m.status == Running && m.block == c.at && m.index == c.End()
  }

  // Results computed before, and stack slots that are no variable's, are as they were.
  ghost predicate Framed(m: Machine, m': Machine, regs: nat, names: Names) {
    && (forall r: nat {:trigger m'.Get(r)} | r < regs :: m'.Get(r) == m.Get(r))
    && |m.slots| <= |m'.slots|
    && forall i: nat {:trigger m'.slots[i]} | i < |m.slots| && i !in names.Values :: m'.slots[i] == m.slots[i]
  }

  /** In the finished code f, the machine gets from the insertion point of c to that of c',
      where it fits the state s. */
  ghost predicate Arrives(f: Code, m: Machine, m': Machine, c: Code, c': Code, names: Names, s: State) {
    Goes(f, m, m') && Standing(c', m') && Fits(s, m', names) && Framed(m, m', c.regs, names)
  }

  lemma ArrivesTrans(f: Code, m: Machine, m1: Machine, m2: Machine, c: Code, c1: Code, c2: Code,
                     names: Names, s1: State, s2: State)
    requires Arrives(f, m, m1, c, c1, names, s1) && Arrives(f, m1, m2, c1, c2, names, s2) && c.regs <= c1.regs
    ensures Arrives(f, m, m2, c, c2, names, s2)
  {
    hide Goes, Fits;
    GoesOn(f, m, m1, m2);
    forall r: nat | r < c.regs ensures m2.Get(r) == m.Get(r) { assert m1.Get(r) == m.Get(r); }
    forall i: nat | i < |m.slots| && i !in names.Values ensures m2.slots[i] == m.slots[i] {
      assert m1.slots[i] == m.slots[i];
    }
  }

  lemma ArrivesAt(f: Code, m: Machine, c: Code, names: Names, s: State)
    requires Standing(c, m) && Fits(s, m, names)
    ensures Arrives(f, m, m, c, c, names, s)
  {
    GoesNowhere(f, m);
  }

  // An operand that was known keeps its value.
  lemma StillKnown(f: Code, m: Machine, m': Machine, c: Code, c': Code, names: Names, s: State, v: Operand)
    requires Arrives(f, m, m', c, c', names, s) && Known(v, c)
    ensures m'.Of(v) == m.Of(v)
  {
  }

  lemma NextInstr(c: Code, i: Instr, f: Code, m: Machine)
    requires c.Open() && Standing(c, m) && (Grown(c.Emit(i), f) || Grown(c.Def(i), f))
    ensures Step(f, m) == Do(m, i)
  {
    var b := c.Emit(i).BlockAt(c.at);
    assert c.Def(i).BlockAt(c.at) == b;
    assert Extended(b, f.BlockAt(c.at));
    assert b.instrs[c.End()] == i;
  }

  lemma NextTerminator(c: Code, t: Terminator, f: Code, m: Machine)
    requires c.Open() && Standing(c, m) && Grown(c.Terminate(t), f)
    ensures Step(f, m) == Finish(m, t)
  {
    assert Extended(c.Terminate(t).BlockAt(c.at), f.BlockAt(c.at));
  }

  // An instruction that has the value v and changes nothing else.
  lemma YieldArrives(c: Code, i: Instr, f: Code, m: Machine, names: Names, s: State, v: Val)
    requires c.Open() && Standing(c, m) && Fits(s, m, names) && Grown(Yield(c, i).c, f)
    requires Do(m, i) == m.Put(c.regs, v)
    ensures var m' := m.Put(c.regs, v);
            Arrives(f, m, m', c, Yield(c, i).c, names, s) && m'.Of(Yield(c, i).v) == v
  {
    NextInstr(c, i, f, m);
    GoesOne(f, m);
  }

  // A store to a place.
  lemma StoreArrives(c: Code, v: Operand, p: Operand, f: Code, m: Machine, names: Names, s: State, place: Place, x: int)
    requires c.Open() && Standing(c, m) && Fits(s, m, names) && Grown(c.Emit(Store(v, p)), f)
    requires m.Of(v) == Int(x) && m.Of(p) == Address(place, names) && s.Get(place).Some?
    ensures m.Read(Address(place, names)).Some?
    ensures var m' := m.Write(Address(place, names), x).Advance();
            Arrives(f, m, m', c, c.Emit(Store(v, p)), names, s.Set(place, x))
  {
    NextInstr(c, Store(v, p), f, m);
    GoesOne(f, m);
    WritePlace(s, m, names, place, x);
  }

  // A store to a stack slot that is no variable's.
  lemma StoreSlot(c: Code, v: Operand, p: Operand, f: Code, m: Machine, names: Names, s: State, i: nat, x: int)
    requires c.Open() && Standing(c, m) && Fits(s, m, names) && Grown(c.Emit(Store(v, p)), f)
    requires m.Of(v) == Int(x) && m.Of(p) == Local(i) && i < |m.slots| && i !in names.Values
    ensures var m', c' := m.Write(Local(i), x).Advance(), c.Emit(Store(v, p));
            && Goes(f, m, m') && Standing(c', m') && Fits(s, m', names) && m'.regs == m.regs
            && m'.slots == m.slots[i := x]
  {
    NextInstr(c, Store(v, p), f, m);
    GoesOne(f, m);
  }

  // ----- allocation -----

  ghost function AfterAlloc(m: Machine, r: nat, n: nat, x: int): Machine {
    m.(mem := Zeroed(m.mem, m.next, n)[m.next := x], next := m.next + n, regs := m.regs[r := Word(m.next)],
       index := m.index + 2)
  }

  // Zeroed words are handed out, and the first of them is stored to.
  lemma AllocGoes(c: Code, items: Operand, v: Operand, f: Code, m: Machine, n: nat, x: int)
    requires c.Open() && Standing(c, m) && n > 0 && m.Of(items) == Int(n) && m.Of(v) == Int(x) && Known(v, c)
    requires Grown(NewWords(c, items).c.Emit(Store(v, NewWords(c, items).v)), f)
    ensures var p, m' := NewWords(c, items), AfterAlloc(m, c.regs, n, x);
            Goes(f, m, m') && Standing(p.c.Emit(Store(v, p.v)), m')
  {
    var p := NewWords(c, items);
    YieldBuilds(c, Calloc(c.regs, items));
    EmitTouches(p.c, Store(v, p.v));
    GrownTrans(p.c, p.c.Emit(Store(v, p.v)), f);
    NextInstr(c, Calloc(c.regs, items), f, m);
    GoesOne(f, m);
    var m1 := Do(m, Calloc(c.regs, items));
    assert InRange(m.next, m.next, n);
    NextInstr(p.c, Store(v, p.v), f, m1);
    GoesOne(f, m1);
    GoesOn(f, m, m1, Do(m1, Store(v, p.v)));
  }

  lemma AllocFits(s: State, m: Machine, names: Names, r: nat, n: nat, x: int, t: Thing)
    requires Fits(s, m, names) && n == Size(t)
    requires (t == Cell(x) || (t == Array(seq(n - 1, _ => 0)) && x == n - 1 < TWO63 - 1))
    ensures Fits(s.(heap := s.heap[s.next := t], next := s.next + n), AfterAlloc(m, r, n, x), names)
  {
    var mem' := Zeroed(m.mem, m.next, n)[m.next := x];
    forall w | w < m.next ensures Same(m.mem, mem', w) {}
    assert ThingAt(mem', m.next, t) by {
      if t.Array? {
        forall i | 0 <= i < |t.items| ensures ItemIs(mem', m.next, t.items, i) {
          assert InRange(m.next + 1 + i, m.next, n);
        }
      }
    }
    NewHeap(s, m.mem, mem', m.next, t);
  }

  lemma AllocFrames(s: State, m: Machine, names: Names, r: nat, n: nat, x: int)
    requires Fits(s, m, names)
    ensures Framed(m, AfterAlloc(m, r, n, x), r, names) && AfterAlloc(m, r, n, x).Get(r) == Word(s.next)
  {
    hide ThingAt;
  }

  lemma ArrayArrives(c: Code, items: Operand, v: Operand, f: Code, m: Machine, names: Names, s: State, n: nat)
    requires c.Open() && Standing(c, m) && Fits(s, m, names) && n < TWO63 - 1
    requires m.Of(items) == Int(n + 1) && m.Of(v) == Int(n) && Known(v, c)
    requires Grown(NewWords(c, items).c.Emit(Store(v, NewWords(c, items).v)), f)
    ensures var p, m' := NewWords(c, items), AfterAlloc(m, c.regs, n + 1, n);
            Arrives(f, m, m', c, p.c.Emit(Store(v, p.v)), names, s.NewArray(n)) && m'.Of(p.v) == Word(s.next)
  {
    hide Fits, Goes, Standing, Framed, AfterAlloc, Grown;
    AllocGoes(c, items, v, f, m, n + 1, n);
    AllocFits(s, m, names, c.regs, n + 1, n, Array(seq(n, _ => 0)));
    AllocFrames(s, m, names, c.regs, n + 1, n);
  }

  lemma CellArrives(c: Code, v: Operand, f: Code, m: Machine, names: Names, s: State, x: int)
    requires c.Open() && Standing(c, m) && Fits(s, m, names) && m.Of(v) == Int(x) && Known(v, c)
    requires Grown(NewWords(c, Const(1)).c.Emit(Store(v, NewWords(c, Const(1)).v)), f)
    ensures var p, m' := NewWords(c, Const(1)), AfterAlloc(m, c.regs, 1, x);
            Arrives(f, m, m', c, p.c.Emit(Store(v, p.v)), names, s.NewCell(x)) && m'.Of(p.v) == Word(s.next)
  {
    hide Fits, Goes, Standing, Framed, AfterAlloc, Grown;
    AllocGoes(c, Const(1), v, f, m, 1, x);
    AllocFits(s, m, names, c.regs, 1, x, Cell(x));
    AllocFrames(s, m, names, c.regs, 1, x);
  }

  // ----- logic on truth values -----

  lemma AndOfTruth(x: int, y: int)
    requires IsTruth(x) && IsTruth(y)
    ensures Words.And(x, y) == Truth(x == 1 && y == 1)
  {
    Words.AndStep(x, y);
    Words.AndZero(0);
  }

  lemma OrOfTruth(x: int, y: int)
    requires IsTruth(x) && IsTruth(y)
    ensures Words.Or(x, y) == Truth(x == 1 || y == 1)
  {
    Words.OrStep(x, y);
    Words.OrZero();
  }

  lemma XorOfTruth(x: int)
    requires IsTruth(x)
    ensures Words.Xor(x, 1) == 1 - x
  {
    Words.XorStep(x, 1);
    assert Words.Xor(0, 0) == 0;
  }

  lemma LogicIs(x: int, y: int)
    requires IsTruth(x) && IsTruth(y)
    ensures IrApply(BitAnd, x, y) == Some(Truth(x == 1 && y == 1))
    ensures IrApply(BitOr, x, y) == Some(Truth(x == 1 || y == 1))
    ensures IrApply(BitXor, x, 1) == Some(1 - x)
  {
    hide Words.And, Words.Or, Words.Xor, Quotient;
    assert Unsigned(x) == x && Unsigned(y) == y && Unsigned(1) == 1;
    AndOfTruth(x, y);
    OrOfTruth(x, y);
    XorOfTruth(x);
  }

  lemma ArithIs(x: int, y: int)
    ensures IrApply(IAdd, x, y) == Apply(Add, x, y) && IrApply(ISub, x, y) == Apply(Sub, x, y)
    ensures IrApply(IMul, x, y) == Apply(Mul, x, y)
    ensures IrApply(SDiv, x, y) == Apply(Div, x, y) && IrApply(SRem, x, y) == Apply(Mod, x, y)
  {
  }

  // The emitted instructions compute what the operator means, wherever that is defined.
  lemma OpArrives(op: BinaryOp, c: Code, a: Operand, b: Operand, f: Code, m: Machine, names: Names, s: State, x: int,
                  y: int)
    returns (m': Machine)
    requires c.Open() && Standing(c, m) && Fits(s, m, names) && m.Of(a) == Int(x) && m.Of(b) == Int(y)
    requires Apply(op, x, y).Some? && Grown(GenOp(op, c, a, b).c, f)
    ensures Arrives(f, m, m', c, GenOp(op, c, a, b).c, names, s)
    ensures m'.Of(GenOp(op, c, a, b).v) == Int(Apply(op, x, y).value)
  {
    hide Fits, Framed, Goes, Grown, IrApply, Standing;
    ArithIs(x, y);
    match op
    case Add => m' := ArithArrives(IAdd, c, a, b, f, m, names, s, x, y);
    case Sub => m' := ArithArrives(ISub, c, a, b, f, m, names, s, x, y);
    case Mul => m' := ArithArrives(IMul, c, a, b, f, m, names, s, x, y);
    case Div => m' := ArithArrives(SDiv, c, a, b, f, m, names, s, x, y);
    case Mod => m' := ArithArrives(SRem, c, a, b, f, m, names, s, x, y);
    case And => LogicIs(x, y); m' := ArithArrives(BitAnd, c, a, b, f, m, names, s, x, y);
    case Or => LogicIs(x, y); m' := ArithArrives(BitOr, c, a, b, f, m, names, s, x, y);
    case Lt => m' := RelationArrives(SLT, c, a, b, f, m, names, s, x, y);
    case Gt => m' := RelationArrives(SGT, c, a, b, f, m, names, s, x, y);
    case Le => m' := RelationArrives(SLE, c, a, b, f, m, names, s, x, y);
    case Ge => m' := RelationArrives(SGE, c, a, b, f, m, names, s, x, y);
    case Eq => m' := RelationArrives(EQ, c, a, b, f, m, names, s, x, y);
    case Ne => m' := RelationArrives(NE, c, a, b, f, m, names, s, x, y);
  }

  lemma ArithArrives(op: IrOp, c: Code, a: Operand, b: Operand, f: Code, m: Machine, names: Names, s: State, x: int,
                     y: int)
    returns (m': Machine)
    requires c.Open() && Standing(c, m) && Fits(s, m, names) && m.Of(a) == Int(x) && m.Of(b) == Int(y)
    requires Grown(Arith(c, op, a, b).c, f) && IrApply(op, x, y).Some?
    ensures Arrives(f, m, m', c, Arith(c, op, a, b).c, names, s)
    ensures IrApply(op, x, y).Some? && m'.Of(Arith(c, op, a, b).v) == Int(IrApply(op, x, y).value)
  {
    hide Fits, Framed, Goes, Grown, IrApply;
    var v := Int(IrApply(op, x, y).value);
    YieldArrives(c, Binary(c.regs, op, a, b), f, m, names, s, v);
    m' := m.Put(c.regs, v);
  }

  lemma TestArrives(pred: Predicate, c: Code, a: Operand, b: Operand, f: Code, m: Machine, names: Names, s: State,
                    x: int, y: int)
    returns (m': Machine)
    requires c.Open() && Standing(c, m) && Fits(s, m, names) && m.Of(a) == Int(x) && m.Of(b) == Int(y)
    requires Grown(Test(c, pred, a, b).c, f)
    ensures Arrives(f, m, m', c, Test(c, pred, a, b).c, names, s)
    ensures m'.Of(Test(c, pred, a, b).v) == Int(Truth(Compare(pred, x, y)))
  {
    hide Fits, Framed, Goes, Grown;
    var v := Int(Truth(Compare(pred, x, y)));
    YieldArrives(c, ICmp(c.regs, pred, a, b), f, m, names, s, v);
    m' := m.Put(c.regs, v);
  }

  lemma RelationArrives(pred: Predicate, c: Code, a: Operand, b: Operand, f: Code, m: Machine, names: Names, s: State,
                        x: int, y: int)
    returns (m': Machine)
    requires c.Open() && Standing(c, m) && Fits(s, m, names) && m.Of(a) == Int(x) && m.Of(b) == Int(y)
    requires Grown(Relation(c, pred, a, b).c, f)
    ensures Arrives(f, m, m', c, Relation(c, pred, a, b).c, names, s)
    ensures m'.Of(Relation(c, pred, a, b).v) == Int(Truth(Compare(pred, x, y)))
  {
    var t := Test(c, pred, a, b);
    YieldBuilds(c, ICmp(c.regs, pred, a, b));
    YieldBuilds(t.c, ZExt(t.c.regs, t.v));
    GrownTrans(t.c, Relation(c, pred, a, b).c, f);
    var m1 := TestArrives(pred, c, a, b, f, m, names, s, x, y);
    var v := Int(Truth(Compare(pred, x, y)));
    YieldArrives(t.c, ZExt(t.c.regs, t.v), f, m1, names, s, v);
    m' := m1.Put(t.c.regs, v);
    ArrivesTrans(f, m, m1, m', c, t.c, Relation(c, pred, a, b).c, names, s, s);
  }

  lemma FitsPlaced(s: State, m: Machine, names: Names)
    requires Fits(s, m, names)
    ensures Placed(s)
  {
    forall a | a in s.heap ensures a < s.next { assert 0 < a && a + Size(s.heap[a]) <= m.next; }
  }

  // A pointer out of a number.
  lemma PointerArrives(c: Code, v: Operand, f: Code, m: Machine, names: Names, s: State, x: int) returns (m': Machine)
    requires c.Open() && Standing(c, m) && Fits(s, m, names) && m.Of(v) == Int(x) && Grown(AsPointer(c, v).c, f)
    ensures Arrives(f, m, m', c, AsPointer(c, v).c, names, s) && m'.Of(AsPointer(c, v).v) == Word(x)
  {
    hide Fits, Framed, Goes, Grown;
    YieldArrives(c, IntToPtr(c.regs, v), f, m, names, s, Word(x));
    m' := m.Put(c.regs, Word(x));
  }

  lemma NumberArrives(c: Code, p: Operand, f: Code, m: Machine, names: Names, s: State, a: int) returns (m': Machine)
    requires c.Open() && Standing(c, m) && Fits(s, m, names) && m.Of(p) == Word(a) && Grown(AsInt(c, p).c, f)
    ensures Arrives(f, m, m', c, AsInt(c, p).c, names, s) && m'.Of(AsInt(c, p).v) == Int(a)
  {
    hide Fits, Framed, Goes, Grown;
    YieldArrives(c, PtrToInt(c.regs, p), f, m, names, s, Int(a));
    m' := m.Put(c.regs, Int(a));
  }

  lemma LoadArrives(c: Code, p: Operand, f: Code, m: Machine, names: Names, s: State, x: int) returns (m': Machine)
    requires c.Open() && Standing(c, m) && Fits(s, m, names) && m.Read(m.Of(p)) == Some(x) && Grown(LoadFrom(c, p).c, f)
    ensures Arrives(f, m, m', c, LoadFrom(c, p).c, names, s) && m'.Of(LoadFrom(c, p).v) == Int(x)
  {
    hide Fits, Framed, Goes, Grown;
    YieldArrives(c, Load(c.regs, p), f, m, names, s, Int(x));
    m' := m.Put(c.regs, Int(x));
  }

  lemma ItemArrives(c: Code, p: Operand, idx: Operand, f: Code, m: Machine, names: Names, s: State, a: int, k: int)
    returns (m': Machine)
    requires c.Open() && Standing(c, m) && Fits(s, m, names) && m.Of(p) == Word(a) && m.Of(idx) == Int(k)
    requires Grown(At(c, p, idx).c, f)
    ensures Arrives(f, m, m', c, At(c, p, idx).c, names, s) && m'.Of(At(c, p, idx).v) == Word(a + k)
  {
    hide Fits, Framed, Goes, Grown;
    YieldArrives(c, Gep(c.regs, p, idx), f, m, names, s, Word(a + k));
    m' := m.Put(c.regs, Word(a + k));
  }
  // A block's terminator leads to the start of an empty block.
  lemma JumpArrives(c: Code, t: Terminator, c': Code, f: Code, m: Machine, names: Names, s: State)
    requires c.Open() && Standing(c, m) && Fits(s, m, names) && Grown(c.Terminate(t), f)
    requires c'.End() == 0 && Finish(m, t) == m.Jump(c'.at)
    ensures Arrives(f, m, m.Jump(c'.at), c, c', names, s)
  {
    NextTerminator(c, t, f, m);
    GoesOne(f, m);
  }

  lemma ArrivedFacts(f: Code, m: Machine, m': Machine, c: Code, c': Code, names: Names, s: State)
    requires Arrives(f, m, m', c, c', names, s)
    ensures Standing(c', m') && Fits(s, m', names)
  {
  }

  // ----- loops with a counter in a stack slot -----

  // As Arrives, but the slot j may change.
  ghost predicate Loops(f: Code, m: Machine, m': Machine, c: Code, c': Code, names: Names, s: State, j: nat) {
    && Goes(f, m, m') && Standing(c', m') && Fits(s, m', names)
    && (forall r: nat {:trigger m'.Get(r)} | r < c.regs :: m'.Get(r) == m.Get(r))
    && |m.slots| <= |m'.slots|
    && forall i: nat {:trigger m'.slots[i]} | i < |m.slots| && i !in names.Values && i != j :: m'.slots[i] == m.slots[i]
  }

  lemma LoopsTrans(f: Code, m: Machine, m1: Machine, m2: Machine, c: Code, c1: Code, c2: Code,
                   names: Names, s1: State, s2: State, j: nat)
    requires Arrives(f, m, m1, c, c1, names, s1) || Loops(f, m, m1, c, c1, names, s1, j)
    requires Arrives(f, m1, m2, c1, c2, names, s2) || Loops(f, m1, m2, c1, c2, names, s2, j)
    requires c.regs <= c1.regs
    ensures Loops(f, m, m2, c, c2, names, s2, j)
  {
    hide Goes, Fits;
    GoesOn(f, m, m1, m2);
    forall r: nat | r < c.regs ensures m2.Get(r) == m.Get(r) { assert m1.Get(r) == m.Get(r); }
    forall i: nat | i < |m.slots| && i !in names.Values && i != j ensures m2.slots[i] == m.slots[i] {
      assert m1.slots[i] == m.slots[i];
    }
  }

  // A slot that was made after m does not matter to m.
  lemma LoopsOut(f: Code, m: Machine, m1: Machine, m2: Machine, c: Code, c1: Code, c2: Code,
                 names: Names, s1: State, s2: State, j: nat)
    requires Arrives(f, m, m1, c, c1, names, s1) && Loops(f, m1, m2, c1, c2, names, s2, j) && j >= |m.slots|
    requires c.regs <= c1.regs
    ensures Arrives(f, m, m2, c, c2, names, s2)
  {
    LoopsTrans(f, m, m1, m2, c, c1, c2, names, s1, s2, j);
  }

  lemma LoopsKnown(f: Code, m: Machine, m': Machine, c: Code, c': Code, names: Names, s: State, j: nat, v: Operand)
    requires Loops(f, m, m', c, c', names, s, j) && Known(v, c)
    ensures m'.Of(v) == m.Of(v)
  {
  }

  lemma LoopedFacts(f: Code, m: Machine, m': Machine, c: Code, c': Code, names: Names, s: State, j: nat)
    requires Loops(f, m, m', c, c', names, s, j)
    ensures Standing(c', m') && Fits(s, m', names) && |m.slots| <= |m'.slots|
  {
  }

  // The slot of a counter keeps its value while other code runs.
  lemma SlotStays(f: Code, m: Machine, m': Machine, c: Code, c': Code, names: Names, s: State, j: nat)
    requires Arrives(f, m, m', c, c', names, s) && j < |m.slots| && j !in names.Values
    ensures j < |m'.slots| && m'.slots[j] == m.slots[j]
  {
  }

  lemma CounterStored(c: Code, v: Operand, p: Operand, f: Code, m: Machine, names: Names, s: State, j: nat, x: int)
    requires c.Open() && Standing(c, m) && Fits(s, m, names) && Grown(c.Emit(Store(v, p)), f)
    requires m.Of(v) == Int(x) && m.Of(p) == Local(j) && j < |m.slots| && j !in names.Values
    ensures var m' := m.Write(Local(j), x).Advance();
            Loops(f, m, m', c, c.Emit(Store(v, p)), names, s, j) && m'.slots == m.slots[j := x]
  {
    StoreSlot(c, v, p, f, m, names, s, j, x);
  }

  /** A new slot, set to 1. */
  lemma CounterArrives(c: Code, f: Code, m: Machine, names: Names, s: State) returns (m': Machine)
    requires c.Open() && Standing(c, m) && Fits(s, m, names)
    requires var index := Yield(c, Alloca(c.regs));
             Grown(index.c, f) && Grown(index.c.Emit(Store(Const(1), index.v)), f)
    ensures var index := Yield(c, Alloca(c.regs));
            && Arrives(f, m, m', c, index.c.Emit(Store(Const(1), index.v)), names, s)
            && m'.Of(index.v) == Local(|m.slots|) && |m'.slots| == |m.slots| + 1 && m'.slots[|m.slots|] == 1
            && |m.slots| !in names.Values
  {
    var index, j := Yield(c, Alloca(c.regs)), |m.slots|;
    NextInstr(c, Alloca(c.regs), f, m);
    GoesOne(f, m);
    var m1 := Do(m, Alloca(c.regs));
    YieldBuilds(c, Alloca(c.regs));
    forall x | x in names ensures names[x] < j {}
    assert j !in names.Values;
    assert Arrives(f, m, m1, c, index.c, names, s);
    CounterStored(index.c, Const(1), index.v, f, m1, names, s, j, 1);
    m' := m1.Write(Local(j), 1).Advance();
    LoopsOut(f, m, m1, m', c, index.c, index.c.Emit(Store(Const(1), index.v)), names, s, s, j);
  }

  // The header of a loop sends the machine to the body or behind the loop.
  lemma LoopTestRuns(c: Code, p: Operand, pred: Predicate, end: Operand, body: Code, exit: Code,
                     f: Code, m: Machine, names: Names, s: State, x: int, y: int) returns (m': Machine)
    requires c.Open() && Standing(c, m) && Fits(s, m, names) && Grown(LoopTest(c, p, pred, end), f)
    requires m.Read(m.Of(p)) == Some(x) && m.Of(end) == Int(y) && Known(end, c)
    requires body.at == c.at + 1 && exit.at == c.at + 2 && body.End() == 0 == exit.End()
    ensures Arrives(f, m, m', c, if Compare(pred, x, y) then body else exit, names, s)
    ensures m'.Of(Reg(c.regs)) == Int(x)
  {
    hide Fits, Framed, Goes, Grown;
    var l := LoadFrom(c, p);
    YieldBuilds(c, Load(c.regs, p));
    var t := Test(l.c, pred, l.v, end);
    YieldBuilds(l.c, ICmp(l.c.regs, pred, l.v, end));
    var d := CondBr(t.v, c.at + 1, c.at + 2);
    TerminateTouches(t.c, d);
    GrownTrans(t.c, t.c.Terminate(d), f);
    GrownTrans(l.c, t.c, f);
    var m1 := LoadArrives(c, p, f, m, names, s, x);
    StillKnown(f, m, m1, c, l.c, names, s, end);
    var m2 := TestArrives(pred, l.c, l.v, end, f, m1, names, s, x, y);
    StillKnown(f, m1, m2, l.c, t.c, names, s, l.v);
    var to := if Compare(pred, x, y) then body else exit;
    JumpArrives(t.c, d, to, f, m2, names, s);
    m' := m2.Jump(to.at);
    StillKnown(f, m2, m', t.c, to, names, s, l.v);
    ArrivesTrans(f, m, m1, m2, c, l.c, t.c, names, s, s);
    ArrivesTrans(f, m, m2, m', c, t.c, to, names, s, s);
  }
}
