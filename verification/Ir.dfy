/** The target of code generation: functions made of basic blocks, the builder that appends to
    them, and a machine that runs them on memory of 64-bit words. */
module Ir {
  import opened TipTypes
  import opened TipLanguage
  import Words

  // ----- code -----

  // A constant, the result of an instruction, or the stack slot of a variable.
  datatype Operand = Const(n: int) | Reg(r: nat) | Slot(i: nat)

  datatype IrOp = IAdd | ISub | IMul | SDiv | SRem | BitAnd | BitOr | BitXor

  datatype Predicate = SLT | SGT | SLE | SGE | EQ | NE

  datatype Instr =
    | Binary(dst: nat, op: IrOp, a: Operand, b: Operand)
    | ICmp(dst: nat, pred: Predicate, a: Operand, b: Operand)
    | ZExt(dst: nat, a: Operand)
    | IntToPtr(dst: nat, a: Operand)
    | PtrToInt(dst: nat, a: Operand)
    | Load(dst: nat, p: Operand)
    | Store(v: Operand, p: Operand)
    | Alloca(dst: nat)
    | Calloc(dst: nat, items: Operand)
    | Gep(dst: nat, p: Operand, idx: Operand)
    | Phi(dst: nat, incoming: seq<(Operand, nat)>)
    | CallOutput(v: Operand)
    | CallError(v: Operand)
    | Nop

  datatype Terminator = Br(target: nat) | CondBr(c: Operand, ifTrue: nat, ifFalse: nat) | Ret(v: Operand) | Unreachable

  datatype Block = Block(instrs: seq<Instr>, term: Option<Terminator>)

  /** A function under construction: its blocks, those of them that have been put into the
      function's list, the block at whose end code is inserted, and the next free register. */
  datatype Code = Code(blocks: seq<Block>, placed: set<nat>, at: nat, regs: nat) {
    function BlockAt(b: nat): Block { if b < |blocks| then blocks[b] else Block([], None) }

    // Code can be added at the insertion point.
    predicate Open() { at < |blocks| && blocks[at].term == None }

    function End(): nat { |BlockAt(at).instrs| }

    function Emit(i: Instr): Code {
      if at < |blocks| then this.(blocks := blocks[at := blocks[at].(instrs := blocks[at].instrs + [i])]) else this
    }

    // An instruction with a result, in the next register.
    function Def(i: Instr): Code { Emit(i).(regs := regs + 1) }

    function Terminate(t: Terminator): Code {
      if at < |blocks| then this.(blocks := blocks[at := blocks[at].(term := Some(t))]) else this
    }

    // A new block, which is empty; its name is the old number of blocks.
    function NewBlock(): Code { this.(blocks := blocks + [Block([], None)]) }

    function Place(b: nat): Code { this.(placed := placed + {b}) }

    function MoveTo(b: nat): Code { this.(at := b) }
  }

  // b is c with something added: a block that is terminated stays as it is.
  ghost predicate Grown(c: Code, c': Code) {
    |c.blocks| <= |c'.blocks| && forall b {:trigger c'.BlockAt(b)} {:trigger c.BlockAt(b)} | 0 <= b < |c.blocks| ::
        Extended(c.BlockAt(b), c'.BlockAt(b))
  }

  ghost predicate Extended(b: Block, b': Block) {
    b.instrs <= b'.instrs && (b.term.Some? ==> b' == b)
  }

  lemma GrownTrans(c: Code, c1: Code, c2: Code)
    requires Grown(c, c1) && Grown(c1, c2)
    ensures Grown(c, c2)
  {
    forall b | 0 <= b < |c.blocks| ensures Extended(c.BlockAt(b), c2.BlockAt(b)) {
      assert Extended(c.BlockAt(b), c1.BlockAt(b)) && Extended(c1.BlockAt(b), c2.BlockAt(b));
    }
  }

  // ----- the machine -----

  // What a register holds: nothing as long as it was not written, a number, or an address.
  datatype Val = Unset | Int(n: int) | Local(slot: nat) | Word(addr: int)

  datatype Status = Running | Returned(n: int) | Stopped(code: int) | Stuck

  datatype Machine = Machine(block: nat, index: nat, prev: nat, regs: map<nat, Val>, slots: seq<int>,
                             mem: map<int, int>, next: int, out: seq<int>, status: Status)
  {
    function Get(r: nat): Val { if r in regs then regs[r] else Unset }

    function Of(o: Operand): Val {
      match o
      case Const(n) => Int(n)
      case Reg(r) => Get(r)
      case Slot(i) => Local(i)
    }

    function Advance(): Machine { this.(index := index + 1) }

    function Put(r: nat, v: Val): Machine { this.(regs := regs[r := v]).Advance() }

    function Jump(b: nat): Machine { this.(block := b, index := 0, prev := block) }

    function GetStuck(): Machine { this.(status := Stuck) }

    function Read(p: Val): Option<int> {
      match p
      case Unset => None
      case Int(_) => None
      case Local(i) => if i < |slots| then Some(slots[i]) else None
      case Word(a) => if a in mem then Some(mem[a]) else None
    }

    function Write(p: Val, x: int): Machine
      requires Read(p).Some?
    {
      match p
      case Local(i) => this.(slots := slots[i := x])
      case Word(a) => this.(mem := mem[a := x])
    }
  }

  function Unsigned(x: int): nat { x % (2 * TWO63) }

  function IrApply(op: IrOp, x: int, y: int): Option<int> {
    match op
    case IAdd => Some(Wrap(x + y))
    case ISub => Some(Wrap(x - y))
    case IMul => Some(Wrap(x * y))
    case SDiv => if y == 0 || (x == -TWO63 && y == -1) then None else Some(Quotient(x, y))
    case SRem => if y == 0 || (x == -TWO63 && y == -1) then None else Some(x - y * Quotient(x, y))
    case BitAnd => Some(Wrap(Words.And(Unsigned(x), Unsigned(y))))
    case BitOr => Some(Wrap(Words.Or(Unsigned(x), Unsigned(y))))
    case BitXor => Some(Wrap(Words.Xor(Unsigned(x), Unsigned(y))))
  }

  function Compare(p: Predicate, x: int, y: int): bool {
    match p
    case SLT => x < y
    case SGT => x > y
    case SLE => x <= y
    case SGE => x >= y
    case EQ => x == y
    case NE => x != y
  }

  // An instruction that reads a register before it was written gets stuck, like all that are ill-typed.
  function Do(m: Machine, i: Instr): Machine {
    match i
    case Binary(dst, op, a, b) =>
      if m.Of(a).Int? && m.Of(b).Int? && IrApply(op, m.Of(a).n, m.Of(b).n).Some?
      then m.Put(dst, Int(IrApply(op, m.Of(a).n, m.Of(b).n).value)) else m.GetStuck()
    case ICmp(dst, pred, a, b) =>
      if m.Of(a).Int? && m.Of(b).Int? then m.Put(dst, Int(Truth(Compare(pred, m.Of(a).n, m.Of(b).n)))) else m.GetStuck()
    case ZExt(dst, a) => if m.Of(a).Int? then m.Put(dst, m.Of(a)) else m.GetStuck()
    case IntToPtr(dst, a) => if m.Of(a).Int? then m.Put(dst, Word(m.Of(a).n)) else m.GetStuck()
    case PtrToInt(dst, a) => if m.Of(a).Word? then m.Put(dst, Int(m.Of(a).addr)) else m.GetStuck()
    case Load(dst, p) => if m.Read(m.Of(p)).Some? then m.Put(dst, Int(m.Read(m.Of(p)).value)) else m.GetStuck()
    case Store(v, p) =>
      if m.Of(v).Int? && m.Read(m.Of(p)).Some? then m.Write(m.Of(p), m.Of(v).n).Advance() else m.GetStuck()
    case Alloca(dst) => m.(slots := m.slots + [0]).Put(dst, Local(|m.slots|))
    case Calloc(dst, items) =>
      if m.Of(items).Int? && m.Of(items).n > 0
      then m.(mem := Zeroed(m.mem, m.next, m.Of(items).n), next := m.next + m.Of(items).n).Put(dst, Word(m.next))
      else m.GetStuck()
    case Gep(dst, p, idx) =>
      if m.Of(p).Word? && m.Of(idx).Int? then m.Put(dst, Word(m.Of(p).addr + m.Of(idx).n)) else m.GetStuck()
    case Phi(dst, incoming) =>
      var chosen := Chosen(incoming, m.prev);
      if chosen.Some? && m.Of(chosen.value) != Unset then m.Put(dst, m.Of(chosen.value)) else m.GetStuck()
    case CallOutput(v) => if m.Of(v).Int? then m.(out := m.out + [m.Of(v).n]).Advance() else m.GetStuck()
    case CallError(v) => if m.Of(v).Int? then m.(status := Stopped(m.Of(v).n)) else m.GetStuck()
    case Nop => m.Advance()
  }

  predicate InRange(a: int, from: int, n: int) { from <= a < from + n }

  function Zeroed(mem: map<int, int>, from: int, n: int): map<int, int> {
    mem + map a | from <= a < from + n && InRange(a, from, n) :: 0
  }

  function Chosen(incoming: seq<(Operand, nat)>, from: nat): Option<Operand> {
    if incoming == [] then None
    else if incoming[0].1 == from then Some(incoming[0].0)
    else Chosen(incoming[1..], from)
  }

  function Finish(m: Machine, t: Terminator): Machine {
    match t
    case Br(b) => m.Jump(b)
    case CondBr(c, t, f) => if m.Of(c).Int? then m.Jump(if m.Of(c).n != 0 then t else f) else m.GetStuck()
    case Ret(v) => if m.Of(v).Int? then m.(status := Returned(m.Of(v).n)) else m.GetStuck()
    case Unreachable => m.GetStuck()
  }

  function Step(f: Code, m: Machine): Machine {
    if m.status != Running then m else
    var b := f.BlockAt(m.block);
    if m.index < |b.instrs| then Do(m, b.instrs[m.index])
    else if b.term.Some? then Finish(m, b.term.value)
    else m.GetStuck()
  }

  function Run(f: Code, m: Machine, n: nat): Machine
    decreases n
  {
    if n == 0 then m else Run(f, Step(f, m), n - 1)
  }

  // ----- runs -----

  ghost predicate Goes(f: Code, m: Machine, m': Machine) {
    exists n: nat {:trigger Run(f, m, n)} :: Run(f, m, n) == m'
  }

  // Still running after any number of steps up to k.
  ghost predicate Keeps(f: Code, m: Machine, k: nat) {
    forall n: nat {:trigger Run(f, m, n)} | n <= k :: Run(f, m, n).status == Running
  }

  lemma GoesNowhere(f: Code, m: Machine)
    ensures Goes(f, m, m)
  {
    assert Run(f, m, 0) == m;
  }

  lemma GoesOne(f: Code, m: Machine)
    ensures Goes(f, m, Step(f, m))
  {
    assert Run(f, m, 1) == Run(f, Step(f, m), 0) == Step(f, m);
  }

  lemma {:induction false} RunPlus(f: Code, m: Machine, i: nat, j: nat)
    ensures Run(f, m, i + j) == Run(f, Run(f, m, i), j)
    decreases i
  {
    if i > 0 { RunPlus(f, Step(f, m), i - 1, j); }
  }

  lemma GoesOn(f: Code, m: Machine, m1: Machine, m2: Machine)
    requires Goes(f, m, m1) && Goes(f, m1, m2)
    ensures Goes(f, m, m2)
  {
    var i: nat :| Run(f, m, i) == m1;
    var j: nat :| Run(f, m1, j) == m2;
    RunPlus(f, m, i, j);
    assert Run(f, m, i + j) == m2;
  }

  lemma {:induction false} StoppedStays(f: Code, m: Machine, n: nat)
    requires m.status != Running
    ensures Run(f, m, n) == m
    decreases n
  {
    if n > 0 { StoppedStays(f, m, n - 1); }
  }

  // A run that gets to a running machine was running all the way.
  lemma RanBefore(f: Code, m: Machine, i: nat, j: nat)
    requires i <= j && Run(f, m, j).status == Running
    ensures Run(f, m, i).status == Running
  {
    RunPlus(f, m, i, j - i);
    if Run(f, m, i).status != Running { StoppedStays(f, Run(f, m, i), j - i); }
  }

  lemma KeepsFrom(f: Code, m: Machine, m1: Machine, k: nat)
    requires Goes(f, m, m1) && Keeps(f, m1, k)
    ensures Keeps(f, m, k)
  {
    var i: nat :| Run(f, m, i) == m1;
    forall n: nat | n <= k ensures Run(f, m, n).status == Running {
      RunPlus(f, m, i, n);
      assert Run(f, m1, n).status == Running;
      RanBefore(f, m, n, i + n);
    }
  }

  // With a step on the way it runs for longer.
  lemma KeepsLonger(f: Code, m: Machine, m1: Machine, k: nat)
    requires m.status == Running && Goes(f, Step(f, m), m1) && Keeps(f, m1, k)
    ensures Keeps(f, m, k + 1)
  {
    KeepsFrom(f, Step(f, m), m1, k);
    forall n: nat | n <= k + 1 ensures Run(f, m, n).status == Running {
      if n > 0 { assert Run(f, m, n) == Run(f, Step(f, m), n - 1); }
    }
  }
}
