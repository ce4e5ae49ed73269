/** Code generation as it is done: by appending to blocks at an insertion point, with a flag
    that says whether an expression is compiled for its address. */
module CodeGen {
  import opened TipTypes
  import opened TipLanguage
  import opened Ir
  import opened Emission

  class CodeGen {
    var blocks: seq<Block>
    var placed: set<nat>
    var insertBlock: nat
    var registers: nat
    var namedValues: Names
    // Indicates that the address of an expression is wanted.
    var lValueGen: bool
    // A counter for the labels of blocks, which are told apart by identity here.
    var labelNum: nat

    function Now(): Code reads this { Code(blocks, placed, insertBlock, registers) }

    constructor (names: Names)
      ensures Now() == ENTRY && namedValues == names && !lValueGen
    {
      blocks, placed, insertBlock, registers := [Block([], None)], {0}, 0, 0;
      namedValues, lValueGen, labelNum := names, false, 0;
    }

    // ----- the builder -----

    method Insert(i: Instr)
      modifies `blocks
      ensures Now() == old(Now()).Emit(i)
    {
      if insertBlock < |blocks| {
        blocks := blocks[insertBlock := blocks[insertBlock].(instrs := blocks[insertBlock].instrs + [i])];
      }
    }

    // Inserts an instruction that puts its result into the next register.
    method Create(i: Instr) returns (v: Operand)
      modifies `blocks, `registers
      ensures Piece(Now(), v) == Yield(old(Now()), i)
    {
      v := Reg(registers);
      Insert(i);
      registers := registers + 1;
    }

    method End(t: Terminator)
      modifies `blocks
      ensures Now() == old(Now()).Terminate(t)
    {
      if insertBlock < |blocks| {
        blocks := blocks[insertBlock := blocks[insertBlock].(term := Some(t))];
      }
    }

    method CreateBlock() returns (b: nat)
      modifies `blocks
      ensures b == |old(blocks)| && Now() == old(Now()).NewBlock()
    {
      b := |blocks|;
      blocks := blocks + [Block([], None)];
    }

    method PlaceBlock(b: nat)
      modifies `placed
      ensures Now() == old(Now()).Place(b)
    {
      placed := placed + {b};
    }

    method SetInsertPoint(b: nat)
      modifies `insertBlock
      ensures Now() == old(Now()).MoveTo(b)
    {
      insertBlock := b;
    }

    // ----- expressions -----

    /** Compiles e for its address when the flag is set, and for its value when it is not. All
        parts of e other than a target itself are compiled for their values; after an address
        it is up to the statement to reset the flag. */
    method Codegen(e: Expr) returns (v: Operand)
      requires lValueGen ==> HasPlace(e)
      modifies `blocks, `placed, `insertBlock, `registers, `lValueGen, `labelNum
      ensures Piece(Now(), v) ==
              if old(lValueGen) then GenTarget(e, old(Now()), namedValues) else Gen(e, old(Now()), namedValues)
      ensures !old(lValueGen) ==> !lValueGen
      decreases e, 1
    {
      match e
      case NumberExpr(n) => return Const(n);
      case BoolExpr(b) => return Const(Truth(b));
      case VariableExpr(x) =>
        if x in namedValues {
          if lValueGen {
            return Slot(namedValues[x]);
          } else {
            v := Create(Load(registers, Slot(namedValues[x])));
          }
        } else {
          // The index of a function; functions as values are not modelled.
          return Const(0);
        }
      case BinaryExpr(op, left, right) =>
        var l := Codegen(left);
        var r := Codegen(right);
        v := CodegenOp(op, l, r);
      case NotExpr(arg) =>
        var a := Codegen(arg);
        v := Create(Binary(registers, BitXor, a, Const(1)));
      case NegExpr(arg) =>
        var a := Codegen(arg);
        v := Create(Binary(registers, ISub, Const(0), a));
      case TernaryExpr(_, _, _) => v := CodegenTernary(e);
      case ArrayExpr(_) => v := CodegenArray(e);
      case ArrayOfExpr(_, _) => v := CodegenArrayOf(e);
      case ArrayLenExpr(ptr) =>
        var a := Codegen(ptr);
        var p := Create(IntToPtr(registers, a));
        v := Create(Load(registers, p));
      case IndexingExpr(_, _) => v := CodegenIndexing(e);
      case AllocExpr(init) =>
        var a := Codegen(init);
        var p := Create(Calloc(registers, Const(1)));
        Insert(Store(a, p));
        v := Create(PtrToInt(registers, p));
      case DeRefExpr(ptr) =>
        var isLValue := lValueGen;
        if isLValue {
          // So that the pointer is compiled for its value.
          lValueGen := false;
        }
        var a := Codegen(ptr);
        v := Create(IntToPtr(registers, a));
        if !isLValue {
          v := Create(Load(registers, v));
        }
    }

    method CodegenOp(op: BinaryOp, l: Operand, r: Operand) returns (v: Operand)
      modifies `blocks, `registers
      ensures Piece(Now(), v) == GenOp(op, old(Now()), l, r)
    {
      match op
      case Add => v := Create(Binary(registers, IAdd, l, r));
      case Sub => v := Create(Binary(registers, ISub, l, r));
      case Mul => v := Create(Binary(registers, IMul, l, r));
      case Div => v := Create(Binary(registers, SDiv, l, r));
      case Mod => v := Create(Binary(registers, SRem, l, r));
      case And => v := Create(Binary(registers, BitAnd, l, r));
      case Or => v := Create(Binary(registers, BitOr, l, r));
      case Gt => v := CodegenRelation(SGT, l, r);
      case Lt => v := CodegenRelation(SLT, l, r);
      case Ge => v := CodegenRelation(SGE, l, r);
      case Le => v := CodegenRelation(SLE, l, r);
      case Eq => v := CodegenRelation(EQ, l, r);
      case Ne => v := CodegenRelation(NE, l, r);
    }

    method CodegenRelation(pred: Predicate, l: Operand, r: Operand) returns (v: Operand)
      modifies `blocks, `registers
      ensures Piece(Now(), v) == Relation(old(Now()), pred, l, r)
    {
      var cmp := Create(ICmp(registers, pred, l, r));
      v := Create(ZExt(registers, cmp));
    }

    method CodegenTernary(e: Expr) returns (v: Operand)
      requires e.TernaryExpr? && !lValueGen
      modifies `blocks, `placed, `insertBlock, `registers, `lValueGen, `labelNum
      ensures Piece(Now(), v) == Gen(e, old(Now()), namedValues) && !lValueGen
      decreases e, 0
    {
      hide GenTarget, Split, GenElement, GenItems, GenOp, FillStart, FillBody, FillEnd, NewWords;
      var condV := Codegen(e.condition);
      var thenBB, elseBB, mergeBB := BranchOn(condV);
      SetInsertPoint(thenBB);
      var thenV := Codegen(e.thenE);
      // The branch itself may have opened new blocks: the phi wants the one it ends in.
      thenBB := insertBlock;
      GoOn(mergeBB, elseBB);
      var elseV := Codegen(e.elseE);
      elseBB := insertBlock;
      GoOn(mergeBB, mergeBB);
      v := Create(Phi(registers, [(thenV, thenBB), (elseV, elseBB)]));
    }

    // Compares the condition to 0 and branches to new blocks, of which the first is in place.
    method BranchOn(condition: Operand) returns (thenBB: nat, elseBB: nat, mergeBB: nat)
      modifies `blocks, `placed, `registers, `labelNum
      ensures Now() == Split(Piece(old(Now()), condition)) && thenBB + 3 == |blocks| && elseBB == thenBB + 1
      ensures mergeBB == thenBB + 2
    {
      var condV := Create(ICmp(registers, NE, condition, Const(0)));
      thenBB, elseBB, mergeBB := LoopBlocks();
      End(CondBr(condV, thenBB, elseBB));
    }

    // Three new blocks with a common label, of which the first is in place.
    method LoopBlocks() returns (first: nat, second: nat, third: nat)
      modifies `blocks, `placed, `labelNum
      ensures Now() == ThreeBlocks(old(Now())) && first == |old(blocks)| && second == first + 1 && third == first + 2
    {
      labelNum := labelNum + 1;
      first := CreateBlock();
      PlaceBlock(first);
      second := CreateBlock();
      third := CreateBlock();
    }

    // Ends the block with a jump, and goes on in another one.
    method GoOn(target: nat, b: nat)
      modifies `blocks, `placed, `insertBlock
      ensures Now() == Enter(old(Now()).Terminate(Br(target)), b)
    {
      End(Br(target));
      PlaceBlock(b);
      SetInsertPoint(b);
    }

    method CodegenArray(e: Expr) returns (v: Operand)
      requires e.ArrayExpr? && !lValueGen
      modifies `blocks, `placed, `insertBlock, `registers, `lValueGen, `labelNum
      ensures Piece(Now(), v) == Gen(e, old(Now()), namedValues) && !lValueGen
      decreases e, 0
    {
      hide GenTarget;
      var numElements := |e.elements|;
      var arrayPtr := Create(Calloc(registers, Const(numElements + 1)));
      Insert(Store(Const(numElements), arrayPtr));
      ghost var all := GenItems(e.elements, 0, arrayPtr, Now(), namedValues);
      for i := 0 to numElements
        invariant !lValueGen && namedValues == old(namedValues)
        invariant GenItems(e.elements, i, arrayPtr, Now(), namedValues) == all
      {
        var elementValue := Codegen(e.elements[i]);
        var elementPtr := Create(Gep(registers, arrayPtr, Const(i + 1)));
        Insert(Store(elementValue, elementPtr));
      }
      v := Create(PtrToInt(registers, arrayPtr));
    }

    method CodegenArrayOf(e: Expr) returns (v: Operand)
      requires e.ArrayOfExpr? && !lValueGen
      modifies `blocks, `placed, `insertBlock, `registers, `lValueGen, `labelNum
      ensures Piece(Now(), v) == Gen(e, old(Now()), namedValues) && !lValueGen
      decreases e, 0
    {
      hide GenTarget, FillStart, FillBody, FillEnd, FillCounter, LoopTest;
      var sizeValue := Codegen(e.e1);
      ghost var n := Piece(Now(), sizeValue);
      var arrayPtr, indexPtr, condBB, currentIndex := OpenFill(sizeValue);
      var elementValue := Codegen(e.e2);
      ghost var el := Piece(Now(), elementValue);
      EndFill(n, el, arrayPtr, indexPtr, currentIndex, elementValue, condBB);
      v := Create(PtrToInt(registers, arrayPtr));
    }

    // All up to the body of the loop.
    method OpenFill(sizeValue: Operand)
      returns (arrayPtr: Operand, indexPtr: Operand, condBB: nat, currentIndex: Operand)
      modifies `blocks, `placed, `insertBlock, `registers, `labelNum
      ensures var n := Piece(old(Now()), sizeValue);
              && Now() == FillBody(n) && arrayPtr == FillStart(n).arr && indexPtr == FillStart(n).index
              && currentIndex == FillCounter(n) && condBB == FillStart(n).start.at
    {
      hide FillStart, LoopTest;
      arrayPtr, indexPtr := StartFill(sizeValue);
      condBB := insertBlock;
      currentIndex := TestLoop(indexPtr, SLE, sizeValue);
      SetInsertPoint(condBB + 1);
    }

    // Allocates the array and a counter, and opens the header of the loop.
    method StartFill(sizeValue: Operand) returns (arrayPtr: Operand, indexPtr: Operand)
      modifies `blocks, `placed, `insertBlock, `registers, `labelNum
      ensures Loop(Now(), arrayPtr, indexPtr) == FillStart(Piece(old(Now()), sizeValue))
    {
      var numItems := Create(Binary(registers, IAdd, sizeValue, Const(1)));
      arrayPtr := Create(Calloc(registers, numItems));
      Insert(Store(sizeValue, arrayPtr));
      indexPtr := Create(Alloca(registers));
      Insert(Store(Const(1), indexPtr));
      var condBB := FillBlocks();
      End(Br(condBB));
      SetInsertPoint(condBB);
    }

    // Three new blocks with a common label, all in place.
    method FillBlocks() returns (condBB: nat)
      modifies `blocks, `placed, `labelNum
      ensures Now() == Ahead(old(Now())) && condBB == |old(blocks)|
    {
      labelNum := labelNum + 1;
      condBB := CreateBlock();
      PlaceBlock(condBB);
      var bodyBB := CreateBlock();
      PlaceBlock(bodyBB);
      var endBB := CreateBlock();
      PlaceBlock(endBB);
    }

    // The test in the header of a loop: what the counter was, and a branch to one of the next two blocks.
    method TestLoop(p: Operand, pred: Predicate, end: Operand) returns (current: Operand)
      modifies `blocks, `registers
      ensures Now() == LoopTest(old(Now()), p, pred, end) && current == Reg(old(registers))
    {
      current := Create(Load(registers, p));
      var loopCond := Create(ICmp(registers, pred, current, end));
      End(CondBr(loopCond, insertBlock + 1, insertBlock + 2));
    }

    // Stores the element, counts, and closes the loop.
    method EndFill(ghost n: Piece, ghost el: Piece, arrayPtr: Operand, indexPtr: Operand, currentIndex: Operand,
                   elementValue: Operand, condBB: nat)
      requires el == Piece(Now(), elementValue) && arrayPtr == FillStart(n).arr && indexPtr == FillStart(n).index
      requires currentIndex == FillCounter(n) && condBB == FillStart(n).start.at
      modifies `blocks, `insertBlock, `registers
      ensures Now() == FillEnd(n, el)
    {
      hide FillStart;
      var elementPtr := Create(Gep(registers, arrayPtr, currentIndex));
      Insert(Store(elementValue, elementPtr));
      var nextIndex := Create(Binary(registers, IAdd, currentIndex, Const(1)));
      Insert(Store(nextIndex, indexPtr));
      End(Br(condBB));
      SetInsertPoint(condBB + 2);
    }

    method CodegenIndexing(e: Expr) returns (v: Operand)
      requires e.IndexingExpr?
      modifies `blocks, `placed, `insertBlock, `registers, `lValueGen, `labelNum
      ensures Piece(Now(), v) ==
              if old(lValueGen) then GenTarget(e, old(Now()), namedValues) else Gen(e, old(Now()), namedValues)
      ensures !old(lValueGen) ==> !lValueGen
      decreases e, 0
    {
      hide CheckBounds, GenItems, GenOp, FillStart, FillBody, FillEnd, NewWords, Split, Enter;
      var isLValue := lValueGen;
      lValueGen := false;
      var arrayVal := Codegen(e.arr);
      var arrayPtr := Create(IntToPtr(registers, arrayVal));
      var length := Create(Load(registers, arrayPtr));
      var indexVal := Codegen(e.idx);
      lValueGen := isLValue;
      var inBounds, elementPtr := CheckIndex(arrayPtr, length, indexVal);
      if lValueGen {
        v := Create(Phi(registers, [(elementPtr, inBounds)]));
      } else {
        v := Create(Load(registers, elementPtr));
      }
    }

    method CheckIndex(arrayPtr: Operand, length: Operand, indexVal: Operand)
      returns (inBoundsBB: nat, elementPtr: Operand)
      modifies `blocks, `placed, `insertBlock, `registers
      ensures Piece(Now(), elementPtr) == CheckBounds(old(Now()), arrayPtr, length, indexVal)
      ensures inBoundsBB + 2 == insertBlock
    {
      var isIndexNegative := Create(ICmp(registers, SLT, indexVal, Const(0)));
      var isIndexTooLarge := Create(ICmp(registers, SGE, indexVal, length));
      var isOutOfBounds := Create(Binary(registers, BitOr, isIndexNegative, isIndexTooLarge));
      ghost var out := Piece(Now(), isOutOfBounds);
      inBoundsBB := CreateBlock();
      PlaceBlock(inBoundsBB);
      var outOfBoundsBB := CreateBlock();
      PlaceBlock(outOfBoundsBB);
      var continueBB := CreateBlock();
      PlaceBlock(continueBB);
      End(CondBr(isOutOfBounds, outOfBoundsBB, inBoundsBB));
      SetInsertPoint(outOfBoundsBB);
      Insert(CallError(Const(0)));
      End(Unreachable);
      SetInsertPoint(inBoundsBB);
      var adjustedIndex := Create(Binary(registers, IAdd, indexVal, Const(1)));
      elementPtr := Create(Gep(registers, arrayPtr, adjustedIndex));
      End(Br(continueBB));
      SetInsertPoint(continueBB);
      assert Piece(Now(), elementPtr) == AfterCheck(out, arrayPtr, indexVal);
    }

    // ----- statements -----

    /** Every statement is compiled with the flag unset, and leaves it unset. */
    method CodegenStmt(st: Stmt)
      requires !lValueGen && Targets(st)
      modifies `blocks, `placed, `insertBlock, `registers, `lValueGen, `labelNum
      ensures Now() == GenStmt(st, old(Now()), namedValues) && !lValueGen
      decreases st, 1
    {
      hide Gen, GenTarget;
      match st
      case AssignStmt(lhs, rhs) =>
        var lValue := CodegenTarget(lhs);
        var rValue := Codegen(rhs);
        Insert(Store(rValue, lValue));
      case UpdateStmt(target, increment) =>
        var argVal := CodegenTarget(target);
        var loaded := Create(Load(registers, argVal));
        var updated := Create(Binary(registers, if increment then IAdd else ISub, loaded, Const(1)));
        Insert(Store(updated, argVal));
      case BlockStmt(ss) =>
        if ss == [] {
          Insert(Nop);
        } else {
          ghost var all := GenStmts(ss, 0, Now(), namedValues);
          for i := 0 to |ss|
            invariant !lValueGen && namedValues == old(namedValues) && GenStmts(ss, i, Now(), namedValues) == all
          {
            CodegenStmt(ss[i]);
          }
        }
      case IfStmt(_, _, _) => CodegenIf(st);
      case WhileStmt(_, _) => CodegenWhile(st);
      case ForRangeStmt(_, _, _, _, _) => CodegenForRange(st);
      case ForEachStmt(_, _, _) => CodegenForEach(st);
      case OutputStmt(arg) =>
        var a := Codegen(arg);
        Insert(CallOutput(a));
      case ErrorStmt(arg) =>
        var a := Codegen(arg);
        Insert(CallError(a));
    }

    // The flag is set for the target alone.
    method CodegenTarget(e: Expr) returns (v: Operand)
      requires !lValueGen && IsTarget(e)
      modifies `blocks, `placed, `insertBlock, `registers, `lValueGen, `labelNum
      ensures Piece(Now(), v) == GenTarget(e, old(Now()), namedValues) && !lValueGen
    {
      hide Gen, GenTarget;
      lValueGen := true;
      v := Codegen(e);
      lValueGen := false;
    }

    method CodegenIf(st: Stmt)
      requires !lValueGen && st.IfStmt? && Targets(st)
      modifies `blocks, `placed, `insertBlock, `registers, `lValueGen, `labelNum
      ensures Now() == GenStmt(st, old(Now()), namedValues) && !lValueGen
      decreases st, 0
    {
      hide Gen, GenTarget, Split;
      var condV := Codegen(st.condition);
      var thenBB, elseBB, mergeBB := BranchOn(condV);
      SetInsertPoint(thenBB);
      CodegenStmt(st.thenS);
      GoOn(mergeBB, elseBB);
      if st.elseS.Some? {
        CodegenStmt(st.elseS.value);
      } else {
        Insert(Nop);
      }
      GoOn(mergeBB, mergeBB);
      Insert(Nop);
    }

    // Back to the header, and on in the exit block.
    method CloseLoop(header: nat)
      modifies `blocks, `placed, `insertBlock
      ensures Now() == LoopEnd(old(Now()), header)
    {
      GoOn(header, header + 2);
      Insert(Nop);
    }

    method CodegenWhile(st: Stmt)
      requires !lValueGen && st.WhileStmt? && Targets(st)
      modifies `blocks, `placed, `insertBlock, `registers, `lValueGen, `labelNum
      ensures Now() == GenStmt(st, old(Now()), namedValues) && !lValueGen
      decreases st, 0
    {
      hide Gen, GenTarget, LoopEnd, ThreeBlocks;
      var headerBB, bodyBB, exitBB := LoopBlocks();
      End(Br(headerBB));
      SetInsertPoint(headerBB);
      var condV := Codegen(st.condition);
      condV := Create(ICmp(registers, NE, condV, Const(0)));
      End(CondBr(condV, bodyBB, exitBB));
      PlaceBlock(bodyBB);
      SetInsertPoint(bodyBB);
      CodegenStmt(st.body);
      CloseLoop(headerBB);
    }

    method CodegenForRange(st: Stmt)
      requires !lValueGen && st.ForRangeStmt? && Targets(st)
      modifies `blocks, `placed, `insertBlock, `registers, `lValueGen, `labelNum
      ensures Now() == GenStmt(st, old(Now()), namedValues) && !lValueGen
      decreases st, 0
    {
      hide Gen, GenTarget, LoopEnd, ThreeBlocks;
      var headerBB, bodyBB, exitBB := LoopBlocks();
      var itemV := CodegenTarget(st.item);
      var startV := Codegen(st.start);
      var endV := Codegen(st.end);
      var incrementV := Const(1);
      if st.step.Some? {
        incrementV := Codegen(st.step.value);
      }
      Insert(Store(startV, itemV));
      StartRange(headerBB, itemV, endV);
      CodegenStmt(st.body);
      StepRange(itemV, incrementV);
      CloseLoop(headerBB);
    }

    method StartRange(headerBB: nat, itemV: Operand, endV: Operand)
      modifies `blocks, `placed, `insertBlock, `registers
      ensures Now() == RangeHead(old(Now()), headerBB, itemV, endV)
    {
      End(Br(headerBB));
      SetInsertPoint(headerBB);
      var _ := TestLoop(itemV, SLT, endV);
      PlaceBlock(headerBB + 1);
      SetInsertPoint(headerBB + 1);
    }

    method StepRange(itemV: Operand, incrementV: Operand)
      modifies `blocks, `registers
      ensures Now() == RangeNext(old(Now()), itemV, incrementV)
    {
      var current := Create(Load(registers, itemV));
      var next := Create(Binary(registers, IAdd, current, incrementV));
      Insert(Store(next, itemV));
    }

    method CodegenForEach(st: Stmt)
      requires !lValueGen && st.ForEachStmt? && Targets(st)
      modifies `blocks, `placed, `insertBlock, `registers, `lValueGen, `labelNum
      ensures Now() == GenStmt(st, old(Now()), namedValues) && !lValueGen
      decreases st, 0
    {
      hide Gen, GenTarget, LoopEnd, ThreeBlocks, EachStart, EachBody, EachHead, EachNext;
      var headerBB, bodyBB, exitBB := LoopBlocks();
      var itemV := CodegenTarget(st.item);
      var iteratorV := Codegen(st.collection);
      ghost var a := Piece(Now(), iteratorV);
      var index, currentIndex := StartEach(headerBB, itemV, iteratorV);
      CodegenStmt(st.body);
      CountEach(a, headerBB, index, currentIndex);
      CloseLoop(headerBB);
    }

    // Up to the start of the body, with the item in its place.
    method StartEach(headerBB: nat, itemV: Operand, iteratorV: Operand) returns (index: Operand, currentIndex: Operand)
      modifies `blocks, `placed, `insertBlock, `registers
      ensures var a := Piece(old(Now()), iteratorV);
              && Now() == EachHead(a, headerBB, itemV) && index == EachStart(a, headerBB).index
              && currentIndex == EachCounter(a, headerBB)
    {
      ghost var a := Piece(Now(), iteratorV);
      var arrayPtr, length;
      index, arrayPtr, length := OpenEach(headerBB, iteratorV);
      var _ := TestLoop(index, SLE, length);
      PlaceBlock(headerBB + 1);
      SetInsertPoint(headerBB + 1);
      assert Now() == EachBody(a, headerBB);
      currentIndex := Create(Load(registers, index));
      var elementPtr := Create(Gep(registers, arrayPtr, currentIndex));
      var elementValue := Create(Load(registers, elementPtr));
      Insert(Store(elementValue, itemV));
    }

    method OpenEach(headerBB: nat, iteratorV: Operand) returns (index: Operand, arrayPtr: Operand, length: Operand)
      modifies `blocks, `insertBlock, `registers
      ensures var a := Piece(old(Now()), iteratorV);
              Loop(Now(), arrayPtr, index) == EachStart(a, headerBB) && length == EachLength(a, headerBB)
    {
      index := Create(Alloca(registers));
      Insert(Store(Const(1), index));
      arrayPtr := Create(IntToPtr(registers, iteratorV));
      length := Create(Load(registers, arrayPtr));
      End(Br(headerBB));
      SetInsertPoint(headerBB);
    }

    method CountEach(ghost a: Piece, ghost header: nat, index: Operand, currentIndex: Operand)
      requires index == EachStart(a, header).index && currentIndex == EachCounter(a, header)
      modifies `blocks, `registers
      ensures Now() == EachNext(old(Now()), a, header)
    {
      var next := Create(Binary(registers, IAdd, currentIndex, Const(1)));
      Insert(Store(next, index));
    }
  }

  /** The code of a function, of which Preservation shows what it does and CfgShape its shape. */
  method CodegenFunction(fn: Function) returns (gen: CodeGen)
    requires Declared(fn) && Targets(fn.body)
    ensures fresh(gen) && gen.Now() == Emitted(fn)
  {
    gen := new CodeGen(Slots(fn));
    gen.CodegenStmt(fn.body);
    var v := gen.Codegen(fn.result);
    gen.End(Ret(v));
  }

  // Weeding has checked every target.
  predicate Targets(st: Stmt) {
    match st
    case AssignStmt(lhs, _) => IsTarget(lhs)
    case UpdateStmt(target, _) => IsTarget(target)
    case BlockStmt(ss) => forall i | 0 <= i < |ss| :: Targets(ss[i])
    case IfStmt(_, t, f) => Targets(t) && (f.Some? ==> Targets(f.value))
    case WhileStmt(_, body) => Targets(body)
    case ForRangeStmt(item, _, _, _, body) => IsTarget(item) && Targets(body)
    case ForEachStmt(item, _, body) => IsTarget(item) && Targets(body)
    case OutputStmt(_) => true
    case ErrorStmt(_) => true
  }
}
