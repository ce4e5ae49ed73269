/** Whole functions run and stop as their source does. */
module Preservation {
  import opened TipTypes
  import opened TipLanguage
  import opened Ir
  import opened Emission
  import opened CodeShape
  import opened MachineState
  import opened ExprPreservation
  import opened StmtPreservation

  // The arguments, and 0 for every local.
  function Inputs(fn: Function, args: seq<int>): (xs: seq<int>) {
    seq(|fn.Variables()|, i => if 0 <= i < |args| then args[i] else 0)
  }

  function Start(fn: Function, args: seq<int>): State
    requires Declared(fn)
  {
    var names, xs := Slots(fn), Inputs(fn, args);
    State(map x | x in names :: if names[x] < |xs| then xs[names[x]] else 0, map[], 1, [])
  }

  function Meaning(fn: Function, args: seq<int>, fuel: nat): Outcome<int>
    requires Declared(fn)
  {
    var (_, s) :- Exec(fn.body, Start(fn, args), fuel);
    Eval(fn.result, s)
  }

  function Entered(fn: Function, args: seq<int>): Machine {
    Machine(0, 0, 0, map[], Inputs(fn, args), map[], 1, [], Running)
  }

  // How the run of the emitted code has to end.
  ghost predicate Ends(o: Outcome<int>, f: Code, m: Machine, fuel: nat) {
    match o
    case Value(n, s) => exists k: nat {:trigger Run(f, m, k)} ::
        Run(f, m, k).status == Returned(n) && Run(f, m, k).out == s.out
    case Failed(code, out) => exists k: nat {:trigger Run(f, m, k)} ::
        Run(f, m, k).status == Stopped(code) && Run(f, m, k).out == out
    case OutOfFuel => Keeps(f, m, fuel)
    case Undefined => true
  }

  lemma StartFits(fn: Function, args: seq<int>)
    requires Declared(fn)
    ensures Fits(Start(fn, args), Entered(fn, args), Slots(fn)) && Standing(ENTRY, Entered(fn, args))
  {
    var names := Slots(fn);
    assert SlotsOf(fn.Variables()) == names;
  }

  // The variable has this value to begin with, in the source and in its stack slot.
  ghost predicate StartsWith(fn: Function, args: seq<int>, x: string, v: int)
    requires Declared(fn)
  {
    && x in Start(fn, args).vars && Start(fn, args).vars[x] == v
    && x in Slots(fn) && Slots(fn)[x] < |Entered(fn, args).slots| && Entered(fn, args).slots[Slots(fn)[x]] == v
  }

  /** Each parameter starts as its argument, each local variable as 0, and there are no others. */
  lemma VariablesStart(fn: Function, args: seq<int>)
    requires Declared(fn) && |args| == |fn.formals|
    ensures forall i | 0 <= i < |args| :: StartsWith(fn, args, fn.formals[i], args[i])
    ensures forall i | 0 <= i < |fn.locals| :: StartsWith(fn, args, fn.locals[i], 0)
    ensures forall x | x in Start(fn, args).vars :: x in fn.formals || x in fn.locals
  {
    forall i | 0 <= i < |args| ensures StartsWith(fn, args, fn.formals[i], args[i]) {
      assert fn.Variables()[i] == fn.formals[i];
      VariableStarts(fn, args, i);
    }
    forall i | 0 <= i < |fn.locals| ensures StartsWith(fn, args, fn.locals[i], 0) {
      assert fn.Variables()[|args| + i] == fn.locals[i];
      VariableStarts(fn, args, |args| + i);
    }
  }

  lemma VariableStarts(fn: Function, args: seq<int>, i: nat)
    requires Declared(fn) && i < |fn.Variables()|
    ensures StartsWith(fn, args, fn.Variables()[i], if i < |args| then args[i] else 0)
  {
    var x := fn.Variables()[i];
    assert SlotsOf(fn.Variables()) == Slots(fn);
    assert x in Slots(fn) && fn.Variables()[Slots(fn)[x]] == x;
    hide SlotsOf, Slots;
  }

  lemma EndOf(o: Outcome<int>, f: Code, m: Machine, m': Machine, fuel: nat)
    requires Goes(f, m, m')
    requires o.Value? ==> m'.status == Returned(o.v) && m'.out == o.s.out
    requires o.Failed? ==> m'.status == Stopped(o.code) && m'.out == o.out
    requires o.Value? || o.Failed?
    ensures Ends(o, f, m, fuel)
  {
    var k: nat :| Run(f, m, k) == m';
    assert Run(f, m, k).out == m'.out;
  }

  /** The emitted code returns what the function means, prints the same, stops with the same
      error; and as long as the source is not done, neither is the machine. */
  lemma EmittedPreserves(fn: Function, args: seq<int>, fuel: nat)
    requires Declared(fn) && |args| == |fn.formals|
    ensures Ends(Meaning(fn, args, fuel), Emitted(fn), Entered(fn, args), fuel)
  {
    hide Fits, Framed, Grown, Builds, Standing, Exec, Eval, Gen, GenStmt, Goes;
    var names, m, s := Slots(fn), Entered(fn, args), Start(fn, args);
    StartFits(fn, args);
    var c := GenStmt(fn.body, ENTRY, names);
    GenStmtBuilds(fn.body, ENTRY, names);
    OpenOf(ENTRY, c);
    MoreBlocks(ENTRY, c);
    var r, f := Gen(fn.result, c, names), Emitted(fn);
    GenBuilds(fn.result, c, names);
    OpenOf(c, r.c);
    GrownSelf(f);
    TerminateTouches(r.c, Ret(r.v));
    TouchesGrown(r.c, f, {r.c.at}, f);
    GrownBack(c, r.c, f);
    var m1 := StmtRuns(fn.body, ENTRY, f, m, s, names, fuel);
    match Exec(fn.body, s, fuel)
    case Value(_, s1) =>
      ArrivedFacts(f, m, m1, ENTRY, c, names, s1);
      var m2 := GenRuns(fn.result, c, f, m1, s1, names);
      EvalHasFuel(fn.result, s1);
      ResultEnds(Eval(fn.result, s1), c, r, f, m, m1, m2, names, s1, fuel);
    case Failed(code, out) => EndOf(Failed(code, out), f, m, m1, fuel);
    case OutOfFuel =>
    case Undefined =>
  }

  lemma GrownSelf(f: Code)
    ensures Grown(f, f)
  {
  }

  lemma ResultEnds(o: Outcome<int>, c: Code, r: Piece, f: Code, m: Machine, m1: Machine, m2: Machine, names: Names,
                   s1: State, fuel: nat)
    requires Arrives(f, m, m1, ENTRY, c, names, s1) && Follows(o, r, f, m1, m2, c, names) && !o.OutOfFuel?
    requires r.c.Open() && f == r.c.Terminate(Ret(r.v))
    ensures Ends(o, f, m, fuel)
  {
    hide Framed;
    GrownSelf(f);
    match o
    case Value(n, s2) =>
      ArrivedFacts(f, m1, m2, c, r.c, names, s2);
      NextTerminator(r.c, Ret(r.v), f, m2);
      GoesOne(f, m2);
      GoesOn(f, m1, m2, Step(f, m2));
      GoesOn(f, m, m1, Step(f, m2));
      EndOf(o, f, m, Step(f, m2), fuel);
    case Failed(_, _) =>
      GoesOn(f, m, m1, m2);
      EndOf(o, f, m, m2, fuel);
    case Undefined =>
  }

  /** Conversely, when the machine has stopped after k steps, that much fuel settles what the
      source does: unless that is undefined, the machine has stopped in the same way. */
  lemma StoppedAsMeant(fn: Function, args: seq<int>, k: nat)
    requires Declared(fn) && |args| == |fn.formals| && Run(Emitted(fn), Entered(fn, args), k).status != Running
    ensures var m := Run(Emitted(fn), Entered(fn, args), k);
            match Meaning(fn, args, k)
            case Value(n, s) => m.status == Returned(n) && m.out == s.out
            case Failed(code, out) => m.status == Stopped(code) && m.out == out
            case OutOfFuel => false
            case Undefined => true
  {
    var f, m := Emitted(fn), Entered(fn, args);
    EmittedPreserves(fn, args, k);
    match Meaning(fn, args, k)
    case Value(n, s) =>
      var j: nat :| Run(f, m, j).status == Returned(n) && Run(f, m, j).out == s.out;
      OneEnd(f, m, j, k);
    case Failed(code, out) =>
      var j: nat :| Run(f, m, j).status == Stopped(code) && Run(f, m, j).out == out;
      OneEnd(f, m, j, k);
    case OutOfFuel =>
    case Undefined =>
  }

  // A machine that has stopped stays as it is.
  lemma OneEnd(f: Code, m: Machine, j: nat, k: nat)
    requires Run(f, m, j).status != Running && Run(f, m, k).status != Running
    ensures Run(f, m, j) == Run(f, m, k)
  {
    if j <= k {
      RunPlus(f, m, j, k - j);
      StoppedStays(f, Run(f, m, j), k - j);
    } else {
      RunPlus(f, m, k, j - k);
      StoppedStays(f, Run(f, m, k), j - k);
    }
  }
}
