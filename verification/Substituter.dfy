/** Substitution in type terms by a visitor with a stack, and what it computes. */
module Substituter {
  import opened TipTypes

  /** t with s for every occurrence of the target, binders included. On the way an alpha loses
      its context, also inside s. Without a target this is a copy. */
  function Substituted(t: TipType, target: Option<TipType>, s: TipType): TipType
    decreases target.Some?, t
  {
    match t
    case TipVar(_) => if Some(t) == target then Substituted(s, None, s) else t
    case TipAlpha(node, _, name) => if Some(t) == target then Substituted(s, None, s) else TipAlpha(node, None, name)
    case TipCons(ctor, args) =>
      TipCons(ctor, seq(|args|, i requires 0 <= i < |args| => Substituted(args[i], target, s)))
    case TipMu(v, body) => TipMu(Substituted(v, target, s), Substituted(body, target, s))
  }

  // A binder is a variable, and stays one.
  predicate BindersFit(t: TipType, target: Option<TipType>, s: TipType) {
    match t
    case TipVar(_) => true
    case TipAlpha(_, _, _) => true
    case TipCons(_, args) => forall i | 0 <= i < |args| :: BindersFit(args[i], target, s)
    case TipMu(v, body) => v.IsVar() && (Some(v) == target ==> s.IsVar()) && BindersFit(body, target, s)
  }

  predicate Occurs(v: TipType, t: TipType) {
    v == t || match t
              case TipVar(_) => false
              case TipAlpha(_, _, _) => false
              case TipCons(_, args) => exists i | 0 <= i < |args| :: Occurs(v, args[i])
              case TipMu(b, body) => Occurs(v, b) || Occurs(v, body)
  }

  // Every alpha in t is without a context.
  predicate Contextless(t: TipType) {
    match t
    case TipVar(_) => true
    case TipAlpha(_, context, _) => context == None
    case TipCons(_, args) => forall i | 0 <= i < |args| :: Contextless(args[i])
    case TipMu(v, body) => Contextless(v) && Contextless(body)
  }

  lemma {:induction false} CopyIsSame(t: TipType, s: TipType)
    requires Contextless(t)
    ensures Substituted(t, None, s) == t
  {
    match t
    case TipVar(_) =>
    case TipAlpha(_, _, _) =>
    case TipCons(_, args) =>
      forall i | 0 <= i < |args| ensures Substituted(args[i], None, s) == args[i] { CopyIsSame(args[i], s); }
    case TipMu(v, body) => CopyIsSame(v, s); CopyIsSame(body, s);
  }

  // Where the target does not occur, nothing happens.
  lemma {:induction false} SubstituteNothing(t: TipType, v: TipType, s: TipType)
    requires Contextless(t) && !Occurs(v, t)
    ensures Substituted(t, Some(v), s) == t
  {
    match t
    case TipVar(_) =>
    case TipAlpha(_, _, _) =>
    case TipCons(_, args) =>
      forall i | 0 <= i < |args| ensures Substituted(args[i], Some(v), s) == args[i] {
        SubstituteNothing(args[i], v, s);
      }
    case TipMu(b, body) => SubstituteNothing(b, v, s); SubstituteNothing(body, v, s);
  }

  // Afterwards the target is gone, unless s has it.
  lemma {:induction false} SubstituteAll(t: TipType, v: TipType, s: TipType)
    requires v.IsVar() && Contextless(t) && Contextless(s) && !Occurs(v, s)
    ensures !Occurs(v, Substituted(t, Some(v), s))
  {
    match t
    case TipVar(_) => CopyIsSame(s, s);
    case TipAlpha(_, _, _) => CopyIsSame(s, s);
    case TipCons(_, args) =>
      forall i | 0 <= i < |args| ensures !Occurs(v, Substituted(args[i], Some(v), s)) { SubstituteAll(args[i], v, s); }
    case TipMu(b, body) => SubstituteAll(b, v, s); SubstituteAll(body, v, s);
  }

  class Visitor {
    const target: Option<TipType>
    const substitution: TipType
    var visitedTypes: seq<TipType>

    constructor (target: Option<TipType>, substitution: TipType)
      ensures this.target == target && this.substitution == substitution && visitedTypes == []
    {
      this.target, this.substitution, visitedTypes := target, substitution, [];
    }

    // The visit of a term, children first, leaves one more term on the stack: its substitute.
    method Accept(t: TipType)
      requires BindersFit(t, target, substitution) && BindersFit(substitution, None, substitution)
      modifies this
      ensures visitedTypes == old(visitedTypes) + [Substituted(t, target, substitution)]
      decreases target.Some?, t
    {
      match t
      case TipVar(_) => EndVisitVar(t);
      case TipAlpha(_, _, _) => EndVisitVar(t);
      case TipCons(ctor, args) =>
        ghost var done := Substituted(t, target, substitution).args;
        for i := 0 to |args|
          invariant visitedTypes == old(visitedTypes) + done[..i]
        {
          Accept(args[i]);
        }
        EndVisitCons(t, old(visitedTypes), done);
      case TipMu(v, body) =>
        Accept(v);
        Accept(body);
        var tType := visitedTypes[|visitedTypes| - 1];
        visitedTypes := visitedTypes[..|visitedTypes| - 1];
        var vType := visitedTypes[|visitedTypes| - 1];
        visitedTypes := visitedTypes[..|visitedTypes| - 1];
        VarStaysVar(v, target, substitution);
        assert vType.IsVar();
        visitedTypes := visitedTypes + [TipMu(vType, tType)];
    }

    method EndVisitVar(element: TipType)
      requires element.IsVar() && BindersFit(substitution, None, substitution)
      modifies this
      ensures visitedTypes == old(visitedTypes) + [Substituted(element, target, substitution)]
      decreases target.Some?, element, 0
    {
      if Some(element) == target {
        var copier := new Visitor(None, substitution);
        copier.Accept(substitution);
        visitedTypes := visitedTypes + [copier.visitedTypes[|copier.visitedTypes| - 1]];
      } else if element.TipAlpha? {
        visitedTypes := visitedTypes + [TipAlpha(element.node, None, element.name)];
      } else {
        visitedTypes := visitedTypes + [element];
      }
    }

    // The arguments come off the stack in reverse.
    method EndVisitCons(element: TipType, ghost below: seq<TipType>, ghost done: seq<TipType>)
      requires element.IsCons() && visitedTypes == below + done && |done| == |element.args|
      modifies this
      ensures visitedTypes == below + [TipCons(element.ctor, done)]
    {
      var argTypes: seq<TipType> := [];
      for i := 0 to |element.args|
        invariant visitedTypes == below + done[..|done| - i]
        invariant |argTypes| == i && forall k | 0 <= k < i :: argTypes[k] == done[|done| - 1 - k]
      {
        argTypes := argTypes + [visitedTypes[|visitedTypes| - 1]];
        visitedTypes := visitedTypes[..|visitedTypes| - 1];
      }
      argTypes := seq(|argTypes|, k requires 0 <= k < |argTypes| => argTypes[|argTypes| - 1 - k]);
      assert argTypes == done;
      visitedTypes := visitedTypes + [TipCons(element.ctor, argTypes)];
    }
  }

  lemma VarStaysVar(v: TipType, target: Option<TipType>, s: TipType)
    requires v.IsVar() && (Some(v) == target ==> s.IsVar())
    ensures Substituted(v, target, s).IsVar()
  {
  }

  method Substitute(t: TipType, v: TipType, s: TipType) returns (r: TipType)
    requires BindersFit(t, Some(v), s) && BindersFit(s, None, s)
    ensures r == Substituted(t, Some(v), s)
  {
    var visitor := new Visitor(Some(v), s);
    visitor.Accept(t);
    r := visitor.visitedTypes[|visitor.visitedTypes| - 1];
  }

  method Copy(t: TipType) returns (r: TipType)
    requires BindersFit(t, None, t)
    ensures r == Substituted(t, None, t)
  {
    var copier := new Visitor(None, t);
    copier.Accept(t);
    r := copier.visitedTypes[|copier.visitedTypes| - 1];
  }
}
