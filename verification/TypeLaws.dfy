/** Which pairs of terms can be equated. */
module TypeLaws {
  import opened TipTypes
  import opened Unification

  ghost function Vars(xs: seq<nat>): seq<TipType> {
    seq(|xs|, i requires 0 <= i < |xs| => TipVar(xs[i]))
  }

  // ----- terms of one constructor over variables -----

  /** Two functions, integers, pointers, arrays or records with the same number of arguments, these
      being variables, can be equated, and then any solution equates the arguments pairwise. */
  lemma SameConstructor(ctor: Ctor, xs: seq<nat>, ys: seq<nat>)
    requires ctor == TipFunction || ctor == TipInt || ctor == TipRef || ctor == TipArray || ctor == TipRecord
    requires |xs| == |ys|
    ensures var cs := {TypeConstraint(TipCons(ctor, Vars(xs)), TipCons(ctor, Vars(ys)))};
      && Satisfiable(cs)
      && forall f: Classes, i | Solution(f, cs) && 0 <= i < |xs| :: f(TipVar(xs[i])) == f(TipVar(ys[i]))
  {
    var s, t := TipCons(ctor, Vars(xs)), TipCons(ctor, Vars(ys));
    var c: Classes := u => if u == s then t else if u.TipVar? then TipVar(0) else u;
    forall u, v | c(u) == c(v) ensures Compatible(c, u, v) {
      if u.IsProperType() && v.IsProperType() && u != v { assert {u, v} == {s, t}; }
    }
    assert Solution(c, {TypeConstraint(s, t)});
    forall f: Classes, i | Solution(f, {TypeConstraint(s, t)}) && 0 <= i < |xs|
      ensures f(TipVar(xs[i])) == f(TipVar(ys[i]))
    {
      assert TypeConstraint(s, t) in {TypeConstraint(s, t)};
      assert Compatible(f, s, t);
      assert s.args[i] == TipVar(xs[i]) && t.args[i] == TipVar(ys[i]);
    }
  }

  ghost predicate Distinct(xs: seq<nat>) { forall i, j | 0 <= i < j < |xs| :: xs[i] != xs[j] }

  ghost predicate Paired(xs: seq<nat>, ys: seq<nat>, a: nat, b: nat) {
    exists i :: 0 <= i < |xs| && i < |ys| && xs[i] == a && ys[i] == b
  }

  // The variable that a is paired with, if it is one of ys.
  ghost function Partner(xs: seq<nat>, ys: seq<nat>, a: nat): nat {
    if i :| 0 <= i < |xs| && i < |ys| && ys[i] == a then xs[i] else a
  }

  /** If the variables are distinct, the least solution equates those of each pair and no others. */
  lemma SameConstructorLeast(ctor: Ctor, xs: seq<nat>, ys: seq<nat>, f: Classes, a: nat, b: nat)
    requires ctor == TipFunction || ctor == TipInt || ctor == TipRef || ctor == TipArray || ctor == TipRecord
    requires |xs| == |ys| && Distinct(xs + ys)
    requires LeastSolution(f, {TypeConstraint(TipCons(ctor, Vars(xs)), TipCons(ctor, Vars(ys)))})
    ensures f(TipVar(a)) == f(TipVar(b)) <==> a == b || Paired(xs, ys, a, b) || Paired(xs, ys, b, a)
  {
    var s, t := TipCons(ctor, Vars(xs)), TipCons(ctor, Vars(ys));
    var cs := {TypeConstraint(s, t)};
    SameConstructor(ctor, xs, ys);
    if f(TipVar(a)) == f(TipVar(b)) {
      var c: Classes := u => if u == s then t else if u.TipVar? then TipVar(Partner(xs, ys, u.node)) else u;
      PartnersSolve(ctor, xs, ys, c);
      assert Coarser(c, f) && c(TipVar(a)) == c(TipVar(b));
      PartnerIs(xs, ys, a);
      PartnerIs(xs, ys, b);
    }
  }

  lemma DistinctParts(xs: seq<nat>, ys: seq<nat>)
    requires Distinct(xs + ys)
    ensures Distinct(xs) && Distinct(ys) && forall i, j | 0 <= i < |xs| && 0 <= j < |ys| :: xs[i] != ys[j]
  {
    var zs := xs + ys;
    forall i, j | 0 <= i < |xs| && 0 <= j < |ys| ensures xs[i] != ys[j] {
      assert zs[i] == xs[i] && zs[|xs| + j] == ys[j];
    }
    forall i, j | 0 <= i < j < |xs| ensures xs[i] != xs[j] {
      assert zs[i] == xs[i] && zs[j] == xs[j];
    }
    forall i, j | 0 <= i < j < |ys| ensures ys[i] != ys[j] {
      assert zs[|xs| + i] == ys[i] && zs[|xs| + j] == ys[j];
    }
  }

  lemma PartnerIs(xs: seq<nat>, ys: seq<nat>, a: nat)
    requires |xs| == |ys| && Distinct(xs + ys)
    ensures Paired(xs, ys, Partner(xs, ys, a), a) || (Partner(xs, ys, a) == a && a !in ys)
    ensures forall i | 0 <= i < |xs| :: Partner(xs, ys, xs[i]) == xs[i] == Partner(xs, ys, ys[i])
    ensures forall b | Paired(xs, ys, Partner(xs, ys, a), b) :: b == a || Partner(xs, ys, a) == a
  {
    DistinctParts(xs, ys);
  }

  lemma PartnersSolve(ctor: Ctor, xs: seq<nat>, ys: seq<nat>, c: Classes)
    requires ctor == TipFunction || ctor == TipInt || ctor == TipRef || ctor == TipArray || ctor == TipRecord
    requires |xs| == |ys| && Distinct(xs + ys)
    requires var s, t := TipCons(ctor, Vars(xs)), TipCons(ctor, Vars(ys));
             forall u :: c(u) == if u == s then t else if u.TipVar? then TipVar(Partner(xs, ys, u.node)) else u
    ensures Solution(c, {TypeConstraint(TipCons(ctor, Vars(xs)), TipCons(ctor, Vars(ys)))})
  {
    var s, t := TipCons(ctor, Vars(xs)), TipCons(ctor, Vars(ys));
    PartnerIs(xs, ys, 0);
    forall i | 0 <= i < |xs| ensures c(s.args[i]) == c(t.args[i]) {
      assert s.args[i] == TipVar(xs[i]) && t.args[i] == TipVar(ys[i]);
    }
    forall u, v | c(u) == c(v) ensures Compatible(c, u, v) {
      if u.IsProperType() && v.IsProperType() && u != v { assert {u, v} == {s, t}; }
    }
  }

  // ----- terms that clash -----

  // Terms of two constructors, or of one with different numbers of arguments.
  lemma OtherConstructor(s: TipType, t: TipType)
    requires s.TipCons? && t.TipCons? && (s.ctor != t.ctor || |s.args| != |t.args|)
    ensures !Satisfiable({TypeConstraint(s, t)})
  {
    OnlyCompatible(s, t);
  }

  // Booleans and absent fields only equal themselves, as far as matching goes.
  lemma UnmatchedConstructor(s: TipType, t: TipType)
    requires s.TipCons? && t.TipCons? && s != t && (s.ctor == TipBool || s.ctor == TipAbsentField)
    ensures !Satisfiable({TypeConstraint(s, t)})
  {
    OnlyCompatible(s, t);
  }

  // A mu type is neither a variable nor a constructor.
  lemma MuClashes(s: TipType, t: TipType)
    requires s.TipMu? && (t.TipMu? || t.TipCons?) && s != t
    ensures !Satisfiable({TypeConstraint(s, t)}) && !Satisfiable({TypeConstraint(t, s)})
  {
    OnlyCompatible(s, t);
    OnlyCompatible(t, s);
  }

  lemma OnlyCompatible(s: TipType, t: TipType)
    ensures Satisfiable({TypeConstraint(s, t)}) ==> exists c: Classes :: Compatible(c, s, t)
  {
    forall c: Classes | Solution(c, {TypeConstraint(s, t)}) ensures Compatible(c, s, t) {
      assert TypeConstraint(s, t) in {TypeConstraint(s, t)};
    }
  }

  // ----- variables -----

  /** A variable, or an alpha, can be equated with every term, also with one it occurs in. */
  lemma VariableTakesAll(v: TipType, t: TipType)
    requires v.TipVar? || v.TipAlpha?
    ensures Satisfiable({TypeConstraint(v, t)}) && Satisfiable({TypeConstraint(t, v)})
  {
    var c: Classes := u => if u == v then t else u;
    forall u, w | c(u) == c(w) ensures Compatible(c, u, w) {}
    assert Solution(c, {TypeConstraint(v, t)}) && Solution(c, {TypeConstraint(t, v)});
  }
}
