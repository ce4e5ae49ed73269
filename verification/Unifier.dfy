/** The unifier: solving constraints on a union-find, and reading the solution back. */
module Unifier {
  import opened TipTypes
  import opened UnionFind
  import opened Unification
  import opened RegularTypes
  import Substituter

  class Unifier {
    const unionFind: UnionFind
    var constraints: seq<TypeConstraint>
    // The constraints solved so far.
    ghost var solved: set<TypeConstraint>

    ghost predicate Valid() reads this, unionFind {
      unionFind.Valid() && solved <= ToSet(constraints) && Good(unionFind.f.root, solved)
    }

    constructor ()
      ensures Valid() && fresh(unionFind) && constraints == [] && solved == {}
    {
      unionFind := new UnionFind();
      constraints, solved := [], {};
      new;
      GoodAtFirst(unionFind.f.root);
    }

    constructor Seeded(constrs: seq<TypeConstraint>)
      ensures Valid() && fresh(unionFind) && constraints == constrs && solved == {}
      ensures unionFind.f.terms == set t | t in TermsOf(constrs)
    {
      unionFind := new UnionFind();
      constraints, solved := constrs, {};
      new;
      GoodAtFirst(unionFind.f.root);
      var types: seq<TipType> := [];
      for i := 0 to |constraints|
        invariant constraints == constrs && types == TermsOf(constrs[..i])
      {
        assert constrs[..i + 1][..i] == constrs[..i];
        types := types + [constraints[i].lhs, constraints[i].rhs];
        if constraints[i].lhs.IsCons() { types := types + constraints[i].lhs.args; }
        if constraints[i].rhs.IsCons() { types := types + constraints[i].rhs.args; }
      }
      assert constrs[..|constrs|] == constrs;
      unionFind.Seed(types);
    }

    method Add(cs: seq<TypeConstraint>)
      requires Valid()
      modifies this, unionFind
      ensures Valid() && constraints == old(constraints) + cs && solved == old(solved)
      ensures unionFind.f == old(unionFind.f).Insert(set t | t in TermsOf(cs))
    {
      var types: seq<TipType> := [];
      for i := 0 to |cs|
        invariant unionFind.Valid() && unionFind.f == old(unionFind.f) && solved == old(solved)
        invariant constraints == old(constraints) + cs[..i] && types == TermsOf(cs[..i])
      {
        assert cs[..i + 1][..i] == cs[..i];
        constraints := constraints + [cs[i]];
        types := types + [cs[i].lhs, cs[i].rhs];
        if cs[i].lhs.IsCons() { types := types + cs[i].lhs.args; }
        if cs[i].rhs.IsCons() { types := types + cs[i].rhs.args; }
      }
      assert cs[..|cs|] == cs;
      unionFind.Seed(types);
    }

    /** Succeeds exactly when all constraints together can be satisfied, and then leaves the
        least partition that satisfies them. */
    method Solve() returns (ok: bool)
      requires Valid()
      modifies unionFind, `solved
      ensures unionFind.Valid()
      ensures ok <==> Satisfiable(ToSet(constraints))
      ensures ok ==> Valid() && LeastSolution(unionFind.f.root, ToSet(constraints)) && solved == ToSet(constraints)
      ensures ok ==> forall s: TipType {:trigger unionFind.f.root(s)} | s.IsProperType() ::
          unionFind.f.root(s).IsProperType()
    {
      hide Good, Ready, Unified, Satisfiable, Closure, LeastSolution;
      ghost var all := ToSet(constraints);
      assert constraints[..0] == [] && solved + ToSet([]) == solved;
      for i := 0 to |constraints|
        invariant unionFind.Valid() && solved == old(solved)
        invariant Good(unionFind.f.root, solved + ToSet(constraints[..i]))
      {
        var e := constraints[i];
        ghost var f, cs := unionFind.f, solved + ToSet(constraints[..i]);
        ghost var u := Closure({e.lhs, e.rhs} + f.terms);
        UniverseFits(f, {e.lhs, e.rhs} + f.terms);
        PairReady(f.root, cs, e, u);
        ok := Unify(e.lhs, e.rhs, u, {}, cs + {e});
        if !ok {
          UnsatisfiableMore(cs + {e}, all);
          return;
        }
        GoodNext(f.root, unionFind.f.root, cs, e, u);
        assert solved + ToSet(constraints[..i + 1]) == cs + {e};
      }
      assert constraints[..|constraints|] == constraints && solved + all == all;
      solved := all;
      GoodIsLeast(unionFind.f.root, solved);
      forall s: TipType | s.IsProperType() ensures unionFind.f.root(s).IsProperType() {
        ProperRoot(unionFind.f.root, solved, s);
      }
      return true;
    }

    // Fails only if cs cannot be satisfied.
    method Unify(t1: TipType, t2: TipType,
                 ghost u: set<TipType>, ghost p: set<TypeConstraint>, ghost cs: set<TypeConstraint>) returns (ok: bool)
      requires unionFind.Valid() && Ready(unionFind.f.root, t1, t2, u, p, cs)
      modifies unionFind
      ensures unionFind.Valid()
      ensures ok ==> Unified(old(unionFind.f.root), unionFind.f.root, t1, t2, u, p, cs)
      ensures !ok ==> !Satisfiable(cs)
      decreases Roots(unionFind.f.root, u)
    {
      hide Unified, ForcedPairs, Forced, GoodUpTo, Satisfiable, Roots, Joined, Forest.Link, Forest.Valid, Closed;
      ghost var f := unionFind.f.root;
      RootIdempotent(unionFind.f);
      var rep1 := unionFind.Find(t1);
      var rep2 := unionFind.Find(t2);
      if rep1 == rep2 {
        AlreadyUnified(f, t1, t2, u, p, cs);
        return true;
      }
      if rep1.IsVar() && rep2.IsVar() {
        unionFind.QuickUnion(rep1, rep2);
        RootsJoined(f, unionFind.f.root, t1, t2);
        VarUnified(f, unionFind.f.root, t1, t2, u, p, cs);
      } else if rep1.IsVar() && rep2.IsProperType() {
        unionFind.QuickUnion(rep1, rep2);
        RootsJoined(f, unionFind.f.root, t1, t2);
        VarUnified(f, unionFind.f.root, t1, t2, u, p, cs);
      } else if rep1.IsProperType() && rep2.IsVar() {
        unionFind.QuickUnion(rep2, rep1);
        RootsJoined(f, unionFind.f.root, t2, t1);
        VarUnified(f, unionFind.f.root, t1, t2, u, p, cs);
      } else if rep1.IsCons() && rep2.IsCons() {
        if !rep1.DoMatch(rep2) {
          ClashUnsatisfiable(f, t1, t2, cs);
          return false;
        }
        unionFind.QuickUnion(rep1, rep2);
        RootsJoined(f, unionFind.f.root, t1, t2);
        ConsUnified(f, unionFind.f.root, t1, t2, u, p, cs);
        assert rep1 in u && rep2 in u;
        for i := 0 to |rep1.args|
          invariant unionFind.Valid() && Roots(unionFind.f.root, u) < Roots(f, u)
          invariant Unified(f, unionFind.f.root, t1, t2, u, p + ArgPairs(rep1, rep2, i), cs)
        {
          ghost var f1 := unionFind.f.root;
          var a1, a2 := rep1.args[i], rep2.args[i];
          ghost var p' := p + ArgPairs(rep1, rep2, i + 1);
          ArgReady(f, f1, rep1, rep2, i, t1, t2, u, p, cs);
          ok := Unify(a1, a2, u, p', cs);
          if !ok { return; }
          UnifiedNext(f, f1, unionFind.f.root, t1, t2, a1, a2, u, p + ArgPairs(rep1, rep2, i), p', cs);
          UnifiedFewer(f1, unionFind.f.root, a1, a2, u, p', cs);
        }
        assert p + ArgPairs(rep1, rep2, |rep1.args|) == p;
      } else {
        ClashUnsatisfiable(f, t1, t2, cs);
        return false;
      }
      return true;
    }

    // Where the closed type refers back to the variable, a mu binds it.
    static method BindVariable(v: TipType, closedV: TipType) returns (r: TipType)
      requires v.TipVar? && ClosedType(closedV)
      ensures var newV := AlphaOf(v.node);
              r == if closedV != newV && newV in VarsOf(closedV) then TipMu(newV, closedV) else closedV
    {
      var newV := AlphaOf(v.node);
      var freeV := VarsOf(closedV);
      if closedV != newV && newV in freeV {
        BindersFitAny(closedV, v, newV, newV);
        ClosedHasNoVar(closedV, v);
        Substituter.SubstituteNothing(closedV, v, newV);
        var substClosedV := Substituter.Substitute(closedV, v, newV);
        return TipMu(newV, substClosedV);
      }
      return closedV;
    }

    // One more variable of the arguments of t is replaced by its closed type.
    static method FillArguments(current: seq<TipType>, v: TipType, closedV: TipType, ghost f: Classes,
                                ghost visited: set<TipType>, ghost t: TipType, ghost m: map<TipType, TipType>)
      returns (temp: seq<TipType>)
      requires t.IsCons() && Plain(t) && Closes(f, visited, m) && v.TipVar? && ClosedType(closedV)
      requires |current| == |t.args|
      requires forall j {:trigger current[j]} | 0 <= j < |current| :: current[j] == Filled(t.args[j], m)
      ensures |temp| == |t.args|
      ensures forall j {:trigger temp[j]} | 0 <= j < |temp| :: temp[j] == Filled(t.args[j], Extended(m, v, closedV))
    {
      hide Closes, Filled;
      temp := [];
      ClosedHasNoVar(closedV, v);
      for j := 0 to |current|
        invariant |temp| == j
        invariant forall k {:trigger temp[k]} | 0 <= k < j :: temp[k] == Filled(t.args[k], Extended(m, v, closedV))
      {
        SubstituteFills(f, visited, t.args[j], m, v, closedV);
        var subst := Substituter.Substitute(current[j], v, closedV);
        temp := temp + [subst];
      }
    }

    /** Closes a term of a solved partition: the result denotes the same tree, has no variables
        left, and its free alphas are named after visited or unknown variables. There is no
        bound on the nesting: a variable is entered once only, and the others run out. */
    method Close(t: TipType, visited: set<TipType>, ghost vs: set<TipType>) returns (r: TipType)
      requires unionFind.Valid() && Readable(unionFind.f.root, vs) && Plain(t) && VarsWithin(t, vs)
      modifies unionFind
      ensures unionFind.Valid() && unionFind.f.root == old(unionFind.f.root)
      ensures ClosedFor(unionFind.f.root, visited, t, r)
      decreases vs - visited, if t.IsVar() then 0 else 1
    {
      hide ClosedFor, Closes, Denotes, FreeIn, Tied, Forest.Valid, Leads;
      ghost var f := unionFind.f.root;
      if t.IsVar() {
        var rep := t;
        var identical := true;
        if t !in visited {
          rep := unionFind.Find(t);
          // Pointers are compared: two terms that are equal need not be identical.
          identical :| identical ==> rep == t;
        }
        if t !in visited && !identical {
          rep := unionFind.Find(t);
          var closedV := Close(rep, visited + {t}, vs);
          ClosedIsClosed(f, visited + {t}, rep, closedV);
          r := BindVariable(t, closedV);
          VarCloses(f, visited, t, closedV, r);
        } else {
          r := AlphaOf(t.node);
          AlphaCloses(f, visited, t);
        }
      } else {
        PlainBinders(t, t);
        var copy := Substituter.Copy(t);
        var current := t.args;
        var freeV := VarsOf(t);
        ghost var m: map<TipType, TipType> := map[];
        ClosesNothing(f, visited);
        forall j | 0 <= j < |t.args| ensures Filled(t.args[j], m) == t.args[j] { FilledNothing(t.args[j]); }
        while freeV != []
          invariant unionFind.Valid() && unionFind.f.root == f
          invariant Closes(f, visited, m) && |current| == |t.args|
          invariant forall j {:trigger current[j]} | 0 <= j < |current| :: current[j] == Filled(t.args[j], m)
          invariant forall v | v in VarsOf(t) :: v in freeV || v in m
          invariant forall v | v in freeV :: v in VarsOf(t)
          decreases |freeV|
        {
          // In the order of addresses, which is any order.
          var i: nat :| i < |freeV|;
          var v := freeV[i];
          VarsArePlain(t, v);
          assert forall x | x in freeV :: x == v || x in freeV[..i] + freeV[i + 1..];
          freeV := freeV[..i] + freeV[i + 1..];
          var closedV := Close(v, visited, vs);
          ghost var m' := Extended(m, v, closedV);
          ClosedIsClosed(f, visited, v, closedV);
          ClosedHasNoVar(closedV, v);
          ExtendedCloses(f, visited, m, v, closedV);
          current := FillArguments(current, v, closedV, f, visited, t, m);
          m := m';
        }
        r := copy.(args := current);
        ConsCloses(f, visited, t, m, r);
        unionFind.Seed([r]);
      }
    }

    /** The type read back for t has, at every depth, the tree that the solved partition gives to
        t, with an alpha wherever nothing is known. */
    method Inferred(t: TipType) returns (r: TipType)
      requires Valid() && Plain(t) && forall e | e in solved :: PlainConstraint(e)
      modifies unionFind
      ensures Valid() && unionFind.f.root == old(unionFind.f.root)
      ensures ClosedType(r)
      ensures forall n: nat :: TreeOf(r, [], n) == Unfold(unionFind.f.root, t, n)
      ensures forall a: TipType | Free(a, r) :: a.TipAlpha? && unionFind.f.root(TipVar(a.node)) == TipVar(a.node)
    {
      ghost var f := unionFind.f;
      TableIsReadable(f, solved, t);
      r := Close(t, {}, VarsAmong(f.terms + {t}));
      ClosedAlone(f.root, t, r);
    }
  }
}
