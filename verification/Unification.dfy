/** The laws of unification on partitions of terms. There is no occurs check: a class may hold a
    term that has a member of the same class inside, so the solutions are regular trees. */
module Unification {
  import opened TipTypes
  import opened UnionFind

  // ----- what unification keeps -----

  // Seen with c, every proper type has a proper root that it equals or matches.
  ghost predicate Leads(c: Classes, f: Classes) {
    forall s: TipType {:trigger f(s)} | s.IsProperType() :: f(s).IsProperType() && (s == f(s) || Unfolds(c, s, f(s)))
  }

  /** The partition f is good up to the pairs in p, which are still to be unified: it will be
      closed under decomposition, with proper roots, once they are. */
  ghost predicate GoodUpTo(f: Classes, p: set<TypeConstraint>) {
    forall c: Classes {:trigger Coarser(c, f)} | Coarser(c, f) && Equates(c, p) :: Leads(c, f)
  }

  // The partition only equates what every solution equates.
  ghost predicate Forced(f: Classes, cs: set<TypeConstraint>) {
    forall c: Classes {:trigger Solution(c, cs)} | Solution(c, cs) :: Coarser(c, f)
  }

  ghost predicate ForcedPairs(p: set<TypeConstraint>, cs: set<TypeConstraint>) {
    forall c: Classes {:trigger Solution(c, cs)} | Solution(c, cs) :: Equates(c, p)
  }

  ghost predicate Idempotent(f: Classes) {
    forall t {:trigger f(f(t))} :: f(f(t)) == f(t)
  }

  ghost predicate Within(f: Classes, u: set<TipType>) {
    forall t {:trigger f(t)} | t in u :: f(t) in u
  }

  // The classes of f that meet u, each given by its root.
  ghost function Roots(f: Classes, u: set<TipType>): set<TipType> {
    set t | t in u :: f(t)
  }

  ghost function ArgPairs(r1: TipType, r2: TipType, i: nat): set<TypeConstraint>
    requires r1.IsCons() && r2.IsCons() && |r1.args| == |r2.args|
  {
    set k | i <= k < |r1.args| :: TypeConstraint(r1.args[k], r2.args[k])
  }

  lemma GoodIsSolution(f: Classes)
    requires GoodUpTo(f, {})
    ensures Decomposes(f)
  {
    assert Coarser(f, f) && Equates(f, {});
    forall s, t | f(s) == f(t) ensures Compatible(f, s, t) {
      if s.IsProperType() && t.IsProperType() {
        assert f(s).IsProperType() && (s == f(s) || Unfolds(f, s, f(s))) && (t == f(t) || Unfolds(f, t, f(t)));
      }
    }
  }

  lemma GoodUpToMore(f: Classes, p: set<TypeConstraint>, p': set<TypeConstraint>)
    requires GoodUpTo(f, p) && p <= p'
    ensures GoodUpTo(f, p')
  {
    forall c: Classes | Coarser(c, f) && Equates(c, p') ensures Leads(c, f) {
      assert Equates(c, p);
    }
  }

  // Nothing to do: the pair is in one class already.
  lemma GoodAlready(f: Classes, p: set<TypeConstraint>, e: TypeConstraint)
    requires GoodUpTo(f, p + {e}) && f(e.lhs) == f(e.rhs)
    ensures GoodUpTo(f, p)
  {
    forall c: Classes | Coarser(c, f) && Equates(c, p) ensures Leads(c, f) {
      assert c(e.lhs) == c(e.rhs);
      assert Equates(c, p + {e});
    }
  }

  lemma JoinCoarsens(f: Classes, f': Classes, t1: TipType, t2: TipType, c: Classes)
    requires Joined(f, f', t1, t2) && Idempotent(f)
    ensures Coarser(c, f') <==> Coarser(c, f) && c(t1) == c(t2)
  {
    if Coarser(c, f') {
      assert f'(t1) == f'(t2);
      forall s, t | f(s) == f(t) ensures c(s) == c(t) { assert f'(s) == f'(t); }
    }
    if Coarser(c, f) && c(t1) == c(t2) {
      forall s, t | f'(s) == f'(t) ensures c(s) == c(t) {
        assert f(s) == f(t) || (f(s) == f(t1) && f(t) == f(t2)) || (f(s) == f(t2) && f(t) == f(t1));
      }
    }
  }

  // A class without proper types may join any class.
  lemma JoinVar(f: Classes, f': Classes, t1: TipType, t2: TipType, p: set<TypeConstraint>, e: TypeConstraint)
    requires GoodUpTo(f, p + {e}) && Joined(f, f', t1, t2) && Idempotent(f) && f(t1).IsVar()
    requires e == TypeConstraint(t1, t2) || e == TypeConstraint(t2, t1)
    ensures GoodUpTo(f', p)
  {
    forall c: Classes | Coarser(c, f') && Equates(c, p) ensures Leads(c, f') {
      JoinCoarsens(f, f', t1, t2, c);
      assert Equates(c, p + {e});
      forall s: TipType | s.IsProperType() ensures f'(s).IsProperType() && (s == f'(s) || Unfolds(c, s, f'(s))) {
        assert f(s).IsProperType();
      }
    }
  }

  // Two classes with matching roots may join, if the arguments will.
  lemma JoinCons(f: Classes, f': Classes, t1: TipType, t2: TipType, p: set<TypeConstraint>)
    requires GoodUpTo(f, p + {TypeConstraint(t1, t2)}) && Joined(f, f', t1, t2) && Idempotent(f)
    requires f(t1).IsCons() && f(t2).IsCons() && f(t1).DoMatch(f(t2))
    ensures GoodUpTo(f', p + ArgPairs(f(t1), f(t2), 0))
  {
    var r1, r2 := f(t1), f(t2);
    forall c: Classes | Coarser(c, f') && Equates(c, p + ArgPairs(r1, r2, 0)) ensures Leads(c, f') {
      JoinCoarsens(f, f', t1, t2, c);
      assert Equates(c, p + {TypeConstraint(t1, t2)});
      assert Leads(c, f);
      ArgsUnfold(c, r1, r2);
      forall s: TipType | s.IsProperType() ensures f'(s).IsProperType() && (s == f'(s) || Unfolds(c, s, f'(s))) {
        assert f(s).IsProperType() && (s == f(s) || Unfolds(c, s, f(s)));
      }
    }
  }

  lemma ArgsUnfold(c: Classes, r1: TipType, r2: TipType)
    requires r1.IsCons() && r2.IsCons() && r1.DoMatch(r2)
    ensures Equates(c, ArgPairs(r1, r2, 0)) <==> Unfolds(c, r1, r2)
  {
    if Equates(c, ArgPairs(r1, r2, 0)) {
      forall i | 0 <= i < |r1.args| ensures c(r1.args[i]) == c(r2.args[i]) {
        assert TypeConstraint(r1.args[i], r2.args[i]) in ArgPairs(r1, r2, 0);
      }
    }
  }

  // Every solution decomposes the roots of two proper classes it equates.
  lemma SolutionUnfolds(c: Classes, f: Classes, cs: set<TypeConstraint>, t1: TipType, t2: TipType)
    requires Solution(c, cs) && Coarser(c, f) && Idempotent(f) && c(t1) == c(t2)
    requires f(t1) != f(t2) && f(t1).IsProperType() && f(t2).IsProperType()
    ensures Unfolds(c, f(t1), f(t2))
  {
    assert f(f(t1)) == f(t1) && f(f(t2)) == f(t2);
    assert c(f(t1)) == c(t1) && c(f(t2)) == c(t2);
    assert Compatible(c, f(t1), f(t2));
  }

  // A join takes one root away.
  lemma JoinFewer(f: Classes, f': Classes, t1: TipType, t2: TipType, u: set<TipType>)
    requires Joined(f, f', t1, t2) && Idempotent(f) && t1 in u && t2 in u && Within(f, u) && f(t1) != f(t2)
    ensures Within(f', u) && Roots(f', u) < Roots(f, u)
  {
    assert f(t1) in Roots(f, u) && f(t2) in Roots(f, u);
    forall r | r in Roots(f', u) ensures r in Roots(f, u) && r != f(t1) {
      var t :| t in u && f'(t) == r;
      assert f(t) in Roots(f, u);
    }
  }

  // ----- one call of unify -----

  /** How unify leaves the partition f' when it succeeds from f: t1 and t2 are together, nothing
      is equated that some solution of cs keeps apart, and it is good up to p. Within the
      universe u there are no new roots, which is why the recursion ends. */
  ghost predicate Unified(f: Classes, f': Classes, t1: TipType, t2: TipType,
                          u: set<TipType>, p: set<TypeConstraint>, cs: set<TypeConstraint>) {
    && GoodUpTo(f', p) && f'(t1) == f'(t2) && Forced(f', cs) && Coarser(f', f)
    && Within(f', u) && Roots(f', u) <= Roots(f, u)
  }

  // What unify is called with.
  ghost predicate Ready(f: Classes, t1: TipType, t2: TipType,
                        u: set<TipType>, p: set<TypeConstraint>, cs: set<TypeConstraint>) {
    && Closed(u) && t1 in u && t2 in u && Within(f, u)
    && GoodUpTo(f, p + {TypeConstraint(t1, t2)}) && Forced(f, cs) && ForcedPairs({TypeConstraint(t1, t2)}, cs)
  }

  lemma RootIdempotent(f: Forest)
    requires f.Valid()
    ensures Idempotent(f.root)
  {
    forall t ensures f.root(f.root(t)) == f.root(t) { assert f.Rooted(t); }
  }

  lemma JoinForced(f: Classes, f': Classes, t1: TipType, t2: TipType, cs: set<TypeConstraint>)
    requires Joined(f, f', t1, t2) && Idempotent(f) && Forced(f, cs) && ForcedPairs({TypeConstraint(t1, t2)}, cs)
    ensures Forced(f', cs) && Coarser(f', f) && f'(t1) == f'(t2)
  {
    forall c: Classes | Solution(c, cs) ensures Coarser(c, f') {
      assert Equates(c, {TypeConstraint(t1, t2)}) && TypeConstraint(t1, t2) in {TypeConstraint(t1, t2)};
      JoinCoarsens(f, f', t1, t2, c);
    }
    forall s, t | f(s) == f(t) ensures f'(s) == f'(t) {}
  }

  lemma RootsJoined(f: Classes, f': Classes, t1: TipType, t2: TipType)
    requires Joined(f, f', f(t1), f(t2)) && Idempotent(f)
    ensures Joined(f, f', t1, t2)
  {
    assert f(f(t1)) == f(t1) && f(f(t2)) == f(t2);
  }

  lemma VarUnified(f: Classes, f': Classes, t1: TipType, t2: TipType,
                   u: set<TipType>, p: set<TypeConstraint>, cs: set<TypeConstraint>)
    requires Ready(f, t1, t2, u, p, cs) && Idempotent(f) && f(t1) != f(t2)
    requires (f(t1).IsVar() && Joined(f, f', t1, t2)) || (f(t2).IsVar() && Joined(f, f', t2, t1))
    ensures Unified(f, f', t1, t2, u, p, cs)
  {
    var e := TypeConstraint(t1, t2);
    if f(t1).IsVar() && Joined(f, f', t1, t2) {
      JoinVar(f, f', t1, t2, p, e);
      JoinForced(f, f', t1, t2, cs);
      JoinFewer(f, f', t1, t2, u);
    } else {
      JoinVar(f, f', t2, t1, p, e);
      ForcedTurned(t1, t2, cs);
      JoinForced(f, f', t2, t1, cs);
      JoinFewer(f, f', t2, t1, u);
    }
  }

  lemma ForcedTurned(t1: TipType, t2: TipType, cs: set<TypeConstraint>)
    requires ForcedPairs({TypeConstraint(t1, t2)}, cs)
    ensures ForcedPairs({TypeConstraint(t2, t1)}, cs)
  {
    forall c: Classes | Solution(c, cs) ensures Equates(c, {TypeConstraint(t2, t1)}) {
      assert Equates(c, {TypeConstraint(t1, t2)}) && TypeConstraint(t1, t2) in {TypeConstraint(t1, t2)};
    }
  }

  lemma ConsUnified(f: Classes, f': Classes, t1: TipType, t2: TipType,
                    u: set<TipType>, p: set<TypeConstraint>, cs: set<TypeConstraint>)
    requires Ready(f, t1, t2, u, p, cs) && Idempotent(f) && f(t1) != f(t2) && Joined(f, f', t1, t2)
    requires f(t1).IsCons() && f(t2).IsCons() && f(t1).DoMatch(f(t2))
    ensures Unified(f, f', t1, t2, u, p + ArgPairs(f(t1), f(t2), 0), cs)
    ensures Roots(f', u) < Roots(f, u) && ForcedPairs(ArgPairs(f(t1), f(t2), 0), cs)
  {
    JoinCons(f, f', t1, t2, p);
    JoinForced(f, f', t1, t2, cs);
    JoinFewer(f, f', t1, t2, u);
    ArgsForced(f, t1, t2, cs);
  }

  lemma ArgsForced(f: Classes, t1: TipType, t2: TipType, cs: set<TypeConstraint>)
    requires Forced(f, cs) && ForcedPairs({TypeConstraint(t1, t2)}, cs) && Idempotent(f) && f(t1) != f(t2)
    requires f(t1).IsCons() && f(t2).IsCons() && f(t1).DoMatch(f(t2))
    ensures ForcedPairs(ArgPairs(f(t1), f(t2), 0), cs)
  {
    forall c: Classes | Solution(c, cs) ensures Equates(c, ArgPairs(f(t1), f(t2), 0)) {
      SolutionClash(c, f, cs, t1, t2);
      ArgsUnfold(c, f(t1), f(t2));
    }
  }

  lemma SolutionClash(c: Classes, f: Classes, cs: set<TypeConstraint>, t1: TipType, t2: TipType)
    requires Solution(c, cs) && Forced(f, cs) && ForcedPairs({TypeConstraint(t1, t2)}, cs) && Idempotent(f)
    requires f(t1) != f(t2) && f(t1).IsProperType() && f(t2).IsProperType()
    ensures Unfolds(c, f(t1), f(t2))
  {
    assert Equates(c, {TypeConstraint(t1, t2)}) && TypeConstraint(t1, t2) in {TypeConstraint(t1, t2)};
    SolutionUnfolds(c, f, cs, t1, t2);
  }

  // A clash of two roots rules out every solution.
  lemma ClashUnsatisfiable(f: Classes, t1: TipType, t2: TipType, cs: set<TypeConstraint>)
    requires Forced(f, cs) && ForcedPairs({TypeConstraint(t1, t2)}, cs) && Idempotent(f)
    requires f(t1) != f(t2) && f(t1).IsProperType() && f(t2).IsProperType()
    requires !(f(t1).IsCons() && f(t2).IsCons() && f(t1).DoMatch(f(t2)))
    ensures !Satisfiable(cs)
  {
    forall c: Classes | Solution(c, cs) ensures false {
      SolutionClash(c, f, cs, t1, t2);
    }
  }

  // The next pair of arguments is ready to be unified.
  lemma ArgReady(f0: Classes, f: Classes, r1: TipType, r2: TipType, i: nat, t1: TipType, t2: TipType,
                 u: set<TipType>, p: set<TypeConstraint>, cs: set<TypeConstraint>)
    requires r1.IsCons() && r2.IsCons() && r1.DoMatch(r2) && r1 in u && r2 in u && Closed(u) && i < |r1.args|
    requires Unified(f0, f, t1, t2, u, p + ArgPairs(r1, r2, i), cs) && ForcedPairs(ArgPairs(r1, r2, 0), cs)
    ensures Ready(f, r1.args[i], r2.args[i], u, p + ArgPairs(r1, r2, i + 1), cs)
  {
    var e := TypeConstraint(r1.args[i], r2.args[i]);
    assert p + ArgPairs(r1, r2, i) == p + ArgPairs(r1, r2, i + 1) + {e};
    forall c: Classes | Solution(c, cs) ensures Equates(c, {e}) {
      assert Equates(c, ArgPairs(r1, r2, 0)) && e in ArgPairs(r1, r2, 0);
    }
  }

  lemma UnifiedNext(f0: Classes, f: Classes, f': Classes, t1: TipType, t2: TipType, s1: TipType, s2: TipType,
                    u: set<TipType>, p: set<TypeConstraint>, p': set<TypeConstraint>, cs: set<TypeConstraint>)
    requires Unified(f0, f, t1, t2, u, p, cs) && Unified(f, f', s1, s2, u, p', cs)
    ensures Unified(f0, f', t1, t2, u, p', cs)
  {
    forall s, t | f0(s) == f0(t) ensures f'(s) == f'(t) { assert f(s) == f(t); }
    assert f'(t1) == f'(t2);
  }

  lemma AlreadyUnified(f: Classes, t1: TipType, t2: TipType,
                       u: set<TipType>, p: set<TypeConstraint>, cs: set<TypeConstraint>)
    requires Ready(f, t1, t2, u, p, cs) && f(t1) == f(t2)
    ensures Unified(f, f, t1, t2, u, p, cs)
  {
    GoodAlready(f, p, TypeConstraint(t1, t2));
  }

  // ----- all constraints together -----

  /** The partition is the least solution of cs, and its roots are in order. */
  ghost predicate Good(f: Classes, cs: set<TypeConstraint>) {
    Equates(f, cs) && GoodUpTo(f, {}) && Forced(f, cs)
  }

  lemma GoodIsLeast(f: Classes, cs: set<TypeConstraint>)
    requires Good(f, cs)
    ensures LeastSolution(f, cs) && Satisfiable(cs)
  {
    GoodIsSolution(f);
    assert Solution(f, cs);
  }

  /** A class that holds a proper type has a proper type as its root, equal to it or matching it. */
  lemma ProperRoot(f: Classes, cs: set<TypeConstraint>, s: TipType)
    requires Good(f, cs) && s.IsProperType()
    ensures f(s).IsProperType() && (s == f(s) || Unfolds(f, s, f(s)))
  {
    assert Coarser(f, f) && Equates(f, {});
  }

  // ----- no occurs check -----

  // The variable v, a pointer to v, a pointer to that, and so on.
  ghost predicate Tower(v: TipType, t: TipType) {
    t == v || (t.TipCons? && t.ctor == TipRef && |t.args| == 1 && Tower(v, t.args[0]))
  }

  /** A variable may be equated with a type it occurs in: a pointer to itself, say. */
  lemma NoOccursCheck(v: TipType)
    requires v.TipVar?
    ensures Satisfiable({TypeConstraint(v, TipCons(TipRef, [v]))})
  {
    var c: Classes := t => if Tower(v, t) then v else t;
    forall s, t | c(s) == c(t) ensures Compatible(c, s, t) {
      if s.IsProperType() && t.IsProperType() && s != t {
        assert Tower(v, s) && Tower(v, t);
        assert c(s.args[0]) == v == c(t.args[0]);
      }
    }
    var e := TypeConstraint(v, TipCons(TipRef, [v]));
    assert Tower(v, e.rhs) by { assert e.rhs.args[0] == v; }
    assert Solution(c, {e});
  }

  lemma GoodAtFirst(f: Classes)
    requires SameClasses(t => t, f)
    ensures Good(f, {})
  {
    forall c: Classes ensures Leads(c, f) {}
    forall c: Classes ensures Coarser(c, f) {}
  }

  lemma PairReady(f: Classes, cs: set<TypeConstraint>, e: TypeConstraint, u: set<TipType>)
    requires Good(f, cs) && Closed(u) && Within(f, u) && e.lhs in u && e.rhs in u
    ensures Ready(f, e.lhs, e.rhs, u, {}, cs + {e})
  {
    GoodUpToMore(f, {}, {} + {e});
    forall c: Classes | Solution(c, cs + {e}) ensures Coarser(c, f) && Equates(c, {e}) {
      FewerConstraints(c, cs, cs + {e});
      assert e in cs + {e};
    }
  }

  lemma GoodNext(f: Classes, f': Classes, cs: set<TypeConstraint>, e: TypeConstraint, u: set<TipType>)
    requires Good(f, cs) && Unified(f, f', e.lhs, e.rhs, u, {}, cs + {e})
    ensures Good(f', cs + {e})
  {
    forall d | d in cs + {e} ensures f'(d.lhs) == f'(d.rhs) { assert d in cs ==> f(d.lhs) == f(d.rhs); }
  }

  lemma UnsatisfiableMore(cs: set<TypeConstraint>, cs': set<TypeConstraint>)
    requires cs <= cs' && !Satisfiable(cs)
    ensures !Satisfiable(cs')
  {
    forall c: Classes | Solution(c, cs') ensures false { FewerConstraints(c, cs, cs'); }
  }

  // Closing the terms of the table under arguments gives a universe that find stays in.
  lemma UniverseFits(f: Forest, ts: set<TipType>)
    requires f.Valid() && f.terms <= ts
    ensures Closed(Closure(ts)) && Within(f.root, Closure(ts)) && ts <= Closure(ts)
  {
    ClosureIsClosed(ts);
    forall t | t in Closure(ts) ensures f.root(t) in Closure(ts) { assert f.Rooted(t) && f.Rooted(f.root(t)); }
  }

  ghost function ToSet(cs: seq<TypeConstraint>): set<TypeConstraint> { set e | e in cs }

  function Arguments(t: TipType): seq<TipType> { if t.IsCons() then t.args else [] }

  // The terms that constraints bring along: both sides and their direct arguments.
  function TermsOf(cs: seq<TypeConstraint>): seq<TipType> {
    if cs == [] then [] else
    var e := cs[|cs| - 1];
    TermsOf(cs[..|cs| - 1]) + [e.lhs, e.rhs] + Arguments(e.lhs) + Arguments(e.rhs)
  }

  lemma {:induction false} TermsAre(cs: seq<TypeConstraint>, t: TipType)
    ensures t in TermsOf(cs) <==> exists e | e in cs ::
      t == e.lhs || t == e.rhs || (e.lhs.TipCons? && t in e.lhs.args) || (e.rhs.TipCons? && t in e.rhs.args)
  {
    if cs != [] {
      var e := cs[|cs| - 1];
      TermsAre(cs[..|cs| - 1], t);
      assert forall d :: d in cs <==> d in cs[..|cs| - 1] || d == e;
    }
  }

  lemma UnifiedFewer(f: Classes, f': Classes, t1: TipType, t2: TipType,
                     u: set<TipType>, p: set<TypeConstraint>, cs: set<TypeConstraint>)
    requires Unified(f, f', t1, t2, u, p, cs)
    ensures Roots(f', u) <= Roots(f, u)
  {
  }
}
