/** Type terms, compared by structure, and equivalences on them. */
module TipTypes {

  datatype Ctor = TipFunction | TipInt | TipBool | TipRef | TipArray | TipRecord | TipAbsentField

  datatype Option<T> = None | Some(value: T)

  /** A type term. The arguments of a function are its parameters and then its result. All
      records range over one list of field names, so a record is its field types in order. */
  datatype TipType =
    | TipVar(node: nat)
    | TipAlpha(node: nat, context: Option<nat>, name: string)
    | TipCons(ctor: Ctor, args: seq<TipType>)
    | TipMu(v: TipType, t: TipType)
  {
    predicate IsVar() { TipVar? || TipAlpha? }
    predicate IsProperType() { !IsVar() }
    predicate IsCons() { TipCons? }

    // Same constructor and arity; two booleans or two absent fields do not "match".
    predicate DoMatch(other: TipType)
      requires IsCons() && other.IsCons()
    {
      ctor == other.ctor && ctor !in {TipBool, TipAbsentField} && |args| == |other.args|
    }
  }

  datatype TypeConstraint = TypeConstraint(lhs: TipType, rhs: TipType)

  /** An equivalence on terms is given by the function that maps a term to (a name for) its
      class: two terms are equivalent when it maps them to the same. */
  type Classes = TipType -> TipType

  // What one class may hold: equal proper types, or matching constructors with equivalent arguments.
  ghost predicate Compatible(c: Classes, s: TipType, t: TipType) {
    s.IsProperType() && t.IsProperType() ==> s == t || Unfolds(c, s, t)
  }

  ghost predicate Unfolds(c: Classes, s: TipType, t: TipType) {
    s.IsCons() && t.IsCons() && s.DoMatch(t) && forall i | 0 <= i < |s.args| :: c(s.args[i]) == c(t.args[i])
  }

  ghost predicate Decomposes(c: Classes) {
    forall s, t {:trigger Compatible(c, s, t)} :: c(s) == c(t) ==> Compatible(c, s, t)
  }

  ghost predicate Equates(c: Classes, cs: set<TypeConstraint>) {
    forall e {:trigger e in cs} | e in cs :: c(e.lhs) == c(e.rhs)
  }

  // A clash-free equivalence, closed under decomposition, that holds every constraint.
  ghost predicate Solution(c: Classes, cs: set<TypeConstraint>) {
    Equates(c, cs) && Decomposes(c)
  }

  ghost predicate Satisfiable(cs: set<TypeConstraint>) {
    exists c: Classes :: Solution(c, cs)
  }

  // Whatever f equates, c equates.
  ghost predicate Coarser(c: Classes, f: Classes) {
    forall s, t {:trigger f(s), f(t)} :: f(s) == f(t) ==> c(s) == c(t)
  }

  ghost predicate LeastSolution(f: Classes, cs: set<TypeConstraint>) {
    Solution(f, cs) && forall c: Classes {:trigger Solution(c, cs)} | Solution(c, cs) :: Coarser(c, f)
  }

  // However the constraints were solved, the same terms are equivalent in the end.
  lemma LeastIsUnique(f: Classes, f': Classes, cs: set<TypeConstraint>, s: TipType, t: TipType)
    requires LeastSolution(f, cs) && LeastSolution(f', cs)
    ensures f(s) == f(t) <==> f'(s) == f'(t)
  {
    assert Solution(f, cs) && Solution(f', cs);
    assert Coarser(f, f') && Coarser(f', f);
  }

  lemma FewerConstraints(c: Classes, cs: set<TypeConstraint>, cs': set<TypeConstraint>)
    requires cs <= cs' && Solution(c, cs')
    ensures Solution(c, cs)
  {
  }

  // ----- finite universes -----

  ghost function Subterms(t: TipType): set<TipType>
    decreases t, 0
  {
    {t} + if t.TipCons? then SubtermsOf(t.args) else {}
  }

  ghost function SubtermsOf(ts: seq<TipType>): set<TipType>
    decreases ts, 0
  {
    if ts == [] then {} else Subterms(ts[0]) + SubtermsOf(ts[1..])
  }

  // Holds the arguments of each of its constructor terms.
  ghost predicate Closed(u: set<TipType>) {
    forall t, i {:trigger t.args[i]} | t in u && t.TipCons? && 0 <= i < |t.args| :: t.args[i] in u
  }

  lemma {:induction false} SubtermsOfHas(ts: seq<TipType>, i: nat)
    requires i < |ts|
    ensures Subterms(ts[i]) <= SubtermsOf(ts)
  {
    if i > 0 {
      assert ts[1..][i - 1] == ts[i];
      SubtermsOfHas(ts[1..], i - 1);
    }
  }

  lemma {:induction false} SubtermsClosed(t: TipType)
    ensures Closed(Subterms(t))
    decreases t, 0
  {
    if t.TipCons? {
      SubtermsOfClosed(t.args);
      forall s, i | s in Subterms(t) && s.TipCons? && 0 <= i < |s.args| ensures s.args[i] in Subterms(t) {
        if s == t { SubtermsOfHas(t.args, i); assert t.args[i] in Subterms(t.args[i]); }
      }
    }
  }

  lemma {:induction false} SubtermsOfClosed(ts: seq<TipType>)
    ensures Closed(SubtermsOf(ts))
    decreases ts, 0
  {
    if ts != [] {
      SubtermsClosed(ts[0]);
      SubtermsOfClosed(ts[1..]);
    }
  }

  ghost function Closure(ts: set<TipType>): set<TipType> {
    set t, s | t in ts && s in Subterms(t) :: s
  }

  lemma ClosureIsClosed(ts: set<TipType>)
    ensures Closed(Closure(ts)) && ts <= Closure(ts)
  {
    forall t | t in ts ensures t in Closure(ts) { assert t in Subterms(t); }
    forall s, i | s in Closure(ts) && s.TipCons? && 0 <= i < |s.args| ensures s.args[i] in Closure(ts) {
      var t :| t in ts && s in Subterms(t);
      SubtermsClosed(t);
      assert s.args[i] in Subterms(t);
    }
  }
}
