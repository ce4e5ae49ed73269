/** The possibly infinite trees that a solved partition assigns to terms, the trees that
    closed terms with mu binders stand for, and how the two are shown to agree. */
module RegularTypes {
  import opened TipTypes
  import opened UnionFind
  import opened Unification
  import opened Substituter

  // A tree down to some depth, below which it is cut.
  datatype Tree = Cut | Leaf(node: nat) | Node(ctor: Ctor, kids: seq<Tree>)

  /** The first n levels of the tree that the partition f assigns to t: unknown if its class has
      no proper type, and otherwise the constructor of the class over the trees of its arguments. */
  ghost function Unfold(f: Classes, t: TipType, n: nat): Tree
    decreases n
  {
    if n == 0 then Cut else
    match f(t)
    case TipVar(x) => Leaf(x)
    case TipCons(ctor, args) => Node(ctor, seq(|args|, i requires 0 <= i < |args| => Unfold(f, args[i], n - 1)))
    case _ => Cut
  }

  function AlphaOf(node: nat): TipType { TipAlpha(node, None, "") }

  // The innermost of the enclosing mu types that binds a.
  ghost function Binding(env: seq<TipType>, a: TipType): (k: int)
    ensures -1 <= k < |env|
  {
    if env == [] then -1
    else if env[|env| - 1].TipMu? && env[|env| - 1].v == a then |env| - 1
    else Binding(env[..|env| - 1], a)
  }

  /** The first n levels of the tree of a closed type inside the mu types env, outermost first:
      a bound alpha stands for the mu type that binds it. */
  ghost function TreeOf(r: TipType, env: seq<TipType>, n: nat): Tree
    decreases n, |env|
  {
    if n == 0 then Cut else
    match r
    case TipVar(_) => Cut
    case TipAlpha(x, _, _) => var k := Binding(env, r); if k < 0 then Leaf(x) else TreeOf(env[k], env[..k], n)
    case TipCons(ctor, args) => Node(ctor, seq(|args|, i requires 0 <= i < |args| => TreeOf(args[i], env, n - 1)))
    case TipMu(_, body) =>
      if body.TipCons?
      then Node(body.ctor, seq(|body.args|, i requires 0 <= i < |body.args| => TreeOf(body.args[i], env + [r], n - 1)))
      else Cut
  }

  predicate Free(a: TipType, r: TipType) {
    match r
    case TipVar(_) => false
    case TipAlpha(_, _, _) => a == r
    case TipCons(_, args) => exists i | 0 <= i < |args| :: Free(a, args[i])
    case TipMu(v, body) => a != v && Free(a, body)
  }

  // Only variables and constructors.
  predicate Plain(t: TipType) {
    match t
    case TipVar(_) => true
    case TipAlpha(_, _, _) => false
    case TipCons(_, args) => forall i | 0 <= i < |args| :: Plain(args[i])
    case TipMu(_, _) => false
  }

  // No variable is left, alphas are plain names, and mu binds an alpha over a constructor.
  predicate ClosedType(r: TipType) {
    match r
    case TipVar(_) => false
    case TipAlpha(_, context, name) => context == None && name == ""
    case TipCons(_, args) => forall i | 0 <= i < |args| :: ClosedType(args[i])
    case TipMu(v, body) => v.TipAlpha? && ClosedType(v) && body.TipCons? && ClosedType(body)
  }

  // Inside env, the free alphas of r stand for the trees of the variables they are named after.
  ghost predicate Fits(f: Classes, env: seq<TipType>, r: TipType, n: nat) {
    forall a: TipType, m: nat {:trigger TreeOf(a, env, m)} | a.TipAlpha? && Free(a, r) && m <= n ::
      TreeOf(a, env, m) == Unfold(f, TipVar(a.node), m)
  }

  /** r has the tree of t, once its free alphas fit. Below a constructor they need not fit all the
      way down, which is what makes a circular definition meaningful. */
  ghost predicate Denotes(f: Classes, r: TipType, t: TipType) {
    forall env: seq<TipType>, n: nat {:trigger TreeOf(r, env, n)}
      | n > 0 && Fits(f, env, r, if r.TipAlpha? then n else n - 1) :: TreeOf(r, env, n) == Unfold(f, t, n)
  }

  lemma AlphaDenotes(f: Classes, x: nat)
    ensures Denotes(f, AlphaOf(x), TipVar(x))
  {
  }

  lemma UnfoldRoot(f: Classes, s: TipType, t: TipType, n: nat)
    requires f(s) == f(t)
    ensures Unfold(f, s, n) == Unfold(f, t, n)
  {
  }

  lemma DenotesRoot(f: Classes, r: TipType, s: TipType, t: TipType)
    requires Denotes(f, r, s) && f(s) == f(t)
    ensures Denotes(f, r, t)
  {
    forall env: seq<TipType>, n: nat | n > 0 && Fits(f, env, r, if r.TipAlpha? then n else n - 1)
      ensures TreeOf(r, env, n) == Unfold(f, t, n)
    {
      UnfoldRoot(f, s, t, n);
    }
  }

  // The tree of a constructor term is the constructor over the trees of its own arguments.
  lemma UnfoldCons(f: Classes, t: TipType, n: nat)
    requires Leads(f, f) && t.TipCons? && n > 0
    ensures Unfold(f, t, n) == Node(t.ctor, seq(|t.args|, i requires 0 <= i < |t.args| => Unfold(f, t.args[i], n - 1)))
  {
    var r := f(t);
    assert r.IsProperType() && (t == r || Unfolds(f, t, r));
    forall i | 0 <= i < |t.args| ensures Unfold(f, t.args[i], n - 1) == Unfold(f, r.args[i], n - 1) {
      UnfoldRoot(f, t.args[i], r.args[i], n - 1);
    }
  }

  lemma FitsArgument(f: Classes, env: seq<TipType>, r: TipType, i: nat, n: nat, m: nat)
    requires r.TipCons? && i < |r.args| && Fits(f, env, r, n) && m <= n
    ensures Fits(f, env, r.args[i], m)
  {
  }

  lemma ConsDenotes(f: Classes, r: TipType, t: TipType)
    requires Leads(f, f) && r.TipCons? && t.TipCons? && r.ctor == t.ctor && |r.args| == |t.args|
    requires forall i {:trigger r.args[i]} | 0 <= i < |r.args| :: Denotes(f, r.args[i], t.args[i])
    ensures Denotes(f, r, t)
  {
    forall env: seq<TipType>, n: nat | n > 0 && Fits(f, env, r, n - 1) ensures TreeOf(r, env, n) == Unfold(f, t, n) {
      UnfoldCons(f, t, n);
      forall i | 0 <= i < |r.args| ensures TreeOf(r.args[i], env, n - 1) == Unfold(f, t.args[i], n - 1) {
        var a := r.args[i];
        if n > 1 {
          FitsArgument(f, env, r, i, n - 1, if a.TipAlpha? then n - 1 else n - 2);
          assert Denotes(f, a, t.args[i]);
        }
      }
    }
  }

  // An alpha that the innermost mu type does not bind means what it meant outside.
  lemma BindingOutside(env: seq<TipType>, mu: TipType, a: TipType, n: nat)
    requires a.TipAlpha? && mu.TipMu? && mu.v != a
    ensures TreeOf(a, env + [mu], n) == TreeOf(a, env, n)
  {
    assert (env + [mu])[..|env|] == env;
    var k := Binding(env, a);
    if k >= 0 { assert (env + [mu])[..k] == env[..k]; }
  }

  lemma BindingInside(env: seq<TipType>, mu: TipType, n: nat)
    requires mu.TipMu? && mu.v.TipAlpha?
    ensures TreeOf(mu.v, env + [mu], n) == TreeOf(mu, env, n)
  {
    assert (env + [mu])[..|env|] == env;
  }

  // Tying the knot: what x stands for, named inside itself, may be bound by mu.
  lemma {:induction false} MuTree(f: Classes, x: nat, body: TipType, env: seq<TipType>, n: nat)
    requires body.TipCons? && Denotes(f, body, TipVar(x))
    requires n > 0 && Fits(f, env, TipMu(AlphaOf(x), body), n - 1)
    ensures TreeOf(TipMu(AlphaOf(x), body), env, n) == Unfold(f, TipVar(x), n)
  {
    var mu := TipMu(AlphaOf(x), body);
    forall a: TipType, m: nat | a.TipAlpha? && Free(a, body) && m <= n - 1
      ensures TreeOf(a, env + [mu], m) == Unfold(f, TipVar(a.node), m)
    {
      if a == AlphaOf(x) {
        BindingInside(env, mu, m);
        if m > 0 { MuTree(f, x, body, env, m); }
      } else {
        BindingOutside(env, mu, a, m);
        assert Free(a, mu);
      }
    }
    assert Fits(f, env + [mu], body, n - 1);
    assert TreeOf(body, env + [mu], n) == Unfold(f, TipVar(x), n);
  }

  lemma MuDenotes(f: Classes, x: nat, body: TipType)
    requires body.TipCons? && Denotes(f, body, TipVar(x))
    ensures Denotes(f, TipMu(AlphaOf(x), body), TipVar(x))
  {
    var mu := TipMu(AlphaOf(x), body);
    forall env: seq<TipType>, n: nat | n > 0 && Fits(f, env, mu, n - 1)
      ensures TreeOf(mu, env, n) == Unfold(f, TipVar(x), n)
    {
      MuTree(f, x, body, env, n);
    }
  }

  // ----- filling in closed types for the variables of a term -----

  function VarsOf(t: TipType): seq<TipType>
    decreases t, 0
  {
    match t
    case TipVar(_) => [t]
    case TipAlpha(node, _, name) => [TipAlpha(node, None, name)]
    case TipCons(_, args) => VarsOfAll(args)
    case TipMu(v, body) => VarsOf(v) + VarsOf(body)
  }

  function VarsOfAll(ts: seq<TipType>): seq<TipType>
    decreases ts, 0
  {
    if ts == [] then [] else VarsOf(ts[0]) + VarsOfAll(ts[1..])
  }

  lemma {:induction false} VarsOfOne(ts: seq<TipType>, i: nat)
    requires i < |ts|
    ensures forall v | v in VarsOf(ts[i]) :: v in VarsOfAll(ts)
  {
    if i > 0 {
      assert ts[1..][i - 1] == ts[i];
      VarsOfOne(ts[1..], i - 1);
    }
  }

  lemma {:induction false} VarsArePlain(t: TipType, v: TipType)
    requires Plain(t) && v in VarsOf(t)
    ensures v.TipVar?
    decreases t, 0
  {
    if t.TipCons? { VarsOfAllPlain(t.args, v); }
  }

  lemma {:induction false} VarsOfAllPlain(ts: seq<TipType>, v: TipType)
    requires (forall i | 0 <= i < |ts| :: Plain(ts[i])) && v in VarsOfAll(ts)
    ensures v.TipVar?
    decreases ts, 0
  {
    if v in VarsOf(ts[0]) {
      VarsArePlain(ts[0], v);
    } else {
      assert forall i | 0 <= i < |ts[1..]| :: ts[1..][i] == ts[i + 1];
      VarsOfAllPlain(ts[1..], v);
    }
  }

  // The free alphas are among the variables that a visit of the type collects.
  lemma {:induction false} FreeIsCollected(a: TipType, r: TipType)
    requires ClosedType(r) && Free(a, r)
    ensures a in VarsOf(r)
  {
    match r
    case TipAlpha(_, _, _) =>
    case TipCons(_, args) =>
      var i :| 0 <= i < |args| && Free(a, args[i]);
      FreeIsCollected(a, args[i]);
      VarsOfOne(args, i);
    case TipMu(_, body) => FreeIsCollected(a, body);
  }

  ghost function Filled(t: TipType, m: map<TipType, TipType>): TipType {
    if t in m then m[t] else
    match t
    case TipCons(ctor, args) => TipCons(ctor, seq(|args|, i requires 0 <= i < |args| => Filled(args[i], m)))
    case _ => t
  }

  // A map from variables to closed types that denote them, with free alphas as `visited` permits.
  ghost predicate Closes(f: Classes, visited: set<TipType>, m: map<TipType, TipType>) {
    forall v {:trigger m[v]} | v in m ::
        v.TipVar? && ClosedType(m[v]) && Denotes(f, m[v], v) && FreeIn(m[v], f, visited)
  }

  // Each free alpha is named after a visited variable, or after one that is unknown.
  ghost predicate FreeIn(r: TipType, f: Classes, visited: set<TipType>) {
    forall a: TipType {:trigger Free(a, r)} | Free(a, r) ::
      a.TipAlpha? && (TipVar(a.node) in visited || f(TipVar(a.node)) == TipVar(a.node))
  }

  lemma {:induction false} FilledCloses(f: Classes, visited: set<TipType>, t: TipType, m: map<TipType, TipType>)
    requires Leads(f, f) && Plain(t) && Closes(f, visited, m) && forall v | v in VarsOf(t) :: v in m
    ensures ClosedType(Filled(t, m)) && Denotes(f, Filled(t, m), t) && FreeIn(Filled(t, m), f, visited)
  {
    if t.TipVar? {
      assert t in VarsOf(t);
    } else {
      var r := Filled(t, m);
      forall i | 0 <= i < |t.args|
        ensures ClosedType(r.args[i]) && Denotes(f, r.args[i], t.args[i]) && FreeIn(r.args[i], f, visited)
      {
        VarsOfOne(t.args, i);
        FilledCloses(f, visited, t.args[i], m);
      }
      ConsDenotes(f, r, t);
    }
  }

  lemma {:induction false} ClosedHasNoVar(r: TipType, v: TipType)
    requires ClosedType(r) && v.TipVar?
    ensures Contextless(r) && !Occurs(v, r) && BindersFit(r, None, r)
  {
    match r
    case TipAlpha(_, _, _) =>
    case TipCons(_, args) =>
      forall i | 0 <= i < |args| ensures Contextless(args[i]) && !Occurs(v, args[i]) && BindersFit(args[i], None, r) {
        ClosedHasNoVar(args[i], v);
        BindersFitAny(args[i], v, args[i], r);
      }
    case TipMu(b, body) =>
      ClosedHasNoVar(b, v);
      ClosedHasNoVar(body, v);
      BindersFitAny(body, v, body, r);
  }

  lemma {:induction false} BindersFitAny(r: TipType, v: TipType, s: TipType, s': TipType)
    requires ClosedType(r) && v.TipVar?
    ensures BindersFit(r, Some(v), s) && BindersFit(r, None, s')
  {
    match r
    case TipAlpha(_, _, _) =>
    case TipCons(_, args) =>
      forall i | 0 <= i < |args| ensures BindersFit(args[i], Some(v), s) && BindersFit(args[i], None, s') {
        BindersFitAny(args[i], v, s, s');
      }
    case TipMu(b, body) => BindersFitAny(body, v, s, s');
  }

  /** Substituting the closed types one variable after the other fills them in: they hold no
      variables, so none of them is touched again. */
  lemma {:induction false} SubstituteFills(f: Classes, visited: set<TipType>, t: TipType, m: map<TipType, TipType>,
                                           v: TipType, s: TipType)
    requires Plain(t) && Closes(f, visited, m) && v.TipVar? && ClosedType(s)
    ensures BindersFit(Filled(t, m), Some(v), s)
    ensures Substituted(Filled(t, m), Some(v), s) == Filled(t, if v in m then m else m[v := s])
  {
    if t.TipVar? {
      if t in m {
        ClosedHasNoVar(m[t], v);
        BindersFitAny(m[t], v, s, s);
        SubstituteNothing(m[t], v, s);
      } else {
        ClosedHasNoVar(s, v);
        CopyIsSame(s, s);
      }
    } else {
      assert t !in m;
      forall i | 0 <= i < |t.args|
        ensures BindersFit(Filled(t.args[i], m), Some(v), s)
        ensures Substituted(Filled(t.args[i], m), Some(v), s) == Filled(t.args[i], if v in m then m else m[v := s])
      {
        SubstituteFills(f, visited, t.args[i], m, v, s);
      }
    }
  }

  // ----- plain constraints keep to plain roots -----

  predicate PlainConstraint(e: TypeConstraint) { Plain(e.lhs) && Plain(e.rhs) }

  ghost predicate PlainRoots(f: Classes) {
    forall t {:trigger f(t)} | Plain(t) :: Plain(f(t))
  }

  // The partition f among plain terms, with every other term alone.
  ghost function PlainPart(f: Classes): Classes {
    (t: TipType) => if Plain(t) then TipCons(TipRef, [f(t)]) else TipCons(TipArray, [t])
  }

  lemma PlainPartSolves(f: Classes, cs: set<TypeConstraint>)
    requires Solution(f, cs) && forall e | e in cs :: PlainConstraint(e)
    ensures Solution(PlainPart(f), cs)
  {
    var c := PlainPart(f);
    forall e | e in cs ensures c(e.lhs) == c(e.rhs) { assert f(e.lhs) == f(e.rhs) && PlainConstraint(e); }
    forall s, t | c(s) == c(t) ensures Compatible(c, s, t) {
      if Plain(s) {
        assert [f(s)][0] == [f(t)][0];
        assert Compatible(f, s, t);
      } else {
        assert [s][0] == [t][0];
      }
    }
  }

  lemma PlainRootsOf(f: Classes, cs: set<TypeConstraint>)
    requires LeastSolution(f, cs) && Idempotent(f) && forall e | e in cs :: PlainConstraint(e)
    ensures PlainRoots(f)
  {
    var c := PlainPart(f);
    PlainPartSolves(f, cs);
    assert Coarser(c, f);
    forall t | Plain(t) ensures Plain(f(t)) {
      assert f(f(t)) == f(t);
      assert c(f(t)) == c(t);
    }
  }

  // ----- the steps of closing -----

  ghost predicate VarsWithin(t: TipType, vs: set<TipType>) {
    forall v {:trigger v in vs} | v in VarsOf(t) :: v in vs
  }

  // A partition that can be read back: solved, plain, and with no variables but vs about.
  ghost predicate Readable(f: Classes, vs: set<TipType>) {
    Leads(f, f) && Idempotent(f) && PlainRoots(f) && forall v {:trigger f(v)} | v in vs :: VarsWithin(f(v), vs)
  }

  // What closing t under `visited` has to deliver.
  ghost predicate ClosedFor(f: Classes, visited: set<TipType>, t: TipType, r: TipType) {
    && ClosedType(r) && Denotes(f, r, t) && FreeIn(r, f, visited)
    && (t.IsCons() ==> r.IsCons())
    && (t.TipVar? && f(t) == t ==> r == AlphaOf(t.node))
  }

  lemma AlphaCloses(f: Classes, visited: set<TipType>, t: TipType)
    requires t.TipVar? && (t in visited || f(t) == t)
    ensures ClosedFor(f, visited, t, AlphaOf(t.node))
  {
    AlphaDenotes(f, t.node);
  }

  lemma {:induction false} FreeIsClosed(a: TipType, r: TipType)
    requires ClosedType(r) && Free(a, r)
    ensures a.TipAlpha? && a == AlphaOf(a.node)
  {
    match r
    case TipAlpha(_, _, _) =>
    case TipCons(_, args) =>
      var i :| 0 <= i < |args| && Free(a, args[i]);
      FreeIsClosed(a, args[i]);
    case TipMu(_, body) => FreeIsClosed(a, body);
  }

  // A variable is closed by closing its root, under a mu binder if the variable comes back in it.
  lemma VarCloses(f: Classes, visited: set<TipType>, t: TipType, closedV: TipType, r: TipType)
    requires t.TipVar? && Idempotent(f) && Plain(f(t)) && ClosedFor(f, visited + {t}, f(t), closedV)
    requires var newV := AlphaOf(t.node);
             r == if closedV != newV && newV in VarsOf(closedV) then TipMu(newV, closedV) else closedV
    ensures ClosedFor(f, visited, t, r)
  {
    var newV, rep := AlphaOf(t.node), f(t);
    assert f(rep) == rep;
    DenotesRoot(f, closedV, rep, t);
    if r != closedV { MuDenotes(f, t.node, closedV); }
    forall a: TipType | Free(a, r)
      ensures a.TipAlpha? && (TipVar(a.node) in visited || f(TipVar(a.node)) == TipVar(a.node))
    {
      assert Free(a, closedV);
      FreeIsClosed(a, closedV);
      if a == newV { FreeIsCollected(a, closedV); }
    }
  }

  lemma {:induction false} PlainBinders(t: TipType, s: TipType)
    requires Plain(t)
    ensures BindersFit(t, None, s)
  {
    if t.TipCons? {
      forall i | 0 <= i < |t.args| ensures BindersFit(t.args[i], None, s) { PlainBinders(t.args[i], s); }
    }
  }

  ghost function Extended(m: map<TipType, TipType>, v: TipType, s: TipType): map<TipType, TipType> {
    if v in m then m else m[v := s]
  }

  lemma ClosesNothing(f: Classes, visited: set<TipType>)
    ensures Closes(f, visited, map[])
  {
  }

  lemma {:induction false} FilledNothing(t: TipType)
    ensures Filled(t, map[]) == t
  {
    if t.TipCons? {
      forall i | 0 <= i < |t.args| ensures Filled(t.args[i], map[]) == t.args[i] { FilledNothing(t.args[i]); }
    }
  }

  lemma ExtendedCloses(f: Classes, visited: set<TipType>, m: map<TipType, TipType>, v: TipType, s: TipType)
    requires Closes(f, visited, m) && v.TipVar? && ClosedFor(f, visited, v, s)
    ensures Closes(f, visited, Extended(m, v, s))
  {
  }

  lemma ConsCloses(f: Classes, visited: set<TipType>, t: TipType, m: map<TipType, TipType>, r: TipType)
    requires Leads(f, f) && Plain(t) && t.TipCons? && Closes(f, visited, m) && forall v | v in VarsOf(t) :: v in m
    requires r.TipCons? && r.ctor == t.ctor && |r.args| == |t.args|
    requires forall i {:trigger r.args[i]} | 0 <= i < |r.args| :: r.args[i] == Filled(t.args[i], m)
    ensures ClosedFor(f, visited, t, r)
  {
    FilledCloses(f, visited, t, m);
    assert t !in m;
    assert r.args == Filled(t, m).args;
  }

  // The variables of the terms in a table.
  ghost function VarsAmong(ts: set<TipType>): set<TipType> {
    set t, v | t in ts && v in VarsOf(t) :: v
  }

  lemma {:induction false} VarOfVar(t: TipType, v: TipType)
    requires v in VarsOf(t)
    ensures VarsOf(v) == [v]
    decreases t, 0
  {
    match t
    case TipVar(_) =>
    case TipAlpha(_, _, _) =>
    case TipCons(_, args) => VarOfVars(args, v);
    case TipMu(b, body) => if v in VarsOf(b) { VarOfVar(b, v); } else { VarOfVar(body, v); }
  }

  lemma {:induction false} VarOfVars(ts: seq<TipType>, v: TipType)
    requires v in VarsOfAll(ts)
    ensures VarsOf(v) == [v]
    decreases ts, 0
  {
    if v in VarsOf(ts[0]) { VarOfVar(ts[0], v); } else { VarOfVars(ts[1..], v); }
  }

  lemma TableIsReadable(f: Forest, cs: set<TypeConstraint>, t: TipType)
    requires f.Valid() && Good(f.root, cs) && forall e | e in cs :: PlainConstraint(e)
    ensures Readable(f.root, VarsAmong(f.terms + {t})) && VarsWithin(t, VarsAmong(f.terms + {t}))
  {
    var vs := VarsAmong(f.terms + {t});
    RootIdempotent(f);
    GoodIsLeast(f.root, cs);
    PlainRootsOf(f.root, cs);
    assert Coarser(f.root, f.root) && Equates(f.root, {});
    forall v, x | v in vs && x in VarsOf(f.root(v)) ensures x in vs {
      assert f.Rooted(v);
      var s :| s in f.terms + {t} && v in VarsOf(s);
      VarOfVar(s, v);
    }
  }

  lemma ClosedIsClosed(f: Classes, visited: set<TipType>, t: TipType, r: TipType)
    requires ClosedFor(f, visited, t, r)
    ensures ClosedType(r)
  {
  }

  // With nothing visited, a closed type denotes its tree on its own.
  lemma ClosedAlone(f: Classes, t: TipType, r: TipType)
    requires ClosedFor(f, {}, t, r)
    ensures ClosedType(r)
    ensures forall n: nat :: TreeOf(r, [], n) == Unfold(f, t, n)
    ensures forall a: TipType | Free(a, r) :: a.TipAlpha? && f(TipVar(a.node)) == TipVar(a.node)
  {
    forall n: nat ensures TreeOf(r, [], n) == Unfold(f, t, n) {
      if n > 0 {
        forall a: TipType, m: nat | a.TipAlpha? && Free(a, r) ensures TreeOf(a, [], m) == Unfold(f, TipVar(a.node), m) {
          assert f(TipVar(a.node)) == TipVar(a.node);
        }
        assert Fits(f, [], r, if r.TipAlpha? then n else n - 1);
      }
    }
  }
}
