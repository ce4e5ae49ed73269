/** The drivers of type inference: all constraints at once, or stage by stage on one unifier. */
module TypeInference {
  import opened TipTypes
  import opened UnionFind
  import opened Unification
  import opened Unifier

  ghost function Together(stages: seq<seq<TypeConstraint>>): seq<TypeConstraint> {
    if stages == [] then [] else Together(stages[..|stages| - 1]) + stages[|stages| - 1]
  }

  lemma {:induction false} TogetherPrefix(stages: seq<seq<TypeConstraint>>, n: nat)
    requires n <= |stages|
    ensures ToSet(Together(stages[..n])) <= ToSet(Together(stages))
  {
    if n < |stages| {
      TogetherPrefix(stages[..|stages| - 1], n);
      assert stages[..|stages| - 1][..n] == stages[..n];
    } else {
      assert stages[..n] == stages;
    }
  }

  method RunMono(constraints: seq<TypeConstraint>) returns (ok: bool, unifier: Unifier)
    ensures fresh(unifier) && fresh(unifier.unionFind) && unifier.unionFind.Valid()
    ensures ok <==> Satisfiable(ToSet(constraints))
    ensures ok ==> LeastSolution(unifier.unionFind.f.root, ToSet(constraints))
  {
    unifier := new Unifier.Seeded(constraints);
    ok := unifier.Solve();
  }

  /** Solving after each stage, and once more after the rest has been added, accepts the same
      constraints and leaves the same classes as solving all of them at once: what a stage
      holds may depend on the earlier ones, and is any list of constraints here. */
  method RunPoly(stages: seq<seq<TypeConstraint>>, residual: seq<seq<TypeConstraint>>)
    returns (ok: bool, unifier: Unifier)
    ensures fresh(unifier) && fresh(unifier.unionFind) && unifier.unionFind.Valid()
    ensures ok <==> Satisfiable(ToSet(Together(stages) + Together(residual)))
    ensures ok ==> LeastSolution(unifier.unionFind.f.root, ToSet(Together(stages) + Together(residual)))
  {
    hide Satisfiable, LeastSolution, Good, TermsOf, Tied, Forest.Valid, Forest.Insert;
    unifier := new Unifier();
    assert stages[..0] == [];
    for i := 0 to |stages|
      invariant fresh(unifier) && fresh(unifier.unionFind) && unifier.Valid()
      invariant unifier.constraints == Together(stages[..i])
    {
      assert stages[..i + 1][..i] == stages[..i];
      unifier.Add(stages[i]);
      ok := unifier.Solve();
      if !ok {
        TogetherPrefix(stages, i + 1);
        UnsatisfiableMore(ToSet(unifier.constraints), ToSet(Together(stages) + Together(residual)));
        return;
      }
    }
    assert stages[..|stages|] == stages && residual[..0] == [];
    for i := 0 to |residual|
      invariant fresh(unifier) && fresh(unifier.unionFind) && unifier.Valid()
      invariant unifier.constraints == Together(stages) + Together(residual[..i])
    {
      assert residual[..i + 1][..i] == residual[..i];
      unifier.Add(residual[i]);
    }
    assert residual[..|residual|] == residual;
    ok := unifier.Solve();
  }
}
