/** Sorting functions so that callees come before their callers, by depth-first search. */
module TopologicalSort {
  type ASTFunction = nat
  type CallGraph = map<ASTFunction, set<ASTFunction>>

  function Callees(cg: CallGraph, f: ASTFunction): set<ASTFunction> {
    if f in cg then cg[f] else {}
  }

  // A witness that calls among funcs do not run in circles.
  ghost predicate Ranks(cg: CallGraph, funcs: set<ASTFunction>, rank: ASTFunction -> nat) {
    forall f, c {:trigger c in Callees(cg, f)} | f in funcs && c in Callees(cg, f) && c in funcs :: rank(c) < rank(f)
  }

  ghost predicate Acyclic(cg: CallGraph, funcs: set<ASTFunction>) {
    exists rank: ASTFunction -> nat :: Ranks(cg, funcs, rank)
  }

  ghost predicate CalleesAmong(cg: CallGraph, funcs: set<ASTFunction>, f: ASTFunction, s: seq<ASTFunction>) {
    forall c | c in Callees(cg, f) && c in funcs :: c in s
  }

  // Every callee of a function comes before it.
  ghost predicate Ordered(cg: CallGraph, funcs: set<ASTFunction>, s: seq<ASTFunction>) {
    forall j {:trigger s[j]} | 0 <= j < |s| :: CalleesAmong(cg, funcs, s[j], s[..j])
  }

  lemma OrderedPush(cg: CallGraph, funcs: set<ASTFunction>, s: seq<ASTFunction>, f: ASTFunction)
    requires Ordered(cg, funcs, s) && CalleesAmong(cg, funcs, f, s)
    ensures Ordered(cg, funcs, s + [f])
  {
    var s' := s + [f];
    forall j | 0 <= j < |s'| ensures CalleesAmong(cg, funcs, s'[j], s'[..j]) {
      assert s'[..j] == s[..j];
      if j < |s| { assert s'[j] == s[j]; } else { assert s[..j] == s; }
    }
  }

  // std::find, as an index.
  function FirstIndex(s: seq<ASTFunction>, f: ASTFunction): nat {
    if s == [] || s[0] == f then 0 else 1 + FirstIndex(s[1..], f)
  }

  lemma {:induction false} FirstIndexIs(s: seq<ASTFunction>, f: ASTFunction, n: nat)
    requires n <= |s| && f in s
    ensures FirstIndex(s, f) < |s| && s[FirstIndex(s, f)] == f
    ensures f in s[..n] ==> FirstIndex(s, f) < n
  {
    if s[0] != f {
      if n > 0 {
        assert s[..n] == [s[0]] + s[1..][..n - 1];
        FirstIndexIs(s[1..], f, n - 1);
      } else {
        FirstIndexIs(s[1..], f, 0);
      }
    }
  }

  // ----- the same, read off the call graph itself -----

  // Each function in the list that the graph has calls, of funcs, only such as are earlier in the list.
  ghost predicate CallsEarlier(cg: CallGraph, funcs: seq<ASTFunction>, s: seq<ASTFunction>) {
    forall i | 0 <= i < |s| && s[i] in cg :: forall c | c in cg[s[i]] && c in funcs :: c in s[..i]
  }

  // The called function is of a lower rank, for each call among funcs.
  ghost predicate CallsDescend(cg: CallGraph, funcs: seq<ASTFunction>, rank: ASTFunction -> nat) {
    forall f | f in funcs && f in cg :: forall c | c in cg[f] && c in funcs :: rank(c) < rank(f)
  }

  lemma OrderedOnMap(cg: CallGraph, funcs: seq<ASTFunction>, s: seq<ASTFunction>)
    ensures Ordered(cg, ToSet(funcs), s) <==> CallsEarlier(cg, funcs, s)
    ensures forall rank :: Ranks(cg, ToSet(funcs), rank) <==> CallsDescend(cg, funcs, rank)
    ensures Acyclic(cg, ToSet(funcs)) <==> exists rank: ASTFunction -> nat :: CallsDescend(cg, funcs, rank)
  {
    forall rank ensures Ranks(cg, ToSet(funcs), rank) <==> CallsDescend(cg, funcs, rank) {
      if CallsDescend(cg, funcs, rank) {
        forall f, c | f in ToSet(funcs) && c in Callees(cg, f) && c in ToSet(funcs) ensures rank(c) < rank(f) {
          assert f in cg && c in cg[f] && c in funcs;
        }
      }
      if Ranks(cg, ToSet(funcs), rank) {
        forall f, c | f in funcs && f in cg && c in cg[f] && c in funcs ensures rank(c) < rank(f) {
          assert c in Callees(cg, f);
        }
      }
    }
    if Ordered(cg, ToSet(funcs), s) {
      forall i, c | 0 <= i < |s| && s[i] in cg && c in cg[s[i]] && c in funcs ensures c in s[..i] {
        assert CalleesAmong(cg, ToSet(funcs), s[i], s[..i]) && c in Callees(cg, s[i]);
      }
    }
    if CallsEarlier(cg, funcs, s) {
      forall j | 0 <= j < |s| ensures CalleesAmong(cg, ToSet(funcs), s[j], s[..j]) {
        forall c | c in Callees(cg, s[j]) && c in ToSet(funcs) ensures c in s[..j] { assert c in cg[s[j]]; }
      }
    }
  }

  // Only acyclic calls can be put in order.
  lemma OrderedIsAcyclic(cg: CallGraph, funcs: set<ASTFunction>, s: seq<ASTFunction>)
    requires Ordered(cg, funcs, s) && forall f | f in funcs :: f in s
    ensures Acyclic(cg, funcs)
  {
    var rank: ASTFunction -> nat := (f: ASTFunction) => FirstIndex(s, f);
    forall f, c | f in funcs && c in Callees(cg, f) && c in funcs ensures rank(c) < rank(f) {
      FirstIndexIs(s, f, 0);
      assert CalleesAmong(cg, funcs, s[rank(f)], s[..rank(f)]);
      FirstIndexIs(s, c, rank(f));
    }
    assert Ranks(cg, funcs, rank);
  }

  ghost predicate Above(open: set<ASTFunction>, f: ASTFunction, rank: ASTFunction -> nat) {
    forall o | o in open :: rank(f) < rank(o)
  }

  ghost function ToSet(s: seq<ASTFunction>): set<ASTFunction> { set f | f in s }

  // Functions only go from u to s, where they are added at the end.
  ghost predicate Moves(s: seq<ASTFunction>, u: seq<ASTFunction>, s': seq<ASTFunction>, u': seq<ASTFunction>) {
    && (forall x {:trigger Count(s', x)} {:trigger Count(u', x)} ::
         Count(s', x) + Count(u', x) == Count(s, x) + Count(u, x))
    && (forall x {:trigger Count(u', x)} :: Count(u', x) <= Count(u, x))
    && |s'| + |u'| == |s| + |u| && s <= s'
  }

  ghost function Count(s: seq<ASTFunction>, x: ASTFunction): nat { multiset(s)[x] }

  lemma MovesTo(s: seq<ASTFunction>, u: seq<ASTFunction>, s': seq<ASTFunction>, u': seq<ASTFunction>)
    requires Moves(s, u, s', u')
    ensures forall x {:trigger x in u'} | x in u' :: x in u
    ensures forall x {:trigger x in u} | x in u :: x in u' || x in s'
    ensures forall x {:trigger x in s} | x in s :: x in s'
    ensures |u'| <= |u|
  {
    forall x | x in u' ensures x in u { assert Count(u', x) > 0; }
    forall x | x in u ensures x in u' || x in s' { assert Count(s', x) + Count(u', x) > 0; }
  }

  // Taking f out of u, and in the end putting it at the end of s, is a move.
  lemma MovesOne(s: seq<ASTFunction>, u: seq<ASTFunction>, i: nat, s': seq<ASTFunction>, u': seq<ASTFunction>)
    requires i < |u| && Moves(s, u[..i] + u[i + 1..], s', u')
    ensures Moves(s, u, s' + [u[i]], u')
  {
    var v := u[..i] + u[i + 1..];
    assert u == u[..i] + [u[i]] + u[i + 1..];
    forall x ensures Count(u, x) == Count(v, x) + if x == u[i] then 1 else 0 {}
    forall x ensures Count(s' + [u[i]], x) == Count(s', x) + if x == u[i] then 1 else 0 {}
  }

  lemma MovesTrans(s: seq<ASTFunction>, u: seq<ASTFunction>, s1: seq<ASTFunction>, u1: seq<ASTFunction>,
                   s2: seq<ASTFunction>, u2: seq<ASTFunction>)
    requires Moves(s, u, s1, u1) && Moves(s1, u1, s2, u2)
    ensures Moves(s, u, s2, u2)
  {
  }

  // Everything is waiting, sorted, or being visited.
  ghost predicate Covered(funcs: set<ASTFunction>, s: seq<ASTFunction>, u: seq<ASTFunction>, open: set<ASTFunction>) {
    forall x | x in funcs :: x in u || x in s || x in open
  }

  class TopologicalSort {
    var sorted: seq<ASTFunction>
    var unmarked: seq<ASTFunction>

    constructor () { sorted, unmarked := [], []; }

    /** Any call graph will do. What is visited moves from `unmarked` to `sorted`; if the calls
        among funcs descend in rank, callees arrive there first. The visits under way are `open`. */
    method TopoVisit(cg: CallGraph, f: ASTFunction,
                     ghost funcs: set<ASTFunction>, ghost open: set<ASTFunction>, ghost rank: ASTFunction -> nat)
      requires ToSet(unmarked) <= funcs && Covered(funcs, sorted, unmarked, open)
      requires Ranks(cg, funcs, rank) ==> Ordered(cg, funcs, sorted) && (f in funcs ==> Above(open, f, rank))
      modifies this
      ensures Moves(old(sorted), old(unmarked), sorted, unmarked)
      ensures f in old(unmarked) ==> f in sorted && |unmarked| < |old(unmarked)|
      ensures Ranks(cg, funcs, rank) ==> Ordered(cg, funcs, sorted)
      decreases |unmarked|
    {
      hide Moves, Ordered, Ranks;
      if f !in unmarked {
        MovesNot(sorted, unmarked);
        return;
      }
      var fPosition := FirstIndex(unmarked, f);
      FirstIndexIs(unmarked, f, 0);
      unmarked := unmarked[..fPosition] + unmarked[fPosition + 1..];
      label removed:
      MovesNot(sorted, unmarked);
      assert Covered(funcs, sorted, unmarked, open + {f});
      var callees := Callees(cg, f);
      while callees != {}
        invariant callees <= Callees(cg, f)
        invariant Moves(old(sorted), old@removed(unmarked), sorted, unmarked) && |unmarked| < |old(unmarked)|
        invariant ToSet(unmarked) <= funcs && Covered(funcs, sorted, unmarked, open + {f})
        invariant Ranks(cg, funcs, rank) ==> Ordered(cg, funcs, sorted) && SortedBut(cg, funcs, f, sorted, callees)
        decreases callees
      {
        var c :| c in callees;
        label visit:
        if Ranks(cg, funcs, rank) && c in funcs { StillAbove(cg, funcs, rank, f, c, open); }
        TopoVisit(cg, c, funcs, open + {f}, rank);
        MovesTo(old@visit(sorted), old@visit(unmarked), sorted, unmarked);
        MovesTrans(old(sorted), old@removed(unmarked), old@visit(sorted), old@visit(unmarked), sorted, unmarked);
        callees := callees - {c};
      }
      if Ranks(cg, funcs, rank) { OrderedPush(cg, funcs, sorted, f); }
      MovesOne(old(sorted), old(unmarked), fPosition, sorted, unmarked);
      sorted := sorted + [f];
    }

    // Puts every callee before its callers exactly when that is possible.
    method TopoSort(cg: CallGraph, funcs: seq<ASTFunction>)
      modifies this
      ensures multiset(sorted) == multiset(funcs)
      ensures Ordered(cg, ToSet(funcs), sorted) <==> Acyclic(cg, ToSet(funcs))
      ensures CallsEarlier(cg, funcs, sorted) <==> exists rank: ASTFunction -> nat :: CallsDescend(cg, funcs, rank)
    {
      sorted, unmarked := [], funcs;
      ghost var fs := ToSet(funcs);
      ghost var rank: ASTFunction -> nat := x => 0;
      if Acyclic(cg, fs) { rank :| Ranks(cg, fs, rank); }
      MovesNot(sorted, unmarked);
      while unmarked != []
        invariant Moves([], funcs, sorted, unmarked)
        invariant Ranks(cg, fs, rank) ==> Ordered(cg, fs, sorted)
        decreases |unmarked|
      {
        label visit:
        var f := unmarked[|unmarked| - 1];
        MovesTo([], funcs, sorted, unmarked);
        TopoVisit(cg, f, fs, {}, rank);
        MovesTrans([], funcs, old@visit(sorted), old@visit(unmarked), sorted, unmarked);
      }
      MovesTo([], funcs, sorted, unmarked);
      forall x ensures multiset(sorted)[x] == multiset(funcs)[x] {
        assert Count(sorted, x) + Count([], x) == Count([], x) + Count(funcs, x);
      }
      if Ordered(cg, fs, sorted) {
        OrderedIsAcyclic(cg, fs, sorted);
      }
      OrderedOnMap(cg, funcs, sorted);
    }
  }

  lemma MovesNot(s: seq<ASTFunction>, u: seq<ASTFunction>)
    ensures Moves(s, u, s, u)
  {
  }

  // All callees of f among funcs are in s, but for those in `rest`.
  ghost predicate SortedBut(cg: CallGraph, funcs: set<ASTFunction>, f: ASTFunction, s: seq<ASTFunction>,
                            rest: set<ASTFunction>) {
    forall c | c in Callees(cg, f) && c in funcs && c !in rest :: c in s
  }

  lemma StillAbove(cg: CallGraph, funcs: set<ASTFunction>, rank: ASTFunction -> nat, f: ASTFunction, c: ASTFunction,
                   open: set<ASTFunction>)
    requires Ranks(cg, funcs, rank) && f in funcs && c in funcs && c in Callees(cg, f) && Above(open, f, rank)
    ensures Above(open + {f}, c, rank) && c !in open + {f}
  {
  }
}
