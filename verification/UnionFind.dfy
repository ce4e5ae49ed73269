/** The union-find over type terms: a table of edges to parents, keyed by structural equality. */
module UnionFind {
  import opened TipTypes

  datatype Edge = Edge(first: TipType, second: TipType)

  /** What the table means: the terms in it, each term's parent and the root it leads to, and
      a rank that goes down on the way. A term that is not in the table is alone, so `root`
      maps any two terms to the same just when they are in one class. */
  datatype Forest = Forest(terms: set<TipType>, parent: TipType -> TipType, root: Classes, rank: TipType -> nat) {

    // A term is its own parent just when it is the root; otherwise its parent is nearer to the root.
    ghost predicate Rooted(t: TipType) {
      && root(root(t)) == root(t) && parent(root(t)) == root(t)
      && (if parent(t) == t then root(t) == t else root(parent(t)) == root(t) && rank(parent(t)) < rank(t))
      && (if t in terms then parent(t) in terms && root(t) in terms else parent(t) == t)
    }

    ghost predicate Valid() {
      forall t {:trigger Rooted(t)} :: Rooted(t)
    }

    ghost function Insert(ts: set<TipType>): Forest { this.(terms := terms + ts) }

    // The root r1 gets r2 for a parent: everything below r1 goes below r2.
    ghost function Link(r1: TipType, r2: TipType): Forest {
      Forest(terms,
             (t: TipType) => if t == r1 then r2 else parent(t),
             (t: TipType) => if root(t) == r1 then r2 else root(t),
             (t: TipType) => if root(t) == r1 then rank(t) + rank(r2) + 1 else rank(t))
    }
  }

  ghost predicate SameClasses(c: Classes, c': Classes) {
    forall t {:trigger c'(t)} {:trigger c(t)} :: c'(t) == c(t)
  }

  // The class of t1 has joined that of t2, under the root of the latter; no other class has changed.
  ghost predicate Joined(c: Classes, c': Classes, t1: TipType, t2: TipType) {
    forall t {:trigger c'(t)} :: c'(t) == if c(t) == c(t1) then c(t2) else c(t)
  }

  lemma InsertKeeps(f: Forest, t: TipType)
    requires f.Valid()
    ensures f.Insert({t}).Valid()
  {
    var f' := f.Insert({t});
    forall s ensures f'.Rooted(s) { assert f.Rooted(s); }
  }

  lemma InsertKnown(f: Forest, ts: set<TipType>)
    requires ts <= f.terms
    ensures f.Insert(ts) == f
  {
    assert f.terms + ts == f.terms;
  }

  lemma LinkJoins(f: Forest, t1: TipType, t2: TipType)
    ensures Joined(f.root, f.Link(f.root(t1), f.root(t2)).root, t1, t2)
  {
    var c, c' := f.root, f.Link(f.root(t1), f.root(t2)).root;
    forall t ensures c'(t) == if c(t) == c(t1) then c(t2) else c(t) {}
  }

  lemma LinkKeeps(f: Forest, t1: TipType, t2: TipType)
    requires f.Valid() && t1 in f.terms && t2 in f.terms
    ensures f.Link(f.root(t1), f.root(t2)).Valid()
  {
    var r1, r2 := f.root(t1), f.root(t2);
    var f' := f.Link(r1, r2);
    assert f.Rooted(t1) && f.Rooted(t2) && f.Rooted(r1) && f.Rooted(r2);
    forall t ensures f'.Rooted(t) { assert f.Rooted(t); }
  }

  class UnionFind {
    // In the order of addresses, which is no order of the terms.
    var edges: seq<Edge>
    ghost var f: Forest

    ghost predicate Valid() reads this {
      Tied(edges, f.terms, f.parent) && f.Valid()
    }

    constructor ()
      ensures Valid() && f.terms == {} && SameClasses(f.root, t => t)
    {
      edges, f := [], Forest({}, t => t, t => t, t => 0);
    }

    method Seed(seed: seq<TipType>)
      requires Valid()
      modifies this
      ensures Valid() && f == old(f).Insert(set t | t in seed)
    {
      for i := 0 to |seed|
        invariant Valid() && f == old(f).Insert(set t | t in seed[..i])
      {
        var _ := SmartInsert(seed[i]);
        assert seed[..i + 1] == seed[..i] + [seed[i]];
      }
      assert seed[..|seed|] == seed;
    }

    // The parent of t, if t is in the table.
    method Lookup(t: TipType) returns (r: Option<TipType>)
      requires Valid()
      ensures r == if t in f.terms then Some(f.parent(t)) else None
    {
      for i := 0 to |edges|
        invariant forall j | 0 <= j < i :: edges[j].first != t
      {
        if t == edges[i].first {
          return Some(edges[i].second);
        }
      }
      return None;
    }

    // Note that for a term already in the table the answer is its parent.
    method SmartInsert(t: TipType) returns (r: TipType)
      requires Valid()
      modifies this
      ensures Valid() && f == old(f).Insert({t})
      ensures r == f.parent(t)
    {
      InsertKeeps(f, t);
      var p := Lookup(t);
      if p != None {
        assert f.Rooted(t);
        var q := Lookup(t);
        return q.value;
      }
      var at: nat :| at <= |edges|;
      InsertTied(edges, f.terms, f.parent, at, Edge(t, t));
      edges, f := edges[..at] + [Edge(t, t)] + edges[at..], f.Insert({t});
      return t;
    }

    method GetParent(t: TipType) returns (r: TipType)
      requires Valid()
      modifies this
      ensures Valid() && f == old(f).Insert({t})
      ensures r == f.parent(t)
    {
      var p := Lookup(t);
      if p != None { return p.value; }
      r := SmartInsert(t);
    }

    method Find(t: TipType) returns (r: TipType)
      requires Valid()
      modifies this
      ensures Valid() && f == old(f).Insert({t})
      ensures r == f.root(t) == f.root(r) && r in f.terms
    {
      var p := SmartInsert(t);
      assert f.Rooted(t);
      r := p;
      label start:
      InsertKnown(f, {r});
      var q := GetParent(r);
      while q != r
        invariant Valid() && f == old@start(f) && r in f.terms && q == f.parent(r) && f.root(r) == f.root(t)
        decreases f.rank(r)
      {
        assert f.Rooted(r);
        InsertKnown(f, {r});
        r := GetParent(r);
        InsertKnown(f, {r});
        q := GetParent(r);
      }
      assert f.Rooted(r);
    }

    // The edge that starts in the root r1 is replaced by one from r1 to r2.
    method Relink(r1: TipType, r2: TipType)
      requires Valid() && r1 in f.terms && f.Link(r1, r2).Valid()
      modifies this
      ensures Valid() && f == old(f).Link(r1, r2)
    {
      for i := 0 to |edges|
        invariant edges == old(edges) && f == old(f)
        invariant forall j | 0 <= j < i :: edges[j].first != r1
      {
        if r1 == edges[i].first {
          var rest := edges[..i] + edges[i + 1..];
          var at: nat :| at <= |rest|;
          ReplaceTied(edges, f, i, at, r2);
          edges, f := rest[..at] + [Edge(r1, r2)] + rest[at..], f.Link(r1, r2);
          return;
        }
      }
      assert false;
    }

    method QuickUnion(t1: TipType, t2: TipType)
      requires Valid()
      modifies this
      ensures Valid() && f == old(f).Insert({t1, t2}).Link(old(f).root(t1), old(f).root(t2))
      ensures Joined(old(f).root, f.root, t1, t2)
    {
      hide Tied;
      var p1 := SmartInsert(t1);
      assert f.Rooted(t1);
      var p2 := SmartInsert(t2);
      assert f.Rooted(t2);
      InsertKnown(f, {p1});
      var r1 := Find(p1);
      InsertKnown(f, {p2});
      var r2 := Find(p2);
      assert old(f).terms + {t1} + {t2} == old(f).terms + {t1, t2};
      LinkKeeps(f, p1, p2);
      LinkJoins(old(f), t1, t2);
      Relink(r1, r2);
    }

    method Connected(t1: TipType, t2: TipType) returns (b: bool)
      requires Valid()
      modifies this
      ensures Valid() && f == old(f).Insert({t1, t2})
      ensures b <==> f.root(t1) == f.root(t2)
    {
      var r1 := Find(t1);
      var r2 := Find(t2);
      assert old(f).terms + {t1} + {t2} == old(f).terms + {t1, t2};
      return r1 == r2;
    }

    // No two edges start in equal terms: the assertion in this check never fails.
    method Invariant() returns (ok: bool)
      requires Valid()
      ensures ok
    {
      for i := 0 to |edges| {
        for j := i + 1 to |edges| {
          if edges[i].first == edges[j].first { return false; }
        }
      }
      return true;
    }
  }

  ghost predicate Distinct(edges: seq<Edge>) {
    forall i, j | 0 <= i < j < |edges| :: edges[i].first != edges[j].first
  }

  ghost predicate Starts(edges: seq<Edge>, t: TipType) {
    exists i :: 0 <= i < |edges| && edges[i].first == t
  }

  ghost predicate Tied(edges: seq<Edge>, terms: set<TipType>, parent: TipType -> TipType) {
    && Distinct(edges)
    && (forall i | 0 <= i < |edges| :: edges[i].first in terms && parent(edges[i].first) == edges[i].second)
    && (forall t {:trigger Starts(edges, t)} {:trigger t in terms} | t in terms :: Starts(edges, t))
  }

  lemma InsertDistinct(edges: seq<Edge>, at: nat, e: Edge)
    requires Distinct(edges) && at <= |edges| && !Starts(edges, e.first)
    ensures Distinct(edges[..at] + [e] + edges[at..])
  {
    var edges' := edges[..at] + [e] + edges[at..];
    forall i, j | 0 <= i < j < |edges'| ensures edges'[i].first != edges'[j].first {
      assert i != at ==> edges'[i] == edges[if i < at then i else i - 1];
      assert j != at ==> edges'[j] == edges[if j < at then j else j - 1];
    }
  }

  lemma InsertTied(edges: seq<Edge>, terms: set<TipType>, parent: TipType -> TipType, at: nat, e: Edge)
    requires Tied(edges, terms, parent) && at <= |edges| && e.first !in terms && parent(e.first) == e.second
    ensures Tied(edges[..at] + [e] + edges[at..], terms + {e.first}, parent)
  {
    var edges' := edges[..at] + [e] + edges[at..];
    InsertDistinct(edges, at, e);
    forall t | t in terms + {e.first} ensures Starts(edges', t) {
      if t == e.first {
        assert edges'[at].first == t;
      } else {
        assert Starts(edges, t);
        var i :| 0 <= i < |edges| && edges[i].first == t;
        assert edges'[if i < at then i else i + 1] == edges[i];
      }
    }
  }

  lemma RemoveTied(edges: seq<Edge>, terms: set<TipType>, parent: TipType -> TipType, i: nat)
    requires Tied(edges, terms, parent) && i < |edges|
    ensures Tied(edges[..i] + edges[i + 1..], terms - {edges[i].first}, parent)
  {
    var rest := edges[..i] + edges[i + 1..];
    forall k | 0 <= k < |rest|
      ensures rest[k].first in terms - {edges[i].first} && parent(rest[k].first) == rest[k].second {
      assert rest[k] == edges[if k < i then k else k + 1];
    }
    forall s | s in terms - {edges[i].first} ensures Starts(rest, s) {
      assert Starts(edges, s);
      var k :| 0 <= k < |edges| && edges[k].first == s;
      assert rest[if k < i then k else k - 1] == edges[k];
    }
  }

  lemma ReplaceTied(edges: seq<Edge>, f: Forest, i: nat, at: nat, r: TipType)
    requires Tied(edges, f.terms, f.parent) && i < |edges| && at < |edges|
    ensures var rest, t := edges[..i] + edges[i + 1..], edges[i].first;
            Tied(rest[..at] + [Edge(t, r)] + rest[at..], f.terms, f.Link(t, r).parent)
  {
    var rest, t := edges[..i] + edges[i + 1..], edges[i].first;
    RemoveTied(edges, f.terms, f.parent, i);
    assert Tied(rest, f.terms - {t}, f.Link(t, r).parent);
    InsertTied(rest, f.terms - {t}, f.Link(t, r).parent, at, Edge(t, r));
    assert f.terms - {t} + {t} == f.terms;
  }
}
