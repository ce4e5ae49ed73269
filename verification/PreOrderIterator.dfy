/** The iterator over the nodes of a syntax tree in pre-order. */
module PreOrderIterator {
  // A node, by its identity, over the trees of its children.
  datatype SyntaxTree = SyntaxTree(root: nat, subtrees: seq<SyntaxTree>)

  function PreOrder(t: SyntaxTree): seq<nat>
    decreases t, 0
  {
    [t.root] + PreOrderAll(t.subtrees)
  }

  function PreOrderAll(ts: seq<SyntaxTree>): seq<nat>
    decreases ts, 0
  {
    if ts == [] then [] else PreOrder(ts[0]) + PreOrderAll(ts[1..])
  }

  // No node occurs twice.
  ghost predicate NoRepeats(s: seq<nat>) {
    forall i, j | 0 <= i < j < |s| :: s[i] != s[j]
  }

  // What a stack of trees, with its top at the end, still has to yield.
  ghost function Pending(stack: seq<SyntaxTree>): seq<nat> {
    if stack == [] then [] else PreOrder(stack[|stack| - 1]) + Pending(stack[..|stack| - 1])
  }

  function Reversed<T>(s: seq<T>): (r: seq<T>)
    ensures |r| == |s|
  {
    if s == [] then [] else Reversed(s[1..]) + [s[0]]
  }

  lemma ReversedEnd<T>(below: seq<T>, s: seq<T>)
    ensures below + Reversed(s[|s|..]) == below && s[0..] == s
  {
  }

  lemma ReversedNext<T>(below: seq<T>, s: seq<T>, i: nat)
    requires i < |s|
    ensures below + Reversed(s[i..]) == below + Reversed(s[i + 1..]) + [s[i]]
  {
    assert s[i..][0] == s[i] && s[i..][1..] == s[i + 1..];
  }

  lemma {:induction false} PendingPushed(stack: seq<SyntaxTree>, ts: seq<SyntaxTree>)
    ensures Pending(stack + Reversed(ts)) == PreOrderAll(ts) + Pending(stack)
  {
    if ts == [] {
      assert stack + [] == stack;
    } else {
      var s := stack + Reversed(ts);
      assert s == (stack + Reversed(ts[1..])) + [ts[0]];
      assert s[..|s| - 1] == stack + Reversed(ts[1..]);
      PendingPushed(stack, ts[1..]);
    }
  }

  lemma {:induction false} PendingIsEmpty(stack: seq<SyntaxTree>)
    ensures Pending(stack) == [] <==> stack == []
  {
  }

  // The stack after one step from a stack that is not empty.
  function Stepped(stack: seq<SyntaxTree>): seq<SyntaxTree> {
    if stack == [] then [] else stack[..|stack| - 1] + Reversed(stack[|stack| - 1].subtrees)
  }

  // A step drops the node that was next.
  lemma PendingStepped(stack: seq<SyntaxTree>)
    ensures Pending(Stepped(stack)) == if stack == [] then [] else Pending(stack)[1..]
  {
    if stack != [] { PendingPushed(stack[..|stack| - 1], stack[|stack| - 1].subtrees); }
  }

  // The stack of a new iterator after i steps.
  function After(t: SyntaxTree, i: nat): seq<SyntaxTree> {
    if i == 0 then [t] else Stepped(After(t, i - 1))
  }

  /** After i steps an iterator has yielded the first i nodes of the pre-order, and the rest is pending. */
  lemma {:induction false} AfterPending(t: SyntaxTree, i: nat)
    ensures Pending(After(t, i)) == if i <= |PreOrder(t)| then PreOrder(t)[i..] else []
  {
    if i == 0 {
      assert [t][..0] == [];
    } else {
      AfterPending(t, i - 1);
      PendingStepped(After(t, i - 1));
      PendingIsEmpty(After(t, i - 1));
    }
  }

  // A stack that steps over t lead to.
  ghost predicate Reached(t: SyntaxTree, stack: seq<SyntaxTree>) {
    exists i: nat :: IsAfter(t, i, stack)
  }

  ghost predicate IsAfter(t: SyntaxTree, i: nat, stack: seq<SyntaxTree>) {
    i <= |PreOrder(t)| && stack == After(t, i)
  }

  lemma SteppedIsReached(t: SyntaxTree, stack: seq<SyntaxTree>)
    requires Reached(t, stack)
    ensures Reached(t, Stepped(stack))
  {
    var i: nat :| IsAfter(t, i, stack);
    AfterPending(t, i);
    PendingIsEmpty(stack);
    if stack != [] { assert IsAfter(t, i + 1, Stepped(stack)); }
  }

  lemma EndIsReached(t: SyntaxTree)
    ensures Reached(t, [])
  {
    var last := |PreOrder(t)|;
    AfterPending(t, last);
    PendingIsEmpty(After(t, last));
    assert IsAfter(t, last, []);
  }

  // Where the nodes of a tree are distinct, the next node tells how far an iterator is.
  lemma SameNextSamePlace(t: SyntaxTree, a: seq<SyntaxTree>, b: seq<SyntaxTree>)
    requires NoRepeats(PreOrder(t)) && Reached(t, a) && Reached(t, b)
    ensures a != [] && b != [] && a[|a| - 1].root == b[|b| - 1].root ==> a == b
    ensures Pending(a) == Pending(b) ==> a == b
  {
    var i: nat :| IsAfter(t, i, a);
    var j: nat :| IsAfter(t, j, b);
    AfterPending(t, i);
    AfterPending(t, j);
    if a != [] && b != [] && a[|a| - 1].root == b[|b| - 1].root {
      assert PreOrder(t)[i] == Pending(a)[0] == a[|a| - 1].root;
      assert PreOrder(t)[j] == Pending(b)[0] == b[|b| - 1].root;
      assert i == j;
    }
  }

  class PreOrderIterator {
    const tree: SyntaxTree
    var stack: seq<SyntaxTree>

    constructor (tree: SyntaxTree, end: bool)
      ensures this.tree == tree && Reached(tree, stack)
      ensures stack == if end then [] else [tree]
      ensures Pending(stack) == if end then [] else PreOrder(tree)
    {
      this.tree := tree;
      stack := if end then [] else [tree];
      new;
      EndIsReached(tree);
      AfterPending(tree, 0);
      assert end || IsAfter(tree, 0, stack);
    }

    function Current(): (t: SyntaxTree)
      requires stack != []
      reads this
      ensures t.root == Pending(stack)[0]
    {
      stack[|stack| - 1]
    }

    // On to the next node; at the end the iterator stays there.
    method Increment()
      requires Reached(tree, stack)
      modifies this
      ensures Reached(tree, stack) && stack == Stepped(old(stack))
      ensures Pending(stack) == if old(stack) == [] then [] else old(Pending(stack))[1..]
    {
      hide Reached, Pending, PreOrder, Reversed;
      SteppedIsReached(tree, stack);
      PendingStepped(stack);
      if stack == [] { return; }
      var current := Current();
      stack := stack[..|stack| - 1];
      ghost var below := stack;
      var subtrees := current.subtrees;
      ReversedEnd(below, subtrees);
      for i := |subtrees| downto 0
        invariant stack == below + Reversed(subtrees[i..])
      {
        ReversedNext(below, subtrees, i);
        stack := stack + [subtrees[i]];
      }
    }

    // Iterators over one tree are equal just when the same nodes are still to come.
    method Equals(other: PreOrderIterator) returns (b: bool)
      requires Reached(tree, stack) && Reached(other.tree, other.stack)
      ensures tree.root != other.tree.root ==> !b
      ensures tree == other.tree && other.stack == [] ==> (b <==> stack == [])
      ensures tree == other.tree && NoRepeats(PreOrder(tree)) ==> (b <==> Pending(stack) == Pending(other.stack))
    {
      if tree == other.tree && NoRepeats(PreOrder(tree)) { SameNextSamePlace(tree, stack, other.stack); }
      if tree.root != other.tree.root { return false; }
      if |stack| != |other.stack| { return false; }
      if stack == [] && other.stack == [] { return true; }
      return Current().root == other.Current().root;
    }
  }
}
