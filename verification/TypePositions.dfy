/** Type terms place by place. */
module TypePositions {
  import opened TipTypes
  import opened Substituter
  import opened RegularTypes

  // The part of t at the end of a path of argument numbers; a mu type has its binder at 0 and its body at 1.
  function PartAt(t: TipType, path: seq<nat>): Option<TipType> {
    if path == [] then Some(t) else
    match t
    case TipVar(_) => None
    case TipAlpha(_, _, _) => None
    case TipCons(_, args) => if path[0] < |args| then PartAt(args[path[0]], path[1..]) else None
    case TipMu(v, body) =>
      if path[0] == 0 then PartAt(v, path[1..]) else if path[0] == 1 then PartAt(body, path[1..]) else None
  }

  // The same variable, an alpha without its context, or the same constructor with as many arguments.
  predicate SameHead(t: TipType, u: TipType) {
    match t
    case TipVar(_) => t == u
    case TipAlpha(node, _, name) => u == TipAlpha(node, None, name)
    case TipCons(ctor, args) => u.TipCons? && u.ctor == ctor && |u.args| == |args|
    case TipMu(_, _) => u.TipMu?
  }

  /** After a substitution for a variable or an alpha, its substitute stands wherever it stood; in
      every other place there is what was there, but alphas are without their contexts. */
  lemma {:induction false} SubstitutedAt(t: TipType, v: TipType, s: TipType, path: seq<nat>)
    requires v.TipVar? || v.TipAlpha?
    requires Contextless(s) && PartAt(t, path).Some?
    ensures var r, was := PartAt(Substituted(t, Some(v), s), path), PartAt(t, path).value;
            if was == v then r == Some(s) else r.Some? && SameHead(was, r.value)
  {
    if path == [] || t.IsVar() {
      CopyIsSame(s, s);
    } else if t.TipCons? {
      SubstitutedAt(t.args[path[0]], v, s, path[1..]);
    } else if path[0] == 0 {
      SubstitutedAt(t.v, v, s, path[1..]);
    } else {
      SubstitutedAt(t.t, v, s, path[1..]);
    }
  }

  // To occur is to stand somewhere.
  lemma {:induction false} OccursAt(v: TipType, t: TipType)
    ensures Occurs(v, t) <==> exists path :: PartAt(t, path) == Some(v)
  {
    if Occurs(v, t) {
      var path := PlaceOf(v, t);
    }
    if path :| PartAt(t, path) == Some(v) { PlaceOccurs(v, t, path); }
  }

  lemma {:induction false} PlaceOf(v: TipType, t: TipType) returns (path: seq<nat>)
    requires Occurs(v, t)
    ensures PartAt(t, path) == Some(v)
  {
    if v == t { return []; }
    if t.TipCons? {
      var i :| 0 <= i < |t.args| && Occurs(v, t.args[i]);
      path := PlaceOf(v, t.args[i]);
      assert ([i] + path)[1..] == path;
      return [i] + path;
    }
    if Occurs(v, t.v) {
      path := PlaceOf(v, t.v);
      assert ([0] + path)[1..] == path;
      return [0] + path;
    }
    path := PlaceOf(v, t.t);
    assert ([1] + path)[1..] == path;
    return [1] + path;
  }

  lemma {:induction false} PlaceOccurs(v: TipType, t: TipType, path: seq<nat>)
    requires PartAt(t, path) == Some(v)
    ensures Occurs(v, t)
  {
    if path != [] {
      if t.TipCons? {
        PlaceOccurs(v, t.args[path[0]], path[1..]);
      } else if path[0] == 0 {
        PlaceOccurs(v, t.v, path[1..]);
      } else {
        PlaceOccurs(v, t.t, path[1..]);
      }
    }
  }

  // At the end of the path there is a variable or a constructor, if anything.
  predicate PlainPart(t: TipType, path: seq<nat>) {
    PartAt(t, path).Some? ==> PartAt(t, path).value.TipVar? || PartAt(t, path).value.TipCons?
  }

  // A plain term has variables and constructors in all its places, and nothing else.
  lemma {:induction false} PlainAt(t: TipType)
    ensures Plain(t) <==> forall path :: PlainPart(t, path)
  {
    match t
    case TipVar(_) => forall path ensures PlainPart(t, path) {}
    case TipAlpha(_, _, _) => assert !PlainPart(t, []);
    case TipMu(_, _) => assert !PlainPart(t, []);
    case TipCons(_, args) =>
      forall i | 0 <= i < |args| ensures Plain(args[i]) <==> forall path :: PlainPart(args[i], path) {
        PlainAt(args[i]);
      }
      if Plain(t) {
        forall path ensures PlainPart(t, path) {
          if path != [] && path[0] < |args| { assert PlainPart(args[path[0]], path[1..]); }
        }
      } else {
        var i :| 0 <= i < |args| && !Plain(args[i]);
        var path :| !PlainPart(args[i], path);
        assert ([i] + path)[1..] == path;
        assert !PlainPart(t, [i] + path);
      }
  }

  /** The variables collected from a term are those that stand somewhere in it, binders included. */
  lemma {:induction false} CollectedIffOccurs(t: TipType, v: TipType)
    requires Contextless(t)
    ensures v in VarsOf(t) <==> v.IsVar() && Occurs(v, t)
    decreases t, 0
  {
    match t
    case TipVar(_) =>
    case TipAlpha(_, _, _) =>
    case TipCons(_, args) =>
      CollectedFromAll(args, v);
      assert v.IsVar() ==> v != t;
    case TipMu(b, body) =>
      CollectedIffOccurs(b, v);
      CollectedIffOccurs(body, v);
  }

  lemma {:induction false} CollectedFromAll(ts: seq<TipType>, v: TipType)
    requires forall i | 0 <= i < |ts| :: Contextless(ts[i])
    ensures v in VarsOfAll(ts) <==> v.IsVar() && exists i | 0 <= i < |ts| :: Occurs(v, ts[i])
    decreases ts, 0
  {
    if ts != [] {
      var rest := ts[1..];
      CollectedIffOccurs(ts[0], v);
      assert forall i | 0 <= i < |rest| :: rest[i] == ts[i + 1];
      CollectedFromAll(rest, v);
      if i :| 0 <= i < |ts| && Occurs(v, ts[i]) { if i > 0 { assert Occurs(v, rest[i - 1]); } }
      if i :| 0 <= i < |rest| && Occurs(v, rest[i]) { assert Occurs(v, ts[i + 1]); }
    }
  }
}
