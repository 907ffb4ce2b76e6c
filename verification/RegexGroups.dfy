/**
  What a derivation says about its groups: each group that is set lies inside
  the match and its text was matched by the body of that group.
  */
module RegexGroups {
  import opened RegexTree
  import opened RegexSemantics

  /** `body` is the body of a group numbered `g` somewhere in the tree. */
  ghost predicate HasGroup(n: Node, g: nat, body: Node) {
    || (match n.op
        case Group(h, b) => (h == g && b == body) || HasGroup(b, g, body)
        case Choice(bs) => exists i :: 0 <= i < |bs| && HasGroup(bs[i], g, body)
        case Repeat(_, _, b) => HasGroup(b, g, body)
        case _ => false)
    || (n.next.Some? && HasGroup(n.next.value, g, body))
  }

  ghost predicate GroupsWithin(n: Node, root: Node) {
    forall g, b :: HasGroup(n, g, b) ==> HasGroup(root, g, b)
  }

  ghost predicate Matched(env: Env, root: Node, g: nat, i: nat, j: nat)
    requires i <= |env.text|
  {
    exists b: Node, c: Caps, d: Caps :: HasGroup(root, g, b) && Derives(env, b, i, c, j, d)
  }

  ghost predicate IsSet(c: Caps, g: nat)
    requires g < |c.so| && g < |c.eo|
  {
    c.so[g] >= 0 && c.eo[g] >= 0
  }

  /** Every group set in `c` lies in lo..hi and was matched there. Group 0 is the match itself. */
  ghost predicate Justified(env: Env, root: Node, c: Caps, lo: nat, hi: nat)
    requires hi <= |env.text|
  {
    && |c.so| == |c.eo|
    && forall g: nat :: 1 <= g < |c.so| && IsSet(c, g) ==>
         lo <= c.so[g] <= c.eo[g] <= hi && Matched(env, root, g, c.so[g], c.eo[g])
  }

  ghost predicate SameOutside(c: Caps, d: Caps, groups: set<nat>) {
    && |d.so| == |c.so| && |d.eo| == |c.eo|
    && forall g: nat {:trigger d.so[g]} {:trigger d.eo[g]} :: g < |c.so| && g < |c.eo| && g !in groups ==>
         d.so[g] == c.so[g] && d.eo[g] == c.eo[g]
  }

  /** A derivation changes only the groups of its tree. */
  lemma {:induction false} DerivesOnly(env: Env, n: Node, i: nat, c: Caps, j: nat, d: Caps)
    requires i <= |env.text| && Derives(env, n, i, c, j, d)
    ensures SameOutside(c, d, Groups(n))
    decreases n, 1, 0
  {
    match n.next
    case None => OpDerivesOnly(env, n, i, c, j, d);
    case Some(m) =>
      var x: nat, e: Caps :| x <= |env.text| && OpDerives(env, n.op, i, c, x, e) && Derives(env, m, x, e, j, d);
      OpDerivesOnly(env, n, i, c, x, e);
      DerivesOnly(env, m, x, e, j, d);
  }

  lemma {:induction false} OpDerivesOnly(env: Env, n: Node, i: nat, c: Caps, j: nat, d: Caps)
    requires i <= |env.text| && OpDerives(env, n.op, i, c, j, d)
    ensures SameOutside(c, d, Groups(n))
    decreases n, 0, 0
  {
    match n.op
    case Group(g, b) =>
      var e :| Derives(env, b, i, OpenGroup(c, g, i), j, e) && d == CloseGroup(e, g, j);
      DerivesOnly(env, b, i, OpenGroup(c, g, i), j, e);
    case Choice(bs) =>
      var x :| 0 <= x < |bs| && Derives(env, bs[x], i, c, j, d);
      GroupsOfContains(bs, x);
      DerivesOnly(env, bs[x], i, c, j, d);
    case Repeat(min, max, b) =>
      var count: nat :| min <= count && (max < 0 || count <= max) && TurnsDerive(env, b, count, i, c, j, d);
      TurnsDeriveOnly(env, b, count, i, c, j, d);
    case _ =>
  }

  lemma {:induction false} TurnsDeriveOnly(env: Env, b: Node, count: nat, i: nat, c: Caps, j: nat, d: Caps)
    requires i <= |env.text| && TurnsDerive(env, b, count, i, c, j, d)
    ensures SameOutside(c, d, Groups(b))
    decreases b, 2, count
  {
    if count > 0 {
      var x: nat, e: Caps :| x <= |env.text| && Derives(env, b, i, c, x, e) && TurnsDerive(env, b, count - 1, x, e, j, d);
      DerivesOnly(env, b, i, c, x, e);
      TurnsDeriveOnly(env, b, count - 1, x, e, j, d);
    }
  }

  lemma {:induction false} DerivesJustified(env: Env, root: Node, lo: nat, n: Node, i: nat, c: Caps, j: nat, d: Caps)
    requires lo <= i <= |env.text| && Derives(env, n, i, c, j, d)
    requires NoReentry(n) && GroupsWithin(n, root) && Justified(env, root, c, lo, i)
    ensures i <= j <= |env.text| && Justified(env, root, d, lo, j)
    decreases n, 1, 0
  {
    DerivesForward(env, n, i, c, j, d);
    match n.next
    case None => OpJustified(env, root, lo, n, i, c, j, d);
    case Some(m) =>
      var x: nat, e: Caps :| x <= |env.text| && OpDerives(env, n.op, i, c, x, e) && Derives(env, m, x, e, j, d);
      OpJustified(env, root, lo, n, i, c, x, e);
      DerivesJustified(env, root, lo, m, x, e, j, d);
  }

  lemma {:induction false} OpJustified(env: Env, root: Node, lo: nat, n: Node, i: nat, c: Caps, j: nat, d: Caps)
    requires lo <= i <= |env.text| && OpDerives(env, n.op, i, c, j, d)
    requires NoReentry(n) && GroupsWithin(n, root) && Justified(env, root, c, lo, i)
    ensures i <= j <= |env.text| && Justified(env, root, d, lo, j)
    decreases n, 0, 0
  {
    OpDerivesForward(env, n.op, i, c, j, d);
    match n.op
    case Group(g, b) =>
      var o := OpenGroup(c, g, i);
      var e :| Derives(env, b, i, o, j, e) && d == CloseGroup(e, g, j);
      BodyWithin(n, root, b);
      DerivesJustified(env, root, lo, b, i, o, j, e);
      DerivesOnly(env, b, i, o, j, e);
      assert HasGroup(n, g, b);
      assert Matched(env, root, g, i, j);
    case Choice(bs) =>
      var x :| 0 <= x < |bs| && Derives(env, bs[x], i, c, j, d);
      BodyWithin(n, root, bs[x]);
      DerivesJustified(env, root, lo, bs[x], i, c, j, d);
    case Repeat(min, max, b) =>
      var count: nat :| min <= count && (max < 0 || count <= max) && TurnsDerive(env, b, count, i, c, j, d);
      BodyWithin(n, root, b);
      TurnsJustified(env, root, lo, b, count, i, c, j, d);
    case _ =>
  }

  lemma {:induction false} TurnsJustified(env: Env, root: Node, lo: nat, b: Node, count: nat, i: nat, c: Caps, j: nat, d: Caps)
    requires lo <= i <= |env.text| && TurnsDerive(env, b, count, i, c, j, d)
    requires NoReentry(b) && GroupsWithin(b, root) && Justified(env, root, c, lo, i)
    ensures i <= j <= |env.text| && Justified(env, root, d, lo, j)
    decreases b, 2, count
  {
    if count > 0 {
      var x: nat, e: Caps :| x <= |env.text| && Derives(env, b, i, c, x, e) && TurnsDerive(env, b, count - 1, x, e, j, d);
      DerivesJustified(env, root, lo, b, i, c, x, e);
      TurnsJustified(env, root, lo, b, count - 1, x, e, j, d);
    }
  }

  lemma BodyWithin(n: Node, root: Node, b: Node)
    requires GroupsWithin(n, root)
    requires match n.op
             case Group(_, body) => b == body
             case Choice(bs) => b in bs
             case Repeat(_, _, body) => b == body
             case _ => false
    ensures GroupsWithin(b, root)
  {
    forall g, body | HasGroup(b, g, body) ensures HasGroup(root, g, body) {
      assert HasGroup(n, g, body);
    }
  }

  lemma GroupsOfContains(bs: seq<Node>, x: nat)
    requires x < |bs|
    ensures Groups(bs[x]) <= GroupsOf(bs)
  {
    if x > 0 {
      GroupsOfContains(bs[1..], x - 1);
    }
  }
}
