/**
  With REG_ICASE the case of the text does not matter: on two texts that
  differ only in the case of ASCII letters the searches run in lockstep, with
  the same ways, the same captures and the same number of steps.
  */
module RegexIcase {
  import opened RegexTree
  import opened RegexRun
  import opened RegexExec

  /** The same call, with texts equal up to case. */
  ghost predicate SameUpToCase(a: Env, b: Env) {
    && a.icase && b == a.(text := b.text) && |a.text| == |b.text|
    && forall i :: 0 <= i < |a.text| ==> ToLower(a.text[i]) == ToLower(b.text[i])
  }

  ghost predicate ContCaseClosed(k: Cont) {
    match k
    case Done => true
    case Then(n, rest) => SetsCaseClosed(n) && ContCaseClosed(rest)
    case Close(_, rest) => ContCaseClosed(rest)
    case Turn(r, _, _, rest) => SetsCaseClosed(r) && ContCaseClosed(rest)
  }

  lemma StepLockstep(a: Env, b: Env, op: Op, c: Caps, s: nat)
    requires SameUpToCase(a, b) && s <= |a.text|
    requires op.Set? ==> CaseClosed(op.members)
    ensures StepEnd(a, op, c, s) == StepEnd(b, op, c, s)
  {
    if op.Ref? && op.g < |c.so| && op.g < |c.eo| && 0 <= c.so[op.g] <= c.eo[op.g] <= |a.text|
       && s + (c.eo[op.g] - c.so[op.g]) <= |a.text|
    {
      var l := c.eo[op.g] - c.so[op.g];
      forall i | 0 <= i < l
        ensures SameChar(a, a.text[s..s + l][i], a.text[c.so[op.g]..c.eo[op.g]][i])
           <==> SameChar(b, b.text[s..s + l][i], b.text[c.so[op.g]..c.eo[op.g]][i])
      {
        assert a.text[s..s + l][i] == a.text[s + i] && b.text[s..s + l][i] == b.text[s + i];
        var j := c.so[op.g] + i;
        assert a.text[c.so[op.g]..c.eo[op.g]][i] == a.text[j] && b.text[c.so[op.g]..c.eo[op.g]][i] == b.text[j];
      }
    }
  }

  lemma {:induction false} TryLockstep(a: Env, b: Env, n: Node, s: nat, c: Caps, k: Cont)
    requires SameUpToCase(a, b) && s <= |a.text| && SetsCaseClosed(n) && ContCaseClosed(k)
    ensures Try(a, n, s, c, k) == Try(b, n, s, c, k)
    decreases |a.text| - s, NodeWork(n) + ContWork(k, s), 1
  {
    AfterWork(n.next, k, s);
    OpWorkDrops(n, s, k);
    var rest := After(n.next, k);
    if n.op.Group? {
      TryLockstep(a, b, n.op.body, s, OpenGroup(c, n.op.g, s), Close(n.op.g, rest));
    } else if n.op.Choice? {
      TryAllLockstep(a, b, n.op.branches, s, c, rest);
    } else if n.op.Repeat? {
      TryLockstep(a, b, n.op.body, s, c, Turn(n, 0, s, k));
      AdvanceLockstep(a, b, s, c, rest);
    } else {
      StepLockstep(a, b, n.op, c, s);
      var e := StepEnd(a, n.op, c, s);
      if e.Some? { AdvanceLockstep(a, b, e.value, c, rest); }
    }
    assert TryOut(a, n, s, c, k) == TryOut(b, n, s, c, k);
  }

  lemma {:induction false} TryAllLockstep(a: Env, b: Env, bs: seq<Node>, s: nat, c: Caps, k: Cont)
    requires SameUpToCase(a, b) && s <= |a.text| && ContCaseClosed(k)
    requires forall i :: 0 <= i < |bs| ==> SetsCaseClosed(bs[i])
    ensures TryAll(a, bs, s, c, k) == TryAll(b, bs, s, c, k)
    decreases |a.text| - s, BranchWork(bs) + ContWork(k, s), 1
  {
    if bs != [] {
      TryLockstep(a, b, bs[0], s, c, k);
      TryAllLockstep(a, b, bs[1..], s, c, k);
    }
  }

  lemma {:induction false} AdvanceLockstep(a: Env, b: Env, s: nat, c: Caps, k: Cont)
    requires SameUpToCase(a, b) && s <= |a.text| && ContCaseClosed(k)
    ensures Advance(a, s, c, k) == Advance(b, s, c, k)
    decreases |a.text| - s, ContWork(k, s), 0
  {
    match k
    case Done =>
    case Then(n, rest) => TryLockstep(a, b, n, s, c, rest);
    case Close(g, rest) => AdvanceLockstep(a, b, s, CloseGroup(c, g, s), rest);
    case Turn(r, turns, from, rest) =>
      if r.op.Repeat? && Unpruned(r, turns, from, s) {
        AfterWork(r.next, rest, s);
        TurnWorkDrops(r, turns, from, s, rest);
        TryLockstep(a, b, r.op.body, s, c, Turn(r, turns + 1, s, rest));
        AdvanceLockstep(a, b, s, c, After(r.next, rest));
      }
  }

  /** The whole of regexec: the same code, the same offsets of the match and of every group, fuse included. */
  lemma {:induction false} SearchLockstep(a: Env, b: Env, p: Prog, s: nat, steps: nat)
    requires SameUpToCase(a, b) && s <= |a.text| && SetsCaseClosed(p.root)
    ensures Search(a, p, s, steps) == Search(b, p, s, steps)
    decreases |a.text| - s
  {
    TryLockstep(a, b, p.root, s, Start(p.ngroups, s), Done);
    if s < |a.text| {
      SearchLockstep(a, b, p, s + 1, steps + SearchAt(a, p, s).visits);
    }
  }
}
