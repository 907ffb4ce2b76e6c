/**
  Every way the search records is a lean derivation of the tree, captures and
  back references included.
  */
module RegexSound {
  import opened RegexTree
  import opened RegexRun
  import opened RegexLean

  /** Soundness of rx_prova: a recorded way derives the node, then the continuation, both lean. */
  lemma {:induction false} TrySound(env: Env, n: Node, s: nat, c: Caps, k: Cont, w: Way)
    returns (x: nat, e: Caps)
    requires s <= |env.text| && w in Try(env, n, s, c, k).ways
    ensures x <= |env.text| && Lean(env, n, s, c, x, e) && ContLean(env, k, x, e, w.end, w.caps)
    decreases |env.text| - s, NodeWork(n) + ContWork(k, s), 1
  {
    AfterWork(n.next, k, s);
    OpWorkDrops(n, s, k);
    var rest := After(n.next, k);
    var y, f := s, c;
    match n.op {
      case Group(g, b) =>
        var z, h := TrySound(env, b, s, OpenGroup(c, g, s), Close(g, rest), w);
        y, f := z, CloseGroup(h, g, z);
      case Choice(bs) =>
        var i;
        i, y, f := TryAllSound(env, bs, s, c, rest, w);
      case Repeat(min, max, b) =>
        if max != 0 && w in Try(env, b, s, c, Turn(n, 0, s, k)).ways {
          y, f := FirstTurnSound(env, n, s, c, k, w);
        } else {
          AdvanceSound(env, s, c, rest, w);
        }
      case _ =>
        y := StepEnd(env, n.op, c, s).value;
        AdvanceSound(env, y, c, rest, w);
    }
    x, e := LeanJoin(env, n, k, s, c, y, f, w.end, w.caps);
  }

  lemma {:induction false} FirstTurnSound(env: Env, n: Node, s: nat, c: Caps, k: Cont, w: Way)
    returns (u: nat, v: Caps)
    requires s <= |env.text| && n.op.Repeat? && n.op.max != 0
    requires w in Try(env, n.op.body, s, c, Turn(n, 0, s, k)).ways
    ensures u <= |env.text| && OpLean(env, n, s, c, u, v) && ContLean(env, After(n.next, k), u, v, w.end, w.caps)
    decreases |env.text| - s, NodeWork(n) + ContWork(k, s), 0
  {
    OpWorkDrops(n, s, k);
    var z, h := TrySound(env, n.op.body, s, c, Turn(n, 0, s, k), w);
    u, v := OneTurnMore(env, n, 0, s, c, z, h, k, w.end, w.caps);
  }

  lemma {:induction false} TryAllSound(env: Env, bs: seq<Node>, s: nat, c: Caps, k: Cont, w: Way)
    returns (i: nat, x: nat, e: Caps)
    requires s <= |env.text| && w in TryAll(env, bs, s, c, k).ways
    ensures i < |bs| && x <= |env.text| && Lean(env, bs[i], s, c, x, e) && ContLean(env, k, x, e, w.end, w.caps)
    decreases |env.text| - s, BranchWork(bs) + ContWork(k, s), 1
  {
    if w in Try(env, bs[0], s, c, k).ways {
      i := 0;
      x, e := TrySound(env, bs[0], s, c, k, w);
    } else {
      i, x, e := TryAllSound(env, bs[1..], s, c, k, w);
      i := i + 1;
    }
  }

  /** Soundness of rx_avanti: a recorded way derives the continuation. */
  lemma {:induction false} AdvanceSound(env: Env, s: nat, c: Caps, k: Cont, w: Way)
    requires s <= |env.text| && w in Advance(env, s, c, k).ways
    ensures ContLean(env, k, s, c, w.end, w.caps)
    decreases |env.text| - s, ContWork(k, s), 1
  {
    match k
    case Done =>
    case Then(n, rest) =>
      var x, e := TrySound(env, n, s, c, rest, w);
    case Close(g, rest) =>
      AdvanceSound(env, s, CloseGroup(c, g, s), rest, w);
    case Turn(r, turns, from, rest) =>
      TurnSound(env, r, turns, from, s, c, rest, w);
  }

  lemma {:induction false} TurnSound(env: Env, r: Node, turns: nat, from: nat, s: nat, c: Caps, rest: Cont, w: Way)
    requires s <= |env.text| && r.op.Repeat? && Unpruned(r, turns, from, s)
    requires w in TurnOut(env, r, turns, from, s, c, rest).ways
    ensures ContLean(env, Turn(r, turns, from, rest), s, c, w.end, w.caps)
    decreases |env.text| - s, ContWork(Turn(r, turns, from, rest), s), 0
  {
    AfterWork(r.next, rest, s);
    TurnWorkDrops(r, turns, from, s, rest);
    var u, v := s, c;
    if MayRepeat(r, turns + 1) && w in Try(env, r.op.body, s, c, Turn(r, turns + 1, s, rest)).ways {
      var z, h := TrySound(env, r.op.body, s, c, Turn(r, turns + 1, s, rest), w);
      u, v := OneTurnMore(env, r, turns + 1, s, c, z, h, rest, w.end, w.caps);
    } else {
      AdvanceSound(env, s, c, After(r.next, rest), w);
      assert TurnsLean(env, r.op.body, r.op.min, r.op.max, turns + 1, s, c, s, c);
    }
    AfterLean(env, r.next, rest, u, v, w.end, w.caps);
  }

  /** A turn that the search did not give up, before the ones that follow it. */
  lemma OneTurnMore(env: Env, r: Node, done: nat, i: nat, c: Caps, x: nat, e: Caps, k: Cont, j: nat, d: Caps)
    returns (u: nat, v: Caps)
    requires i <= |env.text| && x <= |env.text| && r.op.Repeat? && MayRepeat(r, done)
    requires Lean(env, r.op.body, i, c, x, e) && ContLean(env, Turn(r, done, i, k), x, e, j, d)
    ensures u <= |env.text| && TurnsLean(env, r.op.body, r.op.min, r.op.max, done, i, c, u, v)
    ensures ContLean(env, After(r.next, k), u, v, j, d)
  {
    LeanForward(env, r.op.body, i, c, x, e);
    u, v :| u <= |env.text| && TurnsLean(env, r.op.body, r.op.min, r.op.max, done + 1, x, e, u, v)
      && NextContLean(env, r.next, k, u, v, j, d);
    assert LeanTurn(env, r.op.body, r.op.min, done, i, c, x, e);
    AfterLean(env, r.next, k, u, v, j, d);
  }
}
