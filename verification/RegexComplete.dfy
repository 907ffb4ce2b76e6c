/**
  The search loses no lean derivation that could be longer: for every tree,
  each end of one is reached or overtaken by a recorded way, although the
  search stops as soon as a way reaches the end of the text.

  If no back reference depends on a group which a dropped turn could have set
  (`RefsSafe`), every derivation can be made lean without moving its end,
  because dropping an empty turn keeps the bounds and the referenced groups.
  Trees without back references are always safe.
  */
module RegexComplete {
  import opened Common
  import opened RegexTree
  import opened RegexRun
  import opened RegexSemantics
  import opened RegexGroups
  import opened RegexLean

  // ----- every derivation can be made lean -----

  ghost predicate Agree(c: Caps, d: Caps, refs: set<nat>) {
    && |d.so| == |c.so| && |d.eo| == |c.eo|
    && forall g: nat {:trigger d.so[g]} {:trigger d.eo[g]} :: g in refs && g < |c.so| && g < |c.eo| ==>
         d.so[g] == c.so[g] && d.eo[g] == c.eo[g]
  }

  lemma {:induction false} MakeLean(env: Env, refs: set<nat>, n: Node, i: nat, c: Caps, j: nat, d: Caps, c': Caps)
    returns (d': Caps)
    requires i <= |env.text| && Derives(env, n, i, c, j, d) && Agree(c, c', refs)
    requires TurnsSafe(n, refs) && Refs(n) <= refs
    ensures Lean(env, n, i, c', j, d') && Agree(d, d', refs)
    decreases n, 1, 0
  {
    if n.next.Some? {
      var m := n.next.value;
      var x: nat, e: Caps :| x <= |env.text| && OpDerives(env, n.op, i, c, x, e) && Derives(env, m, x, e, j, d);
      var e' := MakeOpLean(env, refs, n, i, c, x, e, c');
      d' := MakeLean(env, refs, m, x, e, j, d, e');
    } else {
      d' := MakeOpLean(env, refs, n, i, c, j, d, c');
    }
  }

  lemma {:induction false} MakeOpLean(env: Env, refs: set<nat>, n: Node, i: nat, c: Caps, j: nat, d: Caps, c': Caps)
    returns (d': Caps)
    requires i <= |env.text| && OpDerives(env, n.op, i, c, j, d) && Agree(c, c', refs)
    requires TurnsSafe(n, refs) && Refs(n) <= refs
    ensures OpLean(env, n, i, c', j, d') && Agree(d, d', refs)
    decreases n, 0, 0
  {
    match n.op
    case Group(g, b) =>
      var e :| Derives(env, b, i, OpenGroup(c, g, i), j, e) && d == CloseGroup(e, g, j);
      var e' := MakeLean(env, refs, b, i, OpenGroup(c, g, i), j, e, OpenGroup(c', g, i));
      d' := CloseGroup(e', g, j);
    case Choice(bs) =>
      var x :| 0 <= x < |bs| && Derives(env, bs[x], i, c, j, d);
      RefsOfContains(bs, x);
      d' := MakeLean(env, refs, bs[x], i, c, j, d, c');
    case Repeat(min, max, b) =>
      var count: nat :| min <= count && (max < 0 || count <= max) && TurnsDerive(env, b, count, i, c, j, d);
      d' := DropEmptyTurns(env, refs, b, min, max, 0, count, i, c, j, d, c');
    case _ => d' := c';
  }

  lemma {:induction false} DropEmptyTurns(env: Env, refs: set<nat>, b: Node, min: nat, max: int, done: nat, count: nat,
                                          i: nat, c: Caps, j: nat, d: Caps, c': Caps)
    returns (d': Caps)
    requires i <= |env.text| && TurnsDerive(env, b, count, i, c, j, d) && Agree(c, c', refs)
    requires min <= done + count && (max < 0 || done + count <= max)
    requires TurnsSafe(b, refs) && Refs(b) <= refs && (!MayBeEmpty(b) || Groups(b) !! refs)
    ensures TurnsLean(env, b, min, max, done, i, c', j, d') && Agree(d, d', refs)
    decreases b, 2, count
  {
    if count == 0 { return c'; }
    var x: nat, e: Caps :| x <= |env.text| && Derives(env, b, i, c, x, e) && TurnsDerive(env, b, count - 1, x, e, j, d);
    DerivesForward(env, b, i, c, x, e);
    if x == i && min <= done {
      EmptyMayBeEmpty(env, b, i, c, e);
      DerivesOnly(env, b, i, c, i, e);
      d' := DropEmptyTurns(env, refs, b, min, max, done, count - 1, i, e, j, d, c');
    } else {
      var e' := MakeLean(env, refs, b, i, c, x, e, c');
      d' := DropEmptyTurns(env, refs, b, min, max, done + 1, count - 1, x, e, j, d, e');
      assert LeanTurn(env, b, min, done, i, c', x, e');
    }
  }

  lemma {:induction false} EmptyMayBeEmpty(env: Env, n: Node, i: nat, c: Caps, d: Caps)
    requires i <= |env.text| && Derives(env, n, i, c, i, d)
    ensures MayBeEmpty(n)
    decreases n, 1, 0
  {
    if n.next.Some? {
      var m := n.next.value;
      var x: nat, e: Caps :| x <= |env.text| && OpDerives(env, n.op, i, c, x, e) && Derives(env, m, x, e, i, d);
      OpDerivesForward(env, n.op, i, c, x, e);
      DerivesForward(env, m, x, e, i, d);
      OpEmptyMayBeEmpty(env, n.op, i, c, e);
      EmptyMayBeEmpty(env, m, i, e, d);
    } else {
      OpEmptyMayBeEmpty(env, n.op, i, c, d);
    }
  }

  lemma {:induction false} OpEmptyMayBeEmpty(env: Env, op: Op, i: nat, c: Caps, d: Caps)
    requires i <= |env.text| && OpDerives(env, op, i, c, i, d)
    ensures MayBeEmpty(Node(op, None))
    decreases op, 1, 0
  {
    match op
    case Group(g, b) =>
      var e :| Derives(env, b, i, OpenGroup(c, g, i), i, e) && d == CloseGroup(e, g, i);
      EmptyMayBeEmpty(env, b, i, OpenGroup(c, g, i), e);
    case Choice(bs) =>
      var x :| 0 <= x < |bs| && Derives(env, bs[x], i, c, i, d);
      EmptyMayBeEmpty(env, bs[x], i, c, d);
    case Repeat(min, max, b) =>
      var count: nat :| min <= count && (max < 0 || count <= max) && TurnsDerive(env, b, count, i, c, i, d);
      if count > 0 {
        assert TurnsDerive(env, b, count, i, c, i, d);
        var x: nat, e: Caps :| x <= |env.text| && Derives(env, b, i, c, x, e) && TurnsDerive(env, b, count - 1, x, e, i, d);
        DerivesForward(env, b, i, c, x, e);
        TurnsDeriveForward(env, b, count - 1, x, e, i, d);
        EmptyMayBeEmpty(env, b, i, c, e);
      }
    case _ =>
  }

  lemma {:induction false} RefsOfContains(bs: seq<Node>, x: nat)
    requires x < |bs|
    ensures Refs(bs[x]) <= RefsOf(bs)
  {
    if x > 0 {
      RefsOfContains(bs[1..], x - 1);
    }
  }

  lemma {:induction false} NoRefsSafe(n: Node)
    requires NoRefs(n)
    ensures Refs(n) == {} && TurnsSafe(n, {})
  {
    match n.op {
      case Group(_, b) => NoRefsSafe(b);
      case Choice(bs) =>
        forall i | 0 <= i < |bs| ensures TurnsSafe(bs[i], {}) && Refs(bs[i]) == {} {
          NoRefsSafe(bs[i]);
        }
        NoRefsOf(bs);
      case Repeat(_, _, b) => NoRefsSafe(b);
      case _ =>
    }
    if n.next.Some? {
      NoRefsSafe(n.next.value);
    }
  }

  lemma {:induction false} NoRefsOf(bs: seq<Node>)
    requires forall i :: 0 <= i < |bs| ==> Refs(bs[i]) == {}
    ensures RefsOf(bs) == {}
  {
    if bs != [] {
      NoRefsOf(bs[1..]);
    }
  }

  // ----- the search covers Lean -----

  /** Some recorded way ends at `j` or later. */
  ghost predicate Covers(o: Out, j: nat) {
    exists w :: w in o.ways && j <= w.end
  }

  /** A search that stopped has a way to the end of the text, which covers every end. */
  lemma {:induction false} TryStops(env: Env, n: Node, s: nat, c: Caps, k: Cont)
    requires s <= |env.text|
    ensures Try(env, n, s, c, k).stop ==> Covers(Try(env, n, s, c, k), |env.text|)
    decreases |env.text| - s, NodeWork(n) + ContWork(k, s), 1
  {
    AfterWork(n.next, k, s);
    OpWorkDrops(n, s, k);
    assert Try(env, n, s, c, k) == Visit(TryOut(env, n, s, c, k));
    var rest := After(n.next, k);
    match n.op
    case Group(g, b) => TryStops(env, b, s, OpenGroup(c, g, s), Close(g, rest));
    case Choice(bs) => TryAllStops(env, bs, s, c, rest);
    case Repeat(min, max, b) =>
      TryStops(env, b, s, c, Turn(n, 0, s, k));
      AdvanceStops(env, s, c, rest);
      ChainCovers(if max != 0 then Try(env, b, s, c, Turn(n, 0, s, k)) else NOTHING,
                  if min == 0 then Advance(env, s, c, rest) else NOTHING, |env.text|);
    case _ =>
      var e := StepEnd(env, n.op, c, s);
      if e.Some? { AdvanceStops(env, e.value, c, rest); }
  }

  lemma {:induction false} TryAllStops(env: Env, bs: seq<Node>, s: nat, c: Caps, k: Cont)
    requires s <= |env.text|
    ensures TryAll(env, bs, s, c, k).stop ==> Covers(TryAll(env, bs, s, c, k), |env.text|)
    decreases |env.text| - s, BranchWork(bs) + ContWork(k, s), 1
  {
    if bs != [] {
      TryStops(env, bs[0], s, c, k);
      TryAllStops(env, bs[1..], s, c, k);
      ChainCovers(Try(env, bs[0], s, c, k), TryAll(env, bs[1..], s, c, k), |env.text|);
    }
  }

  lemma {:induction false} AdvanceStops(env: Env, s: nat, c: Caps, k: Cont)
    requires s <= |env.text|
    ensures Advance(env, s, c, k).stop ==> Covers(Advance(env, s, c, k), |env.text|)
    decreases |env.text| - s, ContWork(k, s), 0
  {
    match k
    case Done => assert Way(s, Finish(c, s)) in Advance(env, s, c, k).ways;
    case Then(n, rest) => TryStops(env, n, s, c, rest);
    case Close(g, rest) => AdvanceStops(env, s, CloseGroup(c, g, s), rest);
    case Turn(r, turns, from, rest) =>
      if r.op.Repeat? && Unpruned(r, turns, from, s) {
        AfterWork(r.next, rest, s);
        TurnWorkDrops(r, turns, from, s, rest);
        TryStops(env, r.op.body, s, c, Turn(r, turns + 1, s, rest));
        AdvanceStops(env, s, c, After(r.next, rest));
        assert Advance(env, s, c, k) == TurnOut(env, r, turns, from, s, c, rest);
        ChainCovers(if MayRepeat(r, turns + 1) then Try(env, r.op.body, s, c, Turn(r, turns + 1, s, rest)) else NOTHING,
                    if r.op.min <= turns + 1 then Advance(env, s, c, After(r.next, rest)) else NOTHING, |env.text|);
      }
  }

  lemma ChainCovers(a: Out, b: Out, j: nat)
    ensures Covers(a, j) ==> Covers(Chain(a, b), j)
    ensures !a.stop && Covers(b, j) ==> Covers(Chain(a, b), j)
  {
    if w :| w in a.ways && j <= w.end {
      assert w in Chain(a, b).ways;
    }
    if w :| !a.stop && w in b.ways && j <= w.end {
      assert w in Chain(a, b).ways;
    }
  }

  /** What the second search covers is covered by both, whether or not the first stopped. */
  lemma SecondCovers(a: Out, b: Out, j: nat, top: nat)
    requires a.stop ==> Covers(a, top)
    requires Covers(b, j) && j <= top
    ensures Covers(Chain(a, b), j)
  {
    ChainCovers(a, b, j);
    if w :| a.stop && w in a.ways && top <= w.end {
      assert w in Chain(a, b).ways;
    }
  }

  /** Completeness of rx_prova. */
  lemma {:induction false} TryComplete(env: Env, n: Node, s: nat, c: Caps, k: Cont, x: nat, e: Caps, j: nat, d: Caps)
    requires s <= |env.text| && x <= |env.text| && j <= |env.text|
    requires Lean(env, n, s, c, x, e) && ContLean(env, k, x, e, j, d)
    ensures Covers(Try(env, n, s, c, k), j)
    decreases |env.text| - s, NodeWork(n) + ContWork(k, s), 1
  {
    AfterWork(n.next, k, s);
    OpWorkDrops(n, s, k);
    assert Try(env, n, s, c, k) == Visit(TryOut(env, n, s, c, k));
    var rest := After(n.next, k);
    var y, f := LeanSplit(env, n, k, s, c, x, e, j, d);
    match n.op
    case Group(g, b) =>
      var h :| Lean(env, b, s, OpenGroup(c, g, s), y, h) && f == CloseGroup(h, g, y);
      TryComplete(env, b, s, OpenGroup(c, g, s), Close(g, rest), y, h, j, d);
    case Choice(bs) =>
      var i :| 0 <= i < |bs| && Lean(env, bs[i], s, c, y, f);
      TryAllComplete(env, bs, i, s, c, rest, y, f, j, d);
    case Repeat(_, _, _) => RepeatComplete(env, n, s, c, k, y, f, j, d);
    case _ => AdvanceComplete(env, y, c, rest, j, d);
  }

  lemma {:induction false} RepeatComplete(env: Env, n: Node, s: nat, c: Caps, k: Cont, x: nat, e: Caps, j: nat, d: Caps)
    requires s <= |env.text| && x <= |env.text| && j <= |env.text| && n.op.Repeat?
    requires OpLean(env, n, s, c, x, e) && ContLean(env, After(n.next, k), x, e, j, d)
    ensures Covers(Try(env, n, s, c, k), j)
    decreases |env.text| - s, NodeWork(n) + ContWork(k, s), 0
  {
    AfterWork(n.next, k, s);
    OpWorkDrops(n, s, k);
    assert Try(env, n, s, c, k) == Visit(TryOut(env, n, s, c, k));
    var Repeat(min, max, b) := n.op;
    var rest, turn := After(n.next, k), Turn(n, 0, s, k);
    var first := if max != 0 then Try(env, b, s, c, turn) else NOTHING;
    var second := if min == 0 then Advance(env, s, c, rest) else NOTHING;
    assert TurnsLean(env, b, min, max, 0, s, c, x, e);
    TryStops(env, b, s, c, turn);
    if min == 0 && x == s && e == c {
      AdvanceComplete(env, s, c, rest, j, d);
      SecondCovers(first, second, j, |env.text|);
    } else {
      var y: nat, f: Caps :| s <= y <= |env.text| && LeanTurn(env, b, min, 0, s, c, y, f)
        && TurnsLean(env, b, min, max, 1, y, f, x, e);
      AfterLean(env, n.next, k, x, e, j, d);
      assert ContLean(env, turn, y, f, j, d);
      TryComplete(env, b, s, c, turn, y, f, j, d);
      ChainCovers(first, second, j);
    }
  }

  lemma {:induction false} TryAllComplete(env: Env, bs: seq<Node>, i: nat, s: nat, c: Caps, k: Cont, x: nat, e: Caps, j: nat, d: Caps)
    requires s <= |env.text| && x <= |env.text| && j <= |env.text|
    requires i < |bs| && Lean(env, bs[i], s, c, x, e) && ContLean(env, k, x, e, j, d)
    ensures Covers(TryAll(env, bs, s, c, k), j)
    decreases |env.text| - s, BranchWork(bs) + ContWork(k, s), 1
  {
    var first := Try(env, bs[0], s, c, k);
    var second := TryAll(env, bs[1..], s, c, k);
    TryStops(env, bs[0], s, c, k);
    if i == 0 {
      TryComplete(env, bs[0], s, c, k, x, e, j, d);
      ChainCovers(first, second, j);
    } else {
      TryAllComplete(env, bs[1..], i - 1, s, c, k, x, e, j, d);
      SecondCovers(first, second, j, |env.text|);
    }
  }

  /** Completeness of rx_avanti. */
  lemma {:induction false} AdvanceComplete(env: Env, s: nat, c: Caps, k: Cont, j: nat, d: Caps)
    requires s <= |env.text| && j <= |env.text| && ContLean(env, k, s, c, j, d)
    ensures Covers(Advance(env, s, c, k), j)
    decreases |env.text| - s, ContWork(k, s), 1
  {
    match k
    case Done => assert Way(s, Finish(c, s)) in Advance(env, s, c, k).ways;
    case Then(n, rest) =>
      var x: nat, e: Caps :| x <= |env.text| && Lean(env, n, s, c, x, e) && ContLean(env, rest, x, e, j, d);
      TryComplete(env, n, s, c, rest, x, e, j, d);
    case Close(g, rest) => AdvanceComplete(env, s, CloseGroup(c, g, s), rest, j, d);
    case Turn(r, turns, from, rest) => TurnComplete(env, r, turns, from, s, c, rest, j, d);
  }

  lemma {:induction false} TurnComplete(env: Env, r: Node, turns: nat, from: nat, s: nat, c: Caps, rest: Cont, j: nat, d: Caps)
    requires s <= |env.text| && j <= |env.text| && ContLean(env, Turn(r, turns, from, rest), s, c, j, d)
    ensures Covers(TurnOut(env, r, turns, from, s, c, rest), j)
    decreases |env.text| - s, ContWork(Turn(r, turns, from, rest), s), 0
  {
    AfterWork(r.next, rest, s);
    TurnWorkDrops(r, turns, from, s, rest);
    var Repeat(min, max, b) := r.op;
    var turn := Turn(r, turns + 1, s, rest);
    var x: nat, e: Caps :| x <= |env.text|
      && TurnsLean(env, b, min, max, turns + 1, s, c, x, e) && NextContLean(env, r.next, rest, x, e, j, d);
    var first := if MayRepeat(r, turns + 1) then Try(env, b, s, c, turn) else NOTHING;
    var second := if min <= turns + 1 then Advance(env, s, c, After(r.next, rest)) else NOTHING;
    TryStops(env, b, s, c, turn);
    if min <= turns + 1 && x == s && e == c {
      AfterLean(env, r.next, rest, x, e, j, d);
      AdvanceComplete(env, s, c, After(r.next, rest), j, d);
      SecondCovers(first, second, j, |env.text|);
    } else {
      var z: nat, f: Caps :| s <= z <= |env.text| && LeanTurn(env, b, min, turns + 1, s, c, z, f)
        && TurnsLean(env, b, min, max, turns + 2, z, f, x, e);
      assert ContLean(env, turn, z, f, j, d);
      TryComplete(env, b, s, c, turn, z, f, j, d);
      ChainCovers(first, second, j);
    }
  }
}
