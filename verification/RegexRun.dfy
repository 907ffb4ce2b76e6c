/**
  The backtracking search as a function: every complete way in the order in
  which rx_prova and rx_avanti find them, how many nodes are visited, and
  whether the search stopped because a way reached the end of the text.

  The functions carry no step fuse. That Dafny accepts their decreases clauses
  is the proof that the search ends on every tree and text without it.
  */
module RegexRun {
  import opened Common
  import opened RegexTree

  /** RxSeguito: what comes after a node. */
  datatype Cont =
    | Done                                                    // NULL
    | Then(n: Node, rest: Cont)                               // tipo 0
    | Close(g: nat, rest: Cont)                               // tipo 1
    | Turn(r: Node, turns: nat, from: nat, rest: Cont)        // tipo 2, r.op.Repeat?

  datatype Way = Way(end: nat, caps: Caps)

  /** `at[i]`: how many nodes had been visited when `ways[i]` was found. */
  datatype Out = Out(ways: seq<Way>, at: seq<nat>, visits: nat, stop: bool)

  const NOTHING := Out([], [], 0, false)

  predicate OutOk(o: Out) {
    |o.at| == |o.ways| && forall i :: 0 <= i < |o.at| ==> o.at[i] <= o.visits
  }

  function Later(at: seq<nat>, n: nat): seq<nat> {
    seq(|at|, i requires 0 <= i < |at| => at[i] + n)
  }

  /** One search after another, the second only if the first did not stop. */
  function Chain(a: Out, b: Out): (o: Out)
    ensures OutOk(a) && OutOk(b) ==> OutOk(o)
  {
    if a.stop then a else Out(a.ways + b.ways, a.at + Later(b.at, a.visits), a.visits + b.visits, b.stop)
  }

  function Visit(a: Out): (o: Out)
    ensures OutOk(a) ==> OutOk(o)
  {
    a.(at := Later(a.at, 1), visits := a.visits + 1)
  }

  function After(next: Option<Node>, k: Cont): Cont {
    if next.Some? then Then(next.value, k) else k
  }

  predicate Unpruned(r: Node, turns: nat, from: nat, s: nat)
    requires r.op.Repeat?
  {
    s != from || turns + 1 <= r.op.min
  }

  predicate MayRepeat(r: Node, turns: nat)
    requires r.op.Repeat?
  {
    r.op.max < 0 || turns < r.op.max
  }

  // ----- the termination measure: work that can still be done at one position -----

  function Times(n: nat, w: nat): nat {
    if n == 0 then 0 else w + Times(n - 1, w)
  }

  function NodeWork(n: Node): nat {
    1 + OpWork(n.op) + NextWork(n.next)
  }

  function OpWork(op: Op): nat {
    match op
    case Group(_, b) => 2 + NodeWork(b)
    case Choice(bs) => 1 + BranchWork(bs)
    case Repeat(min, _, b) => 2 + NodeWork(b) + Times(min, NodeWork(b) + 1)
    case _ => 0
  }

  function BranchWork(bs: seq<Node>): nat {
    if bs == [] then 0 else 1 + NodeWork(bs[0]) + BranchWork(bs[1..])
  }

  function NextWork(next: Option<Node>): nat {
    if next.Some? then 1 + NodeWork(next.value) else 0
  }

  /** Turns of a repeat that can still be started at `s`: one if the text moved on, and the mandatory ones. */
  function TurnsLeft(r: Node, turns: nat, from: nat, s: nat): nat
    requires r.op.Repeat?
  {
    (if from != s then 1 else 0) + (if turns < r.op.min then r.op.min - turns else 0)
  }

  function ContWork(k: Cont, s: nat): nat {
    match k
    case Done => 0
    case Then(n, rest) => 1 + NodeWork(n) + ContWork(rest, s)
    case Close(_, rest) => 1 + ContWork(rest, s)
    case Turn(r, turns, from, rest) =>
      1 + (if r.op.Repeat? then Times(TurnsLeft(r, turns, from, s), NodeWork(r.op.body) + 1) else 0)
      + NextWork(r.next) + ContWork(rest, s)
  }

  lemma AfterWork(next: Option<Node>, k: Cont, s: nat)
    ensures ContWork(After(next, k), s) == NextWork(next) + ContWork(k, s)
  {
  }

  lemma OpWorkDrops(n: Node, s: nat, k: Cont)
    ensures n.op.Group? ==> NodeWork(n.op.body) + 1 < 1 + OpWork(n.op)
    ensures n.op.Choice? ==> BranchWork(n.op.branches) < 1 + OpWork(n.op)
    ensures n.op.Repeat? ==> NodeWork(n.op.body) + ContWork(Turn(n, 0, s, k), s) < NodeWork(n) + ContWork(k, s)
  {
  }

  lemma TurnWorkDrops(r: Node, turns: nat, from: nat, s: nat, k: Cont)
    requires r.op.Repeat? && Unpruned(r, turns, from, s)
    ensures NodeWork(r.op.body) + ContWork(Turn(r, turns + 1, s, k), s) < ContWork(Turn(r, turns, from, k), s)
  {
    var w := NodeWork(r.op.body) + 1;
    var left := TurnsLeft(r, turns, from, s);
    var next := TurnsLeft(r, turns + 1, s, s);
    assert left > next;
    assert Times(left, w) == w + Times(left - 1, w);
    TimesMonotone(next, left - 1, w);
  }

  lemma TimesMonotone(a: nat, b: nat, w: nat)
    requires a <= b
    ensures Times(a, w) <= Times(b, w)
  {
  }

  // ----- the search -----

  /** rx_prova, its visit counted. */
  function Try(env: Env, n: Node, s: nat, c: Caps, k: Cont): (o: Out)
    requires s <= |env.text|
    ensures OutOk(o)
    decreases |env.text| - s, NodeWork(n) + ContWork(k, s), 2
  {
    Visit(TryOut(env, n, s, c, k))
  }

  function TryOut(env: Env, n: Node, s: nat, c: Caps, k: Cont): (o: Out)
    requires s <= |env.text|
    ensures OutOk(o)
    decreases |env.text| - s, NodeWork(n) + ContWork(k, s), 1
  {
    AfterWork(n.next, k, s);
    OpWorkDrops(n, s, k);
    var rest := After(n.next, k);
    match n.op
    case Group(g, b) => Try(env, b, s, OpenGroup(c, g, s), Close(g, rest))
    case Choice(bs) => TryAll(env, bs, s, c, rest)
    case Repeat(min, max, b) =>
      Chain(if max != 0 then Try(env, b, s, c, Turn(n, 0, s, k)) else NOTHING,
            if min == 0 then Advance(env, s, c, rest) else NOTHING)
    case _ =>
      var e := StepEnd(env, n.op, c, s);
      if e.Some? then Advance(env, e.value, c, rest) else NOTHING
  }

  /** the loop over the branches of RX_SCELTA */
  function TryAll(env: Env, bs: seq<Node>, s: nat, c: Caps, k: Cont): (o: Out)
    requires s <= |env.text|
    ensures OutOk(o)
    decreases |env.text| - s, BranchWork(bs) + ContWork(k, s), 1
  {
    if bs == [] then NOTHING
    else Chain(Try(env, bs[0], s, c, k), TryAll(env, bs[1..], s, c, k))
  }

  /** rx_avanti */
  function Advance(env: Env, s: nat, c: Caps, k: Cont): (o: Out)
    requires s <= |env.text|
    ensures OutOk(o)
    decreases |env.text| - s, ContWork(k, s), 1
  {
    match k
    case Done => Out([Way(s, Finish(c, s))], [0], 0, s == |env.text|)
    case Then(n, rest) => Try(env, n, s, c, rest)
    case Close(g, rest) => Advance(env, s, CloseGroup(c, g, s), rest)
    case Turn(r, turns, from, rest) =>
      if !r.op.Repeat? || !Unpruned(r, turns, from, s) then NOTHING else TurnOut(env, r, turns, from, s, c, rest)
  }

  /** After a turn that was not an idle one: another turn, then what comes after the repeat. */
  function TurnOut(env: Env, r: Node, turns: nat, from: nat, s: nat, c: Caps, k: Cont): (o: Out)
    requires s <= |env.text| && r.op.Repeat? && Unpruned(r, turns, from, s)
    ensures OutOk(o)
    decreases |env.text| - s, ContWork(Turn(r, turns, from, k), s), 0
  {
    AfterWork(r.next, k, s);
    TurnWorkDrops(r, turns, from, s, k);
    Chain(if MayRepeat(r, turns + 1) then Try(env, r.op.body, s, c, Turn(r, turns + 1, s, k)) else NOTHING,
          if r.op.min <= turns + 1 then Advance(env, s, c, After(r.next, k)) else NOTHING)
  }
}
