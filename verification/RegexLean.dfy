/**
  Lean derivations: those in which every turn of a repeat beyond its minimum
  takes some text. They are what the search looks for: it gives up a turn that
  took nothing once the mandatory turns are done.
  */
module RegexLean {
  import opened Common
  import opened RegexTree
  import opened RegexRun
  import opened RegexSemantics

  ghost predicate Lean(env: Env, n: Node, i: nat, c: Caps, j: nat, d: Caps)
    requires i <= |env.text|
    decreases n, 1, 0, 0
  {
    match n.next
    case None => OpLean(env, n, i, c, j, d)
    case Some(m) => exists x: nat, e: Caps | x <= |env.text| :: OpLean(env, n, i, c, x, e) && Lean(env, m, x, e, j, d)
  }

  ghost predicate OpLean(env: Env, n: Node, i: nat, c: Caps, j: nat, d: Caps)
    requires i <= |env.text|
    decreases n, 0, 0, 0
  {
    match n.op
    case Group(g, b) => exists e :: Lean(env, b, i, OpenGroup(c, g, i), j, e) && d == CloseGroup(e, g, j)
    case Choice(bs) => exists x :: 0 <= x < |bs| && Lean(env, bs[x], i, c, j, d)
    case Repeat(min, max, b) => TurnsLean(env, b, min, max, 0, i, c, j, d)
    case _ => StepEnd(env, n.op, c, i) == Some(j) && d == c
  }

  /** `done` turns were taken at `i`; more of them, lean ones, lead to `j`. */
  ghost predicate TurnsLean(env: Env, b: Node, min: nat, max: int, done: nat, i: nat, c: Caps, j: nat, d: Caps)
    requires i <= |env.text|
    decreases b, 2, |env.text| - i, if done < min then min - done else 0
  {
    || (min <= done && j == i && d == c)
    || ((max < 0 || done < max) && exists x: nat, e: Caps | i <= x <= |env.text| ::
          LeanTurn(env, b, min, done, i, c, x, e) && TurnsLean(env, b, min, max, done + 1, x, e, j, d))
  }

  ghost predicate LeanTurn(env: Env, b: Node, min: nat, done: nat, i: nat, c: Caps, x: nat, e: Caps)
    requires i <= |env.text|
    ensures LeanTurn(env, b, min, done, i, c, x, e) ==> i != x || done + 1 <= min
    decreases b, 1, 1, 0
  {
    (i != x || done + 1 <= min) && Lean(env, b, i, c, x, e)
  }

  // ----- a lean derivation is a derivation -----

  lemma {:induction false} LeanDerives(env: Env, n: Node, i: nat, c: Caps, j: nat, d: Caps)
    requires i <= |env.text| && Lean(env, n, i, c, j, d)
    ensures Derives(env, n, i, c, j, d)
    decreases n, 1, 0, 0
  {
    match n.next
    case None => OpLeanDerives(env, n, i, c, j, d);
    case Some(m) =>
      var x: nat, e: Caps :| x <= |env.text| && OpLean(env, n, i, c, x, e) && Lean(env, m, x, e, j, d);
      OpLeanDerives(env, n, i, c, x, e);
      LeanDerives(env, m, x, e, j, d);
  }

  lemma {:induction false} OpLeanDerives(env: Env, n: Node, i: nat, c: Caps, j: nat, d: Caps)
    requires i <= |env.text| && OpLean(env, n, i, c, j, d)
    ensures OpDerives(env, n.op, i, c, j, d)
    decreases n, 0, 0, 0
  {
    match n.op
    case Group(g, b) =>
      var e :| Lean(env, b, i, OpenGroup(c, g, i), j, e) && d == CloseGroup(e, g, j);
      LeanDerives(env, b, i, OpenGroup(c, g, i), j, e);
    case Choice(bs) =>
      var x :| 0 <= x < |bs| && Lean(env, bs[x], i, c, j, d);
      LeanDerives(env, bs[x], i, c, j, d);
    case Repeat(min, max, b) =>
      var count := TurnsLeanDerive(env, b, min, max, 0, i, c, j, d);
    case _ =>
  }

  lemma {:induction false} TurnsLeanDerive(env: Env, b: Node, min: nat, max: int, done: nat, i: nat, c: Caps, j: nat, d: Caps)
    returns (count: nat)
    requires i <= |env.text| && (max < 0 || done <= max) && TurnsLean(env, b, min, max, done, i, c, j, d)
    ensures min <= done + count && (max < 0 || done + count <= max) && TurnsDerive(env, b, count, i, c, j, d)
    decreases b, 2, |env.text| - i, if done < min then min - done else 0
  {
    if min <= done && j == i && d == c { return 0; }
    var x: nat, e: Caps :| i <= x <= |env.text| && LeanTurn(env, b, min, done, i, c, x, e)
      && TurnsLean(env, b, min, max, done + 1, x, e, j, d);
    LeanDerives(env, b, i, c, x, e);
    var rest := TurnsLeanDerive(env, b, min, max, done + 1, x, e, j, d);
    count := rest + 1;
  }

  lemma LeanForward(env: Env, n: Node, i: nat, c: Caps, j: nat, d: Caps)
    requires i <= |env.text| && Lean(env, n, i, c, j, d)
    ensures i <= j <= |env.text|
  {
    LeanDerives(env, n, i, c, j, d);
    DerivesForward(env, n, i, c, j, d);
  }

  // ----- the same for continuations -----

  /** What may still follow at `i`, with lean turns. */
  ghost predicate ContLean(env: Env, k: Cont, i: nat, c: Caps, j: nat, d: Caps)
    requires i <= |env.text|
    decreases k, 0
  {
    match k
    case Done => j == i && d == Finish(c, i)
    case Then(n, rest) => exists x: nat, e: Caps | x <= |env.text| :: Lean(env, n, i, c, x, e) && ContLean(env, rest, x, e, j, d)
    case Close(g, rest) => ContLean(env, rest, i, CloseGroup(c, g, i), j, d)
    case Turn(r, turns, from, rest) =>
      && r.op.Repeat? && Unpruned(r, turns, from, i)
      && exists x: nat, e: Caps | x <= |env.text| ::
           && TurnsLean(env, r.op.body, r.op.min, r.op.max, turns + 1, i, c, x, e)
           && NextContLean(env, r.next, rest, x, e, j, d)
  }

  /** ContLean(env, After(next, k), i, c, j, d), as a recursion on `k`. */
  ghost predicate NextContLean(env: Env, next: Option<Node>, k: Cont, i: nat, c: Caps, j: nat, d: Caps)
    requires i <= |env.text|
    decreases k, 1
  {
    match next
    case None => ContLean(env, k, i, c, j, d)
    case Some(n) => exists x: nat, e: Caps | x <= |env.text| :: Lean(env, n, i, c, x, e) && ContLean(env, k, x, e, j, d)
  }

  lemma AfterLean(env: Env, next: Option<Node>, k: Cont, i: nat, c: Caps, j: nat, d: Caps)
    requires i <= |env.text|
    ensures NextContLean(env, next, k, i, c, j, d) <==> ContLean(env, After(next, k), i, c, j, d)
  {
  }

  /** A lean derivation of a node, then of what follows it. */
  lemma LeanSplit(env: Env, n: Node, k: Cont, i: nat, c: Caps, x: nat, e: Caps, j: nat, d: Caps) returns (y: nat, f: Caps)
    requires i <= |env.text| && x <= |env.text| && Lean(env, n, i, c, x, e) && ContLean(env, k, x, e, j, d)
    ensures y <= |env.text| && OpLean(env, n, i, c, y, f) && ContLean(env, After(n.next, k), y, f, j, d)
  {
    if n.next.Some? {
      y, f :| y <= |env.text| && OpLean(env, n, i, c, y, f) && Lean(env, n.next.value, y, f, x, e);
    } else {
      y, f := x, e;
    }
  }

  /** And back: a node, then what follows it. */
  lemma LeanJoin(env: Env, n: Node, k: Cont, i: nat, c: Caps, y: nat, f: Caps, j: nat, d: Caps) returns (x: nat, e: Caps)
    requires i <= |env.text| && y <= |env.text| && OpLean(env, n, i, c, y, f) && ContLean(env, After(n.next, k), y, f, j, d)
    ensures x <= |env.text| && Lean(env, n, i, c, x, e) && ContLean(env, k, x, e, j, d)
  {
    if n.next.Some? {
      x, e :| x <= |env.text| && Lean(env, n.next.value, y, f, x, e) && ContLean(env, k, x, e, j, d);
    } else {
      x, e := y, f;
    }
  }
}
