/**
  What a FOR does, with its comparisons and its arithmetic written out: which
  values the turns see, how many turns there are and what the variable holds
  afterwards, for variables held as doubles and as integers.
  */
module BasicLoops {
  import opened BasicCode
  import opened BasicMachine
  import BasicCorrect

  /** The value of a variable: an integer variable by its integer field, any other by its double. */
  function Shown(x: Var): real {
    if x.kind == IntType then x.i as real else x.d
  }

  /** Beyond the limit, in the direction of the step; a step of 0 counts upward. */
  predicate Past(x: real, limit: real, step: real) {
    (step >= 0.0 && limit < x) || (step < 0.0 && x < limit)
  }

  /** NEXT: the step is added; an integer variable keeps the part before the decimal point. */
  function Stepped(x: Var, step: real): Var {
    var sum := Shown(x) + step;
    if x.kind != IntType then x.(d := sum)
    else if sum >= 0.0 then x.(i := sum.Floor)
    else x.(i := -((-sum).Floor))
  }

  function After(x: Var, step: real, k: nat): Var {
    if k == 0 then x else Stepped(After(x, step, k - 1), step)
  }

  /** Before the turn `k`, counted from 0, the value is not past the limit; for an integer variable before it is cut. */
  predicate Turns(x: Var, limit: real, step: real, k: nat) {
    if k == 0 then !Past(Shown(x), limit, step) else !Past(Shown(After(x, step, k - 1)) + step, limit, step)
  }

  /** There are exactly `n` turns. */
  ghost predicate Makes(x: Var, limit: real, step: real, n: nat) {
    (forall k: nat :: k < n ==> Turns(x, limit, step, k)) && !Turns(x, limit, step, n)
  }

  // ----- the body -----

  /** From this store the body ends normally, with this much fuel, and leaves the variable alone. */
  predicate Tame(w: World, a: Cmd, v: string, fors: nat, calls: nat, base: nat, s: Store) {
    && !s.error && v in s.vars
    && var o := Exec(w, a, s, fors, calls, base);
       o.Normal? && !o.store.error && v in o.store.vars && o.store.vars[v] == s.vars[v]
  }

  /** What the body makes of a store. */
  function Done(w: World, a: Cmd, s: Store, fors: nat, calls: nat, base: nat): Store {
    var o := Exec(w, a, s, fors, calls, base);
    if o.Normal? then o.store else s
  }

  /** The store in which turn `k` begins: the body's, with the variable stepped. */
  function Begins(w: World, c: Cmd, step: real, s: Store, fors: nat, calls: nat, base: nat, k: nat): (b: Store)
    requires c.ForTo? && c.v in s.vars
    ensures c.v in b.vars && b.vars[c.v] == After(s.vars[c.v], step, k)
  {
    if k == 0 then s
    else
      var b := Done(w, c.a, Begins(w, c, step, s, fors, calls, base, k - 1), fors, calls, base);
      b.(vars := b.vars[c.v := After(s.vars[c.v], step, k)])
  }

  /** In each of the first `n` turns the body ends normally and leaves the variable alone. */
  ghost predicate TameTurns(w: World, c: Cmd, step: real, s: Store, fors: nat, calls: nat, base: nat, n: nat)
    requires c.ForTo? && c.v in s.vars
  {
    forall k: nat :: k < n ==> Tame(w, c.a, c.v, fors, calls, base, Begins(w, c, step, s, fors, calls, base, k))
  }

  // ----- one turn -----

  lemma StepIs(s: Store, v: string, step: real)
    requires v in s.vars
    ensures Current(s, v) == Shown(s.vars[v])
    ensures SetCurrent(s, v, Current(s, v) + step) == s.(vars := s.vars[v := Stepped(s.vars[v], step)])
  {
  }

  lemma ContinuesIs(x: real, limit: real, step: real)
    ensures Continues(x, limit, step) <==> !Past(x, limit, step)
  {
  }

  /** The store after NEXT. */
  function Stepping(w: World, c: Cmd, step: real, s: Store, fors: nat, calls: nat, base: nat): Store
    requires c.ForTo? && c.v in s.vars
  {
    var b := Done(w, c.a, s, fors, calls, base);
    b.(vars := b.vars[c.v := Stepped(s.vars[c.v], step)])
  }

  lemma BeginsNext(w: World, c: Cmd, step: real, s: Store, fors: nat, calls: nat, base: nat, k: nat)
    requires c.ForTo? && c.v in s.vars
    ensures Begins(w, c, step, s, fors, calls, base, k + 1)
         == Stepping(w, c, step, Begins(w, c, step, s, fors, calls, base, k), fors, calls, base)
  {
  }

  /** The body, then NEXT; with less fuel than the body needs there may be no outcome. */
  lemma OneTurn(w: World, c: Cmd, limit: real, step: real, s: Store, fors: nat, calls: nat, base: nat, fuel: nat)
    requires c.ForTo? && Tame(w, c.a, c.v, fors + 1, calls, base, s)
    ensures var o := ExecFor(w, c, limit, step, s, fors, calls, fuel);
            || (fuel < base && o == Timeout)
            || o == var next := Stepping(w, c, step, s, fors + 1, calls, base);
                    if Past(Shown(s.vars[c.v]) + step, limit, step) then Normal(next)
                    else if fuel == 0 then Timeout
                    else ExecFor(w, c, limit, step, next, fors, calls, fuel - 1)
  {
    if fuel >= base {
      BasicCorrect.MoreFuel(w, c.a, s, fors + 1, calls, base, fuel);
    } else if !Exec(w, c.a, s, fors + 1, calls, fuel).Timeout? {
      BasicCorrect.MoreFuel(w, c.a, s, fors + 1, calls, fuel, base);
    }
    StepIs(Done(w, c.a, s, fors + 1, calls, base), c.v, step);
    ContinuesIs(Shown(s.vars[c.v]) + step, limit, step);
  }

  /** From the beginning of turn `k` to the end of turn `n - 1`. */
  lemma {:induction false} TurnsFrom(w: World, c: Cmd, limit: real, step: real, s: Store, fors: nat, calls: nat, base: nat,
                                     fuel: nat, k: nat, n: nat)
    requires c.ForTo? && c.v in s.vars && Makes(s.vars[c.v], limit, step, n) && k < n && fuel >= base + n - k
    requires TameTurns(w, c, step, s, fors + 1, calls, base, n)
    ensures ExecFor(w, c, limit, step, Begins(w, c, step, s, fors + 1, calls, base, k), fors, calls, fuel)
         == Normal(Begins(w, c, step, s, fors + 1, calls, base, n))
    decreases n - k
  {
    var b := Begins(w, c, step, s, fors + 1, calls, base, k);
    assert Tame(w, c.a, c.v, fors + 1, calls, base, b);
    OneTurn(w, c, limit, step, b, fors, calls, base, fuel);
    BeginsNext(w, c, step, s, fors + 1, calls, base, k);
    assert k + 1 < n ==> Turns(s.vars[c.v], limit, step, k + 1);
    if k + 1 < n { TurnsFrom(w, c, limit, step, s, fors, calls, base, fuel - 1, k + 1, n); }
  }

  /** The FOR line of `c` in store `s`: no error, and there is a frame for it. */
  predicate Entered(w: World, c: Cmd, s: Store, fors: nat) {
    && c.ForTo?
    && var h := w.host.init(c.v, c.t, s);
       !h.store.error && c.v in h.store.vars && (w.capped ==> fors < FOR_MAX)
  }

  /**
    A FOR whose body ends normally and leaves the variable alone, with any
    start, limit and step: it ends after exactly the turns that are not past
    the limit, turn `k` begins with the start stepped `k` times, and so does
    what comes after the loop with `k` the number of turns.
    */
  lemma ForMakes(w: World, c: Cmd, s: Store, fors: nat, calls: nat, base: nat, fuel: nat, n: nat)
    requires Entered(w, c, s, fors) && fuel >= base + n
    requires var h := w.host.init(c.v, c.t, s);
             Makes(h.store.vars[c.v], h.limit, h.step, n) && TameTurns(w, c, h.step, h.store, fors + 1, calls, base, n)
    ensures var h := w.host.init(c.v, c.t, s);
            Exec(w, c, s, fors, calls, fuel) == Normal(Begins(w, c, h.step, h.store, fors + 1, calls, base, n))
  {
    var h := w.host.init(c.v, c.t, s);
    StepIs(h.store, c.v, h.step);
    ContinuesIs(Shown(h.store.vars[c.v]), h.limit, h.step);
    if n > 0 {
      assert Turns(h.store.vars[c.v], h.limit, h.step, 0);
      TurnsFrom(w, c, h.limit, h.step, h.store, fors, calls, base, fuel, 0, n);
    }
  }

  /** A loop that has no last turn never ends. */
  ghost predicate Endless(x: Var, limit: real, step: real) {
    forall k: nat :: Turns(x, limit, step, k)
  }

  ghost predicate AlwaysTame(w: World, c: Cmd, step: real, s: Store, fors: nat, calls: nat, base: nat)
    requires c.ForTo? && c.v in s.vars
  {
    forall n: nat :: Tame(w, c.a, c.v, fors, calls, base, Begins(w, c, step, s, fors, calls, base, n))
  }

  lemma {:induction false} EndlessFrom(w: World, c: Cmd, limit: real, step: real, s: Store, fors: nat, calls: nat, base: nat,
                                       fuel: nat, k: nat)
    requires c.ForTo? && c.v in s.vars && Endless(s.vars[c.v], limit, step)
    requires AlwaysTame(w, c, step, s, fors + 1, calls, base)
    ensures ExecFor(w, c, limit, step, Begins(w, c, step, s, fors + 1, calls, base, k), fors, calls, fuel) == Timeout
    decreases fuel
  {
    var b := Begins(w, c, step, s, fors + 1, calls, base, k);
    assert Tame(w, c.a, c.v, fors + 1, calls, base, b);
    assert Turns(s.vars[c.v], limit, step, k + 1);
    OneTurn(w, c, limit, step, b, fors, calls, base, fuel);
    BeginsNext(w, c, step, s, fors + 1, calls, base, k);
    if fuel > 0 { EndlessFrom(w, c, limit, step, s, fors, calls, base, fuel - 1, k + 1); }
  }

  lemma ForEndless(w: World, c: Cmd, s: Store, fors: nat, calls: nat, base: nat, fuel: nat)
    requires Entered(w, c, s, fors)
    requires var h := w.host.init(c.v, c.t, s);
             Endless(h.store.vars[c.v], h.limit, h.step) && AlwaysTame(w, c, h.step, h.store, fors + 1, calls, base)
    ensures Exec(w, c, s, fors, calls, fuel) == Timeout
  {
    var h := w.host.init(c.v, c.t, s);
    StepIs(h.store, c.v, h.step);
    ContinuesIs(Shown(h.store.vars[c.v]), h.limit, h.step);
    assert Turns(h.store.vars[c.v], h.limit, h.step, 0);
    EndlessFrom(w, c, h.limit, h.step, h.store, fors, calls, base, fuel, 0);
  }

  // ----- how many turns -----

  /** `k` steps from the start. */
  function Reached(start: real, step: real, k: nat): real {
    start + k as real * step
  }

  lemma ReachedNext(start: real, step: real, k: nat)
    requires k > 0
    ensures Reached(start, step, k - 1) + step == Reached(start, step, k)
  {
  }

  lemma {:induction false} AfterDouble(x: Var, step: real, k: nat)
    requires x.kind != IntType
    ensures After(x, step, k) == x.(d := Reached(x.d, step, k))
  {
    if k > 0 {
      AfterDouble(x, step, k - 1);
      ReachedNext(x.d, step, k);
    }
  }

  /** The turns of a variable held as a double: 0 if the start is past the limit, else the whole steps to it and one. */
  function Count(start: real, limit: real, step: real): nat
    requires step != 0.0
  {
    if Past(start, limit, step) then 0
    else
      Quotient(limit - start, step);
      ((limit - start) / step).Floor + 1
  }

  lemma Quotient(x: real, y: real)
    requires (y > 0.0 && x >= 0.0) || (y < 0.0 && x <= 0.0)
    ensures x / y >= 0.0
  {
  }

  lemma StepsFit(x: real, y: real, k: nat)
    requires y != 0.0
    ensures y > 0.0 ==> (k as real * y <= x <==> k as real <= x / y)
    ensures y < 0.0 ==> (k as real * y >= x <==> k as real <= x / y)
  {
  }

  /** So many turns are not past the limit. */
  lemma CountIs(start: real, limit: real, step: real, k: nat)
    requires step != 0.0
    ensures k < Count(start, limit, step) <==> !Past(Reached(start, step, k), limit, step)
  {
    StepsFit(limit - start, step, k);
  }

  lemma DoubleTurns(x: Var, limit: real, step: real, k: nat)
    requires x.kind != IntType
    ensures Turns(x, limit, step, k) <==> !Past(Reached(x.d, step, k), limit, step)
  {
    if k > 0 {
      AfterDouble(x, step, k - 1);
      ReachedNext(x.d, step, k);
    }
  }

  lemma DoubleMakes(x: Var, limit: real, step: real)
    requires x.kind != IntType && step != 0.0
    ensures Makes(x, limit, step, Count(x.d, limit, step))
  {
    var n := Count(x.d, limit, step);
    forall k: nat ensures Turns(x, limit, step, k) <==> k < n {
      DoubleTurns(x, limit, step, k);
      CountIs(x.d, limit, step, k);
    }
  }

  /**
    A variable held as a double, counted up or down: turn `k` sees the start
    and `k` steps, exactly while that is not past the limit; there are so many
    turns, and that many steps are in the variable afterwards.
    */
  lemma DoubleFor(w: World, c: Cmd, s: Store, fors: nat, calls: nat, base: nat, fuel: nat, h: Header, x: Var, n: nat)
    requires Entered(w, c, s, fors) && h == w.host.init(c.v, c.t, s) && x == h.store.vars[c.v]
    requires x.kind != IntType && h.step != 0.0 && n == Count(x.d, h.limit, h.step)
    requires fuel >= base + n && TameTurns(w, c, h.step, h.store, fors + 1, calls, base, n)
    ensures Exec(w, c, s, fors, calls, fuel) == Normal(Begins(w, c, h.step, h.store, fors + 1, calls, base, n))
    ensures forall k: nat :: k < n <==> !Past(Reached(x.d, h.step, k), h.limit, h.step)
    ensures forall k: nat :: After(x, h.step, k) == x.(d := Reached(x.d, h.step, k))
  {
    forall k: nat ensures k < n <==> !Past(Reached(x.d, h.step, k), h.limit, h.step) {
      CountIs(x.d, h.limit, h.step, k);
    }
    forall k: nat ensures After(x, h.step, k) == x.(d := Reached(x.d, h.step, k)) {
      AfterDouble(x, h.step, k);
    }
    DoubleMakes(x, h.limit, h.step);
    ForMakes(w, c, s, fors, calls, base, fuel, n);
  }

  /** With a step of 0 there is no turn, or no end. */
  lemma ZeroStep(x: Var, limit: real)
    requires x.kind != IntType
    ensures if limit < x.d then Makes(x, limit, 0.0, 0) else Endless(x, limit, 0.0)
  {
    forall k: nat ensures Turns(x, limit, 0.0, k) <==> !Past(x.d, limit, 0.0) {
      DoubleTurns(x, limit, 0.0, k);
    }
  }

  // ----- integer variables -----

  lemma WholeStep(x: Var, step: int)
    requires x.kind == IntType
    ensures Stepped(x, step as real) == x.(i := x.i + step)
  {
    var sum := x.i as real + step as real;
    assert sum == (x.i + step) as real;
    assert (-sum) == (-(x.i + step)) as real;
  }

  lemma TimesNext(step: int, k: nat)
    requires k > 0
    ensures (k - 1) * step + step == k * step
  {
  }

  lemma {:induction false} AfterWhole(x: Var, step: int, k: nat)
    requires x.kind == IntType
    ensures After(x, step as real, k) == x.(i := x.i + k * step)
  {
    if k > 0 {
      AfterWhole(x, step, k - 1);
      WholeStep(After(x, step as real, k - 1), step);
      TimesNext(step, k);
    }
  }

  lemma ReachedWhole(start: int, step: int, k: nat)
    ensures Reached(start as real, step as real, k) == (start + k * step) as real
  {
    RealProduct(k, step);
  }

  lemma {:induction false} RealProduct(k: nat, step: int)
    ensures k as real * step as real == (k * step) as real
  {
    if k > 0 {
      RealProduct(k - 1, step);
      TimesNext(step, k);
      ReachedNext(0.0, step as real, k);
    }
  }

  lemma WholeTurns(x: Var, limit: real, step: int, k: nat)
    requires x.kind == IntType
    ensures Turns(x, limit, step as real, k) <==> !Past(Reached(x.i as real, step as real, k), limit, step as real)
  {
    if k > 0 {
      AfterWhole(x, step, k - 1);
      ReachedWhole(x.i, step, k - 1);
      ReachedNext(x.i as real, step as real, k);
    }
  }

  lemma WholeMakes(x: Var, limit: real, step: int)
    requires x.kind == IntType && step != 0
    ensures Makes(x, limit, step as real, Count(x.i as real, limit, step as real))
  {
    var start, stepBy := x.i as real, step as real;
    var n := Count(start, limit, stepBy);
    forall k: nat ensures Turns(x, limit, stepBy, k) <==> k < n {
      WholeTurns(x, limit, step, k);
      CountIs(start, limit, stepBy, k);
    }
  }

  /** An integer variable with a whole step: the same, in whole numbers. */
  lemma WholeFor(w: World, c: Cmd, s: Store, fors: nat, calls: nat, base: nat, fuel: nat, h: Header, x: Var, step: int, n: nat)
    requires Entered(w, c, s, fors) && h == w.host.init(c.v, c.t, s) && x == h.store.vars[c.v]
    requires x.kind == IntType && h.step == step as real && step != 0 && n == Count(x.i as real, h.limit, h.step)
    requires fuel >= base + n && TameTurns(w, c, h.step, h.store, fors + 1, calls, base, n)
    ensures Exec(w, c, s, fors, calls, fuel) == Normal(Begins(w, c, h.step, h.store, fors + 1, calls, base, n))
    ensures var start := x.i as real; forall k: nat :: k < n <==> !Past(Reached(start, h.step, k), h.limit, h.step)
    ensures forall k: nat :: After(x, h.step, k) == x.(i := x.i + k * step)
  {
    var start := x.i as real;
    forall k: nat ensures k < n <==> !Past(Reached(start, h.step, k), h.limit, h.step) {
      CountIs(start, h.limit, h.step, k);
    }
    forall k: nat ensures After(x, h.step, k) == x.(i := x.i + k * step) {
      AfterWhole(x, step, k);
    }
    WholeMakes(x, h.limit, step);
    ForMakes(w, c, s, fors, calls, base, fuel, n);
  }

  // ----- integer variables with a step of less than 1 -----

  /** The part before the decimal point of a sum moves toward 0, and stays where it is from there on. */
  lemma FractionStep(x: Var, step: real)
    requires x.kind == IntType && -1.0 < step < 1.0 && step != 0.0
    ensures Stepped(x, step) == if step > 0.0 && x.i < 0 then x.(i := x.i + 1)
                                else if step < 0.0 && x.i > 0 then x.(i := x.i - 1)
                                else x
  {
  }

  /** Where the variable stops moving. */
  function Stuck(i: int, step: real): int {
    if step > 0.0 && i < 0 then 0 else if step < 0.0 && i > 0 then 0 else i
  }

  lemma {:induction false} AfterFraction(x: Var, step: real, k: nat)
    requires x.kind == IntType && -1.0 < step < 1.0 && step != 0.0
    ensures var y := After(x, step, k);
            && y.kind == IntType && Stuck(y.i, step) == Stuck(x.i, step)
            && (step > 0.0 ==> y.i == if x.i + k <= 0 then x.i + k else Stuck(x.i, step))
            && (step < 0.0 ==> y.i == if x.i - k >= 0 then x.i - k else Stuck(x.i, step))
  {
    if k > 0 {
      AfterFraction(x, step, k - 1);
      FractionStep(After(x, step, k - 1), step);
    }
  }

  /**
    An integer variable with a step of less than 1 moves toward 0 and no
    further: the loop never ends if and only if it is entered and the value at
    which it stops moving is not past the limit after one more step.
    */
  lemma FractionEndless(x: Var, limit: real, step: real)
    requires x.kind == IntType && -1.0 < step < 1.0 && step != 0.0
    ensures Endless(x, limit, step)
       <==> !Past(x.i as real, limit, step) && !Past(Stuck(x.i, step) as real + step, limit, step)
  {
    if Endless(x, limit, step) {
      var k: nat := if x.i < 0 then -x.i else x.i;
      AfterFraction(x, step, k);
      assert Turns(x, limit, step, 0) && Turns(x, limit, step, k + 1);
    }
    if !Past(x.i as real, limit, step) && !Past(Stuck(x.i, step) as real + step, limit, step) {
      forall k: nat ensures Turns(x, limit, step, k) {
        if k > 0 { AfterFraction(x, step, k - 1); }
      }
    }
  }
}
