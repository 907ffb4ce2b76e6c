/**
  The machine computes the meaning of structured programs: it halts exactly
  when the meaning is defined, and with the same store.
  */
module BasicCorrect {
  import opened BasicCode
  import opened BasicMachine

  ghost predicate SameRun(x: Code, m: State, j: nat, m1: State, n: nat) {
    Run(x, m, j + n) == Run(x, m1, n)
  }

  /** `j` steps lead from `m` to `m1`. */
  ghost predicate Goes(x: Code, m: State, j: nat, m1: State) {
    forall n: nat :: SameRun(x, m, j, m1, n)
  }

  lemma GoesStep(x: Code, m: State)
    requires !Halted(x, m)
    ensures Goes(x, m, 1, Step(x, m))
  {
  }

  lemma GoesTrans(x: Code, m: State, i: nat, m1: State, j: nat, m2: State)
    requires Goes(x, m, i, m1) && Goes(x, m1, j, m2)
    ensures Goes(x, m, i + j, m2)
  {
    var k := i + j;
    forall n: nat ensures SameRun(x, m, k, m2, n) {
      assert SameRun(x, m, i, m1, j + n) && SameRun(x, m1, j, m2, n);
    }
  }

  ghost predicate FramedAt(x: Code, m: State, i: nat) {
    !Frameless(x, Run(x, m, i))
  }

  /** `j` steps lead from `m` to `m1`, and every FOR on the way that goes on gets a frame. */
  ghost predicate Leads(x: Code, m: State, j: nat, m1: State) {
    Goes(x, m, j, m1) && forall i: nat :: i < j ==> FramedAt(x, m, i)
  }

  lemma LeadsStep(x: Code, m: State)
    requires !Halted(x, m) && !Frameless(x, m)
    ensures Leads(x, m, 1, Step(x, m))
  {
    GoesStep(x, m);
    assert Run(x, m, 0) == m;
  }

  lemma LeadsTrans(x: Code, m: State, i: nat, m1: State, j: nat, m2: State)
    requires Leads(x, m, i, m1) && Leads(x, m1, j, m2)
    ensures Leads(x, m, i + j, m2)
  {
    GoesTrans(x, m, i, m1, j, m2);
    forall n: nat | n < i + j ensures FramedAt(x, m, n) {
      if n >= i { assert SameRun(x, m, i, m1, n - i) && FramedAt(x, m1, n - i); }
    }
  }

  /** A program and its linked lines, with the labels of its subroutines. */
  ghost predicate Loaded(x: Code, p: Program) {
    ProgramCoded(x.lines, p, true) && x.labels == Labels(p.subs, Size(p.main) + 1)
  }

  /** Subroutine `l` is where its label says, with a RETURN after it. */
  ghost predicate SubReady(x: Code, p: Program, l: nat) {
    l < |p.subs| ==>
      && l < |x.labels| && x.labels[l] + Size(p.subs[l]) < |x.lines|
      && Coded(x.lines, p.subs[l], x.labels[l], true) && x.lines[x.labels[l] + Size(p.subs[l])] == Bare(Return)
  }

  ghost predicate SubsReady(x: Code, p: Program) {
    |x.labels| == |p.subs| && forall l: nat {:trigger SubReady(x, p, l)} :: SubReady(x, p, l)
  }

  /** The command is at `k`, its subroutines are where the labels say. */
  ghost predicate Ready(x: Code, p: Program, c: Cmd, k: nat) {
    SubsReady(x, p) && k + Size(c) <= |x.lines| && Coded(x.lines, c, k, true)
  }

  lemma LoadedReady(x: Code, p: Program)
    requires Loaded(x, p)
    ensures Ready(x, p, p.main, 0) && x.lines[Size(p.main)].stmt == End
  {
    forall l: nat ensures SubReady(x, p, l) {
      if l < |p.subs| { SubAt(x.lines, p.subs, Size(p.main) + 1, l); }
    }
  }

  function Meaning(x: Code, p: Program, c: Cmd, m: State, fuel: nat): Outcome {
    Exec(Capped(x, p), c, m.store, Frames(m.fors), Pending(m.calls), fuel)
  }

  function Capped(x: Code, p: Program): World {
    World(x.host, p.subs, true)
  }

  /** The machine at `m1` agrees with outcome `o` of a command started at `m` and ending before line `end`. */
  ghost predicate Agrees(x: Code, m: State, o: Outcome, m1: State, end: nat) {
    match o
    case Normal(s) => !s.error && m1 == m.(pc := end, store := s)
    case Ended(s) => Halted(x, m1) && m1.store == s
    case TooDeep => Frameless(x, m1)
    case Timeout => false
  }

  lemma {:induction false} SubAt(lines: seq<Line>, subs: seq<Cmd>, k: nat, l: nat)
    requires k + SubsSize(subs) <= |lines| && SubsCoded(lines, subs, k, true) && l < |subs|
    ensures var t := Labels(subs, k)[l];
            t + Size(subs[l]) < |lines| && Coded(lines, subs[l], t, true) && lines[t + Size(subs[l])] == Bare(Return)
  {
    if l > 0 {
      SubAt(lines, subs[1..], k + Size(subs[0]) + 1, l - 1);
    }
  }

  // ----- the meaning is reached -----

  lemma {:induction false} Simulates(x: Code, p: Program, c: Cmd, k: nat, m: State, fuel: nat) returns (j: nat, m1: State)
    requires Ready(x, p, c, k) && m.pc == k && !m.store.error
    requires !Meaning(x, p, c, m, fuel).Timeout?
    ensures Leads(x, m, j, m1) && Agrees(x, m, Meaning(x, p, c, m, fuel), m1, k + Size(c))
    decreases fuel, c, 2
  {
    match c
    case Skip => j, m1 := 0, m;
    case Stop => j, m1 := 0, m;
    case Act(t) =>
      j, m1 := 1, Step(x, m);
      LeadsStep(x, m);
    case Seq(a, b) => j, m1 := SimulatesSeq(x, p, c, k, m, fuel);
    case If(_, _) => j, m1 := SimulatesIf(x, p, c, k, m, fuel);
    case IfElse(_, _, _) => j, m1 := SimulatesIfElse(x, p, c, k, m, fuel);
    case WhileDo(_, _) => j, m1 := SimulatesWhile(x, p, c, k, m, fuel);
    case DoLoop(_, _, _) =>
      var m0 := Step(x, m);
      LeadsStep(x, m);
      j, m1 := 1, m0;
      if !m0.store.error && x.host.test(c.t, m.store).1 {
        var i;
        i, m1 := SimulatesTurns(x, p, c, k, m0, fuel);
        LeadsTrans(x, m, 1, m0, i, m1);
        j := 1 + i;
      }
    case ForTo(_, _, _) => j, m1 := SimulatesFor(x, p, c, k, m, fuel);
    case Call(_) => j, m1 := SimulatesCall(x, p, c, k, m, fuel);
  }

  lemma {:induction false} SimulatesSeq(x: Code, p: Program, c: Cmd, k: nat, m: State, fuel: nat) returns (j: nat, m1: State)
    requires c.Seq? && Ready(x, p, c, k) && m.pc == k && !m.store.error
    requires !Meaning(x, p, c, m, fuel).Timeout?
    ensures Leads(x, m, j, m1) && Agrees(x, m, Meaning(x, p, c, m, fuel), m1, k + Size(c))
    decreases fuel, c, 1
  {
    j, m1 := Simulates(x, p, c.a, k, m, fuel);
    if Meaning(x, p, c.a, m, fuel).Normal? {
      var i, m2 := Simulates(x, p, c.b, k + Size(c.a), m1, fuel);
      LeadsTrans(x, m, j, m1, i, m2);
      j, m1 := j + i, m2;
    }
  }

  /** A body followed by one more step, which the caller knows. */
  lemma ThenStep(x: Code, m: State, i: nat, m1: State) returns (m2: State)
    requires Leads(x, m, i, m1) && !Halted(x, m1) && !x.lines[m1.pc].stmt.For?
    ensures m2 == Step(x, m1) && Leads(x, m, i + 1, m2)
  {
    m2 := Step(x, m1);
    LeadsStep(x, m1);
    LeadsTrans(x, m, i, m1, 1, m2);
  }

  lemma {:induction false} SimulatesIf(x: Code, p: Program, c: Cmd, k: nat, m: State, fuel: nat) returns (j: nat, m1: State)
    requires c.If? && Ready(x, p, c, k) && m.pc == k && !m.store.error
    requires !Meaning(x, p, c, m, fuel).Timeout?
    ensures Leads(x, m, j, m1) && Agrees(x, m, Meaning(x, p, c, m, fuel), m1, k + Size(c))
    decreases fuel, c, 1
  {
    var m0 := Step(x, m);
    LeadsStep(x, m);
    j, m1 := 1, m0;
    if !m0.store.error && x.host.test(c.t, m.store).1 {
      var i, m2 := Simulates(x, p, c.a, k + 1, m0, fuel);
      LeadsTrans(x, m, 1, m0, i, m2);
      j, m1 := 1 + i, m2;
      if Meaning(x, p, c.a, m0, fuel).Normal? {
        m1 := ThenStep(x, m, j, m2);
        j := j + 1;
      }
    }
  }

  lemma {:induction false} SimulatesIfElse(x: Code, p: Program, c: Cmd, k: nat, m: State, fuel: nat) returns (j: nat, m1: State)
    requires c.IfElse? && Ready(x, p, c, k) && m.pc == k && !m.store.error
    requires !Meaning(x, p, c, m, fuel).Timeout?
    ensures Leads(x, m, j, m1) && Agrees(x, m, Meaning(x, p, c, m, fuel), m1, k + Size(c))
    decreases fuel, c, 1
  {
    var m0 := Step(x, m);
    LeadsStep(x, m);
    j, m1 := 1, m0;
    if !m0.store.error {
      var b := x.host.test(c.t, m.store).1;
      var body := if b then c.a else c.b;
      var at := if b then k + 1 else k + 2 + Size(c.a);
      var i, m2 := Simulates(x, p, body, at, m0, fuel);
      LeadsTrans(x, m, 1, m0, i, m2);
      j, m1 := 1 + i, m2;
      if Meaning(x, p, body, m0, fuel).Normal? {
        m1 := ThenStep(x, m, j, m2);
        j := j + 1;
      }
    }
  }

  lemma {:induction false} SimulatesWhile(x: Code, p: Program, c: Cmd, k: nat, m: State, fuel: nat) returns (j: nat, m1: State)
    requires c.WhileDo? && Ready(x, p, c, k) && m.pc == k && !m.store.error
    requires !Meaning(x, p, c, m, fuel).Timeout?
    ensures Leads(x, m, j, m1) && Agrees(x, m, Meaning(x, p, c, m, fuel), m1, k + Size(c))
    decreases fuel, c, 1
  {
    var m0 := Step(x, m);
    LeadsStep(x, m);
    j, m1 := 1, m0;
    if !m0.store.error && x.host.test(c.t, m.store).1 {
      var i, m2 := Simulates(x, p, c.a, k + 1, m0, fuel);
      LeadsTrans(x, m, 1, m0, i, m2);
      j, m1 := 1 + i, m2;
      if Meaning(x, p, c.a, m0, fuel).Normal? {
        var m3 := ThenStep(x, m, j, m2);
        var i', m4 := Simulates(x, p, c, k, m3, fuel - 1);
        LeadsTrans(x, m, j + 1, m3, i', m4);
        j, m1 := j + 1 + i', m4;
      }
    }
  }

  lemma {:induction false} SimulatesTurns(x: Code, p: Program, c: Cmd, k: nat, m: State, fuel: nat) returns (j: nat, m1: State)
    requires c.DoLoop? && Ready(x, p, c, k) && m.pc == k + 1 && !m.store.error
    requires !ExecTurns(Capped(x, p), c, m.store, Frames(m.fors), Pending(m.calls), fuel).Timeout?
    ensures Leads(x, m, j, m1)
    ensures Agrees(x, m, ExecTurns(Capped(x, p), c, m.store, Frames(m.fors), Pending(m.calls), fuel), m1, k + Size(c))
    decreases fuel, c, 1
  {
    j, m1 := Simulates(x, p, c.a, k + 1, m, fuel);
    if Meaning(x, p, c.a, m, fuel).Normal? {
      var m2 := ThenStep(x, m, j, m1);
      j := j + 1;
      var back := x.host.test(c.back, m1.store).1;
      m1 := m2;
      if !m2.store.error && back {
        var i, m3 := SimulatesTurns(x, p, c, k, m2, fuel - 1);
        LeadsTrans(x, m, j, m2, i, m3);
        j, m1 := j + i, m3;
      }
    }
  }

  lemma {:induction false} SimulatesFor(x: Code, p: Program, c: Cmd, k: nat, m: State, fuel: nat) returns (j: nat, m1: State)
    requires c.ForTo? && Ready(x, p, c, k) && m.pc == k && !m.store.error
    requires !Meaning(x, p, c, m, fuel).Timeout?
    ensures Leads(x, m, j, m1) && Agrees(x, m, Meaning(x, p, c, m, fuel), m1, k + Size(c))
    decreases fuel, c, 1
  {
    if Frameless(x, m) { return 0, m; }
    var h := x.host.init(c.v, c.t, m.store);
    var m0 := Step(x, m);
    LeadsStep(x, m);
    j, m1 := 1, m0;
    if !h.store.error && Continues(Current(h.store, c.v), h.limit, h.step) {
      var i, m2 := SimulatesForTurns(x, p, c, k, m0, fuel);
      LeadsTrans(x, m, 1, m0, i, m2);
      j, m1 := 1 + i, m2;
    }
  }

  /** In the body of the FOR at `k`: its frame is on top. */
  ghost predicate InFor(x: Code, p: Program, c: Cmd, k: nat, m: State) {
    && c.ForTo? && Ready(x, p, c, k) && m.pc == k + 1 && !m.store.error
    && m.fors.Frame? && m.fors.v == c.v && m.fors.idx == k
  }

  function ForMeaning(x: Code, p: Program, c: Cmd, m: State, fuel: nat): Outcome
    requires c.ForTo? && m.fors.Frame?
  {
    ExecFor(Capped(x, p), c, m.fors.limit, m.fors.step, m.store, Frames(m.fors.below), Pending(m.calls), fuel)
  }

  lemma {:induction false} SimulatesForTurns(x: Code, p: Program, c: Cmd, k: nat, m: State, fuel: nat) returns (j: nat, m1: State)
    requires InFor(x, p, c, k, m)
    requires !ForMeaning(x, p, c, m, fuel).Timeout?
    ensures Leads(x, m, j, m1) && Agrees(x, m.(fors := m.fors.below), ForMeaning(x, p, c, m, fuel), m1, k + Size(c))
    decreases fuel, c, 0
  {
    j, m1 := Simulates(x, p, c.a, k + 1, m, fuel);
    if Meaning(x, p, c.a, m, fuel).Normal? {
      var m2 := ThenStep(x, m, j, m1);
      var y := Current(m1.store, c.v) + m.fors.step;
      j, m1 := j + 1, m2;
      if Continues(y, m.fors.limit, m.fors.step) {
        var i, m3 := SimulatesForTurns(x, p, c, k, m2, fuel - 1);
        LeadsTrans(x, m, j, m2, i, m3);
        j, m1 := j + i, m3;
      }
    }
  }

  /** A GOSUB that is possible: the machine is at the subroutine, which ends with a RETURN. */
  lemma EntersSub(x: Code, p: Program, c: Cmd, k: nat, m: State) returns (sub: Cmd, m0: State)
    requires c.Call? && Ready(x, p, c, k) && m.pc == k && !m.store.error
    requires c.l < |p.subs| && Pending(m.calls) < GOSUB_MAX
    ensures sub == p.subs[c.l] && !Halted(x, m) && m0 == Step(x, m)
    ensures m0 == State(m0.pc, m.fors, From(k + 1, m.calls), m.store) && Ready(x, p, sub, m0.pc)
    ensures m0.pc + Size(sub) < |x.lines| && x.lines[m0.pc + Size(sub)].stmt == Return
  {
    sub, m0 := p.subs[c.l], Step(x, m);
    assert SubReady(x, p, c.l);
  }

  lemma {:induction false} SimulatesCall(x: Code, p: Program, c: Cmd, k: nat, m: State, fuel: nat) returns (j: nat, m1: State)
    requires c.Call? && Ready(x, p, c, k) && m.pc == k && !m.store.error
    requires !Meaning(x, p, c, m, fuel).Timeout?
    ensures Leads(x, m, j, m1) && Agrees(x, m, Meaning(x, p, c, m, fuel), m1, k + Size(c))
    decreases fuel, c, 1
  {
    LeadsStep(x, m);
    if c.l < |p.subs| && Pending(m.calls) < GOSUB_MAX {
      var sub, m0 := EntersSub(x, p, c, k, m);
      var i, m2 := Simulates(x, p, sub, m0.pc, m0, fuel - 1);
      LeadsTrans(x, m, 1, m0, i, m2);
      j, m1 := 1 + i, m2;
      if Meaning(x, p, sub, m0, fuel - 1).Normal? {
        m1 := ThenStep(x, m, j, m2);
        j := j + 1;
      }
    } else {
      j, m1 := 1, Step(x, m);
    }
  }

  // ----- the machine halts, or finds no room for a frame, only where the meaning is defined -----

  ghost predicate Stops(x: Code, m: State) {
    Halted(x, m) || Frameless(x, m)
  }

  lemma StopsLater(x: Code, m: State, j: nat, m1: State, n: nat) returns (r: nat)
    requires Leads(x, m, j, m1) && Stops(x, Run(x, m, n))
    ensures r == (if n >= j then n - j else 0) && Stops(x, Run(x, m1, r))
  {
    r := if n >= j then n - j else 0;
    assert SameRun(x, m, j, m1, r);
    if n < j {
      assert FramedAt(x, m, n);
      RunHalted(x, m, n, j + r);
    }
  }

  lemma {:induction false} RunHalted(x: Code, m: State, n: nat, n': nat)
    requires n <= n' && Halted(x, Run(x, m, n))
    ensures Run(x, m, n') == Run(x, m, n)
    decreases n
  {
    if n > 0 && !Halted(x, m) {
      RunHalted(x, Step(x, m), n - 1, n' - 1);
    }
  }

  /** More fuel does not change an outcome. */
  lemma {:induction false} MoreFuel(w: World, c: Cmd, s: Store, fors: nat, calls: nat, f: nat, g: nat)
    requires f <= g && !Exec(w, c, s, fors, calls, f).Timeout?
    ensures Exec(w, c, s, fors, calls, g) == Exec(w, c, s, fors, calls, f)
    decreases f, c, 1
  {
    match c
    case Seq(a, b) =>
      MoreFuel(w, a, s, fors, calls, f, g);
      var o := Exec(w, a, s, fors, calls, f);
      if o.Normal? { MoreFuel(w, b, o.store, fors, calls, f, g); }
    case If(t, a) =>
      var (s1, b) := w.host.test(t, s);
      if !s1.error && b { MoreFuel(w, a, s1, fors, calls, f, g); }
    case IfElse(t, a, e) =>
      var (s1, b) := w.host.test(t, s);
      if !s1.error { MoreFuel(w, if b then a else e, s1, fors, calls, f, g); }
    case WhileDo(t, a) =>
      var (s1, b) := w.host.test(t, s);
      if !s1.error && b {
        MoreFuel(w, a, s1, fors, calls, f, g);
        var o := Exec(w, a, s1, fors, calls, f);
        if o.Normal? { MoreFuel(w, c, o.store, fors, calls, f - 1, g - 1); }
      }
    case DoLoop(t, _, _) =>
      var (s1, b) := w.host.test(t, s);
      if !s1.error && b { MoreFuelTurns(w, c, s1, fors, calls, f, g); }
    case ForTo(v, t, _) =>
      var hd := w.host.init(v, t, s);
      if !hd.store.error && Continues(Current(hd.store, v), hd.limit, hd.step) && !(w.capped && fors >= FOR_MAX) {
        MoreFuelFor(w, c, hd.limit, hd.step, hd.store, fors, calls, f, g);
      }
    case Call(l) =>
      if l < |w.subs| && calls < GOSUB_MAX { MoreFuel(w, w.subs[l], s, fors, calls + 1, f - 1, g - 1); }
    case _ =>
  }

  lemma {:induction false} MoreFuelTurns(w: World, c: Cmd, s: Store, fors: nat, calls: nat, f: nat, g: nat)
    requires c.DoLoop? && f <= g && !ExecTurns(w, c, s, fors, calls, f).Timeout?
    ensures ExecTurns(w, c, s, fors, calls, g) == ExecTurns(w, c, s, fors, calls, f)
    decreases f, c, 0
  {
    MoreFuel(w, c.a, s, fors, calls, f, g);
    var o := Exec(w, c.a, s, fors, calls, f);
    if o.Normal? {
      var (s1, b) := w.host.test(c.back, o.store);
      if !s1.error && b { MoreFuelTurns(w, c, s1, fors, calls, f - 1, g - 1); }
    }
  }

  lemma {:induction false} MoreFuelFor(w: World, c: Cmd, limit: real, step: real, s: Store,
                                       fors: nat, calls: nat, f: nat, g: nat)
    requires c.ForTo? && f <= g && !ExecFor(w, c, limit, step, s, fors, calls, f).Timeout?
    ensures ExecFor(w, c, limit, step, s, fors, calls, g) == ExecFor(w, c, limit, step, s, fors, calls, f)
    decreases f, c, 0
  {
    MoreFuel(w, c.a, s, fors + 1, calls, f, g);
    var o := Exec(w, c.a, s, fors + 1, calls, f);
    if o.Normal? {
      var x := Current(o.store, c.v) + step;
      if Continues(x, limit, step) {
        MoreFuelFor(w, c, limit, step, SetCurrent(o.store, c.v, x), fors, calls, f - 1, g - 1);
      }
    }
  }

  lemma MeaningMoreFuel(x: Code, p: Program, c: Cmd, m: State, f: nat, g: nat)
    requires f <= g && !Meaning(x, p, c, m, f).Timeout?
    ensures Meaning(x, p, c, m, g) == Meaning(x, p, c, m, f)
  {
    MoreFuel(Capped(x, p), c, m.store, Frames(m.fors), Pending(m.calls), f, g);
  }

  lemma {:induction false} Terminates(x: Code, p: Program, c: Cmd, k: nat, m: State, n: nat) returns (fuel: nat)
    requires Ready(x, p, c, k) && m.pc == k && !m.store.error && Stops(x, Run(x, m, n))
    ensures !Meaning(x, p, c, m, fuel).Timeout?
    decreases n, c, 2
  {
    fuel := 0;
    match c
    case Seq(_, _) => fuel := TerminatesSeq(x, p, c, k, m, n);
    case If(_, _) => fuel := TerminatesIf(x, p, c, k, m, n);
    case IfElse(_, _, _) => fuel := TerminatesIfElse(x, p, c, k, m, n);
    case WhileDo(_, _) => fuel := TerminatesWhile(x, p, c, k, m, n);
    case DoLoop(_, _, _) => fuel := TerminatesDo(x, p, c, k, m, n);
    case ForTo(_, _, _) => fuel := TerminatesFor(x, p, c, k, m, n);
    case Call(l) =>
      if l < |p.subs| && Pending(m.calls) < GOSUB_MAX {
        fuel := TerminatesCall(x, p, c, k, m, n);
      }
    case _ =>
  }

  lemma {:induction false} TerminatesIf(x: Code, p: Program, c: Cmd, k: nat, m: State, n: nat) returns (fuel: nat)
    requires c.If? && Ready(x, p, c, k) && m.pc == k && !m.store.error && Stops(x, Run(x, m, n))
    ensures !Meaning(x, p, c, m, fuel).Timeout?
    decreases n, c, 1
  {
    fuel := 0;
    var m0 := Step(x, m);
    if !m0.store.error && x.host.test(c.t, m.store).1 {
      fuel := Terminates(x, p, c.a, k + 1, m0, n - 1);
    }
  }

  lemma {:induction false} TerminatesDo(x: Code, p: Program, c: Cmd, k: nat, m: State, n: nat) returns (fuel: nat)
    requires c.DoLoop? && Ready(x, p, c, k) && m.pc == k && !m.store.error && Stops(x, Run(x, m, n))
    ensures !Meaning(x, p, c, m, fuel).Timeout?
    decreases n, c, 1
  {
    fuel := 0;
    var m0 := Step(x, m);
    if !m0.store.error && x.host.test(c.t, m.store).1 {
      fuel := TerminatesTurns(x, p, c, k, m0, n - 1);
    }
  }

  lemma {:induction false} TerminatesFor(x: Code, p: Program, c: Cmd, k: nat, m: State, n: nat) returns (fuel: nat)
    requires c.ForTo? && Ready(x, p, c, k) && m.pc == k && !m.store.error && Stops(x, Run(x, m, n))
    ensures !Meaning(x, p, c, m, fuel).Timeout?
    decreases n, c, 1
  {
    fuel := 0;
    var h := x.host.init(c.v, c.t, m.store);
    if !h.store.error && Continues(Current(h.store, c.v), h.limit, h.step) && Frames(m.fors) < FOR_MAX {
      fuel := TerminatesForTurns(x, p, c, k, Step(x, m), n - 1);
    }
  }

  lemma {:induction false} TerminatesIfElse(x: Code, p: Program, c: Cmd, k: nat, m: State, n: nat) returns (fuel: nat)
    requires c.IfElse? && Ready(x, p, c, k) && m.pc == k && !m.store.error && Stops(x, Run(x, m, n))
    ensures !Meaning(x, p, c, m, fuel).Timeout?
    decreases n, c, 1
  {
    fuel := 0;
    var m0 := Step(x, m);
    if !m0.store.error {
      if x.host.test(c.t, m.store).1 {
        fuel := Terminates(x, p, c.a, k + 1, m0, n - 1);
      } else {
        fuel := Terminates(x, p, c.b, k + 2 + Size(c.a), m0, n - 1);
      }
    }
  }

  lemma {:induction false} TerminatesCall(x: Code, p: Program, c: Cmd, k: nat, m: State, n: nat) returns (fuel: nat)
    requires c.Call? && Ready(x, p, c, k) && m.pc == k && !m.store.error && Stops(x, Run(x, m, n))
    requires c.l < |p.subs| && Pending(m.calls) < GOSUB_MAX
    ensures !Meaning(x, p, c, m, fuel).Timeout?
    decreases n, c, 1
  {
    var sub, m0 := EntersSub(x, p, c, k, m);
    var f := Terminates(x, p, sub, m0.pc, m0, n - 1);
    fuel := f + 1;
  }

  lemma {:induction false} TerminatesSeq(x: Code, p: Program, c: Cmd, k: nat, m: State, n: nat) returns (fuel: nat)
    requires c.Seq? && Ready(x, p, c, k) && m.pc == k && !m.store.error && Stops(x, Run(x, m, n))
    ensures !Meaning(x, p, c, m, fuel).Timeout?
    decreases n, c, 1
  {
    fuel := Terminates(x, p, c.a, k, m, n);
    if Meaning(x, p, c.a, m, fuel).Normal? {
      var j, m1 := Simulates(x, p, c.a, k, m, fuel);
      var r := StopsLater(x, m, j, m1, n);
      var f := Terminates(x, p, c.b, k + Size(c.a), m1, r);
      var g := Max(fuel, f);
      MeaningMoreFuel(x, p, c.a, m, fuel, g);
      MeaningMoreFuel(x, p, c.b, m1, f, g);
      fuel := g;
    }
  }

  lemma {:induction false} TerminatesWhile(x: Code, p: Program, c: Cmd, k: nat, m: State, n: nat) returns (fuel: nat)
    requires c.WhileDo? && Ready(x, p, c, k) && m.pc == k && !m.store.error && Stops(x, Run(x, m, n))
    ensures !Meaning(x, p, c, m, fuel).Timeout?
    decreases n, c, 1
  {
    fuel := 0;
    var m0 := Step(x, m);
    if !m0.store.error && x.host.test(c.t, m.store).1 {
      fuel := Terminates(x, p, c.a, k + 1, m0, n - 1);
      if Meaning(x, p, c.a, m0, fuel).Normal? {
        var j, m1 := Simulates(x, p, c.a, k + 1, m0, fuel);
        var m2 := ThenStep(x, m0, j, m1);
        var r := StopsLater(x, m0, j + 1, m2, n - 1);
        var f := Terminates(x, p, c, k, m2, r);
        WhileFuel(Capped(x, p), c, m.store, Frames(m.fors), Pending(m.calls), fuel, f);
        fuel := Max(fuel, f) + 1;
      }
    }
  }

  /** Fuel for the first turn and fuel for the others make fuel for all. */
  lemma WhileFuel(w: World, c: Cmd, s: Store, fors: nat, calls: nat, f: nat, g: nat)
    requires c.WhileDo? && !w.host.test(c.t, s).0.error && w.host.test(c.t, s).1
    requires var o := Exec(w, c.a, w.host.test(c.t, s).0, fors, calls, f);
             o.Normal? && !Exec(w, c, o.store, fors, calls, g).Timeout?
    ensures !Exec(w, c, s, fors, calls, Max(f, g) + 1).Timeout?
  {
    var s1 := w.host.test(c.t, s).0;
    MoreFuel(w, c.a, s1, fors, calls, f, Max(f, g) + 1);
    MoreFuel(w, c, Exec(w, c.a, s1, fors, calls, f).store, fors, calls, g, Max(f, g));
  }

  lemma {:induction false} TerminatesTurns(x: Code, p: Program, c: Cmd, k: nat, m: State, n: nat) returns (fuel: nat)
    requires c.DoLoop? && Ready(x, p, c, k) && m.pc == k + 1 && !m.store.error && Stops(x, Run(x, m, n))
    ensures !ExecTurns(Capped(x, p), c, m.store, Frames(m.fors), Pending(m.calls), fuel).Timeout?
    decreases n, c, 3
  {
    fuel := Terminates(x, p, c.a, k + 1, m, n);
    if Meaning(x, p, c.a, m, fuel).Normal? {
      var j, m1 := Simulates(x, p, c.a, k + 1, m, fuel);
      var m2 := ThenStep(x, m, j, m1);
      if !m2.store.error && x.host.test(c.back, m1.store).1 {
        var r := StopsLater(x, m, j + 1, m2, n);
        if n == 0 { NoStopYet(x, m, j, m1); }
        var f := TerminatesTurns(x, p, c, k, m2, r);
        var g := Max(fuel, f) + 1;
        MeaningMoreFuel(x, p, c.a, m, fuel, g);
        MoreFuelTurns(Capped(x, p), c, m2.store, Frames(m2.fors), Pending(m2.calls), f, g - 1);
        fuel := g;
      }
    }
  }

  /** A state that leads to one which does not stop does not stop itself. */
  lemma NoStopYet(x: Code, m: State, j: nat, m1: State)
    requires Leads(x, m, j, m1) && !Stops(x, m1)
    ensures !Stops(x, m)
  {
    assert SameRun(x, m, j, m1, 0);
    if j > 0 { assert FramedAt(x, m, 0); }
  }

  lemma {:induction false} TerminatesForTurns(x: Code, p: Program, c: Cmd, k: nat, m: State, n: nat) returns (fuel: nat)
    requires InFor(x, p, c, k, m) && Stops(x, Run(x, m, n))
    ensures !ForMeaning(x, p, c, m, fuel).Timeout?
    decreases n, c, 3
  {
    fuel := Terminates(x, p, c.a, k + 1, m, n);
    if Meaning(x, p, c.a, m, fuel).Normal? {
      var j, m1 := Simulates(x, p, c.a, k + 1, m, fuel);
      var m2 := ThenStep(x, m, j, m1);
      if Continues(Current(m1.store, c.v) + m.fors.step, m.fors.limit, m.fors.step) {
        var r := StopsLater(x, m, j + 1, m2, n);
        if n == 0 { NoStopYet(x, m, j, m1); }
        var f := TerminatesForTurns(x, p, c, k, m2, r);
        var g := Max(fuel, f) + 1;
        MeaningMoreFuel(x, p, c.a, m, fuel, g);
        MoreFuelFor(Capped(x, p), c, m2.fors.limit, m2.fors.step, m2.store, Frames(m2.fors.below), Pending(m2.calls), f, g - 1);
        fuel := g;
      }
    }
  }
}
