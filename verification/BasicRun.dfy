/**
  gf_basic_set_program and gf_basic_run on whole programs.
  */
module BasicRun {
  import opened BasicCode
  import opened BasicMachine
  import opened BasicPreprocess
  import opened BasicCorrect

  function Start(s: Store): State {
    State(0, NoFor, NoCall, s.(error := false))
  }

  /** The meaning of a program: its main part, then END. */
  function ProgramMeaning(h: Host, p: Program, capped: bool, s: Store, fuel: nat): Outcome {
    var o := Exec(World(h, p.subs, capped), p.main, s.(error := false), 0, 0, fuel);
    if o.Normal? then Ended(o.store) else o
  }

  /** No FOR goes on inside 64 others, callers included. */
  ghost predicate StaysShallow(h: Host, p: Program, s: Store) {
    forall fuel: nat :: ProgramMeaning(h, p, true, s, fuel) != TooDeep
  }

  ghost predicate HaltsWith(x: Code, m: State, r: Store) {
    exists n: nat :: Halted(x, Run(x, m, n)) && Run(x, m, n).store == r
  }

  /** What the program means, however deep its FORs are. */
  ghost predicate Means(h: Host, p: Program, s: Store, r: Store) {
    exists fuel: nat :: ProgramMeaning(h, p, false, s, fuel) == Ended(r)
  }

  // ----- the cap changes nothing but what is too deep -----

  function Uncapped(w: World): World {
    w.(capped := false)
  }

  lemma {:induction false} CapOnly(w: World, c: Cmd, s: Store, fors: nat, calls: nat, fuel: nat)
    requires Exec(w, c, s, fors, calls, fuel) != TooDeep
    ensures Exec(Uncapped(w), c, s, fors, calls, fuel) == Exec(w, c, s, fors, calls, fuel)
    decreases fuel, c, 1
  {
    match c
    case Seq(a, b) =>
      CapOnly(w, a, s, fors, calls, fuel);
      var o := Exec(w, a, s, fors, calls, fuel);
      if o.Normal? { CapOnly(w, b, o.store, fors, calls, fuel); }
    case If(t, a) =>
      var (s1, b) := w.host.test(t, s);
      if !s1.error && b { CapOnly(w, a, s1, fors, calls, fuel); }
    case IfElse(t, a, e) =>
      var (s1, b) := w.host.test(t, s);
      if !s1.error { CapOnly(w, if b then a else e, s1, fors, calls, fuel); }
    case WhileDo(t, a) =>
      var (s1, b) := w.host.test(t, s);
      if !s1.error && b {
        CapOnly(w, a, s1, fors, calls, fuel);
        var o := Exec(w, a, s1, fors, calls, fuel);
        if o.Normal? && fuel > 0 { CapOnly(w, c, o.store, fors, calls, fuel - 1); }
      }
    case DoLoop(t, _, _) =>
      var (s1, b) := w.host.test(t, s);
      if !s1.error && b { CapOnlyTurns(w, c, s1, fors, calls, fuel); }
    case ForTo(v, t, _) =>
      var hd := w.host.init(v, t, s);
      if !hd.store.error && Continues(Current(hd.store, v), hd.limit, hd.step) {
        CapOnlyFor(w, c, hd.limit, hd.step, hd.store, fors, calls, fuel);
      }
    case Call(l) =>
      if l < |w.subs| && calls < GOSUB_MAX && fuel > 0 { CapOnly(w, w.subs[l], s, fors, calls + 1, fuel - 1); }
    case _ =>
  }

  lemma {:induction false} CapOnlyTurns(w: World, c: Cmd, s: Store, fors: nat, calls: nat, fuel: nat)
    requires c.DoLoop? && ExecTurns(w, c, s, fors, calls, fuel) != TooDeep
    ensures ExecTurns(Uncapped(w), c, s, fors, calls, fuel) == ExecTurns(w, c, s, fors, calls, fuel)
    decreases fuel, c, 0
  {
    CapOnly(w, c.a, s, fors, calls, fuel);
    var o := Exec(w, c.a, s, fors, calls, fuel);
    if o.Normal? {
      var (s1, b) := w.host.test(c.back, o.store);
      if !s1.error && b && fuel > 0 { CapOnlyTurns(w, c, s1, fors, calls, fuel - 1); }
    }
  }

  lemma {:induction false} CapOnlyFor(w: World, c: Cmd, limit: real, step: real, s: Store, fors: nat, calls: nat, fuel: nat)
    requires c.ForTo? && ExecFor(w, c, limit, step, s, fors, calls, fuel) != TooDeep
    ensures ExecFor(Uncapped(w), c, limit, step, s, fors, calls, fuel) == ExecFor(w, c, limit, step, s, fors, calls, fuel)
    decreases fuel, c, 0
  {
    CapOnly(w, c.a, s, fors + 1, calls, fuel);
    var o := Exec(w, c.a, s, fors + 1, calls, fuel);
    if o.Normal? {
      var x := Current(o.store, c.v) + step;
      if Continues(x, limit, step) && fuel > 0 {
        CapOnlyFor(w, c, limit, step, SetCurrent(o.store, c.v, x), fors, calls, fuel - 1);
      }
    }
  }

  /** On a program that stays shallow the cap makes no difference. */
  lemma CapMakesNoDifference(h: Host, p: Program, s: Store, fuel: nat)
    requires ProgramMeaning(h, p, true, s, fuel) != TooDeep
    ensures ProgramMeaning(h, p, true, s, fuel) == ProgramMeaning(h, p, false, s, fuel)
  {
    CapOnly(World(h, p.subs, true), p.main, s.(error := false), 0, 0, fuel);
  }

  // ----- the machine and the meaning of whole programs -----

  /** A defined meaning is reached, with no FOR and no GOSUB left open when the main part ends by itself. */
  lemma MeaningReached(x: Code, p: Program, s: Store, fuel: nat) returns (n: nat)
    requires Loaded(x, p) && ProgramMeaning(x.host, p, true, s, fuel).Ended?
    ensures Halted(x, Run(x, Start(s), n)) && Run(x, Start(s), n).store == ProgramMeaning(x.host, p, true, s, fuel).store
    ensures Meaning(x, p, p.main, Start(s), fuel).Normal? ==> Run(x, Start(s), n).fors == NoFor && Run(x, Start(s), n).calls == NoCall
    ensures forall i: nat :: i < n ==> FramedAt(x, Start(s), i)
  {
    var m1;
    LoadedReady(x, p);
    n, m1 := Simulates(x, p, p.main, 0, Start(s), fuel);
    assert SameRun(x, Start(s), n, m1, 0);
  }

  /** Where the machine halts the meaning is defined, and the same. */
  lemma HaltMeans(x: Code, p: Program, s: Store, n: nat)
    requires Loaded(x, p) && StaysShallow(x.host, p, s) && Halted(x, Run(x, Start(s), n))
    ensures Means(x.host, p, s, Run(x, Start(s), n).store)
  {
    LoadedReady(x, p);
    var fuel := Terminates(x, p, p.main, 0, Start(s), n);
    assert ProgramMeaning(x.host, p, true, s, fuel) != TooDeep;
    var n' := MeaningReached(x, p, s, fuel);
    if n <= n' {
      RunHalted(x, Start(s), n, n');
    } else {
      RunHalted(x, Start(s), n', n);
    }
    CapMakesNoDifference(x.host, p, s, fuel);
  }

  /** The interpreter computes the meaning of every structured program nested at most 128 deep, and nothing else:
      it halts with a store exactly when that store is what the program means. */
  lemma InterpreterCorrect(h: Host, lines: seq<Line>, p: Program, s: Store, r: Store)
    requires ProgramCoded(lines, p, false) && ProgramDepth(p) <= MAX_OPEN && StaysShallow(h, p, s)
    ensures HaltsWith(Preprocessed(h, lines, p), Start(s), r) <==> Means(h, p, s, r)
  {
    PassProgram(lines, p);
    var x := Preprocessed(h, lines, p);
    if n: nat :| Halted(x, Run(x, Start(s), n)) && Run(x, Start(s), n).store == r {
      HaltMeans(x, p, s, n);
    }
    if fuel: nat :| ProgramMeaning(h, p, false, s, fuel) == Ended(r) {
      CapMakesNoDifference(h, p, s, fuel);
      var n := MeaningReached(x, p, s, fuel);
    }
  }

  /** The lines of a program after gfb_preprocess, and its labels. */
  function Preprocessed(h: Host, lines: seq<Line>, p: Program): Code {
    Code(h, PassRange(Pass(lines, Bottom), 0, |lines|).lines, Labels(p.subs, Size(p.main) + 1))
  }

  /** A program stays shallow exactly when the machine never finds the frame stack full at a FOR that goes on. */
  lemma ShallowIffFramed(x: Code, p: Program, s: Store)
    requires Loaded(x, p)
    ensures StaysShallow(x.host, p, s) <==> forall n: nat :: FramedAt(x, Start(s), n)
  {
    LoadedReady(x, p);
    if fuel: nat :| ProgramMeaning(x.host, p, true, s, fuel) == TooDeep {
      var n, m1 := Simulates(x, p, p.main, 0, Start(s), fuel);
      assert SameRun(x, Start(s), n, m1, 0);
      assert !FramedAt(x, Start(s), n);
    }
    if n: nat :| !FramedAt(x, Start(s), n) {
      var fuel := Terminates(x, p, p.main, 0, Start(s), n);
      if ProgramMeaning(x.host, p, true, s, fuel) != TooDeep {
        var n' := MeaningReached(x, p, s, fuel);
        assert n >= n';
        RunHalted(x, Start(s), n', n);
      }
    }
  }

  // ----- a condition on the text for StaysShallow -----

  /** The FORs a command can have open at once, its calls included, if subroutine `l` can have `top[l]`. */
  function Need(c: Cmd, top: seq<nat>): nat {
    if c.Seq? || c.IfElse? then Max(Need(c.a, top), Need(c.b, top))
    else if c.ForTo? then 1 + Need(c.a, top)
    else if Block(c) then Need(c.a, top)
    else if c.Call? && c.l < |top| then top[c.l]
    else 0
  }

  /** `top` bounds every subroutine, given what it calls. */
  predicate Bounds(top: seq<nat>, subs: seq<Cmd>) {
    |top| == |subs| && forall l :: 0 <= l < |subs| ==> Need(subs[l], top) <= top[l]
  }

  lemma {:induction false} Shallow(w: World, top: seq<nat>, c: Cmd, s: Store, fors: nat, calls: nat, fuel: nat)
    requires Bounds(top, w.subs) && fors + Need(c, top) <= FOR_MAX
    ensures Exec(w, c, s, fors, calls, fuel) != TooDeep
    decreases fuel, c, 1
  {
    match c
    case Seq(a, b) =>
      Shallow(w, top, a, s, fors, calls, fuel);
      var o := Exec(w, a, s, fors, calls, fuel);
      if o.Normal? { Shallow(w, top, b, o.store, fors, calls, fuel); }
    case If(t, a) => Shallow(w, top, a, w.host.test(t, s).0, fors, calls, fuel);
    case IfElse(t, a, e) =>
      Shallow(w, top, a, w.host.test(t, s).0, fors, calls, fuel);
      Shallow(w, top, e, w.host.test(t, s).0, fors, calls, fuel);
    case WhileDo(t, a) =>
      Shallow(w, top, a, w.host.test(t, s).0, fors, calls, fuel);
      var o := Exec(w, a, w.host.test(t, s).0, fors, calls, fuel);
      if o.Normal? && fuel > 0 { Shallow(w, top, c, o.store, fors, calls, fuel - 1); }
    case DoLoop(t, _, _) => ShallowTurns(w, top, c, w.host.test(t, s).0, fors, calls, fuel);
    case ForTo(v, t, _) =>
      var hd := w.host.init(v, t, s);
      ShallowFor(w, top, c, hd.limit, hd.step, hd.store, fors, calls, fuel);
    case Call(l) =>
      if l < |w.subs| && calls < GOSUB_MAX && fuel > 0 { Shallow(w, top, w.subs[l], s, fors, calls + 1, fuel - 1); }
    case _ =>
  }

  lemma {:induction false} ShallowTurns(w: World, top: seq<nat>, c: Cmd, s: Store, fors: nat, calls: nat, fuel: nat)
    requires c.DoLoop? && Bounds(top, w.subs) && fors + Need(c, top) <= FOR_MAX
    ensures ExecTurns(w, c, s, fors, calls, fuel) != TooDeep
    decreases fuel, c, 0
  {
    Shallow(w, top, c.a, s, fors, calls, fuel);
    var o := Exec(w, c.a, s, fors, calls, fuel);
    if o.Normal? && fuel > 0 { ShallowTurns(w, top, c, w.host.test(c.back, o.store).0, fors, calls, fuel - 1); }
  }

  lemma {:induction false} ShallowFor(w: World, top: seq<nat>, c: Cmd, limit: real, step: real, s: Store,
                                      fors: nat, calls: nat, fuel: nat)
    requires c.ForTo? && Bounds(top, w.subs) && fors + Need(c, top) <= FOR_MAX
    ensures ExecFor(w, c, limit, step, s, fors, calls, fuel) != TooDeep
    decreases fuel, c, 0
  {
    Shallow(w, top, c.a, s, fors + 1, calls, fuel);
    var o := Exec(w, c.a, s, fors + 1, calls, fuel);
    if o.Normal? && fuel > 0 {
      var x := Current(o.store, c.v) + step;
      ShallowFor(w, top, c, limit, step, SetCurrent(o.store, c.v, x), fors, calls, fuel - 1);
    }
  }

  /** Enough to check before running, on the text: no path of the call graph opens more than 64 FORs at once. */
  lemma ShallowProgram(h: Host, p: Program, s: Store, top: seq<nat>)
    requires Bounds(top, p.subs) && Need(p.main, top) <= FOR_MAX
    ensures StaysShallow(h, p, s)
  {
    forall fuel: nat ensures ProgramMeaning(h, p, true, s, fuel) != TooDeep {
      Shallow(World(h, p.subs, true), top, p.main, s.(error := false), 0, 0, fuel);
    }
  }

  // ----- DO with a test on its own line -----

  /** The test on the DO line is made only on entry: a loop that closes with a bare LOOP and is entered
      never ends by itself. */
  lemma {:induction false} DoTestOnlyOnEntry(w: World, c: Cmd, s: Store, fors: nat, calls: nat, fuel: nat)
    requires c.DoLoop? && forall s1 :: w.host.test(c.back, s1) == (s1, true)
    ensures Exec(w, c, s, fors, calls, fuel).Normal? <==> !w.host.test(c.t, s).0.error && !w.host.test(c.t, s).1
  {
    var (s1, b) := w.host.test(c.t, s);
    if !s1.error && b {
      NoWayOut(w, c, s1, fors, calls, fuel);
    }
  }

  lemma {:induction false} NoWayOut(w: World, c: Cmd, s: Store, fors: nat, calls: nat, fuel: nat)
    requires c.DoLoop? && forall s1 :: w.host.test(c.back, s1) == (s1, true)
    ensures !ExecTurns(w, c, s, fors, calls, fuel).Normal?
    decreases fuel
  {
    var o := Exec(w, c.a, s, fors, calls, fuel);
    if o.Normal? && fuel > 0 {
      NoWayOut(w, c, o.store, fors, calls, fuel - 1);
    }
  }

  // ----- gf_basic_run -----

  datatype Frame64 = Frame64(v: string, limit: real, step: real, idx: nat)     // ForFrame

  ghost function ForsOf(a: seq<Frame64>): Fors {
    if a == [] then NoFor
    else
      var f := a[|a| - 1];
      Frame(f.v, f.limit, f.step, f.idx, ForsOf(a[..|a| - 1]))
  }

  ghost function CallsOf(a: seq<nat>): Calls {
    if a == [] then NoCall else From(a[|a| - 1], CallsOf(a[..|a| - 1]))
  }

  lemma {:induction false} FramesOf(a: seq<Frame64>)
    ensures Frames(ForsOf(a)) == |a|
  {
    if a != [] { FramesOf(a[..|a| - 1]); }
  }

  lemma {:induction false} PendingOf(a: seq<nat>)
    ensures Pending(CallsOf(a)) == |a|
  {
    if a != [] { PendingOf(a[..|a| - 1]); }
  }

  /** What gf_basic_run leaves, the step fuse included: it is tested before END is recognized. */
  ghost function Result(x: Code, start: State): Store {
    var m := Run(x, start, STEPS_MAX);
    if Halted(x, Run(x, start, STEPS_MAX - 1)) || m.pc >= |x.lines| || m.store.error then m.store else Failed(m.store)
  }

  /** Within the fuse the result is what the program means. */
  lemma ResultIsMeaning(x: Code, p: Program, s: Store)
    requires Loaded(x, p) && StaysShallow(x.host, p, s) && Halted(x, Run(x, Start(s), STEPS_MAX - 1))
    ensures Means(x.host, p, s, Result(x, Start(s)))
  {
    RunHalted(x, Start(s), STEPS_MAX - 1, STEPS_MAX);
    HaltMeans(x, p, s, STEPS_MAX);
  }

  /** The locals of gf_basic_run: the two stacks are arrays with a count. */
  class Interpreter {
    const code: Code
    const forstack: array<Frame64>
    const gosubstack: array<nat>
    var pc: nat
    var forsp: nat
    var gosp: nat
    var store: Store

    ghost predicate Valid()
      reads this
    {
      forstack.Length == FOR_MAX && gosubstack.Length == GOSUB_MAX && forsp <= FOR_MAX && gosp <= GOSUB_MAX
    }

    ghost function Now(): State
      requires Valid()
      reads this, forstack, gosubstack
    {
      State(pc, ForsOf(forstack[..forsp]), CallsOf(gosubstack[..gosp]), store)
    }

    constructor (code: Code, s: Store)
      ensures Valid() && this.code == code && Now() == Start(s) && fresh(forstack) && fresh(gosubstack)
    {
      this.code := code;
      forstack := new Frame64[FOR_MAX](_ => Frame64("", 0.0, 0.0, 0));
      gosubstack := new nat[GOSUB_MAX](_ => 0);
      pc, forsp, gosp := 0, 0, 0;
      store := s.(error := false);
    }

    method DoFor(v: string, t: Text)
      requires Valid() && !Halted(code, Now()) && code.lines[pc].stmt == For(v, t)
      modifies this`pc, this`forsp, this`store, forstack
      ensures Valid() && Now() == Step(code, old(Now()))
    {
      var h := code.host.init(v, t, store);
      FramesOf(forstack[..forsp]);
      store := h.store;
      if !Continues(Current(store, v), h.limit, h.step) {
        var next := code.lines[pc].jmp2;
        pc := if next >= 0 then next + 1 else pc + 1;
      } else {
        if forsp < FOR_MAX {
          ghost var below := forstack[..forsp];
          forstack[forsp] := Frame64(v, h.limit, h.step, pc);
          forsp := forsp + 1;
          assert forstack[..forsp][..forsp - 1] == below;
        }
        pc := pc + 1;
      }
    }

    method DoNext()
      requires Valid() && !Halted(code, Now()) && code.lines[pc].stmt == Next
      modifies this`pc, this`forsp, this`store
      ensures Valid() && Now() == Step(code, old(Now()))
    {
      if forsp == 0 {
        store := Failed(store);
      } else {
        var f := forstack[forsp - 1];
        assert forstack[..forsp][..forsp - 1] == forstack[..forsp - 1];
        var c := Current(store, f.v) + f.step;
        store := SetCurrent(store, f.v, c);
        if Continues(c, f.limit, f.step) {
          pc := f.idx + 1;
        } else {
          forsp := forsp - 1;
          pc := pc + 1;
        }
      }
    }

    method DoGosub(l: nat)
      requires Valid() && !Halted(code, Now()) && code.lines[pc].stmt == Gosub(l)
      modifies this`pc, this`gosp, this`store, gosubstack
      ensures Valid() && Now() == Step(code, old(Now()))
    {
      PendingOf(gosubstack[..gosp]);
      if l >= |code.labels| || gosp >= GOSUB_MAX {
        store := Failed(store);
      } else {
        ghost var below := gosubstack[..gosp];
        gosubstack[gosp] := pc + 1;
        gosp := gosp + 1;
        assert gosubstack[..gosp][..gosp - 1] == below;
        pc := code.labels[l];
      }
    }

    method DoReturn()
      requires Valid() && !Halted(code, Now()) && code.lines[pc].stmt == Return
      modifies this`pc, this`gosp, this`store
      ensures Valid() && Now() == Step(code, old(Now()))
    {
      if gosp == 0 {
        store := Failed(store);
      } else {
        assert gosubstack[..gosp][..gosp - 1] == gosubstack[..gosp - 1];
        pc := gosubstack[gosp - 1];
        gosp := gosp - 1;
      }
    }

    /** The statements that touch neither stack. */
    method DoOther()
      requires Valid() && !Halted(code, Now())
      requires var s := code.lines[pc].stmt; !s.For? && !s.Next? && !s.Gosub? && !s.Return?
      modifies this`pc, this`store
      ensures Valid() && Now() == Step(code, old(Now()))
    {
      var line := code.lines[pc];
      match line.stmt {
        case Atom(t) =>
          store := code.host.act(t, store);
          pc := pc + 1;
        case EndIf => pc := pc + 1;
        case Else => pc := if line.jmp2 > 0 then line.jmp2 else pc + 1;
        case Wend => pc := if line.jmp1 >= 0 then line.jmp1 else pc + 1;
        case IfThen(t) =>
          var (s, b) := code.host.test(t, store);
          store := s;
          if b { pc := pc + 1; } else { pc := if line.jmp1 > 0 then line.jmp1 else pc + 1; }
        case While(t) =>
          var (s, b) := code.host.test(t, store);
          store := s;
          if b { pc := pc + 1; } else { pc := if line.jmp1 >= 0 then line.jmp1 + 1 else pc + 1; }
        case Do(t) =>
          var (s, b) := code.host.test(t, store);
          store := s;
          if b { pc := pc + 1; } else { pc := if line.jmp1 >= 0 then line.jmp1 + 1 else pc + 1; }
        case Loop(t) =>
          var (s, b) := code.host.test(t, store);
          store := s;
          if b { pc := if line.jmp1 >= 0 then line.jmp1 + 1 else pc + 1; } else { pc := pc + 1; }
        case End =>
      }
    }

    /** One statement of the loop. */
    method DoStatement()
      requires Valid() && !Halted(code, Now())
      modifies this`pc, this`forsp, this`gosp, this`store, forstack, gosubstack
      ensures Valid() && Now() == Step(code, old(Now()))
    {
      var s := code.lines[pc].stmt;
      if s.For? {
        DoFor(s.v, s.t);
      } else if s == Next {
        DoNext();
      } else if s.Gosub? {
        DoGosub(s.l);
      } else if s == Return {
        DoReturn();
      } else {
        DoOther();
      }
    }

    /** The whole loop. The result is 0, or -1 after an error. */
    method RunAll() returns (code': int)
      requires Valid()
      modifies this`pc, this`forsp, this`gosp, this`store, forstack, gosubstack
      ensures Valid() && store == Result(code, old(Now()))
      ensures code' == if store.error then -1 else 0
    {
      ghost var m := Now();
      var steps := 0;
      while pc < |code.lines| && !store.error
        invariant Valid() && 0 <= steps <= STEPS_MAX
        invariant Now() == Run(code, m, steps)
        invariant steps > 0 ==> !Halted(code, Run(code, m, steps - 1))
        decreases STEPS_MAX - steps
      {
        if steps + 1 > STEPS_MAX {
          store := Failed(store);
          return -1;
        }
        if code.lines[pc].stmt == End {
          RunHalted(code, m, steps, STEPS_MAX - 1);
          RunHalted(code, m, steps, STEPS_MAX);
          return 0;
        }
        RunOneMore(code, m, steps);
        DoStatement();
        steps := steps + 1;
      }
      RunHalted(code, m, steps, STEPS_MAX);
      return if store.error then -1 else 0;
    }
  }

  lemma {:induction false} RunOneMore(x: Code, m: State, n: nat)
    requires !Halted(x, Run(x, m, n))
    ensures Run(x, m, n + 1) == Step(x, Run(x, m, n))
    decreases n
  {
    if n > 0 { RunOneMore(x, Step(x, m), n - 1); }
  }
}
