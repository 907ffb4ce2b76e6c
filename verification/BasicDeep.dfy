/**
  The limit on FOR frames: a FOR that goes on inside 64 others gets no frame,
  and its NEXT steps the loop around it. A program of 65 nested FORs for which
  the interpreter ends with another store than the program means.
  */
module BasicDeep {
  import opened BasicCode
  import opened BasicMachine
  import opened BasicPreprocess
  import opened BasicCorrect
  import opened BasicRun

  /** FOR b = 1 TO 1: NEXT inside `n` loops FOR a = 1 TO 1 ... NEXT. */
  function Nest(n: nat, a: string, b: string): Cmd {
    if n == 0 then ForTo(b, "", Skip) else ForTo(a, "", Nest(n - 1, a, b))
  }

  function Nested(a: string, b: string): Program {
    Program(Nest(FOR_MAX, a, b), [])
  }

  /** The value of `a` is `x`, that of `b` is `y`. */
  function Pair(a: string, b: string, x: real, y: real): Store {
    Store(map[a := Var(DblType, 0, x, ""), b := Var(DblType, 0, y, "")], "", false)
  }

  function FromOneToOne(v: string, t: Text, s: Store): Header {
    Header(SetCurrent(s, v, 1.0), 1.0, 1.0)
  }

  /** Every FOR is from 1 to 1; no other statement is used. */
  function Ones(): Host {
    Host((t, s) => s, (t, s) => (s, true), FromOneToOne)
  }

  lemma Assigns(a: string, b: string, x: real, y: real, z: real)
    requires a != b
    ensures SetCurrent(Pair(a, b, x, y), a, z) == Pair(a, b, z, y) && Current(Pair(a, b, x, y), a) == x
    ensures SetCurrent(Pair(a, b, x, y), b, z) == Pair(a, b, x, z) && Current(Pair(a, b, x, y), b) == y
  {
    var m := Pair(a, b, x, y).vars;
    assert m[a := Var(DblType, 0, z, "")] == Pair(a, b, z, y).vars;
    assert m[b := Var(DblType, 0, z, "")] == Pair(a, b, x, z).vars;
  }

  // ----- what the program means -----

  /** The first variable after the NEXTs of `n` loops. */
  function Stepped(n: nat, x: real): real {
    if n == 0 then x else n as real + 1.0
  }

  /** One turn of a loop from 1 to 1. */
  lemma OneTurn(w: World, c: Cmd, s: Store, s1: Store, fors: nat)
    requires w.host == Ones() && !w.capped && c.ForTo? && !s.error && !s1.error
    requires Current(SetCurrent(s, c.v, 1.0), c.v) == 1.0 && Current(s1, c.v) >= 1.0
    requires Exec(w, c.a, SetCurrent(s, c.v, 1.0), fors + 1, 0, 0) == Normal(s1)
    ensures Exec(w, c, s, fors, 0, 0) == Normal(SetCurrent(s1, c.v, Current(s1, c.v) + 1.0))
  {
    var s0 := SetCurrent(s, c.v, 1.0);
    assert w.host.init(c.v, c.t, s) == Header(s0, 1.0, 1.0);
    assert ExecFor(w, c, 1.0, 1.0, s0, fors, 0, 0) == Normal(SetCurrent(s1, c.v, Current(s1, c.v) + 1.0));
  }

  /** Every loop turns once. */
  lemma {:induction false} NestMeans(w: World, n: nat, a: string, b: string, x: real, y: real, fors: nat)
    requires w.host == Ones() && !w.capped && a != b
    ensures Exec(w, Nest(n, a, b), Pair(a, b, x, y), fors, 0, 0) == Normal(Pair(a, b, Stepped(n, x), 2.0))
    decreases n
  {
    Assigns(a, b, x, y, 1.0);
    var c := Nest(n, a, b);
    if n == 0 {
      Assigns(a, b, x, 1.0, 2.0);
      OneTurn(w, c, Pair(a, b, x, y), Pair(a, b, x, 1.0), fors);
    } else {
      var z := Stepped(n - 1, 1.0);
      NestMeans(w, n - 1, a, b, 1.0, y, fors + 1);
      Assigns(a, b, 1.0, y, 1.0);
      Assigns(a, b, z, 2.0, z + 1.0);
      OneTurn(w, c, Pair(a, b, x, y), Pair(a, b, z, 2.0), fors);
    }
  }

  lemma Meant(a: string, b: string)
    requires a != b
    ensures Means(Ones(), Nested(a, b), Pair(a, b, 0.0, 0.0), Pair(a, b, 65.0, 2.0))
  {
    NestMeans(World(Ones(), [], false), FOR_MAX, a, b, 0.0, 0.0, 0);
    assert ProgramMeaning(Ones(), Nested(a, b), false, Pair(a, b, 0.0, 0.0), 0) == Ended(Pair(a, b, 65.0, 2.0));
  }

  // ----- what the machine does -----

  predicate LineIs(lines: seq<Line>, i: int, s: Stmt) {
    0 <= i < |lines| && lines[i].stmt == s
  }

  /** The `i`th FOR and the `i`th NEXT of `n` loops over `a` around one over `b`. */
  ghost predicate NestLine(lines: seq<Line>, k: nat, n: nat, a: string, b: string, i: int) {
    0 <= i <= n ==> LineIs(lines, k + i, For(if i < n then a else b, "")) && LineIs(lines, k + n + 1 + i, Next)
  }

  ghost predicate NestedAt(lines: seq<Line>, k: nat, n: nat, a: string, b: string) {
    forall i {:trigger NestLine(lines, k, n, a, b, i)} :: NestLine(lines, k, n, a, b, i)
  }

  lemma {:induction false} NestLines(lines: seq<Line>, n: nat, k: nat, a: string, b: string)
    requires k + Size(Nest(n, a, b)) <= |lines| && Coded(lines, Nest(n, a, b), k, true)
    ensures Size(Nest(n, a, b)) == 2 * n + 2 && NestedAt(lines, k, n, a, b)
    decreases n
  {
    if n > 0 {
      NestLines(lines, n - 1, k + 1, a, b);
      NestOne(lines, n, k, a, b);
    }
  }

  lemma NestOne(lines: seq<Line>, n: nat, k: nat, a: string, b: string)
    requires n > 0 && NestedAt(lines, k + 1, n - 1, a, b)
    requires LineIs(lines, k, For(a, "")) && LineIs(lines, k + 2 * n + 1, Next)
    ensures NestedAt(lines, k, n, a, b)
  {
    forall i ensures NestLine(lines, k, n, a, b, i) {
      assert NestLine(lines, k + 1, n - 1, a, b, i - 1) && NestLine(lines, k + 1, n - 1, a, b, i);
    }
  }

  /** The program as the machine has it. */
  ghost predicate DeepCode(x: Code, a: string, b: string) {
    x.host == Ones() && a != b && NestedAt(x.lines, 0, FOR_MAX, a, b)
  }

  lemma {:induction false} NestDepth(n: nat, a: string, b: string)
    ensures Depth(Nest(n, a, b)) == n + 1
    decreases n
  {
    if n > 0 { NestDepth(n - 1, a, b); }
  }

  /** The frames of the first `n` loops. */
  function Open(n: nat, a: string): Fors {
    if n == 0 then NoFor else Frame(a, 1.0, 1.0, n - 1, Open(n - 1, a))
  }

  lemma {:induction false} OpenFrames(n: nat, a: string)
    ensures Frames(Open(n, a)) == n
    decreases n
  {
    if n > 0 { OpenFrames(n - 1, a); }
  }

  /** After `n` FOR lines. */
  function Down(n: nat, a: string, b: string): State {
    State(n, Open(n, a), NoCall, Pair(a, b, if n == 0 then 0.0 else 1.0, 0.0))
  }

  /** After the FOR without a frame and `n` NEXT lines. */
  function Up(n: nat, a: string, b: string): State
    requires n <= FOR_MAX
  {
    State(65 + n, Open(FOR_MAX - n, a), NoCall, Pair(a, b, 1.0 + n as real, 1.0))
  }

  lemma StepDown(x: Code, n: nat, a: string, b: string)
    requires DeepCode(x, a, b) && n < FOR_MAX
    ensures !Halted(x, Down(n, a, b)) && Step(x, Down(n, a, b)) == Down(n + 1, a, b)
  {
    assert NestLine(x.lines, 0, FOR_MAX, a, b, n);
    OpenFrames(n, a);
    var y := if n == 0 then 0.0 else 1.0;
    Assigns(a, b, y, 0.0, 1.0);
    Assigns(a, b, 1.0, 0.0, 1.0);
    assert x.host.init(a, "", Pair(a, b, y, 0.0)) == Header(Pair(a, b, 1.0, 0.0), 1.0, 1.0);
  }

  /** The 65th FOR goes on without a frame. */
  lemma StepAcross(x: Code, m: State, a: string, b: string)
    requires DeepCode(x, a, b) && m == Down(FOR_MAX, a, b)
    ensures Frameless(x, m) && Step(x, m) == Up(0, a, b)
  {
    assert NestLine(x.lines, 0, FOR_MAX, a, b, FOR_MAX);
    OpenFrames(FOR_MAX, a);
    Assigns(a, b, 1.0, 0.0, 1.0);
    Assigns(a, b, 1.0, 1.0, 1.0);
    assert x.host.init(b, "", m.store) == Header(Pair(a, b, 1.0, 1.0), 1.0, 1.0);
  }

  /** Each NEXT steps `a` and ends a loop that is one further out than its own. */
  lemma StepUp(x: Code, n: nat, a: string, b: string)
    requires DeepCode(x, a, b) && n < FOR_MAX
    ensures !Halted(x, Up(n, a, b)) && Step(x, Up(n, a, b)) == Up(n + 1, a, b)
  {
    assert NestLine(x.lines, 0, FOR_MAX, a, b, n);
    Assigns(a, b, 1.0 + n as real, 1.0, 2.0 + n as real);
  }

  lemma {:induction false} GoesDown(x: Code, n: nat, a: string, b: string)
    requires DeepCode(x, a, b) && n <= FOR_MAX
    ensures Goes(x, Down(0, a, b), n, Down(n, a, b))
    decreases n
  {
    if n > 0 {
      GoesDown(x, n - 1, a, b);
      StepDown(x, n - 1, a, b);
      GoesStep(x, Down(n - 1, a, b));
      GoesTrans(x, Down(0, a, b), n - 1, Down(n - 1, a, b), 1, Down(n, a, b));
    }
  }

  lemma {:induction false} GoesUp(x: Code, n: nat, a: string, b: string)
    requires DeepCode(x, a, b) && n <= FOR_MAX
    ensures Goes(x, Up(0, a, b), n, Up(n, a, b))
    decreases n
  {
    if n > 0 {
      GoesUp(x, n - 1, a, b);
      StepUp(x, n - 1, a, b);
      GoesStep(x, Up(n - 1, a, b));
      GoesTrans(x, Up(0, a, b), n - 1, Up(n - 1, a, b), 1, Up(n, a, b));
    }
  }

  /** The last NEXT finds no loop left. */
  lemma LastNext(x: Code, m: State, a: string, b: string)
    requires DeepCode(x, a, b) && m == Up(FOR_MAX, a, b)
    ensures !Halted(x, m) && Step(x, m) == m.(store := Failed(Pair(a, b, 65.0, 1.0)))
  {
    assert NestLine(x.lines, 0, FOR_MAX, a, b, FOR_MAX);
  }

  lemma RunFails(x: Code, m: State, a: string, b: string)
    requires DeepCode(x, a, b) && m == Down(0, a, b)
    ensures HaltsWith(x, m, Failed(Pair(a, b, 65.0, 1.0))) && exists n: nat :: !FramedAt(x, m, n)
  {
    var n := FOR_MAX;
    var m1, m2, m3 := Down(n, a, b), Up(0, a, b), Up(n, a, b);
    GoesDown(x, n, a, b);
    StepAcross(x, m1, a, b);
    assert SameRun(x, m, n, m1, 0);
    assert !FramedAt(x, m, n);
    GoesStep(x, m1);
    GoesTrans(x, m, n, m1, 1, m2);
    GoesUp(x, n, a, b);
    GoesTrans(x, m, n + 1, m2, n, m3);
    LastNext(x, m3, a, b);
    GoesStep(x, m3);
    var j := n + 1 + n;
    GoesTrans(x, m, j, m3, 1, Step(x, m3));
    assert SameRun(x, m, j + 1, Step(x, m3), 0);
  }

  /** gfb_preprocess leaves that program. */
  lemma DeepLoaded(x: Code, a: string, b: string)
    requires a != b && x == Preprocessed(Ones(), Flatten(Nested(a, b)), Nested(a, b))
    ensures ProgramDepth(Nested(a, b)) <= MAX_OPEN && Loaded(x, Nested(a, b)) && DeepCode(x, a, b)
  {
    NestDepth(FOR_MAX, a, b);
    PassProgram(Flatten(Nested(a, b)), Nested(a, b));
    NestLines(x.lines, FOR_MAX, 0, a, b);
  }

  /** 65 nested FORs: the program means a = 65 and b = 2, the interpreter ends with an error and b = 1. */
  lemma SixtyFiveFors(x: Code, a: string, b: string)
    requires a != b && x == Preprocessed(Ones(), Flatten(Nested(a, b)), Nested(a, b))
    ensures ProgramDepth(Nested(a, b)) <= MAX_OPEN && !StaysShallow(Ones(), Nested(a, b), Pair(a, b, 0.0, 0.0))
    ensures Means(Ones(), Nested(a, b), Pair(a, b, 0.0, 0.0), Pair(a, b, 65.0, 2.0))
    ensures HaltsWith(x, BasicRun.Start(Pair(a, b, 0.0, 0.0)), Failed(Pair(a, b, 65.0, 1.0)))
  {
    Meant(a, b);
    DeepLoaded(x, a, b);
    assert BasicRun.Start(Pair(a, b, 0.0, 0.0)) == Down(0, a, b);
    RunFails(x, Down(0, a, b), a, b);
    ShallowIffFramed(x, Nested(a, b), Pair(a, b, 0.0, 0.0));
  }
}
