/**
  gf_basic_run: the program counter machine with its FOR and GOSUB stacks, and
  the meaning of structured programs it is compared with.

  Arithmetic is over `real`. What a statement text does is given by a `Host`:
  any functions on the store, which may raise the error flag.
  */
module BasicMachine {
  import opened BasicCode

  const FOR_MAX := 64          // GFB_FORSTACK
  const GOSUB_MAX := 128       // GFB_GOSUBSTACK
  const STEPS_MAX := 200_000_000

  datatype Type = IntType | DblType | StrType

  /** GfbVar, scalars: the field that counts is chosen by the type. */
  datatype Var = Var(kind: Type, i: int, d: real, s: string)

  datatype Store = Store(vars: map<string, Var>, output: string, error: bool)

  /** What a FOR line leaves: the start value is assigned, limit and step are evaluated. */
  datatype Header = Header(store: Store, limit: real, step: real)

  datatype Host = Host(act: (Text, Store) -> Store,
                       test: (Text, Store) -> (Store, bool),
                       init: (string, Text, Store) -> Header)

  function Current(s: Store, v: string): real {
    if v !in s.vars then 0.0
    else if s.vars[v].kind == IntType then s.vars[v].i as real
    else s.vars[v].d
  }

  /** (long)x: toward zero. */
  function Truncate(x: real): int {
    if x >= 0.0 then x.Floor else -((-x).Floor)
  }

  function SetCurrent(s: Store, v: string, x: real): Store {
    if v !in s.vars then s
    else
      var w := s.vars[v];
      s.(vars := s.vars[v := if w.kind == IntType then w.(i := Truncate(x)) else w.(d := x)])
  }

  predicate Continues(x: real, limit: real, step: real) {
    if step >= 0.0 then x <= limit else x >= limit
  }

  function Failed(s: Store): Store {
    s.(error := true)
  }

  // ----- the machine -----

  datatype Fors = NoFor | Frame(v: string, limit: real, step: real, idx: nat, below: Fors)

  function Frames(f: Fors): nat {
    if f.NoFor? then 0 else 1 + Frames(f.below)
  }

  datatype Calls = NoCall | From(back: nat, below: Calls)

  function Pending(c: Calls): nat {
    if c.NoCall? then 0 else 1 + Pending(c.below)
  }

  datatype State = State(pc: nat, fors: Fors, calls: Calls, store: Store)

  /** A program as gfb_preprocess leaves it; `labels[l]` is the statement after label `l`. */
  datatype Code = Code(host: Host, lines: seq<Line>, labels: seq<nat>)

  predicate Halted(x: Code, m: State) {
    m.pc >= |x.lines| || m.store.error || x.lines[m.pc].stmt == End
  }

  function Target(to: int, otherwise: nat): nat {
    if to >= 0 then to else otherwise
  }

  /** Where a block goes when its test fails: after the closing line. */
  function Beyond(to: int, otherwise: nat): nat {
    if to >= 0 then to + 1 else otherwise
  }

  /** One turn of the loop. */
  function Step(x: Code, m: State): State
    requires !Halted(x, m)
  {
    var line := x.lines[m.pc];
    var next := m.pc + 1;
    match line.stmt
    case Atom(t) => m.(store := x.host.act(t, m.store), pc := next)
    case End => m
    case EndIf => m.(pc := next)
    case Else => m.(pc := if line.jmp2 > 0 then line.jmp2 else next)
    case IfThen(t) =>
      var (s, b) := x.host.test(t, m.store);
      m.(store := s, pc := if b then next else if line.jmp1 > 0 then line.jmp1 else next)
    case For(v, t) =>
      var h := x.host.init(v, t, m.store);
      if !Continues(Current(h.store, v), h.limit, h.step) then m.(store := h.store, pc := Beyond(line.jmp2, next))
      else if Frames(m.fors) < FOR_MAX then
        m.(store := h.store, fors := Frame(v, h.limit, h.step, m.pc, m.fors), pc := next)
      else m.(store := h.store, pc := next)
    case Next =>
      if m.fors.NoFor? then m.(store := Failed(m.store))
      else
        var f := m.fors;
        var c := Current(m.store, f.v) + f.step;
        var s := SetCurrent(m.store, f.v, c);
        if Continues(c, f.limit, f.step) then m.(store := s, pc := f.idx + 1)
        else m.(store := s, fors := f.below, pc := next)
    case While(t) =>
      var (s, b) := x.host.test(t, m.store);
      m.(store := s, pc := if b then next else Beyond(line.jmp1, next))
    case Wend => m.(pc := Target(line.jmp1, next))
    case Do(t) =>
      var (s, b) := x.host.test(t, m.store);
      m.(store := s, pc := if b then next else Beyond(line.jmp1, next))
    case Loop(t) =>
      var (s, b) := x.host.test(t, m.store);
      m.(store := s, pc := if b then Beyond(line.jmp1, next) else next)
    case Gosub(l) =>
      if l >= |x.labels| || Pending(m.calls) >= GOSUB_MAX then m.(store := Failed(m.store))
      else m.(calls := From(next, m.calls), pc := x.labels[l])
    case Return =>
      if m.calls.NoCall? then m.(store := Failed(m.store))
      else m.(calls := m.calls.below, pc := m.calls.back)
  }

  /** The FOR at `m` goes on, but there is no room for its frame. */
  predicate Frameless(x: Code, m: State) {
    && !Halted(x, m) && x.lines[m.pc].stmt.For? && Frames(m.fors) >= FOR_MAX
    && var For(v, t) := x.lines[m.pc].stmt;
       var h := x.host.init(v, t, m.store);
       !h.store.error && Continues(Current(h.store, v), h.limit, h.step)
  }

  /** At most `n` steps. */
  function Run(x: Code, m: State, n: nat): State
    decreases n
  {
    if n == 0 || Halted(x, m) then m else Run(x, Step(x, m), n - 1)
  }

  // ----- structured programs -----

  datatype Outcome = Timeout | Normal(store: Store) | Ended(store: Store) | TooDeep

  /** After a statement: an error ends the program. */
  function Settle(s: Store): Outcome {
    if s.error then Ended(s) else Normal(s)
  }

  /** What a command is run in: the host, the subroutines, and whether FOR loops may nest only FOR_MAX deep. */
  datatype World = World(host: Host, subs: seq<Cmd>, capped: bool)

  /** The meaning of a command. `fors`: FOR loops around it, also in callers; `calls`: GOSUBs around it;
      `fuel` bounds the turns of each loop and the depth of calls. A FOR that goes on inside FOR_MAX others is
      TooDeep if the world is capped, and like any other if it is not. */
  function Exec(w: World, c: Cmd, s: Store, fors: nat, calls: nat, fuel: nat): Outcome
    decreases fuel, c, 1
  {
    match c
    case Skip => Normal(s)
    case Act(t) => Settle(w.host.act(t, s))
    case Seq(a, b) =>
      var o := Exec(w, a, s, fors, calls, fuel);
      if o.Normal? then Exec(w, b, o.store, fors, calls, fuel) else o
    case If(t, a) =>
      var (s1, b) := w.host.test(t, s);
      if s1.error then Ended(s1)
      else if b then Exec(w, a, s1, fors, calls, fuel)
      else Normal(s1)
    case IfElse(t, a, e) =>
      var (s1, b) := w.host.test(t, s);
      if s1.error then Ended(s1)
      else Exec(w, if b then a else e, s1, fors, calls, fuel)
    case WhileDo(t, a) =>
      var (s1, b) := w.host.test(t, s);
      if s1.error then Ended(s1)
      else if !b then Normal(s1)
      else
        var o := Exec(w, a, s1, fors, calls, fuel);
        if !o.Normal? then o
        else if fuel == 0 then Timeout
        else Exec(w, c, o.store, fors, calls, fuel - 1)
    case DoLoop(t, a, back) =>
      var (s1, b) := w.host.test(t, s);
      if s1.error then Ended(s1)
      else if !b then Normal(s1)
      else ExecTurns(w, c, s1, fors, calls, fuel)
    case ForTo(v, t, a) =>
      var hd := w.host.init(v, t, s);
      if hd.store.error then Ended(hd.store)
      else if !Continues(Current(hd.store, v), hd.limit, hd.step) then Normal(hd.store)
      else if w.capped && fors >= FOR_MAX then TooDeep
      else ExecFor(w, c, hd.limit, hd.step, hd.store, fors, calls, fuel)
    case Call(l) =>
      if l >= |w.subs| || calls >= GOSUB_MAX then Ended(Failed(s))
      else if fuel == 0 then Timeout
      else Exec(w, w.subs[l], s, fors, calls + 1, fuel - 1)
    case Stop => Ended(s)
  }

  /** The turns of a DO ... LOOP: the body, then the test on the LOOP line. */
  function ExecTurns(w: World, c: Cmd, s: Store, fors: nat, calls: nat, fuel: nat): Outcome
    requires c.DoLoop?
    decreases fuel, c, 0
  {
    var o := Exec(w, c.a, s, fors, calls, fuel);
    if !o.Normal? then o
    else
      var (s1, b) := w.host.test(c.back, o.store);
      if s1.error then Ended(s1)
      else if !b then Normal(s1)
      else if fuel == 0 then Timeout
      else ExecTurns(w, c, s1, fors, calls, fuel - 1)
  }

  /** The turns of a FOR: the body, then the step. */
  function ExecFor(w: World, c: Cmd, limit: real, step: real, s: Store, fors: nat, calls: nat, fuel: nat): Outcome
    requires c.ForTo?
    decreases fuel, c, 0
  {
    var o := Exec(w, c.a, s, fors + 1, calls, fuel);
    if !o.Normal? then o
    else
      var x := Current(o.store, c.v) + step;
      var s1 := SetCurrent(o.store, c.v, x);
      if !Continues(x, limit, step) then Normal(s1)
      else if fuel == 0 then Timeout
      else ExecFor(w, c, limit, step, s1, fors, calls, fuel - 1)
  }
}
