/**
  A conversion that can be stopped and resumed, whatever the character sets:
  a step reads the front of the input and says what to write. The promise
  that lets callers work in pieces is here: a conversion may be cut anywhere,
  in the input and in the output, without changing what it gives.
  */
module IconvRun {
  import opened Common
  import opened IconvCodes

  /** Done, or errno: EINVAL, EILSEQ, E2BIG. */
  datatype Status = Done | CutShort | BadInput | NoRoom

  /** Stop; or write `w` for the first `u` bytes. `read` is what is remembered before writing, `mem` after it. */
  datatype Move = Halt(mem: Memory, status: Status) | Go(w: seq<Byte>, u: nat, lost: nat, read: Memory, mem: Memory)

  type Stepper = (Memory, seq<Byte>) -> Move

  /** The bytes written, how much input was used, what is remembered, the irreversible conversions. */
  datatype Result = Result(out: seq<Byte>, used: nat, mem: Memory, count: nat, status: Status)

  function Stop(mem: Memory, status: Status): Result {
    Result([], 0, mem, 0, status)
  }

  function Before(out: seq<Byte>, used: nat, count: nat, r: Result): Result {
    Result(out + r.out, used + r.used, r.mem, count + r.count, r.status)
  }

  /** The loop of iconv on `input` with space for `room` bytes. */
  function Run(step: Stepper, mem: Memory, input: seq<Byte>, room: nat): (r: Result)
    ensures r.used <= |input| && |r.out| <= room
    decreases |input|
  {
    if input == [] then Stop(mem, Done)
    else
      var m := step(mem, input);
      if m.Halt? then Stop(m.mem, m.status)
      else if |m.w| > room then Stop(m.read, NoRoom)
      else if m.u == 0 || m.u > |input| then Stop(m.read, BadInput)
      else Before(m.w, m.u, m.lost, Run(step, m.mem, input[m.u..], room - |m.w|))
  }

  /** A step does not look past what it reads, and trying it again, also with more bytes, gives the same. */
  ghost predicate SteadyAt(step: Stepper, mem: Memory, p: seq<Byte>, x: seq<Byte>) {
    var m := step(mem, p);
    && (m.Go? ==> 1 <= m.u <= |p| && step(mem, p + x) == m)
    && (m.Go? && m.w != [] ==> step(m.read, p + x) == m)
    && (m.Halt? ==> step(m.mem, p + x) == step(mem, p + x))
  }

  ghost predicate Steady(step: Stepper) {
    forall mem, p, x {:trigger SteadyAt(step, mem, p, x)} :: p != [] ==> SteadyAt(step, mem, p, x)
  }

  function Then(a: Result, b: Result): Result {
    Before(a.out, a.used, a.count, b)
  }

  lemma SameStep(step: Stepper, a: Memory, b: Memory, p: seq<Byte>, room: nat)
    requires p != [] && step(a, p) == step(b, p)
    ensures Run(step, a, p, room) == Run(step, b, p, room)
  {
  }

  lemma BeforeThen(out: seq<Byte>, used: nat, count: nat, a: Result, b: Result)
    ensures Then(Before(out, used, count, a), b) == Before(out, used, count, Then(a, b))
  {
    assert out + (a.out + b.out) == out + a.out + b.out;
  }

  lemma Slices(a: seq<Byte>, x: seq<Byte>, u: nat, v: nat)
    requires u + v <= |a|
    ensures (a + x)[u..] == a[u..] + x && a[u..][v..] == a[u + v..]
  {
  }

  ghost predicate Resumes(step: Stepper, mem: Memory, input: seq<Byte>, x: seq<Byte>, room: nat, more: nat) {
    var a := Run(step, mem, input, room);
    Run(step, mem, input + x, |a.out| + more) == Then(a, Run(step, a.mem, input[a.used..] + x, more))
  }

  lemma ResumeAfter(step: Stepper, mem: Memory, input: seq<Byte>, x: seq<Byte>, room: nat, more: nat)
    requires input != [] && SteadyAt(step, mem, input, x) && step(mem, input).Go? && |step(mem, input).w| <= room
    requires var m := step(mem, input); Resumes(step, m.mem, input[m.u..], x, room - |m.w|, more)
    ensures Resumes(step, mem, input, x, room, more)
  {
    var m := step(mem, input);
    var b := Run(step, m.mem, input[m.u..], room - |m.w|);
    Slices(input, x, m.u, b.used);
    BeforeThen(m.w, m.u, m.lost, b, Run(step, b.mem, input[m.u + b.used..] + x, more));
  }

  /** A call, then another on what is left, is one call on all the input with the room of both. */
  lemma {:induction false} Resume(step: Stepper, mem: Memory, input: seq<Byte>, x: seq<Byte>, room: nat, more: nat)
    requires Steady(step)
    ensures Resumes(step, mem, input, x, room, more)
    decreases |input|
  {
    if input == [] {
      assert input + x == x && input[0..] + x == x;
    } else {
      assert SteadyAt(step, mem, input, x);
      var m := step(mem, input);
      if m.Go? && |m.w| <= room {
        Resume(step, m.mem, input[m.u..], x, room - |m.w|, more);
        ResumeAfter(step, mem, input, x, room, more);
      } else {
        var a := Run(step, mem, input, room);
        assert input[0..] == input;
        SameStep(step, a.mem, mem, input + x, more);
      }
    }
  }
}
