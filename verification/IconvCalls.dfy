/**
  Callers of a resumable conversion: any number of calls, each with more input
  and some room.
  */
module IconvCalls {
  import opened Common
  import opened IconvCodes
  import opened IconvRun

  /** A conversion: what is remembered, the input, the room. */
  type Runner = (Memory, seq<Byte>, nat) -> Result

  ghost predicate ResumesAt(run: Runner, mem: Memory, input: seq<Byte>, x: seq<Byte>, room: nat, more: nat) {
    var a := run(mem, input, room);
    a.used <= |input| && run(mem, input + x, |a.out| + more) == Then(a, run(a.mem, input[a.used..] + x, more))
  }

  /** The conversion by a step. */
  ghost predicate Runs(run: Runner, step: Stepper) {
    forall mem, input, room {:trigger run(mem, input, room)} :: run(mem, input, room) == Run(step, mem, input, room)
  }

  lemma RunsResume(run: Runner, step: Stepper)
    requires Runs(run, step) && Steady(step)
    ensures Resumable(run)
  {
    forall mem, input, x, room, more: nat ensures ResumesAt(run, mem, input, x, room, more) {
      Resume(step, mem, input, x, room, more);
    }
  }

  /** A call, then another on what is left, is one call on all the input with the room of both. */
  ghost predicate Resumable(run: Runner) {
    forall mem, input, x, room, more {:trigger ResumesAt(run, mem, input, x, room, more)} ::
      ResumesAt(run, mem, input, x, room, more)
  }

  /** What a caller has: the bytes so far, and the input that was not used. */
  datatype Talk = Talk(out: seq<Byte>, mem: Memory, tail: seq<Byte>, count: nat, status: Status)

  /** The next piece of input, and the room offered. */
  datatype Call = Call(piece: seq<Byte>, room: nat)

  function Answer(run: Runner, t: Talk, call: Call): Talk {
    var input := t.tail + call.piece;
    var r := run(t.mem, input, call.room);
    Talk(t.out + r.out, r.mem, if r.used <= |input| then input[r.used..] else [], t.count + r.count, r.status)
  }

  function Calls(run: Runner, t: Talk, calls: seq<Call>): Talk
    decreases calls
  {
    if calls == [] then t else Calls(run, Answer(run, t, calls[0]), calls[1..])
  }

  function Pieces(calls: seq<Call>): seq<Byte> {
    if calls == [] then [] else calls[0].piece + Pieces(calls[1..])
  }

  function Opening(mem: Memory): Talk {
    Talk([], mem, [], 0, Done)
  }

  /** What is known after some calls: they did what one call would have, up to here. */
  ghost predicate SoFarAt(run: Runner, mem: Memory, all: seq<Byte>, t: Talk, x: seq<Byte>, more: nat) {
    && |t.tail| <= |all|
    && run(mem, all + x, |t.out| + more) == Before(t.out, |all| - |t.tail|, t.count, run(t.mem, t.tail + x, more))
  }

  ghost predicate SoFar(run: Runner, mem: Memory, all: seq<Byte>, t: Talk) {
    forall x, more {:trigger SoFarAt(run, mem, all, t, x, more)} :: SoFarAt(run, mem, all, t, x, more)
  }

  lemma AnswerSoFarAt(run: Runner, mem: Memory, all: seq<Byte>, t: Talk, call: Call, x: seq<Byte>, more: nat)
    requires var r := run(t.mem, t.tail + call.piece, call.room); SoFarAt(run, mem, all, t, call.piece + x, |r.out| + more)
    requires ResumesAt(run, t.mem, t.tail + call.piece, x, call.room, more)
    ensures SoFarAt(run, mem, all + call.piece, Answer(run, t, call), x, more)
  {
    var input := t.tail + call.piece;
    var r := run(t.mem, input, call.room);
    assert all + call.piece + x == all + (call.piece + x);
    assert input + x == t.tail + (call.piece + x);
    BeforeThen(t.out, |all| - |t.tail|, t.count, r, run(r.mem, input[r.used..] + x, more));
  }

  lemma AnswerSoFar(run: Runner, mem: Memory, all: seq<Byte>, t: Talk, call: Call)
    requires Resumable(run) && SoFar(run, mem, all, t)
    ensures SoFar(run, mem, all + call.piece, Answer(run, t, call))
  {
    var input := t.tail + call.piece;
    var r := run(t.mem, input, call.room);
    forall x, more: nat ensures SoFarAt(run, mem, all + call.piece, Answer(run, t, call), x, more) {
      assert ResumesAt(run, t.mem, input, x, call.room, more);
      assert SoFarAt(run, mem, all, t, call.piece + x, |r.out| + more);
      AnswerSoFarAt(run, mem, all, t, call, x, more);
    }
  }

  lemma {:induction false} CallsSoFar(run: Runner, mem: Memory, all: seq<Byte>, t: Talk, calls: seq<Call>)
    requires Resumable(run) && SoFar(run, mem, all, t)
    ensures SoFar(run, mem, all + Pieces(calls), Calls(run, t, calls))
    decreases calls
  {
    if calls == [] {
      assert all + Pieces(calls) == all;
    } else {
      AnswerSoFar(run, mem, all, t, calls[0]);
      CallsSoFar(run, mem, all + calls[0].piece, Answer(run, t, calls[0]), calls[1..]);
      assert all + calls[0].piece + Pieces(calls[1..]) == all + Pieces(calls);
    }
  }

  lemma NothingYet(run: Runner, mem: Memory, x: seq<Byte>, more: nat)
    ensures SoFarAt(run, mem, [], Opening(mem), x, more)
  {
    assert [] + x == x;
    assert [] + run(mem, x, more).out == run(mem, x, more).out;
  }

  lemma FromTheStart(run: Runner, mem: Memory, calls: seq<Call>)
    requires Resumable(run)
    ensures SoFar(run, mem, Pieces(calls), Calls(run, Opening(mem), calls))
  {
    forall x, r: nat ensures SoFarAt(run, mem, [], Opening(mem), x, r) {
      NothingYet(run, mem, x, r);
    }
    CallsSoFar(run, mem, [], Opening(mem), calls);
    assert [] + Pieces(calls) == Pieces(calls);
  }

  lemma AtTheEnd(run: Runner, mem: Memory, all: seq<Byte>, t: Talk, more: nat)
    requires SoFar(run, mem, all, t)
    ensures |t.tail| <= |all| && run(mem, all, |t.out| + more) == Before(t.out, |all| - |t.tail|, t.count, run(t.mem, t.tail, more))
  {
    assert SoFarAt(run, mem, all, t, [], more);
    assert all + [] == all && t.tail + [] == t.tail;
  }

  /**
    Input and room handed out in any pieces: the calls together write, use and
    count what one call on the whole input does with that much room.
    */
  lemma PiecesDoNotMatter(run: Runner, mem: Memory, calls: seq<Call>, more: nat)
    requires Resumable(run)
    ensures var t := Calls(run, Opening(mem), calls);
            && |t.tail| <= |Pieces(calls)|
            && run(mem, Pieces(calls), |t.out| + more)
               == Before(t.out, |Pieces(calls)| - |t.tail|, t.count, run(t.mem, t.tail, more))
  {
    FromTheStart(run, mem, calls);
    AtTheEnd(run, mem, Pieces(calls), Calls(run, Opening(mem), calls), more);
  }
}
