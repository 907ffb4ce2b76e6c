/**
  iconv between any two of its character sets, with //TRANSLIT and //IGNORE.
  */
module Iconv {
  import opened Common
  import opened IconvCodes
  import opened IconvRun
  import opened IconvCalls

  /** What iconv_open fixes. */
  datatype Conv = Conv(from: Enc, to: Enc, translit: bool, ignore: bool)

  const QUESTION: nat := 0x3F

  /** What becomes of a character: its bytes, or a substitute, or nothing, or None for EILSEQ. */
  function Image(c: Conv, written: bool, cp: nat): (r: Option<seq<Byte>>)
    requires cp <= 0x10FFFF
  {
    var w := Encode(c.to, written, cp);
    if w.Some? then w
    else if c.translit then Encode(c.to, written, QUESTION)
    else if c.ignore then Some([])
    else None
  }

  /** 1 if the target has no such character. */
  function Lost(c: Conv, written: bool, cp: nat): nat
    requires cp <= 0x10FFFF
  {
    if Encode(c.to, written, cp).Some? then 0 else 1
  }

  function MemoryAfter(c: Conv, mem: Memory, bytes: seq<Byte>): Memory {
    if bytes == [] then mem else mem.(written := WrittenAfter(c.to, mem.written))
  }

  function Act(c: Conv, d: Decoded): Move
    requires d.read.Char? ==> Scalar(d.read.cp)
  {
    match d.read
    case Mark(u) => Go([], u, 0, d.mem, d.mem)
    case Cut => Halt(d.mem, CutShort)
    case Invalid => if c.ignore then Go([], 1, 1, d.mem, d.mem) else Halt(d.mem, BadInput)
    case Char(cp, u) =>
      var w := Image(c, d.mem.written, cp);
      if w.None? then Halt(d.mem, BadInput)
      else Go(w.value, u, Lost(c, d.mem.written, cp), d.mem, MemoryAfter(c, d.mem, w.value))
  }

  /** One turn of the loop, but for the room. */
  function Next(c: Conv, mem: Memory, p: seq<Byte>): Move {
    if p == [] then Halt(mem, Done) else Act(c, Decode(c.from, mem, p))
  }

  function Step(c: Conv): Stepper {
    (mem, p) => Next(c, mem, p)
  }

  /** iconv with space for `room` bytes. */
  function Convert(c: Conv, mem: Memory, input: seq<Byte>, room: nat): Result {
    Run(Step(c), mem, input, room)
  }

  function Converting(c: Conv): Runner {
    (mem: Memory, input: seq<Byte>, room: nat) => Convert(c, mem, input, room)
  }

  ghost predicate ConvertsAt(run: Runner, c: Conv, mem: Memory, p: seq<Byte>, room: nat) {
    run(mem, p, room) == Convert(c, mem, p, room)
  }

  /** `run` is the conversion; its loop is not looked into where only its results count. */
  ghost predicate Converts(run: Runner, c: Conv) {
    forall mem, p, room {:trigger ConvertsAt(run, c, mem, p, room)} :: ConvertsAt(run, c, mem, p, room)
  }

  lemma ConvertingConverts(c: Conv)
    ensures Converts(Converting(c), c)
  {
    forall mem, p, room ensures ConvertsAt(Converting(c), c, mem, p, room) {
    }
  }

  // ----- the decoders are steady -----

  lemma {:induction false} Utf8More(p: seq<Byte>, x: seq<Byte>, i: nat, k: nat, c: nat, min: nat)
    requires i <= k && i <= |p| && !Utf8Rest(p, i, k, c, min).Cut?
    ensures Utf8Rest(p + x, i, k, c, min) == Utf8Rest(p, i, k, c, min)
    decreases k - i
  {
    if i < k && p[i] / 64 == 2 {
      Utf8More(p, x, i + 1, k, c * 64 + p[i] % 64, min);
    }
  }

  /** What was read does not depend on what comes after it. */
  lemma DecodeMore(from: Enc, mem: Memory, p: seq<Byte>, x: seq<Byte>)
    requires |p| > 0 && !Decode(from, mem, p).read.Cut?
    ensures Decode(from, mem, p + x) == Decode(from, mem, p)
  {
    if from == Utf8 && p[0] >= 0xC2 {
      if p[0] < 0xE0 { Utf8More(p, x, 1, 2, p[0] % 32, 0x80); }
      else if p[0] < 0xF0 { Utf8More(p, x, 1, 3, p[0] % 16, 0x800); }
      else if p[0] < 0xF5 { Utf8More(p, x, 1, 4, p[0] % 8, 0x10000); }
    }
  }

  /** Unless it swallowed a mark, reading again gives the same, also with more bytes. */
  lemma DecodeAgain(from: Enc, mem: Memory, p: seq<Byte>, x: seq<Byte>)
    requires |p| > 0 && !Decode(from, mem, p).read.Mark?
    ensures Decode(from, Decode(from, mem, p).mem, p + x) == Decode(from, mem, p + x)
  {
  }

  lemma StepSteady(c: Conv, mem: Memory, p: seq<Byte>, x: seq<Byte>)
    requires p != []
    ensures SteadyAt(Step(c), mem, p, x)
  {
    var d := Decode(c.from, mem, p);
    if !d.read.Cut? { DecodeMore(c.from, mem, p, x); }
    if !d.read.Mark? { DecodeAgain(c.from, mem, p, x); }
  }

  lemma StepIsSteady(c: Conv)
    ensures Steady(Step(c))
  {
    forall mem, p, x | p != [] ensures SteadyAt(Step(c), mem, p, x) {
      StepSteady(c, mem, p, x);
    }
  }

  lemma ConvertingIs(c: Conv, mem: Memory, input: seq<Byte>, room: nat)
    ensures Converting(c)(mem, input, room) == Convert(c, mem, input, room)
  {
  }

  lemma ConvertResumes(c: Conv)
    ensures Resumable(Converting(c))
  {
    StepIsSteady(c);
    RunsResume(Converting(c), Step(c));
  }

  /**
    Whatever the character sets and the suffixes, with input in any pieces,
    the unused tail carried over, and room in any pieces, the calls together
    wrote, used and counted just what one call on the whole input does.
    */
  lemma ChunksDoNotMatter(c: Conv, mem: Memory, calls: seq<Call>, more: nat)
    ensures var t := Calls(Converting(c), Opening(mem), calls);
            && |t.tail| <= |Pieces(calls)|
            && Convert(c, mem, Pieces(calls), |t.out| + more)
               == Before(t.out, |Pieces(calls)| - |t.tail|, t.count, Convert(c, t.mem, t.tail, more))
  {
    ConvertResumes(c);
    PiecesDoNotMatter(Converting(c), mem, calls, more);
    var t := Calls(Converting(c), Opening(mem), calls);
    ConvertingIs(c, mem, Pieces(calls), |t.out| + more);
    ConvertingIs(c, t.mem, t.tail, more);
  }

  /** When the input is used up, one call gives exactly the same, with any room that is enough. */
  lemma AllUsed(c: Conv, mem: Memory, calls: seq<Call>, more: nat)
    requires Calls(Converting(c), Opening(mem), calls).tail == []
    ensures var t := Calls(Converting(c), Opening(mem), calls);
            Convert(c, mem, Pieces(calls), |t.out| + more) == Result(t.out, |Pieces(calls)|, t.mem, t.count, Done)
  {
    ChunksDoNotMatter(c, mem, calls, more);
    var t := Calls(Converting(c), Opening(mem), calls);
    assert t.out + [] == t.out;
  }
}
