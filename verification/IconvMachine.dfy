/**
  iconv as it works: a descriptor whose flags the decoder and the encoder
  change, and a loop that moves through the input and fills the output.
  */
module IconvMachine {
  import opened Common
  import opened IconvCodes
  import opened IconvRun
  import opened IconvCalls
  import opened Iconv

  /** ic_tabella */
  method Search(t: seq<nat>, cp: nat) returns (k: Option<nat>)
    ensures k == Find(t, cp, 0)
  {
    var i := 0;
    while i < |t|
      invariant 0 <= i <= |t| && Find(t, cp, 0) == Find(t, cp, i)
    {
      if t[i] == cp && cp != 0 {
        return Some(i);
      }
      i := i + 1;
    }
    k := None;
  }

  /** The UTF-8 part of ic_leggi. */
  method ReadChar8(p: seq<Byte>) returns (r: Read)
    requires |p| > 0
    ensures r == ReadUtf8(p)
  {
    var c: nat, k: nat, min: nat := p[0], 0, 0;
    if c < 0x80 {
      return Char(c, 1);
    }
    if c < 0xC2 {
      return Invalid;
    }
    if c < 0xE0 {
      k, c, min := 2, c % 32, 0x80;
    } else if c < 0xF0 {
      k, c, min := 3, c % 16, 0x800;
    } else if c < 0xF5 {
      k, c, min := 4, c % 8, 0x10000;
    } else {
      return Invalid;
    }
    var i := 1;
    while i < k
      invariant 1 <= i <= k && i <= |p| && ReadUtf8(p) == Utf8Rest(p, i, k, c, min)
    {
      if i >= |p| {
        return Cut;
      }
      if p[i] / 64 != 2 {
        return Invalid;
      }
      c := c * 64 + p[i] % 64;
      i := i + 1;
    }
    if c < min || !Scalar(c) {
      return Invalid;
    }
    r := Char(c, k);
  }

  /** The Latin-9 part of ic_leggi. */
  method ReadLatin9(b: Byte) returns (cp: nat)
    ensures cp == Latin9Of(b, 0, b)
  {
    cp := b;
    var i := 0;
    while i < 8
      invariant 0 <= i <= 8 && cp < 0x3000 && Latin9Of(b, 0, b) == Latin9Of(b, i, cp)
    {
      if b == LATIN9_FROM[i] {
        cp := LATIN9_TO[i];
      }
      i := i + 1;
    }
  }

  /** The upper half of a code page, from 0x80 on. */
  method SearchHigh(t: seq<nat>, cp: nat) returns (b: Option<Byte>)
    requires |t| <= 128
    ensures b == (var k := Find(t, cp, 0); if k.None? then None else Some(0x80 + k.value))
  {
    var k := Search(t, cp);
    b := if k.None? then None else Some(0x80 + k.value);
  }

  method WriteLatin9(cp: nat) returns (b: Option<Byte>)
    ensures b == WriteByte(Latin9, cp)
  {
    b := None;
    var k := Search(LATIN9_TO, cp);
    if k.Some? {
      b := Some(LATIN9_FROM[k.value]);
    } else if cp < 0x100 {
      var j := Search(LATIN9_FROM, cp);
      if j.None? { b := Some(cp); }
    }
  }

  /** The code pages of ic_scrivi. */
  method WritePage(to: Enc, cp: nat) returns (b: Option<Byte>)
    ensures b == WriteByte(to, cp)
  {
    b := None;
    if to == Ascii {
      if cp < 0x80 { b := Some(cp); }
    } else if to == Latin1 {
      if cp < 0x100 { b := Some(cp); }
    } else if to == Latin9 {
      b := WriteLatin9(cp);
    } else if to == Cp1252 {
      if cp < 0x80 || 0xA0 <= cp < 0x100 { b := Some(cp); } else { b := SearchHigh(CP1252, cp); }
    } else if to == Cp437 {
      if cp < 0x80 { b := Some(cp); } else { b := SearchHigh(CP437, cp); }
    }
  }

  datatype Write = Wrote(bytes: seq<Byte>) | Lacks | Full

  class Descriptor {
    const conv: Conv
    var be: bool
    var seen: bool
    var written: bool

    /** iconv_open */
    constructor (conv: Conv)
      ensures this.conv == conv && Mem() == INITIAL
    {
      this.conv := conv;
      be, seen, written := true, false, false;
    }

    function Mem(): Memory
      reads this
    {
      Memory(be, seen, written)
    }

    /** iconv without input: back to the start. */
    method Reset()
      modifies this
      ensures Mem() == INITIAL
    {
      be, seen, written := true, false, false;
    }

    /** ic_leggi */
    method ReadChar(p: seq<Byte>) returns (r: Read)
      requires |p| > 0
      modifies `be, `seen
      ensures Decoded(r, Mem()) == Decode(conv.from, old(Mem()), p)
    {
      var from := conv.from;
      if from == Utf8 {
        r := ReadChar8(p);
      } else if from == Utf16 || from == Utf16Le || from == Utf16Be {
        var order := if from == Utf16Be then true else if from == Utf16Le then false else be;
        if |p| < 2 {
          return Cut;
        }
        if from == Utf16 {
          if !seen {
            seen := true;
            if p[0] == 0xFE && p[1] == 0xFF {
              be := true;
              return Mark(2);
            }
            if p[0] == 0xFF && p[1] == 0xFE {
              be := false;
              return Mark(2);
            }
          }
        }
        r := ReadUtf16(p, order);
      } else if from == Utf32 || from == Utf32Le || from == Utf32Be {
        var order := if from == Utf32Be then true else if from == Utf32Le then false else be;
        if |p| < 4 {
          return Cut;
        }
        if from == Utf32 {
          if !seen {
            seen := true;
            if Unit32(true, p[0], p[1], p[2], p[3]) == 0xFEFF {
              be := true;
              return Mark(4);
            }
            if Unit32(false, p[0], p[1], p[2], p[3]) == 0xFEFF {
              be := false;
              return Mark(4);
            }
          }
        }
        r := ReadUtf32(p, order);
      } else if from == Latin9 {
        var cp := ReadLatin9(p[0]);
        r := Char(cp, 1);
      } else {
        r := ReadByte(from, p[0]);
      }
    }

    /** ic_scrivi */
    method WriteChar(cp: nat, room: nat) returns (w: Write)
      requires cp <= 0x10FFFF
      modifies `written
      ensures w == (var e := Encode(conv.to, old(written), cp);
                    if e.None? then Lacks else if |e.value| > room then Full else Wrote(e.value))
      ensures written == if w.Wrote? then WrittenAfter(conv.to, old(written)) else old(written)
    {
      var to := conv.to;
      if to == Utf8 {
        var o := WriteUtf8(cp);
        return if room < |o| then Full else Wrote(o);
      } else if to == Utf16 || to == Utf16Le || to == Utf16Be {
        var o := WriteUtf16(to == Utf16Be, cp);
        if to == Utf16 && !written {
          o := Bytes16(false, 0xFEFF) + o;
        }
        if room < |o| {
          return Full;
        }
        assert !(to == Utf16 && !written) ==> [] + o == o;
        written := true;
        w := Wrote(o);
      } else if to == Utf32 || to == Utf32Le || to == Utf32Be {
        var o := Bytes32(to == Utf32Be, cp);
        if to == Utf32 && !written {
          o := Bytes32(false, 0xFEFF) + o;
        }
        if room < |o| {
          return Full;
        }
        assert !(to == Utf32 && !written) ==> [] + o == o;
        written := true;
        w := Wrote(o);
      } else {
        var b := WritePage(to, cp);
        if b.None? {
          return Lacks;
        }
        w := if room < 1 then Full else Wrote([b.value]);
      }
    }

    /** The turn of the loop of iconv, on what is left of the input and of the room. */
    method Turn(p: seq<Byte>, room: nat) returns (t: Turned)
      requires p != []
      modifies this
      ensures var m := Next(conv, old(Mem()), p); Did(m, room, t) && Mem() == After(m, room)
    {
      var d := ReadChar(p);
      if d.Mark? {
        return Moved([], d.used, 0);
      }
      if d.Cut? {
        return Stopped(CutShort);
      }
      if d.Invalid? {
        return if conv.ignore then Moved([], 1, 1) else Stopped(BadInput);
      }
      var w := WriteChar(d.cp, room);
      var lost := 0;
      if w.Lacks? {
        lost := 1;
        if conv.translit {
          w := WriteChar(QUESTION, room);
        } else if conv.ignore {
          w := Wrote([]);
        } else {
          return Stopped(BadInput);
        }
      }
      t := if w.Full? then Stopped(NoRoom) else Moved(w.bytes, d.used, lost);
    }

    /** A turn, and what the conversion still has to do after it. */
    method Advance(ghost run: Runner, p: seq<Byte>, room: nat) returns (t: Turned)
      requires p != [] && Converts(run, conv)
      modifies this
      ensures t.Stopped? ==> run(old(Mem()), p, room) == Stop(Mem(), t.status)
      ensures t.Moved? ==>
                && 1 <= t.u <= |p| && |t.w| <= room
                && run(old(Mem()), p, room) == Before(t.w, t.u, t.lost, run(Mem(), p[t.u..], room - |t.w|))
    {
      ghost var mem := Mem();
      t := Turn(p, room);
      NextUses(conv, mem, p);
      TurnOnce(Step(conv), mem, p, room, Next(conv, mem, p), t);
      assert ConvertsAt(run, conv, mem, p, room);
      if t.Moved? {
        assert ConvertsAt(run, conv, Mem(), p[t.u..], room - |t.w|);
      }
    }

    /** The loop of iconv. */
    method Loop(ghost run: Runner, input: seq<Byte>, room: nat) returns (r: Result)
      requires Converts(run, conv)
      modifies this
      ensures r == run(old(Mem()), input, room) && r.mem == Mem()
    {
      var out: seq<Byte>, used: nat, count: nat := [], 0, 0;
      ghost var all := run(Mem(), input, room);
      assert input[0..] == input && [] + all.out == all.out;
      while used < |input|
        invariant used <= |input| && |out| <= room
        invariant all == Before(out, used, count, run(Mem(), input[used..], room - |out|))
        decreases |input| - used
      {
        var t := Advance(run, input[used..], room - |out|);
        if t.Stopped? {
          assert out + [] == out;
          return Result(out, used, Mem(), count, t.status);
        }
        Slices(input, [], used, t.u);
        BeforeTwice(out, used, count, t.w, t.u, t.lost, run(Mem(), input[used + t.u..], room - |out| - |t.w|));
        out, used, count := out + t.w, used + t.u, count + t.lost;
      }
      assert input[used..] == [] && out + [] == out;
      NothingLeft(run, conv, Mem(), room - |out|);
      r := Result(out, used, Mem(), count, Done);
    }

    /** iconv */
    method Iconv(input: seq<Byte>, room: nat) returns (r: Result)
      modifies this
      ensures r == Convert(conv, old(Mem()), input, room) && r.mem == Mem()
    {
      r := Loop(Converting(conv), input, room);
    }
  }

  lemma NothingLeft(run: Runner, c: Conv, mem: Memory, room: nat)
    requires Converts(run, c)
    ensures run(mem, [], room) == Stop(mem, Done)
  {
    assert ConvertsAt(run, c, mem, [], room);
  }

  datatype Turned = Stopped(status: Status) | Moved(w: seq<Byte>, u: nat, lost: nat)

  /** What a turn gives, for the room there is. */
  predicate Did(m: Move, room: nat, t: Turned) {
    if m.Halt? then t == Stopped(m.status)
    else if |m.w| > room then t == Stopped(NoRoom)
    else t == Moved(m.w, m.u, m.lost)
  }

  function After(m: Move, room: nat): Memory {
    if m.Halt? then m.mem else if |m.w| > room then m.read else m.mem
  }

  lemma NextUses(c: Conv, mem: Memory, p: seq<Byte>)
    requires p != []
    ensures Step(c)(mem, p) == Next(c, mem, p)
    ensures Next(c, mem, p).Go? ==> 1 <= Next(c, mem, p).u <= |p|
  {
  }

  lemma TurnOnce(step: Stepper, mem: Memory, p: seq<Byte>, room: nat, m: Move, t: Turned)
    requires p != [] && step(mem, p) == m && Did(m, room, t) && (m.Go? ==> 1 <= m.u <= |p|)
    ensures Run(step, mem, p, room) ==
            match t
            case Stopped(status) => Stop(After(m, room), status)
            case Moved(w, u, lost) => Before(w, u, lost, Run(step, m.mem, p[u..], room - |w|))
  {
  }

  lemma BeforeTwice(a: seq<Byte>, u: nat, k: nat, b: seq<Byte>, v: nat, l: nat, r: Result)
    ensures Before(a, u, k, Before(b, v, l, r)) == Before(a + b, u + v, k + l, r)
  {
    assert a + (b + r.out) == a + b + r.out;
  }
}
