/**
  open_memstream: a stream whose bytes go to a buffer that grows. It behaves
  as a file with holes: every byte is the last one written there, or zero.
  */
module Memstream {
  import opened Common

  // ----- the file a stream stands for -----

  datatype File = File(bytes: seq<Byte>, pos: nat)

  function Max(a: int, b: int): int {
    if a > b then a else b
  }

  function Zeros(n: nat): seq<Byte> {
    seq(n, _ => 0)
  }

  /** Bytes written at a position: what they cover is replaced, a hole before them is zero. */
  function Patch(bytes: seq<Byte>, pos: nat, data: seq<Byte>): seq<Byte> {
    var padded := if pos <= |bytes| then bytes[..pos] else bytes + Zeros(pos - |bytes|);
    padded + data + if pos + |data| <= |bytes| then bytes[pos + |data|..] else []
  }

  function Write(f: File, data: seq<Byte>): File {
    if data == [] then f else File(Patch(f.bytes, f.pos, data), f.pos + |data|)
  }

  lemma PatchAt(bytes: seq<Byte>, pos: nat, data: seq<Byte>, i: nat)
    requires data != []
    ensures |Patch(bytes, pos, data)| == Max(|bytes|, pos + |data|)
    ensures i < Max(|bytes|, pos + |data|) ==>
              Patch(bytes, pos, data)[i] ==
              if pos <= i < pos + |data| then data[i - pos] else if i < |bytes| then bytes[i] else 0
  {
  }

  /** Writing in two goes is writing at once. */
  lemma WriteTwice(f: File, a: seq<Byte>, b: seq<Byte>)
    ensures Write(Write(f, a), b) == Write(f, a + b)
  {
    if a == [] {
      assert a + b == b;
    } else if b == [] {
      assert a + b == a;
    } else {
      var p := Patch(Patch(f.bytes, f.pos, a), f.pos + |a|, b);
      var q := Patch(f.bytes, f.pos, a + b);
      PatchTwiceAt(f.bytes, f.pos, a, b, 0);
      forall i | 0 <= i < |p| ensures p[i] == q[i] {
        PatchTwiceAt(f.bytes, f.pos, a, b, i);
      }
    }
  }

  lemma PatchTwiceAt(bytes: seq<Byte>, pos: nat, a: seq<Byte>, b: seq<Byte>, i: nat)
    requires a != [] && b != []
    ensures var p, q := Patch(Patch(bytes, pos, a), pos + |a|, b), Patch(bytes, pos, a + b);
            |p| == |q| && (i < |p| ==> p[i] == q[i])
  {
    PatchAt(bytes, pos, a, i);
    PatchAt(Patch(bytes, pos, a), pos + |a|, b, i);
    PatchAt(bytes, pos, a + b, i);
  }

  // ----- seeking -----

  datatype Whence = Start | Here | End | Bad

  function Base(f: File, w: Whence): int {
    match w
    case Start => 0
    case Here => f.pos
    case End => |f.bytes|
    case Bad => -1
  }

  predicate CanSeek(f: File, off: int, w: Whence) {
    Base(f, w) >= 0 && Base(f, w) + off >= 0
  }

  function Seek(f: File, off: int, w: Whence): File {
    if CanSeek(f, off, w) then f.(pos := Base(f, w) + off) else f
  }

  /** Writing at the end adds to the file; stepping back over what was written leads to where it began. */
  lemma SeekAndWrite(f: File, data: seq<Byte>)
    ensures Write(Seek(f, 0, End), data).bytes == f.bytes + data
    ensures Seek(Write(f, data), -|data|, Here) == File(Write(f, data).bytes, f.pos)
    ensures data != [] ==> Write(Seek(f, 0, Start), data).bytes[..|data|] == data
  {
    if data != [] {
      var p := Patch(f.bytes, |f.bytes|, data);
      assert p == f.bytes + data;
    }
  }

  // ----- the history of a file -----

  datatype Op = Put(data: seq<Byte>) | Flush | Go(off: int, w: Whence)

  function Apply(f: File, op: Op): File {
    match op
    case Put(data) => Write(f, data)
    case Flush => f
    case Go(off, w) => Seek(f, off, w)
  }

  function ApplyAll(f: File, ops: seq<Op>): File
    decreases ops
  {
    if ops == [] then f else ApplyAll(Apply(f, ops[0]), ops[1..])
  }

  /** No position reached, first and last included, needs a buffer of more than `max` bytes. */
  predicate HasRoom(f: File, ops: seq<Op>, max: nat)
    decreases ops
  {
    2 * (f.pos + 1) <= max && (ops == [] || HasRoom(Apply(f, ops[0]), ops[1..], max))
  }

  /** A write that took place, and where. */
  datatype Written = Written(pos: nat, data: seq<Byte>)

  function Writes(f: File, ops: seq<Op>): seq<Written>
    decreases ops
  {
    if ops == [] then []
    else
      (if ops[0].Put? && ops[0].data != [] then [Written(f.pos, ops[0].data)] else [])
      + Writes(Apply(f, ops[0]), ops[1..])
  }

  /** The last byte written at `i`, or what was there before. */
  function LastAt(ws: seq<Written>, i: nat, before: Byte): Byte
    decreases ws
  {
    if ws == [] then before
    else LastAt(ws[1..], i, if ws[0].pos <= i < ws[0].pos + |ws[0].data| then ws[0].data[i - ws[0].pos] else before)
  }

  function EndOf(ws: seq<Written>, before: nat): nat
    decreases ws
  {
    if ws == [] then before else EndOf(ws[1..], Max(before, ws[0].pos + |ws[0].data|))
  }

  function ByteAt(bytes: seq<Byte>, i: nat): Byte {
    if i < |bytes| then bytes[i] else 0
  }

  /** Whatever was done, the file is as long as its farthest write, and every byte is the last one written there, or zero. */
  lemma {:induction false} LastWriteWins(f: File, ops: seq<Op>, i: nat)
    ensures |ApplyAll(f, ops).bytes| == EndOf(Writes(f, ops), |f.bytes|)
    ensures ByteAt(ApplyAll(f, ops).bytes, i) == LastAt(Writes(f, ops), i, ByteAt(f.bytes, i))
    decreases ops
  {
    if ops != [] {
      LastWriteWins(Apply(f, ops[0]), ops[1..], i);
      if ops[0].Put? && ops[0].data != [] {
        PatchAt(f.bytes, f.pos, ops[0].data, i);
        var w := Written(f.pos, ops[0].data);
        assert ([w] + Writes(Apply(f, ops[0]), ops[1..]))[1..] == Writes(Apply(f, ops[0]), ops[1..]);
      } else {
        assert [] + Writes(Apply(f, ops[0]), ops[1..]) == Writes(Apply(f, ops[0]), ops[1..]);
        assert Apply(f, ops[0]).bytes == f.bytes;
      }
    }
  }

  // ----- the stream -----

  const FILE_BUF: nat := 4096

  class Stream {
    const sizeMax: nat                // SIZE_MAX
    var mem: array<Byte>              // mem, mem_cap its length
    var end: nat                      // mem_fine
    var pos: nat                      // mem_pos
    var buf: seq<Byte>                // what fputc has gathered
    var place: array<Byte>            // *dove
    var size: nat                     // *quanti
    var failed: bool                  // _F_ERR

    /** The buffer holds the bytes with a '\0' after them, and the caller has been told. */
    ghost predicate Valid()
      reads this, mem
    {
      && end < mem.Length && mem[end] == 0 && |buf| <= FILE_BUF
      && place == mem && size == if pos < end then pos else end
    }

    /** What has reached the buffer. */
    ghost function Flushed(): File
      requires Valid()
      reads this, mem
    {
      File(mem[..end], pos)
    }

    /** The file, with what still waits to be flushed. */
    ghost function Contents(): File
      requires Valid()
      reads this, mem
    {
      Write(Flushed(), buf)
    }

    /** open_memstream */
    constructor (sizeMax: nat)
      ensures Valid() && fresh(mem) && Contents() == File([], 0) && size == 0 && !failed
    {
      this.sizeMax := sizeMax;
      var m := new Byte[64](_ => 0);
      mem, place := m, m;
      end, pos, buf, size, failed := 0, 0, [], 0, false;
    }

    /** memstream_cresce: room for `need` bytes and the '\0'. */
    method Grow(need: nat) returns (ok: bool)
      requires end < mem.Length
      modifies this`mem
      ensures ok ==> need < mem.Length && (mem == old(mem) || fresh(mem))
      ensures ok ==> mem.Length >= old(mem.Length) && forall i :: 0 <= i < old(mem.Length) ==> mem[i] == old(mem[i])
      ensures !ok ==> mem == old(mem)
      ensures 2 * (need + 1) <= sizeMax ==> ok
    {
      var cap := mem.Length;
      while cap < need + 1
        invariant cap >= mem.Length && cap > 0
        invariant cap > mem.Length ==> cap < 2 * (need + 1)
        decreases need + 1 - cap
      {
        if cap > sizeMax / 2 {
          return false;
        }
        cap := cap * 2;
      }
      if cap == mem.Length {
        return true;
      }
      var n := new Byte[cap](_ => 0);
      forall i | 0 <= i < mem.Length {
        n[i] := mem[i];
      }
      mem := n;
      ok := true;
    }

    /** memstream_annuncia */
    method Announce()
      modifies this`place, this`size
      ensures place == mem && size == if pos < end then pos else end
    {
      place := mem;
      size := if pos < end then pos else end;
    }

    /** The bytes into the buffer: zeros in a hole before them, a '\0' at the end. */
    method Store(data: seq<Byte>)
      requires data != [] && end < mem.Length && pos + |data| < mem.Length
      modifies this`pos, this`end, mem
      ensures pos == old(pos) + |data| && end < mem.Length && mem[end] == 0
      ensures mem[..end] == Patch(old(mem[..end]), old(pos), data)
    {
      ghost var bytes, from := mem[..end], pos;
      forall i | end <= i < pos {
        mem[i] := 0;
      }
      forall i | 0 <= i < |data| {
        mem[pos + i] := data[i];
      }
      pos := pos + |data|;
      if pos > end {
        end := pos;
      }
      mem[end] := 0;
      PatchAt(bytes, from, data, 0);
      forall i | 0 <= i < end ensures mem[i] == Patch(bytes, from, data)[i] {
        PatchAt(bytes, from, data, i);
      }
    }

    /** memstream_scarica. When there is no room what was gathered is lost, and the error flag says so. */
    method Flush() returns (ok: bool)
      requires Valid()
      modifies this, mem
      ensures Valid() && buf == [] && (mem == old(mem) || fresh(mem))
      ensures Flushed() == if ok then old(Contents()) else old(Flushed())
      ensures failed == (old(failed) || !ok)
      ensures 2 * (old(Contents()).pos + 1) <= sizeMax ==> ok
    {
      var data := buf;
      buf := [];
      if data == [] {
        Announce();
        return true;
      }
      ok := Grow(pos + |data|);
      if !ok {
        failed := true;
        return;
      }
      assert mem[..end] == old(mem[..end]);
      Store(data);
      Announce();
    }

    /** fputc: a full buffer is flushed first. */
    method PutByte(c: Byte) returns (ok: bool)
      requires Valid()
      modifies this, mem
      ensures Valid() && (mem == old(mem) || fresh(mem))
      ensures ok ==> Contents() == Write(old(Contents()), [c]) && failed == old(failed)
      ensures !ok ==> Contents() == old(Flushed()) && failed
      ensures 2 * (old(Contents()).pos + 1) <= sizeMax ==> ok
    {
      ghost var before := Contents();
      ok := true;
      if |buf| >= FILE_BUF {
        ok := Flush();
        if !ok {
          return;
        }
      }
      WriteTwice(Flushed(), buf, [c]);
      buf := buf + [c];
    }

    /** memstream_dove, which is ftell */
    method Tell() returns (n: nat)
      requires Valid()
      ensures n == Contents().pos
    {
      n := pos + |buf|;
    }

    /** memstream_vai, which is fseek. What was gathered is flushed; a bad place is refused and nothing else changes. */
    method SeekTo(off: int, w: Whence) returns (ok: bool)
      requires Valid()
      modifies this, mem
      ensures Valid() && (mem == old(mem) || fresh(mem))
      ensures old(failed) ==> failed
      ensures ok ==> CanSeek(old(Contents()), off, w) && Contents() == Seek(old(Contents()), off, w)
      ensures !ok && !failed ==> !CanSeek(old(Contents()), off, w) && Contents() == old(Contents())
      ensures 2 * (old(Contents()).pos + 1) <= sizeMax && !old(failed) ==> !failed
    {
      ok := Flush();
      if !ok {
        return;
      }
      var base := if w == Start then 0 else if w == Here then pos else if w == End then end else -1;
      if base < 0 || (off < 0 && -off > base) {
        return false;
      }
      pos := base + off;
      Announce();
    }

    /** After a flush the caller finds the bytes at *dove, a '\0' after them, and min(position, length) in *quanti. */
    method FlushAll() returns (ok: bool)
      requires Valid()
      modifies this, mem
      ensures Valid() && (mem == old(mem) || fresh(mem))
      ensures ok ==>
                && Contents() == old(Contents()) && end < place.Length && place[end] == 0
                && place[..end] == Contents().bytes && size == if Contents().pos < end then Contents().pos else end
      ensures failed == (old(failed) || !ok)
      ensures 2 * (old(Contents()).pos + 1) <= sizeMax ==> ok
    {
      ok := Flush();
    }

    /** Bytes one after the other. */
    method PutAll(data: seq<Byte>)
      requires Valid()
      modifies this, mem
      ensures Valid() && (mem == old(mem) || fresh(mem)) && (old(failed) ==> failed)
      ensures !failed ==> Contents() == Write(old(Contents()), data)
      ensures 2 * (old(Contents()).pos + |data| + 1) <= sizeMax && !old(failed) ==> !failed
    {
      ghost var f := Contents();
      var i := 0;
      while i < |data|
        invariant 0 <= i <= |data| && Valid() && (mem == old(mem) || fresh(mem)) && (old(failed) ==> failed)
        invariant !failed ==> Contents() == Write(f, data[..i])
        invariant 2 * (f.pos + |data| + 1) <= sizeMax && !old(failed) ==> !failed
      {
        WriteTwice(f, data[..i], [data[i]]);
        assert data[..i] + [data[i]] == data[..i + 1];
        var ok := PutByte(data[i]);
        i := i + 1;
      }
      assert data[..i] == data;
    }

    /** Any sequence of writes, flushes and seeks: the stream is the file, unless room ran out; and it does not if every
        position fits twice into SIZE_MAX. */
    method Perform(ops: seq<Op>)
      requires Valid()
      modifies this, mem
      ensures Valid() && (mem == old(mem) || fresh(mem))
      ensures !failed ==> Contents() == ApplyAll(old(Contents()), ops)
      ensures HasRoom(old(Contents()), ops, sizeMax) && !old(failed) ==> !failed
    {
      ghost var f := Contents();
      var i := 0;
      assert ops[0..] == ops;
      while i < |ops|
        invariant 0 <= i <= |ops| && Valid() && (mem == old(mem) || fresh(mem)) && (old(failed) ==> failed)
        invariant !failed ==> ApplyAll(f, ops) == ApplyAll(Contents(), ops[i..])
        invariant HasRoom(f, ops, sizeMax) && !old(failed) ==> !failed && HasRoom(Contents(), ops[i..], sizeMax)
      {
        assert ops[i..][1..] == ops[i + 1..];
        match ops[i] {
          case Put(data) =>
            assert Apply(Contents(), ops[i]).pos == Contents().pos + |data|;
            PutAll(data);
          case Flush => var ok := FlushAll();
          case Go(off, w) => var ok := SeekTo(off, w);
        }
        i := i + 1;
      }
    }
  }
}
