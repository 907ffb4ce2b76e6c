/**
  What the bytes of each character set are, written out: the values and the
  broken forms of UTF-8, the units of UTF-16 and UTF-32 and their byte order,
  what a byte order mark decides, and the code pages entry by entry.
  */
module IconvForms {
  import opened Common
  import opened IconvCodes
  import opened IconvRun
  import opened Iconv
  import opened IconvRound
  import opened IconvPages
  import opened IconvText

  // ----- UTF-8 -----

  /** How many bytes a character with this first byte has; 0 if none has it. */
  function Needs(a: Byte): nat {
    if a <= 0x7F then 1
    else if 0xC2 <= a <= 0xDF then 2
    else if 0xE0 <= a <= 0xEF then 3
    else if 0xF0 <= a <= 0xF4 then 4
    else 0
  }

  /** Too short for its first byte, and nothing wrong with the bytes that are there. */
  predicate Begun(p: seq<Byte>)
    requires |p| > 0
  {
    |p| < Needs(p[0]) && forall i :: 1 <= i < |p| ==> Tail(p[i])
  }

  lemma {:induction false} RestCut(p: seq<Byte>, i: nat, k: nat, c: nat, min: nat)
    requires i <= k && i <= |p|
    ensures Utf8Rest(p, i, k, c, min).Cut? <==> |p| < k && forall j :: i <= j < |p| ==> Tail(p[j])
    decreases k - i
  {
    if i < k && i < |p| && p[i] / 64 == 2 { RestCut(p, i + 1, k, c * 64 + p[i] % 64, min); }
  }

  /** The value of a well-formed character. */
  function Value(p: seq<Byte>): int
    requires Form(p) > 0
  {
    match Form(p)
    case 1 => p[0]
    case 2 => Value2(p[0], p[1])
    case 3 => Value3(p[0], p[1], p[2])
    case _ => Value4(p[0], p[1], p[2], p[3])
  }

  /** Every byte string: a character of that value and length, a character begun, or neither. */
  lemma Utf8Reads(p: seq<Byte>)
    requires |p| > 0
    ensures ReadUtf8(p) == if Form(p) > 0 then Char(Value(p), Form(p)) else if Begun(p) then Cut else Invalid
  {
    Utf8Accepts(p);
    if p[0] < 0x80 || p[0] < 0xC2 || p[0] >= 0xF5 {
    } else if p[0] < 0xE0 {
      RestCut(p, 1, 2, p[0] % 32, 0x80);
      Rest2(p);
    } else if p[0] < 0xF0 {
      RestCut(p, 1, 3, p[0] % 16, 0x800);
      if |p| >= 3 { Rest3(p); }
    } else {
      RestCut(p, 1, 4, p[0] % 8, 0x10000);
      if |p| >= 4 { Rest4(p); }
    }
  }

  // ----- UTF-16 and UTF-32 -----

  /** The number in two bytes, the higher one first or last. */
  function Two(high: Byte, low: Byte): int {
    var h: int, l: int := high, low; h * 256 + l
  }

  /** One unit, or a high and a low surrogate, in that byte order: RFC 2781, section 2.1. */
  predicate Is16(b: seq<Byte>, be: bool, c: nat) {
    && |b| == (if c < 0x10000 then 2 else 4)
    && var u := if be then Two(b[0], b[1]) else Two(b[1], b[0]);
       if c < 0x10000 then u == c
       else
         var v := if be then Two(b[2], b[3]) else Two(b[3], b[2]);
         0xD800 <= u <= 0xDBFF && 0xDC00 <= v <= 0xDFFF && c == 0x10000 + (u - 0xD800) * 0x400 + (v - 0xDC00)
  }

  predicate Is32(b: seq<Byte>, be: bool, c: nat) {
    && |b| == 4
    && c == if be then Two(b[0], b[1]) * 65536 + Two(b[2], b[3]) else Two(b[3], b[2]) * 65536 + Two(b[1], b[0])
  }

  lemma Written16(be: bool, c: nat)
    requires Scalar(c)
    ensures Is16(WriteUtf16(be, c), be, c)
  {
  }

  lemma Written32(be: bool, c: nat)
    requires Scalar(c)
    ensures Is32(Bytes32(be, c), be, c)
  {
    assert c / 65536 == c / 256 / 256;
  }

  /** The forms with an order in their name have that order; the others put the lower byte first, after a mark once. */
  lemma Utf16Layout(c: nat, written: bool)
    requires Scalar(c)
    ensures Is16(Encode(Utf16Le, written, c).value, false, c) && Is16(Encode(Utf16Be, written, c).value, true, c)
    ensures var b := Encode(Utf16, written, c).value;
            if written then Is16(b, false, c) else |b| >= 2 && b[..2] == [0xFF, 0xFE] && Is16(b[2..], false, c)
  {
    Written16(false, c);
    Written16(true, c);
    var b, w := Encode(Utf16, written, c).value, WriteUtf16(false, c);
    if written { assert b == w; } else { assert b == [0xFF, 0xFE] + w && b[2..] == w; }
  }

  lemma Utf32Layout(c: nat, written: bool)
    requires Scalar(c)
    ensures Is32(Encode(Utf32Le, written, c).value, false, c) && Is32(Encode(Utf32Be, written, c).value, true, c)
    ensures var b := Encode(Utf32, written, c).value;
            if written then Is32(b, false, c) else |b| >= 4 && b[..4] == [0xFF, 0xFE, 0, 0] && Is32(b[4..], false, c)
  {
    Written32(false, c);
    Written32(true, c);
    var b, w := Encode(Utf32, written, c).value, Bytes32(false, c);
    if written { assert b == w; } else { assert b == [0xFF, 0xFE, 0, 0] + w && b[4..] == w; }
  }

  // ----- what a mark decides -----

  /** The form with that order in its name. */
  function Named(e: Enc, be: bool): Enc
    requires Marked(e)
  {
    if e.Utf16? then if be then Utf16Be else Utf16Le else if be then Utf32Be else Utf32Le
  }

  /** The same but for what is remembered. */
  predicate Agree(a: Result, b: Result) {
    a.out == b.out && a.used == b.used && a.count == b.count && a.status == b.status
  }

  /** Two steps that do the same, and remember the same of what was written. */
  predicate AgreeStep(a: Move, b: Move) {
    if a.Halt? then b.Halt? && a.status == b.status
    else b.Go? && a.w == b.w && a.u == b.u && a.lost == b.lost && a.mem.written == b.mem.written
  }

  predicate Decided(mem: Memory, be: bool) {
    mem.seen && mem.be == be
  }

  lemma DecidedRead(e: Enc, be: bool, mem: Memory, other: Memory, p: seq<Byte>)
    requires Marked(e) && p != [] && Decided(mem, be)
    ensures Decode(e, mem, p).read == Decode(Named(e, be), other, p).read && !Decode(e, mem, p).read.Mark?
    ensures Decode(e, mem, p).mem == mem && Decode(Named(e, be), other, p).mem == other
  {
  }

  lemma SameAct(c: Conv, d: Conv, x: Decoded, y: Decoded)
    requires d == c.(from := d.from) && x.read == y.read && x.mem.written == y.mem.written && (x.read.Char? ==> Scalar(x.read.cp))
    requires !x.read.Mark?
    ensures AgreeStep(Act(c, x), Act(d, y))
    ensures Act(c, x).Go? ==> Act(c, x).mem.seen == x.mem.seen && Act(c, x).mem.be == x.mem.be
  {
  }

  /** Two steps do the same wherever the first one's order is decided. */
  ghost predicate StepsAt(f: Stepper, g: Stepper, be: bool, mem: Memory, other: Memory, p: seq<Byte>) {
    p != [] && Decided(mem, be) && mem.written == other.written ==>
      AgreeStep(f(mem, p), g(other, p)) && (f(mem, p).Go? ==> Decided(f(mem, p).mem, be))
  }

  ghost predicate StepsAgree(f: Stepper, g: Stepper, be: bool) {
    forall mem, other, p {:trigger StepsAt(f, g, be, mem, other, p)} :: StepsAt(f, g, be, mem, other, p)
  }

  lemma {:induction false} RunsAgree(f: Stepper, g: Stepper, be: bool, mem: Memory, other: Memory, p: seq<Byte>, room: nat)
    requires StepsAgree(f, g, be) && Decided(mem, be) && mem.written == other.written
    ensures Agree(Run(f, mem, p, room), Run(g, other, p, room))
    decreases |p|
  {
    if p != [] {
      assert StepsAt(f, g, be, mem, other, p);
      var a := f(mem, p);
      if a.Go? && |a.w| <= room && 0 < a.u <= |p| {
        RunsAgree(f, g, be, a.mem, g(other, p).mem, p[a.u..], room - |a.w|);
      }
    }
  }

  lemma DecidedRuns(c: Conv, d: Conv, be: bool, mem: Memory, other: Memory, p: seq<Byte>, room: nat)
    requires Marked(c.from) && d == c.(from := Named(c.from, be)) && Decided(mem, be) && mem.written == other.written
    ensures Agree(Convert(c, mem, p, room), Convert(d, other, p, room))
  {
    forall m, o, q ensures StepsAt(Step(c), Step(d), be, m, o, q) {
      if q != [] && Decided(m, be) && m.written == o.written {
        DecidedRead(c.from, be, m, o, q);
        SameAct(c, d, Decode(c.from, m, q), Decode(d.from, o, q));
      }
    }
    RunsAgree(Step(c), Step(d), be, mem, other, p, room);
  }

  /** FE FF, and with two zeros before them. */
  function MarkOf(e: Enc, be: bool): seq<Byte>
    requires Marked(e)
  {
    if e.Utf16? then if be then [0xFE, 0xFF] else [0xFF, 0xFE]
    else if be then [0, 0, 0xFE, 0xFF] else [0xFF, 0xFE, 0, 0]
  }

  /** A mark at the front decides the order of what comes after it, and is no character of the text. */
  lemma MarkDecides(c: Conv, be: bool, p: seq<Byte>, room: nat)
    requires Marked(c.from)
    ensures Agree(Convert(c, INITIAL, MarkOf(c.from, be) + p, room),
                  Before([], |MarkOf(c.from, be)|, 0, Convert(c.(from := Named(c.from, be)), INITIAL, p, room)))
  {
    var mark := MarkOf(c.from, be);
    var mem := INITIAL.(seen := true, be := be);
    assert Next(c, INITIAL, mark + p) == Go([], |mark|, 0, mem, mem);
    assert (mark + p)[|mark|..] == p;
    DecidedRuns(c, c.(from := Named(c.from, be)), be, mem, INITIAL, p, room);
  }

  /** Without a mark the higher byte comes first: RFC 2781, section 4.3. */
  lemma NoMarkIsBigEndian(c: Conv, p: seq<Byte>, room: nat)
    requires Marked(c.from) && !(MarkOf(c.from, true) <= p) && !(MarkOf(c.from, false) <= p)
    ensures Agree(Convert(c, INITIAL, p, room), Convert(c.(from := Named(c.from, true)), INITIAL, p, room))
  {
    var d, n := c.(from := Named(c.from, true)), |MarkOf(c.from, true)|;
    if |p| >= n {
      NotAMark(c.from, p);
      var mem := INITIAL.(seen := true);
      assert Next(c, INITIAL, p) == Next(c, mem, p);
      SameStep(Step(c), INITIAL, mem, p, room);
      DecidedRuns(c, d, true, mem, INITIAL, p, room);
    }
  }

  lemma NotAMark(e: Enc, p: seq<Byte>)
    requires Marked(e) && !(MarkOf(e, true) <= p) && !(MarkOf(e, false) <= p) && |p| >= |MarkOf(e, true)|
    ensures Decode(e, INITIAL, p) == Decode(e, INITIAL.(seen := true), p)
  {
  }

  // ----- the code pages, by code point -----

  /** The bytes 0x80 to 0x9F of Windows-1252, by the characters they stand for; 0 for every other character. */
  function Windows(cp: nat): nat {
    if cp < 0x200 then
      if cp == 0x152 then 0x8C else if cp == 0x153 then 0x9C else if cp == 0x160 then 0x8A else if cp == 0x161 then 0x9A
      else if cp == 0x178 then 0x9F else if cp == 0x17D then 0x8E else if cp == 0x17E then 0x9E else if cp == 0x192 then 0x83
      else 0
    else if cp < 0x2020 then
      if cp == 0x2C6 then 0x88 else if cp == 0x2DC then 0x98 else if cp == 0x2013 then 0x96 else if cp == 0x2014 then 0x97
      else if cp == 0x2018 then 0x91 else if cp == 0x2019 then 0x92 else if cp == 0x201A then 0x82
      else if cp == 0x201C then 0x93 else if cp == 0x201D then 0x94 else if cp == 0x201E then 0x84
      else 0
    else
      if cp == 0x2020 then 0x86 else if cp == 0x2021 then 0x87 else if cp == 0x2022 then 0x95 else if cp == 0x2026 then 0x85
      else if cp == 0x2030 then 0x89 else if cp == 0x2039 then 0x8B else if cp == 0x203A then 0x9B
      else if cp == 0x20AC then 0x80 else if cp == 0x2122 then 0x99
      else 0
  }

  lemma WindowsTable(i: nat)
    requires i < 32
    ensures if i in {0x01, 0x0D, 0x0F, 0x10, 0x1D} then CP1252[i] == 0 else CP1252[i] != 0 && Windows(CP1252[i]) == 0x80 + i
  {
  }

  lemma Cp1252Reads(b: Byte)
    ensures ReadByte(Cp1252, b).Invalid? <==> b in {0x81, 0x8D, 0x8F, 0x90, 0x9D}
    ensures ReadByte(Cp1252, b).Char? ==>
              if 0x80 <= b <= 0x9F then Windows(ReadByte(Cp1252, b).cp) == b else ReadByte(Cp1252, b).cp == b
  {
    if 0x80 <= b <= 0x9F { WindowsTable(b - 0x80); }
  }

  /** ISO-8859-15: the euro sign, S and Z with caron, the OE ligatures and Y with diaeresis; the rest as in Latin-1. */
  lemma Latin9Reads(b: Byte)
    ensures ReadByte(Latin9, b) ==
            Char(match b
                 case 0xA4 => 0x20AC
                 case 0xA6 => 0x160
                 case 0xA8 => 0x161
                 case 0xB4 => 0x17D
                 case 0xB8 => 0x17E
                 case 0xBC => 0x152
                 case 0xBD => 0x153
                 case 0xBE => 0x178
                 case _ => b, 1)
  {
    Latin9At(b);
    assert LATIN9_FROM[0] == 0xA4 && LATIN9_FROM[1] == 0xA6 && LATIN9_FROM[2] == 0xA8 && LATIN9_FROM[3] == 0xB4;
    assert LATIN9_FROM[4] == 0xB8 && LATIN9_FROM[5] == 0xBC && LATIN9_FROM[6] == 0xBD && LATIN9_FROM[7] == 0xBE;
  }

  lemma Cp437Reads(b: Byte)
    ensures ReadByte(Cp437, b).Char?
    ensures if b < 0x80 then ReadByte(Cp437, b).cp == b else Cp437Of(ReadByte(Cp437, b).cp) == b - 0x80
  {
    if b >= 0x80 { Cp437Apart(b - 0x80); }
  }
}
