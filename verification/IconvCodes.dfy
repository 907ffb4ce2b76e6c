/**
  The character sets of iconv: one decoder and one encoder each, both through
  Unicode code points.
  */
module IconvCodes {
  import opened Common

  datatype Enc =
    | Utf8 | Utf16 | Utf16Le | Utf16Be | Utf32 | Utf32Le | Utf32Be
    | Ascii | Latin1 | Latin9 | Cp1252 | Cp437

  /** What a conversion remembers between characters: da_be, da_bom_visto, verso_bom_fatto. */
  datatype Memory = Memory(be: bool, seen: bool, written: bool)

  const INITIAL: Memory := Memory(true, false, false)

  /** ic_leggi: a character, a byte order mark swallowed, EILSEQ, or EINVAL. */
  datatype Read = Char(cp: nat, used: nat) | Mark(used: nat) | Invalid | Cut

  predicate Surrogate(c: int) {
    0xD800 <= c < 0xE000
  }

  /** A Unicode scalar value. */
  predicate Scalar(c: int) {
    0 <= c <= 0x10FFFF && !Surrogate(c)
  }

  // ----- the code pages -----

  /** 0x80 to 0x9F of Windows-1252; 0 where there is nothing. */
  const CP1252: seq<nat> := [
    0x20AC, 0, 0x201A, 0x0192, 0x201E, 0x2026, 0x2020, 0x2021,
    0x02C6, 0x2030, 0x0160, 0x2039, 0x0152, 0, 0x017D, 0,
    0, 0x2018, 0x2019, 0x201C, 0x201D, 0x2022, 0x2013, 0x2014,
    0x02DC, 0x2122, 0x0161, 0x203A, 0x0153, 0, 0x017E, 0x0178
  ]

  /** 0x80 to 0xFF of code page 437, in eight rows. */
  const ROW0: seq<nat> := [
    0x00C7, 0x00FC, 0x00E9, 0x00E2, 0x00E4, 0x00E0, 0x00E5, 0x00E7,
    0x00EA, 0x00EB, 0x00E8, 0x00EF, 0x00EE, 0x00EC, 0x00C4, 0x00C5]
  const ROW1: seq<nat> := [
    0x00C9, 0x00E6, 0x00C6, 0x00F4, 0x00F6, 0x00F2, 0x00FB, 0x00F9,
    0x00FF, 0x00D6, 0x00DC, 0x00A2, 0x00A3, 0x00A5, 0x20A7, 0x0192]
  const ROW2: seq<nat> := [
    0x00E1, 0x00ED, 0x00F3, 0x00FA, 0x00F1, 0x00D1, 0x00AA, 0x00BA,
    0x00BF, 0x2310, 0x00AC, 0x00BD, 0x00BC, 0x00A1, 0x00AB, 0x00BB]
  const ROW3: seq<nat> := [
    0x2591, 0x2592, 0x2593, 0x2502, 0x2524, 0x2561, 0x2562, 0x2556,
    0x2555, 0x2563, 0x2551, 0x2557, 0x255D, 0x255C, 0x255B, 0x2510]
  const ROW4: seq<nat> := [
    0x2514, 0x2534, 0x252C, 0x251C, 0x2500, 0x253C, 0x255E, 0x255F,
    0x255A, 0x2554, 0x2569, 0x2566, 0x2560, 0x2550, 0x256C, 0x2567]
  const ROW5: seq<nat> := [
    0x2568, 0x2564, 0x2565, 0x2559, 0x2558, 0x2552, 0x2553, 0x256B,
    0x256A, 0x2518, 0x250C, 0x2588, 0x2584, 0x258C, 0x2590, 0x2580]
  const ROW6: seq<nat> := [
    0x03B1, 0x00DF, 0x0393, 0x03C0, 0x03A3, 0x03C3, 0x00B5, 0x03C4,
    0x03A6, 0x0398, 0x03A9, 0x03B4, 0x221E, 0x03C6, 0x03B5, 0x2229]
  const ROW7: seq<nat> := [
    0x2261, 0x00B1, 0x2265, 0x2264, 0x2320, 0x2321, 0x00F7, 0x2248,
    0x00B0, 0x2219, 0x00B7, 0x221A, 0x207F, 0x00B2, 0x25A0, 0x00A0]

  /** ISO-8859-15 differs from Latin-1 in eight places. */
  const LATIN9_FROM: seq<nat> := [0xA4, 0xA6, 0xA8, 0xB4, 0xB8, 0xBC, 0xBD, 0xBE]
  const LATIN9_TO: seq<nat> := [0x20AC, 0x0160, 0x0161, 0x017D, 0x017E, 0x0152, 0x0153, 0x0178]

  function Cp437High(i: nat): (r: nat)
    requires i < 128
    ensures 0x80 <= r < 0x3000
  {
    if i < 64 then
      if i < 32 then if i < 16 then ROW0[i] else ROW1[i - 16]
      else if i < 48 then ROW2[i - 32] else ROW3[i - 48]
    else
      if i < 96 then if i < 80 then ROW4[i - 64] else ROW5[i - 80]
      else if i < 112 then ROW6[i - 96] else ROW7[i - 112]
  }

  /** Where a code point is in the upper half of code page 437; 128 if it is not there. */
  function Cp437Of(cp: nat): nat {
    if cp < 0x100 then LatinOf(cp) else if cp < 0x2500 then SignOf(cp) else BoxOf(cp)
  }

  function LatinOf(cp: nat): nat {
    if cp == 0x00C7 then 0 else if cp == 0x00FC then 1 else if cp == 0x00E9 then 2 else if cp == 0x00E2 then 3
    else if cp == 0x00E4 then 4 else if cp == 0x00E0 then 5 else if cp == 0x00E5 then 6 else if cp == 0x00E7 then 7
    else if cp == 0x00EA then 8 else if cp == 0x00EB then 9 else if cp == 0x00E8 then 10 else if cp == 0x00EF then 11
    else if cp == 0x00EE then 12 else if cp == 0x00EC then 13 else if cp == 0x00C4 then 14 else if cp == 0x00C5 then 15
    else if cp == 0x00C9 then 16 else if cp == 0x00E6 then 17 else if cp == 0x00C6 then 18 else if cp == 0x00F4 then 19
    else if cp == 0x00F6 then 20 else if cp == 0x00F2 then 21 else if cp == 0x00FB then 22 else if cp == 0x00F9 then 23
    else if cp == 0x00FF then 24 else if cp == 0x00D6 then 25 else if cp == 0x00DC then 26 else if cp == 0x00A2 then 27
    else if cp == 0x00A3 then 28 else if cp == 0x00A5 then 29 else if cp == 0x00E1 then 32 else if cp == 0x00ED then 33
    else if cp == 0x00F3 then 34 else if cp == 0x00FA then 35 else if cp == 0x00F1 then 36 else if cp == 0x00D1 then 37
    else if cp == 0x00AA then 38 else if cp == 0x00BA then 39 else if cp == 0x00BF then 40 else if cp == 0x00AC then 42
    else if cp == 0x00BD then 43 else if cp == 0x00BC then 44 else if cp == 0x00A1 then 45 else if cp == 0x00AB then 46
    else if cp == 0x00BB then 47 else if cp == 0x00DF then 97 else if cp == 0x00B5 then 102 else if cp == 0x00B1 then 113
    else if cp == 0x00F7 then 118 else if cp == 0x00B0 then 120 else if cp == 0x00B7 then 122 else if cp == 0x00B2 then 125
    else if cp == 0x00A0 then 127
    else 128
  }

  function SignOf(cp: nat): nat {
    if cp == 0x20A7 then 30 else if cp == 0x0192 then 31 else if cp == 0x2310 then 41 else if cp == 0x03B1 then 96
    else if cp == 0x0393 then 98 else if cp == 0x03C0 then 99 else if cp == 0x03A3 then 100 else if cp == 0x03C3 then 101
    else if cp == 0x03C4 then 103 else if cp == 0x03A6 then 104 else if cp == 0x0398 then 105 else if cp == 0x03A9 then 106
    else if cp == 0x03B4 then 107 else if cp == 0x221E then 108 else if cp == 0x03C6 then 109 else if cp == 0x03B5 then 110
    else if cp == 0x2229 then 111 else if cp == 0x2261 then 112 else if cp == 0x2265 then 114 else if cp == 0x2264 then 115
    else if cp == 0x2320 then 116 else if cp == 0x2321 then 117 else if cp == 0x2248 then 119 else if cp == 0x2219 then 121
    else if cp == 0x221A then 123 else if cp == 0x207F then 124
    else 128
  }

  function BoxOf(cp: nat): nat {
    if cp == 0x2591 then 48 else if cp == 0x2592 then 49 else if cp == 0x2593 then 50 else if cp == 0x2502 then 51
    else if cp == 0x2524 then 52 else if cp == 0x2561 then 53 else if cp == 0x2562 then 54 else if cp == 0x2556 then 55
    else if cp == 0x2555 then 56 else if cp == 0x2563 then 57 else if cp == 0x2551 then 58 else if cp == 0x2557 then 59
    else if cp == 0x255D then 60 else if cp == 0x255C then 61 else if cp == 0x255B then 62 else if cp == 0x2510 then 63
    else if cp == 0x2514 then 64 else if cp == 0x2534 then 65 else if cp == 0x252C then 66 else if cp == 0x251C then 67
    else if cp == 0x2500 then 68 else if cp == 0x253C then 69 else if cp == 0x255E then 70 else if cp == 0x255F then 71
    else if cp == 0x255A then 72 else if cp == 0x2554 then 73 else if cp == 0x2569 then 74 else if cp == 0x2566 then 75
    else if cp == 0x2560 then 76 else if cp == 0x2550 then 77 else if cp == 0x256C then 78 else if cp == 0x2567 then 79
    else if cp == 0x2568 then 80 else if cp == 0x2564 then 81 else if cp == 0x2565 then 82 else if cp == 0x2559 then 83
    else if cp == 0x2558 then 84 else if cp == 0x2552 then 85 else if cp == 0x2553 then 86 else if cp == 0x256B then 87
    else if cp == 0x256A then 88 else if cp == 0x2518 then 89 else if cp == 0x250C then 90 else if cp == 0x2588 then 91
    else if cp == 0x2584 then 92 else if cp == 0x258C then 93 else if cp == 0x2590 then 94 else if cp == 0x2580 then 95
    else if cp == 0x25A0 then 126
    else 128
  }

  lemma Part0Apart(i: nat)
    requires 0 <= i < 16
    ensures Cp437Of(Cp437High(i)) == i
  {
  }

  lemma Part1Apart(i: nat)
    requires 16 <= i < 32
    ensures Cp437Of(Cp437High(i)) == i
  {
  }

  lemma Part2Apart(i: nat)
    requires 32 <= i < 48
    ensures Cp437Of(Cp437High(i)) == i
  {
  }

  lemma Part3Apart(i: nat)
    requires 48 <= i < 64
    ensures Cp437Of(Cp437High(i)) == i
  {
  }

  lemma Part4Apart(i: nat)
    requires 64 <= i < 80
    ensures Cp437Of(Cp437High(i)) == i
  {
  }

  lemma Part5Apart(i: nat)
    requires 80 <= i < 96
    ensures Cp437Of(Cp437High(i)) == i
  {
  }

  lemma Part6Apart(i: nat)
    requires 96 <= i < 112
    ensures Cp437Of(Cp437High(i)) == i
  {
  }

  lemma Part7Apart(i: nat)
    requires 112 <= i < 128
    ensures Cp437Of(Cp437High(i)) == i
  {
  }

  /** The upper half of code page 437 holds every code point once. */
  lemma Cp437Apart(i: nat)
    requires i < 128
    ensures Cp437Of(Cp437High(i)) == i
  {
    if i < 16 {
      Part0Apart(i);
    } else if i < 32 {
      Part1Apart(i);
    } else if i < 48 {
      Part2Apart(i);
    } else if i < 64 {
      Part3Apart(i);
    } else if i < 80 {
      Part4Apart(i);
    } else if i < 96 {
      Part5Apart(i);
    } else if i < 112 {
      Part6Apart(i);
    } else {
      Part7Apart(i);
    }
  }

  // ----- one character in -----

  /** ic_16 */
  function Unit16(be: bool, a: Byte, b: Byte): (u: nat)
    ensures u < 0x10000
  {
    if be then a * 256 + b else b * 256 + a
  }

  /** ic_32 */
  function Unit32(be: bool, a: Byte, b: Byte, c: Byte, d: Byte): nat {
    if be then ((a * 256 + b) * 256 + c) * 256 + d else ((d * 256 + c) * 256 + b) * 256 + a
  }

  /** The continuation bytes of a UTF-8 character of `k` bytes, from the i-th on. */
  function Utf8Rest(p: seq<Byte>, i: nat, k: nat, c: nat, min: nat): (r: Read)
    requires i <= k && i <= |p|
    ensures !r.Mark? && (r.Char? ==> Scalar(r.cp) && r.used == k <= |p|)
    decreases k - i
  {
    if i == k then if c < min || !Scalar(c) then Invalid else Char(c, k)
    else if i >= |p| then Cut
    else if p[i] / 64 != 2 then Invalid
    else Utf8Rest(p, i + 1, k, c * 64 + p[i] % 64, min)
  }

  function ReadUtf8(p: seq<Byte>): (r: Read)
    requires |p| > 0
    ensures !r.Mark? && (r.Char? ==> Scalar(r.cp) && 1 <= r.used <= |p|)
  {
    if p[0] < 0x80 then Char(p[0], 1)
    else if p[0] < 0xC2 then Invalid
    else if p[0] < 0xE0 then Utf8Rest(p, 1, 2, p[0] % 32, 0x80)
    else if p[0] < 0xF0 then Utf8Rest(p, 1, 3, p[0] % 16, 0x800)
    else if p[0] < 0xF5 then Utf8Rest(p, 1, 4, p[0] % 8, 0x10000)
    else Invalid
  }

  function ReadUtf16(p: seq<Byte>, be: bool): (r: Read)
    requires |p| >= 2
    ensures !r.Mark? && (r.Char? ==> Scalar(r.cp) && 1 <= r.used <= |p|)
  {
    var a := Unit16(be, p[0], p[1]);
    if 0xDC00 <= a < 0xE000 then Invalid
    else if a < 0xD800 || a >= 0xE000 then Char(a, 2)
    else if |p| < 4 then Cut
    else
      var b := Unit16(be, p[2], p[3]);
      if b < 0xDC00 || b >= 0xE000 then Invalid else Char(0x10000 + (a - 0xD800) * 1024 + (b - 0xDC00), 4)
  }

  function ReadUtf32(p: seq<Byte>, be: bool): Read
    requires |p| >= 4
  {
    var c := Unit32(be, p[0], p[1], p[2], p[3]);
    if Scalar(c) then Char(c, 4) else Invalid
  }

  /** What the loop over the eight places makes of a byte. */
  function Latin9Of(b: Byte, i: nat, cp: nat): (r: nat)
    requires i <= 8 && cp < 0x3000
    ensures r < 0x3000
    decreases 8 - i
  {
    if i == 8 then cp else Latin9Of(b, i + 1, if b == LATIN9_FROM[i] then LATIN9_TO[i] else cp)
  }

  function ReadByte(from: Enc, b: Byte): (r: Read)
    ensures !r.Mark? && !r.Cut? && (r.Char? ==> Scalar(r.cp) && r.used == 1)
  {
    match from
    case Ascii => if b >= 0x80 then Invalid else Char(b, 1)
    case Latin1 => Char(b, 1)
    case Latin9 => Char(Latin9Of(b, 0, b), 1)
    case Cp1252 =>
      if 0x80 <= b < 0xA0 then if CP1252[b - 0x80] == 0 then Invalid else Char(CP1252[b - 0x80], 1)
      else Char(b, 1)
    case Cp437 => if b < 0x80 then Char(b, 1) else Char(Cp437High(b - 0x80), 1)
    case _ => Invalid
  }

  datatype Decoded = Decoded(read: Read, mem: Memory)

  /** ic_leggi: what was read, and what is remembered now. */
  function Decode(from: Enc, mem: Memory, p: seq<Byte>): (d: Decoded)
    requires |p| > 0
    ensures d.read.Char? ==> Scalar(d.read.cp) && 1 <= d.read.used <= |p|
    ensures d.read.Mark? ==> 1 <= d.read.used <= |p|
    ensures d.mem.written == mem.written
  {
    match from
    case Utf8 => Decoded(ReadUtf8(p), mem)
    case Utf16Le => Decoded(if |p| < 2 then Cut else ReadUtf16(p, false), mem)
    case Utf16Be => Decoded(if |p| < 2 then Cut else ReadUtf16(p, true), mem)
    case Utf16 =>
      if |p| < 2 then Decoded(Cut, mem)
      else if !mem.seen && p[0] == 0xFE && p[1] == 0xFF then Decoded(Mark(2), mem.(seen := true, be := true))
      else if !mem.seen && p[0] == 0xFF && p[1] == 0xFE then Decoded(Mark(2), mem.(seen := true, be := false))
      else Decoded(ReadUtf16(p, mem.be), mem.(seen := true))
    case Utf32Le => Decoded(if |p| < 4 then Cut else ReadUtf32(p, false), mem)
    case Utf32Be => Decoded(if |p| < 4 then Cut else ReadUtf32(p, true), mem)
    case Utf32 =>
      if |p| < 4 then Decoded(Cut, mem)
      else if !mem.seen && Unit32(true, p[0], p[1], p[2], p[3]) == 0xFEFF then Decoded(Mark(4), mem.(seen := true, be := true))
      else if !mem.seen && Unit32(false, p[0], p[1], p[2], p[3]) == 0xFEFF then Decoded(Mark(4), mem.(seen := true, be := false))
      else Decoded(ReadUtf32(p, mem.be), mem.(seen := true))
    case _ => Decoded(ReadByte(from, p[0]), mem)
  }

  // ----- one character out -----

  function Bytes16(be: bool, u: nat): seq<Byte>
    requires u < 0x10000
  {
    if be then [u / 256, u % 256] else [u % 256, u / 256]
  }

  function Bytes32(be: bool, u: nat): seq<Byte>
    requires u < 0x100_0000
  {
    if be then [0, u / 65536, u / 256 % 256, u % 256] else [u % 256, u / 256 % 256, u / 65536, 0]
  }

  function WriteUtf8(c: nat): seq<Byte>
    requires c <= 0x10FFFF
  {
    if c < 0x80 then [c]
    else if c < 0x800 then [0xC0 + c / 64, 0x80 + c % 64]
    else if c < 0x10000 then [0xE0 + c / 4096, 0x80 + c / 64 % 64, 0x80 + c % 64]
    else [0xF0 + c / 262144, 0x80 + c / 4096 % 64, 0x80 + c / 64 % 64, 0x80 + c % 64]
  }

  function WriteUtf16(be: bool, c: nat): seq<Byte>
    requires c <= 0x10FFFF
  {
    if c < 0x10000 then Bytes16(be, c)
    else Bytes16(be, 0xD800 + (c - 0x10000) / 1024) + Bytes16(be, 0xDC00 + (c - 0x10000) % 1024)
  }

  /** ic_tabella: the first place of `cp` in a table, from the i-th on. */
  function Find(t: seq<nat>, cp: nat, i: nat): (r: Option<nat>)
    requires i <= |t|
    ensures r.Some? ==> i <= r.value < |t| && t[r.value] == cp != 0
    ensures r.None? && cp != 0 ==> forall k :: i <= k < |t| ==> t[k] != cp
    decreases |t| - i
  {
    if i == |t| then None else if t[i] == cp && cp != 0 then Some(i) else Find(t, cp, i + 1)
  }

  const CP437: seq<nat> := ROW0 + ROW1 + ROW2 + ROW3 + ROW4 + ROW5 + ROW6 + ROW7

  function WriteByte(to: Enc, c: nat): Option<Byte> {
    match to
    case Ascii => if c >= 0x80 then None else Some(c)
    case Latin1 => if c >= 0x100 then None else Some(c)
    case Latin9 =>
      var k := Find(LATIN9_TO, c, 0);
      if k.Some? then Some(LATIN9_FROM[k.value])
      else if c >= 0x100 || Find(LATIN9_FROM, c, 0).Some? then None else Some(c)
    case Cp1252 =>
      if c < 0x80 || 0xA0 <= c < 0x100 then Some(c)
      else
        var k := Find(CP1252, c, 0);
        if k.None? then None else Some(0x80 + k.value)
    case Cp437 =>
      if c < 0x80 then Some(c)
      else
        var k := Find(CP437, c, 0);
        if k.None? then None else Some(0x80 + k.value)
    case _ => None
  }

  /** ic_scrivi with room enough: the bytes, with the mark before the first ones; None if the set has no such character. */
  function Encode(to: Enc, written: bool, c: nat): (r: Option<seq<Byte>>)
    requires c <= 0x10FFFF
    ensures c < 0x80 ==> r.Some?
    ensures r.Some? ==> r.value != []
  {
    match to
    case Utf8 => Some(WriteUtf8(c))
    case Utf16Le => Some(WriteUtf16(false, c))
    case Utf16Be => Some(WriteUtf16(true, c))
    case Utf16 => Some((if written then [] else Bytes16(false, 0xFEFF)) + WriteUtf16(false, c))
    case Utf32Le => Some(Bytes32(false, c))
    case Utf32Be => Some(Bytes32(true, c))
    case Utf32 => Some((if written then [] else Bytes32(false, 0xFEFF)) + Bytes32(false, c))
    case _ =>
      var b := WriteByte(to, c);
      if b.None? then None else Some([b.value])
  }

  /** verso_bom_fatto after a character was written. */
  predicate WrittenAfter(to: Enc, written: bool) {
    written || to in {Utf16, Utf16Le, Utf16Be, Utf32, Utf32Le, Utf32Be}
  }
}
