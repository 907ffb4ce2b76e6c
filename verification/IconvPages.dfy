/**
  One character through each character set: what the encoder writes, the
  decoder reads as the same character, and a byte of a code page comes back
  from the character it stands for.
  */
module IconvPages {
  import opened Common
  import opened IconvCodes
  import opened IconvRound

  // ----- one character: decoding what was encoded -----

  lemma Units16(be: bool, u: nat)
    requires u < 0x10000
    ensures var b := Bytes16(be, u); |b| == 2 && Unit16(be, b[0], b[1]) == u
  {
  }

  lemma Utf16Back(be: bool, c: nat, x: seq<Byte>)
    requires Scalar(c)
    ensures ReadUtf16(WriteUtf16(be, c) + x, be) == Char(c, |WriteUtf16(be, c)|)
  {
    if c < 0x10000 {
      Units16(be, c);
    } else {
      Units16(be, 0xD800 + (c - 0x10000) / 1024);
      Units16(be, 0xDC00 + (c - 0x10000) % 1024);
    }
  }

  lemma Utf32Back(be: bool, c: nat, x: seq<Byte>)
    requires Scalar(c)
    ensures ReadUtf32(Bytes32(be, c) + x, be) == Char(c, 4) && |Bytes32(be, c)| == 4
  {
    assert c / 65536 == c / 256 / 256;
    var p := Bytes32(be, c) + x;
    assert Unit32(be, p[0], p[1], p[2], p[3]) == c;
  }

  predicate Page(e: Enc) {
    e.Ascii? || e.Latin1? || e.Latin9? || e.Cp1252? || e.Cp437?
  }

  lemma Cp437Is(i: nat)
    requires i < 128
    ensures |CP437| == 128 && CP437[i] == Cp437High(i)
  {
  }

  /** A byte that a code page writes is read as the same character. */
  lemma PageBack(e: Enc, c: nat)
    requires Page(e) && WriteByte(e, c).Some?
    ensures ReadByte(e, WriteByte(e, c).value) == Char(c, 1)
  {
    if e == Latin9 { Latin9Back(c); }
    if e == Cp437 && c >= 0x80 {
      Cp437Is(Find(CP437, c, 0).value);
    }
  }

  lemma Latin9Back(c: nat)
    requires WriteByte(Latin9, c).Some?
    ensures ReadByte(Latin9, WriteByte(Latin9, c).value) == Char(c, 1)
  {
    var k := Find(LATIN9_TO, c, 0);
    if k.Some? {
      Latin9At(LATIN9_FROM[k.value]);
    } else {
      assert Find(LATIN9_FROM, c, 0).None?;
      assert c != 0 ==> forall j :: 0 <= j < 8 ==> LATIN9_FROM[j] != c;
      Latin9At(c);
    }
  }

  lemma Latin9At(b: Byte)
    ensures (forall j :: 0 <= j < 8 ==> LATIN9_FROM[j] != b) ==> Latin9Of(b, 0, b) == b
    ensures forall j :: 0 <= j < 8 && LATIN9_FROM[j] == b ==> Latin9Of(b, 0, b) == LATIN9_TO[j]
  {
    assert Latin9Of(b, 0, b) ==
      if b == 0xA4 then 0x20AC else if b == 0xA6 then 0x160 else if b == 0xA8 then 0x161 else if b == 0xB4 then 0x17D
      else if b == 0xB8 then 0x17E else if b == 0xBC then 0x152 else if b == 0xBD then 0x153 else if b == 0xBE then 0x178 else b;
  }

  /** Once a mark has been read, the order is the one the encoder writes. */
  predicate Synced(e: Enc, mem: Memory) {
    e.Utf16? || e.Utf32? ==> mem.seen && !mem.be
  }

  /** In every character set, decoding what was encoded gives the character back. */
  lemma DecodeEncoded(e: Enc, mem: Memory, c: nat, x: seq<Byte>)
    requires Scalar(c) && Synced(e, mem) && Encode(e, true, c).Some?
    ensures var b := Encode(e, true, c).value; Decode(e, mem, b + x) == Decoded(Char(c, |b|), mem)
  {
    match e {
      case Utf8 => Utf8Back(c, x);
      case Utf16 => Utf16Back(false, c, x);
      case Utf16Le => Utf16Back(false, c, x);
      case Utf16Be => Utf16Back(true, c, x);
      case Utf32 => Utf32Back(false, c, x);
      case Utf32Le => Utf32Back(false, c, x);
      case Utf32Be => Utf32Back(true, c, x);
      case Ascii => PageBack(e, c);
      case Latin1 => PageBack(e, c);
      case Latin9 => PageBack(e, c);
      case Cp1252 => PageBack(e, c);
      case Cp437 => PageBack(e, c);
    }
  }

  // ----- one byte: encoding what was decoded -----

  lemma FindOnly(t: seq<nat>, i: nat)
    requires i < |t| && t[i] != 0 && forall j :: 0 <= j < |t| && t[j] == t[i] ==> j == i
    ensures Find(t, t[i], 0) == Some(i)
  {
  }

  lemma Cp437Forth(i: nat)
    requires i < 128
    ensures Find(CP437, Cp437High(i), 0) == Some(i)
  {
    forall j | 0 <= j < |CP437| && CP437[j] == CP437[i] ensures j == i {
      Cp437Is(i);
      Cp437Is(j);
      Cp437Apart(i);
      Cp437Apart(j);
    }
    Cp437Is(i);
    FindOnly(CP437, i);
  }

  lemma Cp1252Apart(i: nat, j: nat)
    requires i < j < 32 && CP1252[i] == CP1252[j]
    ensures CP1252[i] == 0
  {
  }

  lemma Cp1252High(i: nat)
    requires i < 32 && CP1252[i] != 0
    ensures CP1252[i] >= 0x100
  {
  }

  lemma Cp1252Forth(i: nat)
    requires i < 32 && CP1252[i] != 0
    ensures Find(CP1252, CP1252[i], 0) == Some(i)
  {
    forall j | 0 <= j < |CP1252| && CP1252[j] == CP1252[i] ensures j == i {
      if j < i { Cp1252Apart(j, i); }
      if i < j { Cp1252Apart(i, j); }
    }
    FindOnly(CP1252, i);
  }

  lemma Latin9Only(i: nat)
    requires i < 8
    ensures Find(LATIN9_TO, LATIN9_TO[i], 0) == Some(i)
  {
  }

  lemma Latin9None(b: Byte)
    ensures Find(LATIN9_TO, b, 0).None?
  {
  }

  lemma Latin9Forth(b: Byte)
    ensures WriteByte(Latin9, Latin9Of(b, 0, b)) == Some(b)
  {
    Latin9At(b);
    if j :| 0 <= j < 8 && LATIN9_FROM[j] == b {
      Latin9Only(j);
    } else {
      Latin9None(b);
    }
  }

  lemma Cp1252Written(c: nat, i: nat)
    requires c >= 0x100 && Find(CP1252, c, 0) == Some(i)
    ensures WriteByte(Cp1252, c) == Some(0x80 + i)
  {
  }

  lemma Cp1252ByteForth(b: Byte)
    requires ReadByte(Cp1252, b).Char?
    ensures WriteByte(Cp1252, ReadByte(Cp1252, b).cp) == Some(b)
  {
    if 0x80 <= b < 0xA0 {
      var c := CP1252[b - 0x80];
      assert ReadByte(Cp1252, b) == Char(c, 1);
      Cp1252High(b - 0x80);
      Cp1252Forth(b - 0x80);
      Cp1252Written(c, b - 0x80);
    } else {
      assert ReadByte(Cp1252, b) == Char(b, 1);
    }
  }

  lemma Cp437ByteForth(b: Byte)
    ensures ReadByte(Cp437, b).Char? && WriteByte(Cp437, ReadByte(Cp437, b).cp) == Some(b)
  {
    if b >= 0x80 { Cp437Forth(b - 0x80); }
  }

  /** A byte of a code page comes back from the character it stands for. */
  lemma PageForth(e: Enc, b: Byte)
    requires Page(e) && ReadByte(e, b).Char?
    ensures WriteByte(e, ReadByte(e, b).cp) == Some(b)
  {
    match e {
      case Latin9 => Latin9Forth(b);
      case Cp1252 => Cp1252ByteForth(b);
      case Cp437 => Cp437ByteForth(b);
      case Ascii =>
      case Latin1 =>
    }
  }
}
