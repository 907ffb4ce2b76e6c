/**
  Whole texts: a text that two character sets have is converted from one to
  the other byte for byte as the encoders define it, byte order marks
  included, and back unchanged.
  */
module IconvText {
  import opened Common
  import opened IconvCodes
  import opened IconvRun
  import opened Iconv
  import opened IconvRound
  import opened IconvPages

  ghost predicate Has(e: Enc, text: seq<nat>) {
    forall i :: 0 <= i < |text| ==> Scalar(text[i]) && Encode(e, true, text[i]).Some?
  }

  lemma HasFirst(e: Enc, text: seq<nat>, written: bool)
    requires Has(e, text) && text != []
    ensures Scalar(text[0]) && Encode(e, written, text[0]).Some? && Has(e, text[1..])
  {
  }

  /** A text in a character set, with the byte order mark before it unless it was written. */
  ghost function Bytes(e: Enc, written: bool, text: seq<nat>): seq<Byte>
    requires Has(e, text)
    decreases text
  {
    if text == [] then []
    else
      HasFirst(e, text, written);
      Encode(e, written, text[0]).value + Bytes(e, WrittenAfter(e, written), text[1..])
  }

  lemma BytesStep(e: Enc, written: bool, text: seq<nat>)
    requires Has(e, text) && text != []
    ensures Scalar(text[0]) && Encode(e, written, text[0]).Some? && Has(e, text[1..])
    ensures Bytes(e, written, text) == Encode(e, written, text[0]).value + Bytes(e, WrittenAfter(e, written), text[1..])
  {
    HasFirst(e, text, written);
  }

  /** One character through the loop. */
  lemma ConvertChar(c: Conv, mem: Memory, cp: nat, x: seq<Byte>, room: nat)
    requires Scalar(cp) && Synced(c.from, mem) && Encode(c.from, true, cp).Some? && Encode(c.to, mem.written, cp).Some?
    requires |Encode(c.to, mem.written, cp).value| <= room
    ensures var b := Encode(c.from, true, cp).value;
            var w := Encode(c.to, mem.written, cp).value;
            Convert(c, mem, b + x, room)
            == Before(w, |b|, 0, Convert(c, mem.(written := WrittenAfter(c.to, mem.written)), x, room - |w|))
  {
    var b := Encode(c.from, true, cp).value;
    var w := Encode(c.to, mem.written, cp).value;
    DecodeEncoded(c.from, mem, cp, x);
    assert Next(c, mem, b + x) == Go(w, |b|, 0, mem, mem.(written := WrittenAfter(c.to, mem.written)));
    assert (b + x)[|b|..] == x;
  }

  function AfterText(c: Conv, mem: Memory, text: seq<nat>): Memory {
    if text == [] then mem else mem.(written := WrittenAfter(c.to, mem.written))
  }

  /** A text after the mark, if there is one, is converted character by character and completely. */
  lemma {:induction false} ConvertPlain(c: Conv, mem: Memory, text: seq<nat>, room: nat)
    requires Has(c.from, text) && Has(c.to, text) && Synced(c.from, mem) && room >= |Bytes(c.to, mem.written, text)|
    ensures Convert(c, mem, Bytes(c.from, true, text), room)
         == Result(Bytes(c.to, mem.written, text), |Bytes(c.from, true, text)|, AfterText(c, mem, text), 0, Done)
    decreases text
  {
    if text != [] {
      BytesStep(c.from, true, text);
      BytesStep(c.to, mem.written, text);
      var w := Encode(c.to, mem.written, text[0]).value;
      var mem1 := mem.(written := WrittenAfter(c.to, mem.written));
      ConvertChar(c, mem, text[0], Bytes(c.from, true, text[1..]), room);
      ConvertPlain(c, mem1, text[1..], room - |w|);
      assert AfterText(c, mem1, text[1..]) == mem1;
    }
  }

  // ----- the mark -----

  predicate Marked(e: Enc) {
    e.Utf16? || e.Utf32?
  }

  function TheMark(e: Enc): seq<Byte> {
    if e.Utf16? then Bytes16(false, 0xFEFF) else if e.Utf32? then Bytes32(false, 0xFEFF) else []
  }

  lemma {:induction false} MarkFirst(e: Enc, text: seq<nat>)
    requires Has(e, text) && text != []
    ensures Bytes(e, false, text) == TheMark(e) + Bytes(e, true, text)
  {
    HasFirst(e, text, false);
    HasFirst(e, text, true);
    var rest := text[1..];
    assert Encode(e, false, text[0]).value == TheMark(e) + Encode(e, true, text[0]).value;
    if !WrittenAfter(e, false) {
      SameBytes(e, rest);
    }
  }

  lemma {:induction false} SameBytes(e: Enc, text: seq<nat>)
    requires Has(e, text) && !Marked(e)
    ensures Bytes(e, false, text) == Bytes(e, true, text)
    decreases text
  {
    if text != [] {
      HasFirst(e, text, false);
      HasFirst(e, text, true);
      assert Encode(e, false, text[0]) == Encode(e, true, text[0]);
      SameBytes(e, text[1..]);
    }
  }

  lemma ReadMark(c: Conv, x: seq<Byte>, room: nat)
    requires Marked(c.from)
    ensures Convert(c, INITIAL, TheMark(c.from) + x, room)
         == Before([], |TheMark(c.from)|, 0, Convert(c, INITIAL.(seen := true, be := false), x, room))
  {
    var p := TheMark(c.from) + x;
    assert Decode(c.from, INITIAL, p) == Decoded(Mark(|TheMark(c.from)|), INITIAL.(seen := true, be := false));
    assert p[|TheMark(c.from)|..] == x;
  }

  /**
    A fresh conversion of any text that both sets have: all of it is used, no
    character is lost, and the output is the text in the other set.
    */
  lemma ConvertText(c: Conv, text: seq<nat>, room: nat)
    requires Has(c.from, text) && Has(c.to, text) && room >= |Bytes(c.to, false, text)|
    ensures var r := Convert(c, INITIAL, Bytes(c.from, false, text), room);
            r.out == Bytes(c.to, false, text) && r.used == |Bytes(c.from, false, text)| && r.count == 0 && r.status == Done
  {
    if text == [] {
    } else if Marked(c.from) {
      MarkFirst(c.from, text);
      ReadMark(c, Bytes(c.from, true, text), room);
      ConvertPlain(c, INITIAL.(seen := true, be := false), text, room);
    } else {
      SameBytes(c.from, text);
      ConvertPlain(c, INITIAL, text, room);
    }
  }

  /** There and back: the bytes are the same, with any room that is enough. */
  lemma RoundTrip(there: Conv, back: Conv, text: seq<nat>, room: nat)
    requires back.from == there.to && back.to == there.from && Has(there.from, text) && Has(there.to, text)
    requires room >= |Bytes(there.from, false, text)| && room >= |Bytes(there.to, false, text)|
    ensures var p := Bytes(there.from, false, text);
            Convert(back, INITIAL, Convert(there, INITIAL, p, room).out, room).out == p
  {
    ConvertText(there, text, room);
    ConvertText(back, text, room);
  }

  // ----- which byte strings are texts -----

  predicate Unicode(e: Enc) {
    e.Utf8? || e.Utf16? || e.Utf16Le? || e.Utf16Be? || e.Utf32? || e.Utf32Le? || e.Utf32Be?
  }

  lemma UnicodeHasAll(e: Enc, text: seq<nat>)
    requires Unicode(e) && forall i :: 0 <= i < |text| ==> Scalar(text[i])
    ensures Has(e, text)
  {
  }

  predicate ValidUtf8(p: seq<Byte>)
    decreases |p|
  {
    p == [] || (0 < Form(p) <= |p| && ValidUtf8(p[Form(p)..]))
  }

  ghost function Utf8Text(p: seq<Byte>): (text: seq<nat>)
    requires ValidUtf8(p)
    ensures Has(Utf8, text) && Bytes(Utf8, false, text) == p
    decreases |p|
  {
    if p == [] then []
    else
      Utf8Accepts(p);
      var cp := ReadUtf8(p).cp;
      var rest := Utf8Text(p[Form(p)..]);
      assert ([cp] + rest)[1..] == rest;
      assert p == p[..Form(p)] + p[Form(p)..];
      [cp] + rest
  }

  ghost predicate ValidPage(e: Enc, p: seq<Byte>) {
    Page(e) && forall i :: 0 <= i < |p| ==> ReadByte(e, p[i]).Char?
  }

  ghost function PageText(e: Enc, p: seq<Byte>): (text: seq<nat>)
    requires ValidPage(e, p)
    ensures Has(e, text) && Bytes(e, false, text) == p && |text| == |p|
    decreases p
  {
    if p == [] then []
    else
      PageForth(e, p[0]);
      var cp := ReadByte(e, p[0]).cp;
      var rest := PageText(e, p[1..]);
      assert ([cp] + rest)[1..] == rest;
      assert p == [p[0]] + p[1..];
      [cp] + rest
  }

  /** Every valid UTF-8 string survives UTF-16 and UTF-32 in every form, a leading U+FEFF included. */
  lemma Utf8Survives(p: seq<Byte>, e: Enc, room: nat)
    requires ValidUtf8(p) && Unicode(e) && room >= |p| && room >= |Bytes(e, false, Utf8Text(p))|
    ensures Convert(Conv(e, Utf8, false, false), INITIAL, Convert(Conv(Utf8, e, false, false), INITIAL, p, room).out, room).out == p
  {
    UnicodeHasAll(e, Utf8Text(p));
    RoundTrip(Conv(Utf8, e, false, false), Conv(e, Utf8, false, false), Utf8Text(p), room);
  }

  /** Every string of a code page survives UTF-8; Latin-1, Latin-9 and CP437 define all 256 bytes. */
  lemma PageSurvives(e: Enc, p: seq<Byte>, room: nat)
    requires ValidPage(e, p) && room >= |p| && room >= |Bytes(Utf8, false, PageText(e, p))|
    ensures Convert(Conv(Utf8, e, false, false), INITIAL, Convert(Conv(e, Utf8, false, false), INITIAL, p, room).out, room).out == p
  {
    RoundTrip(Conv(e, Utf8, false, false), Conv(Utf8, e, false, false), PageText(e, p), room);
  }

  lemma AllBytesDefined(e: Enc, p: seq<Byte>)
    requires e == Latin1 || e == Latin9 || e == Cp437
    ensures ValidPage(e, p)
  {
  }
}
