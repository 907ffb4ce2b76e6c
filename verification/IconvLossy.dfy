/**
  Characters that the target set lacks, and bytes that are no character: what
  //TRANSLIT and //IGNORE make of them, and where a conversion without either
  stops.
  */
module IconvLossy {
  import opened Common
  import opened IconvCodes
  import opened IconvRun
  import opened IconvCalls
  import opened Iconv
  import opened IconvRound
  import opened IconvPages
  import opened IconvText
  import opened IconvForms

  ghost predicate AllScalar(text: seq<nat>) {
    forall i :: 0 <= i < |text| ==> Scalar(text[i])
  }

  predicate Lacks(e: Enc, cp: nat)
    requires Scalar(cp)
  {
    Encode(e, true, cp).None?
  }

  /** '?' for each character that the set lacks. */
  ghost function WithMarks(e: Enc, text: seq<nat>): (r: seq<nat>)
    requires AllScalar(text)
    ensures |r| == |text| && forall i :: 0 <= i < |text| ==> r[i] == if Lacks(e, text[i]) then 0x3F else text[i]
    ensures Has(e, r)
  {
    if text == [] then [] else [if Lacks(e, text[0]) then 0x3F else text[0]] + WithMarks(e, text[1..])
  }

  /** The characters that the set has. */
  ghost function Kept(e: Enc, text: seq<nat>): (r: seq<nat>)
    requires AllScalar(text)
    ensures Has(e, r)
  {
    if text == [] then []
    else (if Lacks(e, text[0]) then [] else [text[0]]) + Kept(e, text[1..])
  }

  /** How many characters the set lacks. */
  ghost function Lacking(e: Enc, text: seq<nat>): nat
    requires AllScalar(text)
  {
    if text == [] then 0 else (if Lacks(e, text[0]) then 1 else 0) + Lacking(e, text[1..])
  }

  /** What is written for a text: with //TRANSLIT the substitutes, else, with //IGNORE, the rest. */
  ghost function Shown(c: Conv, text: seq<nat>): (r: seq<nat>)
    requires AllScalar(text)
    ensures Has(c.to, r)
  {
    if c.translit then WithMarks(c.to, text) else Kept(c.to, text)
  }

  /** A code page has exactly the characters that some byte of it stands for. */
  lemma PageHas(e: Enc, cp: nat)
    requires Page(e) && Scalar(cp)
    ensures !Lacks(e, cp) <==> exists b: Byte :: ReadByte(e, b) == Char(cp, 1)
  {
    if !Lacks(e, cp) {
      PageBack(e, cp);
    } else if b: Byte :| ReadByte(e, b) == Char(cp, 1) {
      PageForth(e, b);
    }
  }

  /** What is written for one character. */
  ghost function ShownOne(c: Conv, cp: nat): (r: seq<nat>)
    requires Scalar(cp)
    ensures Has(c.to, r) && |r| <= 1
  {
    if !Lacks(c.to, cp) then [cp] else if c.translit then [0x3F] else []
  }

  lemma ShownFirst(c: Conv, text: seq<nat>)
    requires AllScalar(text) && text != []
    ensures AllScalar(text[1..]) && Shown(c, text) == ShownOne(c, text[0]) + Shown(c, text[1..])
  {
  }

  lemma BytesOne(e: Enc, written: bool, cp: nat)
    requires Scalar(cp) && Has(e, [cp])
    ensures Encode(e, written, cp).Some? && Bytes(e, written, [cp]) == Encode(e, written, cp).value
  {
    HasFirst(e, [cp], written);
    assert [cp][1..] == [];
  }

  lemma BytesAppend(e: Enc, written: bool, a: seq<nat>, b: seq<nat>)
    requires |a| <= 1 && Has(e, a) && Has(e, b) && Has(e, a + b)
    ensures Bytes(e, written, a + b)
         == Bytes(e, written, a) + Bytes(e, if a == [] then written else WrittenAfter(e, written), b)
  {
    if a == [] {
      assert a + b == b;
    } else {
      BytesOne(e, written, a[0]);
      assert a == [a[0]] && (a + b)[0] == a[0] && (a + b)[1..] == b;
      BytesStep(e, written, a + b);
    }
  }

  /** The bytes `b` become `w`, with `lost` characters lost, whatever comes after them. */
  ghost predicate Passes(run: Runner, mem: Memory, b: seq<Byte>, x: seq<Byte>, room: nat,
                         w: seq<Byte>, lost: nat, after: Memory) {
    |w| <= room && run(mem, b + x, room) == Before(w, |b|, lost, run(after, x, room - |w|))
  }

  lemma PassesNothing(run: Runner, mem: Memory, x: seq<Byte>, room: nat)
    ensures Passes(run, mem, [], x, room, [], 0, mem)
  {
    assert [] + x == x;
    var r := run(mem, x, room);
    assert [] + r.out == r.out;
  }

  lemma PassesBoth(run: Runner, mem: Memory, b1: seq<Byte>, b2: seq<Byte>, x: seq<Byte>, room: nat,
                   w1: seq<Byte>, n1: nat, mem1: Memory, w2: seq<Byte>, n2: nat, mem2: Memory)
    requires Passes(run, mem, b1, b2 + x, room, w1, n1, mem1) && Passes(run, mem1, b2, x, room - |w1|, w2, n2, mem2)
    ensures Passes(run, mem, b1 + b2, x, room, w1 + w2, n1 + n2, mem2)
  {
    assert b1 + b2 + x == b1 + (b2 + x);
    BeforeBefore(w1, |b1|, n1, w2, |b2|, n2, run(mem2, x, room - |w1| - |w2|));
  }

  lemma BeforeBefore(out: seq<Byte>, used: nat, count: nat, out1: seq<Byte>, used1: nat, count1: nat, r: Result)
    ensures Before(out, used, count, Before(out1, used1, count1, r)) == Before(out + out1, used + used1, count + count1, r)
  {
  }

  /** The first bytes leave nothing behind. */
  lemma PassesSilent(run: Runner, mem: Memory, b1: seq<Byte>, b2: seq<Byte>, x: seq<Byte>, room: nat, mem1: Memory,
                     w: seq<Byte>, lost: nat, mem2: Memory)
    requires Passes(run, mem, b1, b2 + x, room, [], 0, mem1) && Passes(run, mem1, b2, x, room, w, lost, mem2)
    ensures Passes(run, mem, b1 + b2, x, room, w, lost, mem2)
  {
    PassesBoth(run, mem, b1, b2, x, room, [], 0, mem1, w, lost, mem2);
    assert [] + w == w;
  }

  lemma PassesThenStops(run: Runner, mem: Memory, b: seq<Byte>, x: seq<Byte>, room: nat, w: seq<Byte>, lost: nat,
                        after: Memory, m: Memory, status: Status)
    requires Passes(run, mem, b, x, room, w, lost, after) && run(after, x, room - |w|) == Stop(m, status)
    ensures run(mem, b + x, room) == Result(w, |b|, m, lost, status)
  {
    assert w + [] == w;
  }

  /** One turn of the loop, where there is room for what it writes. */
  lemma OneTurn(run: Runner, c: Conv, mem: Memory, b: seq<Byte>, x: seq<Byte>, room: nat, w: seq<Byte>, lost: nat, after: Memory)
    requires Converts(run, c) && b != [] && |w| <= room && Next(c, mem, b + x) == Go(w, |b|, lost, mem, after)
    ensures Passes(run, mem, b, x, room, w, lost, after)
  {
    assert (b + x)[|b|..] == x;
    assert ConvertsAt(run, c, mem, b + x, room) && ConvertsAt(run, c, after, x, room - |w|);
  }

  /** One character through the loop: its bytes, or its substitute's, or none and one lost. */
  lemma LossyNext(c: Conv, mem: Memory, cp: nat, x: seq<Byte>)
    requires Scalar(cp) && Synced(c.from, mem) && Encode(c.from, true, cp).Some? && (Lacks(c.to, cp) ==> c.translit || c.ignore)
    ensures var b := Encode(c.from, true, cp).value;
            Next(c, mem, b + x) == Go(Bytes(c.to, mem.written, ShownOne(c, cp)), |b|,
                                      if Lacks(c.to, cp) then 1 else 0, mem, AfterText(c, mem, ShownOne(c, cp)))
  {
    DecodeEncoded(c.from, mem, cp, x);
    var shown := ShownOne(c, cp);
    if shown != [] { BytesOne(c.to, mem.written, shown[0]); }
  }

  lemma LossyChar(run: Runner, c: Conv, mem: Memory, cp: nat, x: seq<Byte>, room: nat)
    requires Converts(run, c)
    requires Scalar(cp) && Synced(c.from, mem) && Encode(c.from, true, cp).Some? && (Lacks(c.to, cp) ==> c.translit || c.ignore)
    requires |Bytes(c.to, mem.written, ShownOne(c, cp))| <= room
    ensures Passes(run, mem, Encode(c.from, true, cp).value, x, room, Bytes(c.to, mem.written, ShownOne(c, cp)),
                   if Lacks(c.to, cp) then 1 else 0, AfterText(c, mem, ShownOne(c, cp)))
  {
    LossyNext(c, mem, cp, x);
    OneTurn(run, c, mem, Encode(c.from, true, cp).value, x, room, Bytes(c.to, mem.written, ShownOne(c, cp)),
            if Lacks(c.to, cp) then 1 else 0, AfterText(c, mem, ShownOne(c, cp)));
  }

  /** After a text: the mark counts as written if something was. */
  lemma AfterBoth(c: Conv, mem: Memory, a: seq<nat>, b: seq<nat>)
    ensures AfterText(c, AfterText(c, mem, a), b) == AfterText(c, mem, a + b)
  {
  }

  /** A text, its first character apart. */
  lemma TextFirst(c: Conv, mem: Memory, text: seq<nat>)
    requires Has(c.from, text) && text != []
    ensures Has(c.from, text[1..]) && Scalar(text[0]) && Encode(c.from, true, text[0]).Some?
    ensures Bytes(c.from, true, text) == Encode(c.from, true, text[0]).value + Bytes(c.from, true, text[1..])
    ensures var one := ShownOne(c, text[0]);
            var mem1 := AfterText(c, mem, one);
            && Bytes(c.to, mem.written, Shown(c, text))
               == Bytes(c.to, mem.written, one) + Bytes(c.to, mem1.written, Shown(c, text[1..]))
            && AfterText(c, mem, Shown(c, text)) == AfterText(c, mem1, Shown(c, text[1..]))
    ensures Lacking(c.to, text) == (if Lacks(c.to, text[0]) then 1 else 0) + Lacking(c.to, text[1..])
  {
    BytesStep(c.from, true, text);
    ShownFirst(c, text);
    BytesAppend(c.to, mem.written, ShownOne(c, text[0]), Shown(c, text[1..]));
    AfterBoth(c, mem, ShownOne(c, text[0]), Shown(c, text[1..]));
  }

  /** Nothing is lost, or a suffix provides for it. */
  ghost predicate Provided(c: Conv, text: seq<nat>)
    requires AllScalar(text)
  {
    c.translit || c.ignore || Lacking(c.to, text) == 0
  }

  lemma ProvidedRest(c: Conv, text: seq<nat>)
    requires AllScalar(text) && text != [] && Provided(c, text)
    ensures AllScalar(text[1..]) && Provided(c, text[1..]) && (Lacks(c.to, text[0]) ==> c.translit || c.ignore)
  {
  }

  ghost predicate TextPassed(run: Runner, c: Conv, mem: Memory, text: seq<nat>, x: seq<Byte>, room: nat)
    requires Has(c.from, text)
  {
    Passes(run, mem, Bytes(c.from, true, text), x, room, Bytes(c.to, mem.written, Shown(c, text)),
           Lacking(c.to, text), AfterText(c, mem, Shown(c, text)))
  }

  lemma TextPassedNext(run: Runner, c: Conv, mem: Memory, text: seq<nat>, x: seq<Byte>, room: nat, w: seq<Byte>, mem1: Memory)
    requires Has(c.from, text) && text != [] && Has(c.from, text[1..]) && Scalar(text[0]) && Encode(c.from, true, text[0]).Some?
    requires w == Bytes(c.to, mem.written, ShownOne(c, text[0])) && mem1 == AfterText(c, mem, ShownOne(c, text[0])) && |w| <= room
    requires Passes(run, mem, Encode(c.from, true, text[0]).value, Bytes(c.from, true, text[1..]) + x, room, w,
                    if Lacks(c.to, text[0]) then 1 else 0, mem1)
    requires TextPassed(run, c, mem1, text[1..], x, room - |w|)
    ensures TextPassed(run, c, mem, text, x, room)
  {
    TextFirst(c, mem, text);
    var rest := text[1..];
    PassesBoth(run, mem, Encode(c.from, true, text[0]).value, Bytes(c.from, true, rest), x, room,
               w, if Lacks(c.to, text[0]) then 1 else 0, mem1,
               Bytes(c.to, mem1.written, Shown(c, rest)), Lacking(c.to, rest), AfterText(c, mem1, Shown(c, rest)));
  }

  /** A text for which the conversion provides, and anything after it. */
  lemma {:induction false} LossyPlain(run: Runner, c: Conv, mem: Memory, text: seq<nat>, x: seq<Byte>, room: nat)
    requires Converts(run, c) && Has(c.from, text) && Synced(c.from, mem) && Provided(c, text)
    requires room >= |Bytes(c.to, mem.written, Shown(c, text))|
    ensures TextPassed(run, c, mem, text, x, room)
    decreases text
  {
    if text == [] {
      PassesNothing(run, mem, x, room);
    } else {
      TextFirst(c, mem, text);
      ProvidedRest(c, text);
      var w, mem1 := Bytes(c.to, mem.written, ShownOne(c, text[0])), AfterText(c, mem, ShownOne(c, text[0]));
      LossyChar(run, c, mem, text[0], Bytes(c.from, true, text[1..]) + x, room);
      LossyPlain(run, c, mem1, text[1..], x, room - |w|);
      TextPassedNext(run, c, mem, text, x, room, w, mem1);
    }
  }

  // ----- whole texts -----

  /** What is remembered after the mark, if the set has one. */
  function Opened(e: Enc): Memory {
    if Marked(e) then INITIAL.(seen := true, be := false) else INITIAL
  }

  lemma MarkPasses(run: Runner, c: Conv, x: seq<Byte>, room: nat)
    requires Converts(run, c)
    ensures Passes(run, INITIAL, TheMark(c.from), x, room, [], 0, Opened(c.from)) && Synced(c.from, Opened(c.from))
  {
    if Marked(c.from) {
      ReadMark(c, x, room);
      assert ConvertsAt(run, c, INITIAL, TheMark(c.from) + x, room) && ConvertsAt(run, c, Opened(c.from), x, room);
    } else {
      PassesNothing(run, INITIAL, x, room);
    }
  }

  lemma Marking(e: Enc, text: seq<nat>)
    requires Has(e, text) && text != []
    ensures Bytes(e, false, text) == TheMark(e) + Bytes(e, true, text)
  {
    if Marked(e) { MarkFirst(e, text); } else { SameBytes(e, text); }
  }

  /** A fresh conversion up to the end of a text for which it provides. */
  lemma TextPasses(run: Runner, c: Conv, text: seq<nat>, x: seq<Byte>, room: nat)
    requires Converts(run, c) && Has(c.from, text) && Provided(c, text) && room >= |Bytes(c.to, false, Shown(c, text))|
    ensures Passes(run, INITIAL, TheMark(c.from) + Bytes(c.from, true, text), x, room, Bytes(c.to, false, Shown(c, text)),
                   Lacking(c.to, text), AfterText(c, Opened(c.from), Shown(c, text)))
  {
    var b := Bytes(c.from, true, text);
    MarkPasses(run, c, b + x, room);
    LossyPlain(run, c, Opened(c.from), text, x, room);
    PassesSilent(run, INITIAL, TheMark(c.from), b, x, room, Opened(c.from),
                 Bytes(c.to, false, Shown(c, text)), Lacking(c.to, text), AfterText(c, Opened(c.from), Shown(c, text)));
  }

  /**
    Any text of the source set: with //TRANSLIT each character's bytes, or
    those of '?' where the target lacks it; with //IGNORE alone the bytes of
    the characters it has. All is used, and the count is the number of
    characters the target lacks.
    */
  lemma LossyText(c: Conv, text: seq<nat>, room: nat)
    requires Has(c.from, text) && Provided(c, text) && room >= |Bytes(c.to, false, Shown(c, text))|
    ensures var r := Convert(c, INITIAL, Bytes(c.from, false, text), room);
            && r.out == Bytes(c.to, false, Shown(c, text)) && r.used == |Bytes(c.from, false, text)|
            && r.count == Lacking(c.to, text) && r.status == Done
  {
    var run, p := Converting(c), Bytes(c.from, false, text);
    ConvertingConverts(c);
    assert ConvertsAt(run, c, INITIAL, p, room);
    if text != [] {
      Marking(c.from, text);
      TextPasses(run, c, text, [], room);
      assert p + [] == p;
      var after, left := AfterText(c, Opened(c.from), Shown(c, text)), room - |Bytes(c.to, false, Shown(c, text))|;
      assert ConvertsAt(run, c, after, [], left);
    }
  }

  // ----- where it stops -----

  lemma {:induction false} KeptAll(e: Enc, text: seq<nat>)
    requires AllScalar(text) && Lacking(e, text) == 0
    ensures Kept(e, text) == text
    decreases text
  {
    if text != [] { KeptAll(e, text[1..]); }
  }

  lemma HasParts(e: Enc, text: seq<nat>, k: nat)
    requires Has(e, text) && k <= |text|
    ensures Has(e, text[..k]) && Has(e, text[k..])
  {
  }

  lemma {:induction false} BytesSplit(e: Enc, text: seq<nat>, k: nat, a: seq<nat>, b: seq<nat>)
    requires Has(e, text) && k <= |text| && a == text[..k] && b == text[k..] && Has(e, a) && Has(e, b)
    ensures Bytes(e, true, text) == Bytes(e, true, a) + Bytes(e, true, b)
    decreases k
  {
    if k == 0 {
      assert a == [] && b == text;
    } else {
      BytesStep(e, true, text);
      BytesStep(e, true, a);
      assert a[0] == text[0];
      BytesSplit(e, text[1..], k - 1, a[1..], b);
      Append3(Encode(e, true, text[0]).value, Bytes(e, true, a[1..]), Bytes(e, true, b));
    }
  }

  lemma Append3(a: seq<Byte>, b: seq<Byte>, c: seq<Byte>)
    ensures a + (b + c) == (a + b) + c
  {
  }

  lemma LackStops(c: Conv, mem: Memory, cp: nat, x: seq<Byte>, room: nat)
    requires Scalar(cp) && Synced(c.from, mem) && Encode(c.from, true, cp).Some? && Lacks(c.to, cp) && !c.translit && !c.ignore
    ensures Convert(c, mem, Encode(c.from, true, cp).value + x, room) == Stop(mem, BadInput)
  {
    DecodeEncoded(c.from, mem, cp, x);
  }

  /** The bytes of a text up to a character, the character and the rest. */
  lemma CutAt(e: Enc, text: seq<nat>, k: nat) returns (b: seq<Byte>, x: seq<Byte>)
    requires Has(e, text) && k < |text|
    ensures Has(e, text[..k]) && Scalar(text[k]) && Encode(e, true, text[k]).Some? && b == TheMark(e) + Bytes(e, true, text[..k])
    ensures Bytes(e, false, text) == b + (Encode(e, true, text[k]).value + x)
  {
    HasParts(e, text, k);
    BytesSplit(e, text, k, text[..k], text[k..]);
    Marking(e, text);
    BytesStep(e, true, text[k..]);
    b, x := TheMark(e) + Bytes(e, true, text[..k]), Bytes(e, true, text[k..][1..]);
    Append3(TheMark(e), Bytes(e, true, text[..k]), Bytes(e, true, text[k..]));
  }

  /** Without a suffix the conversion stops just before the first character that the target lacks. */
  lemma StrictStops(c: Conv, text: seq<nat>, k: nat, room: nat)
    requires Has(c.from, text) && !c.translit && !c.ignore && k < |text|
    requires Lacks(c.to, text[k]) && Lacking(c.to, text[..k]) == 0
    requires Has(c.to, text[..k]) && room >= |Bytes(c.to, false, text[..k])|
    ensures var r := Convert(c, INITIAL, Bytes(c.from, false, text), room);
            && r.out == Bytes(c.to, false, text[..k]) && r.count == 0 && r.status == BadInput
            && r.used == |TheMark(c.from)| + |Bytes(c.from, true, text[..k])|
  {
    var run, before := Converting(c), text[..k];
    ConvertingConverts(c);
    KeptAll(c.to, before);
    var b, x := CutAt(c.from, text, k);
    StrictFrom(run, c, before, text[k], x, room, b, Bytes(c.to, false, before));
    assert ConvertsAt(run, c, INITIAL, Bytes(c.from, false, text), room);
  }

  lemma StrictFrom(run: Runner, c: Conv, before: seq<nat>, cp: nat, x: seq<Byte>, room: nat, b: seq<Byte>, w: seq<Byte>)
    requires Converts(run, c) && Has(c.from, before) && !c.translit && !c.ignore && Lacking(c.to, before) == 0
    requires Shown(c, before) == before && w == Bytes(c.to, false, Shown(c, before)) && |w| <= room
    requires b == TheMark(c.from) + Bytes(c.from, true, before)
    requires Scalar(cp) && Encode(c.from, true, cp).Some? && Lacks(c.to, cp)
    ensures run(INITIAL, b + (Encode(c.from, true, cp).value + x), room)
         == Result(w, |b|, AfterText(c, Opened(c.from), before), 0, BadInput)
  {
    var next, after := Encode(c.from, true, cp).value + x, AfterText(c, Opened(c.from), before);
    TextPasses(run, c, before, next, room);
    StopsHere(run, c, after, cp, x, room - |w|);
    PassesThenStops(run, INITIAL, b, next, room, w, 0, after, after, BadInput);
  }

  lemma StopsHere(run: Runner, c: Conv, mem: Memory, cp: nat, x: seq<Byte>, room: nat)
    requires Converts(run, c)
    requires Scalar(cp) && Synced(c.from, mem) && Encode(c.from, true, cp).Some? && Lacks(c.to, cp) && !c.translit && !c.ignore
    ensures run(mem, Encode(c.from, true, cp).value + x, room) == Stop(mem, BadInput)
  {
    LackStops(c, mem, cp, x, room);
    assert ConvertsAt(run, c, mem, Encode(c.from, true, cp).value + x, room);
  }

  lemma FullStops(c: Conv, mem: Memory, cp: nat, x: seq<Byte>, room: nat)
    requires Scalar(cp) && Synced(c.from, mem) && Encode(c.from, true, cp).Some? && (Lacks(c.to, cp) ==> c.translit || c.ignore)
    requires |Bytes(c.to, mem.written, ShownOne(c, cp))| > room
    ensures Convert(c, mem, Encode(c.from, true, cp).value + x, room) == Stop(mem, NoRoom)
  {
    LossyNext(c, mem, cp, x);
  }

  /** Where the next character does not fit any more, the call stops just before it, with what was written so far. */
  lemma RoomStops(run: Runner, c: Conv, text: seq<nat>, cp: nat, x: seq<Byte>, room: nat, w: seq<Byte>, after: Memory)
    requires Converts(run, c) && Has(c.from, text) && Provided(c, text)
    requires w == Bytes(c.to, false, Shown(c, text)) && after == AfterText(c, Opened(c.from), Shown(c, text))
    requires Scalar(cp) && Encode(c.from, true, cp).Some? && (Lacks(c.to, cp) ==> c.translit || c.ignore)
    requires |w| <= room < |w| + |Bytes(c.to, after.written, ShownOne(c, cp))|
    ensures var b := TheMark(c.from) + Bytes(c.from, true, text);
            run(INITIAL, b + (Encode(c.from, true, cp).value + x), room) == Result(w, |b|, after, Lacking(c.to, text), NoRoom)
  {
    var b, next := TheMark(c.from) + Bytes(c.from, true, text), Encode(c.from, true, cp).value + x;
    TextPasses(run, c, text, next, room);
    FullStops(c, after, cp, x, room - |w|);
    assert ConvertsAt(run, c, after, next, room - |w|);
    PassesThenStops(run, INITIAL, b, next, room, w, Lacking(c.to, text), after, after, NoRoom);
  }

  /** A place where no character stands: with //IGNORE one byte is skipped and counted, without it the call stops there. */
  lemma InvalidPlace(run: Runner, c: Conv, mem: Memory, p: seq<Byte>, room: nat)
    requires Converts(run, c) && p != [] && Decode(c.from, mem, p).read.Invalid?
    ensures c.ignore ==> Passes(run, mem, [p[0]], p[1..], room, [], 1, Decode(c.from, mem, p).mem)
    ensures !c.ignore ==> run(mem, p, room) == Stop(Decode(c.from, mem, p).mem, BadInput)
  {
    assert [p[0]] + p[1..] == p;
    assert ConvertsAt(run, c, mem, p, room) && ConvertsAt(run, c, Decode(c.from, mem, p).mem, p[1..], room);
  }

  /** The same after a text. */
  lemma InvalidAfterText(run: Runner, c: Conv, text: seq<nat>, p: seq<Byte>, room: nat, b: seq<Byte>, w: seq<Byte>, after: Memory)
    requires Converts(run, c) && Has(c.from, text) && Provided(c, text) && p != []
    requires b == TheMark(c.from) + Bytes(c.from, true, text) && w == Bytes(c.to, false, Shown(c, text)) && |w| <= room
    requires after == AfterText(c, Opened(c.from), Shown(c, text)) && Decode(c.from, after, p).read.Invalid?
    ensures c.ignore ==>
              Passes(run, INITIAL, b + [p[0]], p[1..], room, w, Lacking(c.to, text) + 1, Decode(c.from, after, p).mem)
    ensures !c.ignore ==>
              run(INITIAL, b + p, room) == Result(w, |b|, Decode(c.from, after, p).mem, Lacking(c.to, text), BadInput)
  {
    TextPasses(run, c, text, p, room);
    InvalidPlace(run, c, after, p, room - |w|);
    if c.ignore {
      assert [p[0]] + p[1..] == p;
      PassesBoth(run, INITIAL, b, [p[0]], p[1..], room, w, Lacking(c.to, text), after, [], 1, Decode(c.from, after, p).mem);
      assert w + [] == w;
    } else {
      PassesThenStops(run, INITIAL, b, p, room, w, Lacking(c.to, text), after, Decode(c.from, after, p).mem, BadInput);
    }
  }

  // ----- any bytes at all -----

  /** The well-formed characters of a byte string, in their order, up to one that is cut off at the end. */
  function Clean(p: seq<Byte>): seq<Byte>
    decreases |p|
  {
    if p == [] then []
    else if Form(p) > 0 then p[..Form(p)] + Clean(p[Form(p)..])
    else if Begun(p) then []
    else Clean(p[1..])
  }

  /** The bytes that belong to none. */
  function Dropped(p: seq<Byte>): nat
    decreases |p|
  {
    if p == [] then 0
    else if Form(p) > 0 then Dropped(p[Form(p)..])
    else if Begun(p) then 0
    else 1 + Dropped(p[1..])
  }

  /** The bytes of the character that is cut off. */
  function Unread(p: seq<Byte>): (n: nat)
    ensures n <= |p|
    decreases |p|
  {
    if p == [] then 0
    else if Form(p) > 0 then Unread(p[Form(p)..])
    else if Begun(p) then |p|
    else Unread(p[1..])
  }

  lemma {:induction false} CleanParts(p: seq<Byte>)
    ensures |Clean(p)| + Dropped(p) + Unread(p) == |p|
    decreases |p|
  {
    if p == [] {
    } else if Form(p) > 0 {
      CleanParts(p[Form(p)..]);
    } else if !Begun(p) {
      CleanParts(p[1..]);
    }
  }

  lemma FormPasses(run: Runner, c: Conv, mem: Memory, p: seq<Byte>, room: nat)
    requires Converts(run, c) && c.from == Utf8 && c.to == Utf8 && 0 < Form(p) <= room
    ensures Passes(run, mem, p[..Form(p)], p[Form(p)..], room, p[..Form(p)], 0, mem)
  {
    var k := Form(p);
    Utf8Accepts(p);
    assert p[..k] + p[k..] == p;
    assert Next(c, mem, p) == Go(p[..k], k, 0, mem, mem);
    OneTurn(run, c, mem, p[..k], p[k..], room, p[..k], 0, mem);
  }

  lemma StopsCut(run: Runner, c: Conv, mem: Memory, p: seq<Byte>, room: nat)
    requires Converts(run, c) && c.from == Utf8 && p != [] && Form(p) == 0 && Begun(p)
    ensures run(mem, p, room) == Stop(mem, CutShort)
  {
    Utf8Reads(p);
    assert ConvertsAt(run, c, mem, p, room);
  }

  lemma DropsOne(run: Runner, c: Conv, mem: Memory, p: seq<Byte>, room: nat)
    requires Converts(run, c) && c.from == Utf8 && c.ignore && p != [] && Form(p) == 0 && !Begun(p)
    ensures Passes(run, mem, [p[0]], p[1..], room, [], 1, mem)
  {
    Utf8Reads(p);
    InvalidPlace(run, c, mem, p, room);
  }

  ghost predicate Cleaned(run: Runner, mem: Memory, p: seq<Byte>, room: nat) {
    run(mem, p, room) == Result(Clean(p), |p| - Unread(p), mem, Dropped(p), if Unread(p) > 0 then CutShort else Done)
  }

  lemma CleanedForm(run: Runner, mem: Memory, p: seq<Byte>, room: nat, k: nat)
    requires p != [] && k == Form(p) > 0 && Passes(run, mem, p[..k], p[k..], room, p[..k], 0, mem)
    requires Cleaned(run, mem, p[k..], room - k)
    ensures Cleaned(run, mem, p, room)
  {
    assert p[..k] + p[k..] == p;
  }

  lemma CleanedDrop(run: Runner, mem: Memory, p: seq<Byte>, room: nat)
    requires p != [] && Form(p) == 0 && !Begun(p) && Passes(run, mem, [p[0]], p[1..], room, [], 1, mem)
    requires Cleaned(run, mem, p[1..], room)
    ensures Cleaned(run, mem, p, room)
  {
    assert [p[0]] + p[1..] == p && [] + Clean(p[1..]) == Clean(p[1..]);
  }

  lemma {:induction false} CleanRuns(run: Runner, c: Conv, mem: Memory, p: seq<Byte>, room: nat)
    requires Converts(run, c) && c.from == Utf8 && c.to == Utf8 && c.ignore && room >= |Clean(p)|
    ensures Cleaned(run, mem, p, room)
    decreases |p|
  {
    if p == [] {
      assert ConvertsAt(run, c, mem, p, room);
    } else if Form(p) > 0 {
      FormPasses(run, c, mem, p, room);
      CleanRuns(run, c, mem, p[Form(p)..], room - Form(p));
      CleanedForm(run, mem, p, room, Form(p));
    } else if Begun(p) {
      StopsCut(run, c, mem, p, room);
    } else {
      DropsOne(run, c, mem, p, room);
      CleanRuns(run, c, mem, p[1..], room);
      CleanedDrop(run, mem, p, room);
    }
  }

  /**
    UTF-8 to UTF-8//IGNORE on any bytes: what is written are the well-formed
    characters in their order; every other byte is dropped and counted, but
    for a character that is cut off at the end, where the call stops.
    */
  lemma IgnoreCleans(c: Conv, mem: Memory, p: seq<Byte>, room: nat)
    requires c.from == Utf8 && c.to == Utf8 && c.ignore && room >= |Clean(p)|
    ensures Convert(c, mem, p, room)
         == Result(Clean(p), |p| - Unread(p), mem, Dropped(p), if Unread(p) > 0 then CutShort else Done)
    ensures |Clean(p)| + Dropped(p) + Unread(p) == |p|
  {
    ConvertingConverts(c);
    CleanRuns(Converting(c), c, mem, p, room);
    CleanParts(p);
    assert ConvertsAt(Converting(c), c, mem, p, room);
  }
}
