/**
  Names and answers of the resolver, as section 3.1 and sections 4.1.1 to
  4.1.4 of RFC 1035 lay them out.
  */
module Dns {
  import opened Common

  const DOT: Byte := 46
  const MAX_LABEL := 63

  // ----- names on the wire -----

  type Label = seq<Byte>

  predicate GoodLabel(l: Label) {
    1 <= |l| <= MAX_LABEL
  }

  /** Each label after its length. */
  function Labels(ls: seq<Label>): seq<Byte>
    requires AllGood(ls)
  {
    if ls == [] then [] else assert GoodLabel(ls[0]); [|ls[0]|] + ls[0] + Labels(ls[1..])
  }

  /** How a name ends: with a zero, or with a pointer to the rest of it. */
  datatype End = Zero | Pointer(hi: Byte, lo: Byte)

  predicate GoodEnd(e: End) {
    e.Pointer? ==> e.hi >= 0xC0
  }

  function EndBytes(e: End): seq<Byte> {
    match e
    case Zero => [0]
    case Pointer(hi, lo) => [hi, lo]
  }

  datatype Name = Name(labels: seq<Label>, end: End)

  predicate GoodName(n: Name) {
    GoodEnd(n.end) && AllGood(n.labels)
  }

  function NameBytes(n: Name): seq<Byte>
    requires GoodName(n)
  {
    Labels(n.labels) + EndBytes(n.end)
  }

  // ----- passing over a name -----

  /** salta_nome, as a function: the place after the name at `o`. */
  function Skip(m: seq<Byte>, o: nat): (r: Option<nat>)
    ensures r.Some? ==> o < r.value <= |m|
    decreases |m| - o
  {
    if o >= |m| then None
    else if m[o] >= 0xC0 then if o + 2 <= |m| then Some(o + 2) else None
    else if m[o] >= 0x40 then None
    else if m[o] == 0 then Some(o + 1)
    else Skip(m, o + 1 + m[o])
  }

  /** salta_nome */
  method SkipName(m: seq<Byte>, start: nat) returns (r: Option<nat>)
    ensures r == Skip(m, start)
  {
    var o := start;
    while o < |m|
      invariant o >= start && Skip(m, start) == Skip(m, o)
      decreases |m| - o
    {
      var b := m[o];
      if b / 64 == 3 {
        return if o + 2 <= |m| then Some(o + 2) else None;
      }
      if b / 64 != 0 {
        return None;
      }
      if b == 0 {
        return Some(o + 1);
      }
      o := o + 1 + b;
    }
    r := None;
  }

  predicate AtByte(m: seq<Byte>, o: nat, part: seq<Byte>, i: int) {
    o + |part| <= |m| && (0 <= i < |part| ==> m[o + i] == part[i])
  }

  /** The part stands in the message from `o` on. */
  ghost predicate At(m: seq<Byte>, o: nat, part: seq<Byte>) {
    forall i {:trigger AtByte(m, o, part, i)} :: AtByte(m, o, part, i)
  }

  lemma AtSplit(m: seq<Byte>, o: nat, a: seq<Byte>, b: seq<Byte>)
    requires At(m, o, a + b)
    ensures At(m, o, a) && At(m, o + |a|, b)
  {
    var p, n := o + |a|, |a|;
    forall i ensures AtByte(m, o, a, i) { assert AtByte(m, o, a + b, i); }
    forall i ensures AtByte(m, p, b, i) {
      var k := n + i;
      assert AtByte(m, o, a + b, k);
    }
  }

  lemma AtJoin(m: seq<Byte>, o: nat, a: seq<Byte>, b: seq<Byte>)
    requires At(m, o, a) && At(m, o + |a|, b)
    ensures At(m, o, a + b)
  {
    var p, n := o + |a|, |a|;
    forall i ensures AtByte(m, o, a + b, i) {
      var k := i - n;
      assert AtByte(m, o, a, i) && AtByte(m, p, b, k);
    }
  }

  lemma AtSlice(m: seq<Byte>, o: nat, part: seq<Byte>)
    requires At(m, o, part)
    ensures o + |part| <= |m| && m[o..o + |part|] == part
  {
    assert AtByte(m, o, part, 0);
    forall i | 0 <= i < |part| ensures m[o + i] == part[i] { assert AtByte(m, o, part, i); }
  }

  /** Wherever a name stands in a message, plain or compressed, it is passed over exactly. */
  lemma {:induction false} SkipPasses(m: seq<Byte>, o: nat, n: Name)
    requires GoodName(n) && At(m, o, NameBytes(n))
    ensures Skip(m, o) == Some(o + |NameBytes(n)|)
    decreases |n.labels|
  {
    if n.labels == [] {
      assert NameBytes(n) == EndBytes(n.end);
      EndPassed(m, o, n.end);
    } else {
      var l := n.labels[0];
      var rest := Name(n.labels[1..], n.end);
      NameSplit(n);
      AtSplit(m, o, [|l|] + l, NameBytes(rest));
      LabelPassed(m, o, l);
      SkipPasses(m, o + 1 + |l|, rest);
    }
  }

  /** And nothing else is passed over: where salta_nome goes on, a name stands. */
  lemma {:induction false} SkipMeans(m: seq<Byte>, o: nat) returns (n: Name)
    requires Skip(m, o).Some?
    ensures GoodName(n) && At(m, o, NameBytes(n)) && Skip(m, o) == Some(o + |NameBytes(n)|)
    decreases |m| - o
  {
    if m[o] >= 0xC0 {
      n := Name([], Pointer(m[o], m[o + 1]));
      EndStands(m, o, n.end);
    } else if m[o] == 0 {
      n := Name([], Zero);
      EndStands(m, o, n.end);
    } else {
      var k := o + 1 + m[o];
      var rest := SkipMeans(m, k);
      var l := m[o + 1..k];
      n := Name([l] + rest.labels, rest.end);
      assert n.labels[1..] == rest.labels;
      NameSplit(n);
      forall i ensures AtByte(m, o, [|l|] + l, i) {
      }
      AtJoin(m, o, [|l|] + l, NameBytes(rest));
      SkipPasses(m, o, n);
    }
  }

  lemma EndStands(m: seq<Byte>, o: nat, e: End)
    requires o + |EndBytes(e)| <= |m| && m[o..o + |EndBytes(e)|] == EndBytes(e) && GoodEnd(e)
    ensures GoodName(Name([], e)) && At(m, o, NameBytes(Name([], e))) && |NameBytes(Name([], e))| == |EndBytes(e)|
  {
    assert NameBytes(Name([], e)) == EndBytes(e);
    forall i ensures AtByte(m, o, EndBytes(e), i) {
      if 0 <= i < |EndBytes(e)| { assert m[o + i] == m[o..o + |EndBytes(e)|][i]; }
    }
  }

  lemma NameSplit(n: Name)
    requires GoodName(n) && n.labels != []
    ensures var l := n.labels[0]; var rest := Name(n.labels[1..], n.end);
            GoodLabel(l) && GoodName(rest) && NameBytes(n) == ([|l|] + l) + NameBytes(rest)
  {
    assert GoodLabel(n.labels[0]);
  }

  lemma EndPassed(m: seq<Byte>, o: nat, e: End)
    requires GoodEnd(e) && At(m, o, EndBytes(e))
    ensures Skip(m, o) == Some(o + |EndBytes(e)|)
  {
    assert AtByte(m, o, EndBytes(e), 0);
  }

  lemma LabelPassed(m: seq<Byte>, o: nat, l: Label)
    requires GoodLabel(l) && At(m, o, [|l|] + l)
    ensures Skip(m, o) == Skip(m, o + 1 + |l|)
  {
    assert AtByte(m, o, [|l|] + l, 0);
  }

  // ----- writing a name -----

  /** The labels of a dotted name; a dot at its end adds none. */
  function SplitName(s: seq<Byte>, from: nat, i: nat): seq<Label>
    requires from <= i <= |s|
    decreases |s| - i
  {
    if i == |s| then if from == i then [] else [s[from..i]]
    else if s[i] == DOT then [s[from..i]] + SplitName(s, i + 1, i + 1)
    else SplitName(s, from, i + 1)
  }

  /** A name the resolver can ask for: not empty, and every label of 1 to 63 bytes. */
  predicate Usable(s: seq<Byte>) {
    s != [] && AllGood(SplitName(s, 0, 0))
  }

  predicate AllGood(ls: seq<Label>) {
    forall i :: 0 <= i < |ls| ==> GoodLabel(ls[i])
  }

  function Wire(s: seq<Byte>): seq<Byte>
    requires Usable(s)
  {
    NameBytes(Name(SplitName(s, 0, 0), Zero))
  }

  lemma {:induction false} LabelsAppend(a: seq<Label>, b: seq<Label>)
    requires AllGood(a) && AllGood(b)
    ensures AllGood(a + b) && Labels(a + b) == Labels(a) + Labels(b)
    decreases a
  {
    if a == [] {
      assert a + b == b;
    } else {
      assert (a + b)[1..] == a[1..] + b;
      LabelsAppend(a[1..], b);
    }
  }

  lemma LabelsOne(l: Label)
    requires GoodLabel(l)
    ensures AllGood([l]) && Labels([l]) == [|l|] + l
  {
    assert [l][1..] == [];
  }

  /** Labels with dots between them. */
  function Dotted(ls: seq<Label>): seq<Byte> {
    if ls == [] then [] else if |ls| == 1 then ls[0] else ls[0] + [DOT] + Dotted(ls[1..])
  }

  predicate NoDot(l: Label) {
    forall k :: 0 <= k < |l| ==> l[k] != DOT
  }

  /** The labels are what stands between the dots, but for one dot at the end. */
  lemma {:induction false} SplitJoins(s: seq<Byte>, from: nat, i: nat)
    requires from <= i <= |s| && (from < |s| || from == i) && forall k :: from <= k < i ==> s[k] != DOT
    ensures forall k :: 0 <= k < |SplitName(s, from, i)| ==> NoDot(SplitName(s, from, i)[k])
    ensures var t := Dotted(SplitName(s, from, i));
            s[from..] == t || (s[from..] == t + [DOT] && s[|s| - 1] == DOT)
    decreases |s| - i
  {
    var ls := SplitName(s, from, i);
    if i == |s| {
      if from < i { assert NoDot(ls[0]); }
    } else if s[i] == DOT {
      var rest := SplitName(s, i + 1, i + 1);
      SplitJoins(s, i + 1, i + 1);
      assert ls == [s[from..i]] + rest && ls[1..] == rest && NoDot(s[from..i]);
      assert s[from..] == s[from..i] + [DOT] + s[i + 1..];
    } else {
      SplitJoins(s, from, i + 1);
    }
  }

  /** How far it is to the next dot, or to the end. */
  function LabelLen(s: seq<Byte>, i: nat): (n: nat)
    requires i <= |s|
    ensures i + n <= |s| && (i + n == |s| || s[i + n] == DOT)
    decreases |s| - i
  {
    if i == |s| || s[i] == DOT then 0 else 1 + LabelLen(s, i + 1)
  }

  lemma {:induction false} LabelAt(s: seq<Byte>, from: nat, i: nat)
    requires from <= i <= |s|
    ensures SplitName(s, from, i) == SplitName(s, from, i + LabelLen(s, i))
    decreases |s| - i
  {
    if i < |s| && s[i] != DOT { LabelAt(s, from, i + 1); }
  }

  /** So much of the name is written: the labels `done`, up to the byte `o`; those from `i` on are to come. */
  ghost predicate Halfway(s: seq<Byte>, i: nat, done: seq<Label>, o: nat)
    requires i <= |s|
  {
    AllGood(done) && SplitName(s, 0, 0) == done + SplitName(s, i, i) && o == |Labels(done)|
  }

  /** What is still to be written takes at least this much. */
  lemma StillToCome(s: seq<Byte>, i: nat, done: seq<Label>, o: nat)
    requires i < |s| && Halfway(s, i, done, o)
    ensures Usable(s) ==> var len := LabelLen(s, i); 1 <= len <= MAX_LABEL && |Wire(s)| >= o + 2 + len
  {
    var rest := SplitName(s, i, i);
    LabelAt(s, i, i);
    assert rest != [] && rest[0] == s[i..i + LabelLen(s, i)];
    var all := SplitName(s, 0, 0);
    if AllGood(all) {
      assert forall k :: 0 <= k < |rest| ==> rest[k] == all[|done| + k];
      assert AllGood(rest) && GoodLabel(rest[0]);
      LabelsAppend(done, rest);
      assert Labels(rest) == [|rest[0]|] + rest[0] + Labels(rest[1..]);
    }
  }

  lemma LabelDone(s: seq<Byte>, i: nat, done: seq<Label>, o: nat)
    requires i < |s| && Halfway(s, i, done, o) && 1 <= LabelLen(s, i) <= MAX_LABEL
    ensures var j := i + LabelLen(s, i); var l := s[i..j];
            && GoodLabel(l) && Halfway(s, if j < |s| then j + 1 else j, done + [l], o + 1 + |l|)
            && Labels(done + [l]) == Labels(done) + ([|l|] + l)
  {
    var j := i + LabelLen(s, i);
    var l := s[i..j];
    LabelsOne(l);
    LabelsAppend(done, [l]);
    LabelAt(s, i, i);
    var next := if j < |s| then j + 1 else j;
    assert SplitName(s, i, j) == [l] + SplitName(s, next, next);
    assert done + ([l] + SplitName(s, next, next)) == done + [l] + SplitName(s, next, next);
  }

  lemma NameDone(s: seq<Byte>, done: seq<Label>, o: nat)
    requires s != [] && Halfway(s, |s|, done, o)
    ensures Usable(s) && Wire(s) == Labels(done) + [0] && |Wire(s)| == o + 1
  {
    assert SplitName(s, 0, 0) == done;
  }

  /** One label of scrivi_nome: written after its length exactly when it is neither empty nor too long and there is room. */
  method WriteLabel(p: array<Byte>, space: nat, s: seq<Byte>, i: nat, o: nat) returns (ok: bool, j: nat)
    requires space <= p.Length && i < |s| && o <= space
    modifies p
    ensures forall k :: 0 <= k < o || space <= k < p.Length ==> p[k] == old(p[k])
    ensures ok <==> 1 <= LabelLen(s, i) <= MAX_LABEL && o + 1 + LabelLen(s, i) <= space
    ensures ok ==> j == i + LabelLen(s, i) && p[o..o + 1 + (j - i)] == [j - i] + s[i..j]
  {
    ok, j := false, i;
    if o + 1 >= space {
      return;
    }
    var q := o + 1;
    while j < |s| && s[j] != DOT
      invariant i <= j <= |s| && q == o + 1 + (j - i) && q <= space && j - i <= MAX_LABEL
      invariant LabelLen(s, i) == j - i + LabelLen(s, j)
      invariant forall k :: i <= k < j ==> p[o + 1 + (k - i)] == s[k]
      invariant forall k :: 0 <= k < o || space <= k < p.Length ==> p[k] == old(p[k])
      decreases |s| - j
    {
      if q >= space || j - i >= MAX_LABEL {
        return;
      }
      p[q] := s[j];
      j, q := j + 1, q + 1;
    }
    if j == i {
      return;
    }
    p[o] := j - i;
    ghost var written := [j - i] + s[i..j];
    forall k | 0 <= k < |written| ensures p[o..q][k] == written[k] {
      if k > 0 { assert p[o + 1 + (i + k - 1 - i)] == s[i + k - 1]; }
    }
    ok := true;
  }

  /**
    scrivi_nome: it writes a name exactly when the name is usable and fits,
    then in its wire form; never past the space. 0 is a refusal.
    */
  method WriteName(p: array<Byte>, space: nat, s: seq<Byte>) returns (n: nat)
    requires space <= p.Length
    modifies p
    ensures n > 0 <==> Usable(s) && |Wire(s)| <= space
    ensures n > 0 ==> n == |Wire(s)| && p[..n] == Wire(s)
    ensures forall k :: space <= k < p.Length ==> p[k] == old(p[k])
  {
    if s == [] {
      return 0;
    }
    var i: nat, o: nat := 0, 0;
    ghost var done: seq<Label> := [];
    assert [] + SplitName(s, 0, 0) == SplitName(s, 0, 0);
    while i < |s|
      invariant i <= |s| && o <= space && Halfway(s, i, done, o) && p[..o] == Labels(done)
      invariant forall k :: space <= k < p.Length ==> p[k] == old(p[k])
      decreases |s| - i
    {
      ghost var head := p[..o];
      var ok, j := WriteLabel(p, space, s, i, o);
      if !ok {
        StillToCome(s, i, done, o);
        return 0;
      }
      LabelDone(s, i, done, o);
      assert p[..o + 1 + (j - i)] == head + p[o..o + 1 + (j - i)];
      done := done + [s[i..j]];
      o := o + 1 + (j - i);
      i := if j < |s| then j + 1 else j;
    }
    NameDone(s, done, o);
    if o >= space {
      return 0;
    }
    p[o] := 0;
    assert p[..o + 1] == p[..o] + [0];
    n := o + 1;
  }

  /** What was written is passed over exactly, whatever comes after it. */
  lemma WrittenIsPassed(s: seq<Byte>, before: seq<Byte>, after: seq<Byte>)
    requires Usable(s)
    ensures Skip(before + Wire(s) + after, |before|) == Some(|before| + |Wire(s)|)
  {
    var m := before + Wire(s) + after;
    forall i ensures AtByte(m, |before|, Wire(s), i) {
    }
    SkipPasses(m, |before|, Name(SplitName(s, 0, 0), Zero));
  }

  lemma {:induction false} DotAfter(s: seq<Byte>, from: nat, i: nat)
    requires from <= i <= |s| && from < |s| && s[|s| - 1] != DOT
    ensures SplitName(s + [DOT], from, i) == SplitName(s, from, i)
    decreases |s| - i
  {
    var t := s + [DOT];
    if i == |s| {
      assert t[from..i] == s[from..i];
      assert SplitName(t, i + 1, i + 1) == [];
    } else if s[i] == DOT {
      assert t[from..i] == s[from..i];
      DotAfter(s, i + 1, i + 1);
    } else {
      DotAfter(s, from, i + 1);
    }
  }

  /** A dot at the end of a name is accepted and changes nothing. */
  lemma DotAtEnd(s: seq<Byte>)
    requires s != [] && s[|s| - 1] != DOT
    ensures Usable(s + [DOT]) <==> Usable(s)
    ensures Usable(s) ==> Wire(s + [DOT]) == Wire(s)
  {
    DotAfter(s, 0, 0);
  }
}
