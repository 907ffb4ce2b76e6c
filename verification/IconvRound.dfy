/**
  What the encodings promise each other: a text that both sets have goes from
  one to the other and back unchanged, byte order marks included.
  */
module IconvRound {
  import opened Common
  import opened IconvCodes

  // ----- UTF-8, section 4 of RFC 3629 -----

  predicate Tail(b: Byte) {
    0x80 <= b <= 0xBF
  }

  /** The length of the UTF8-char at the front by the byte ranges of the grammar; 0 if there is none. */
  function Form(p: seq<Byte>): nat {
    if |p| >= 1 && p[0] <= 0x7F then 1
    else if |p| >= 2 && 0xC2 <= p[0] <= 0xDF && Tail(p[1]) then 2
    else if |p| >= 3 && Form3(p[0], p[1], p[2]) then 3
    else if |p| >= 4 && Form4(p[0], p[1], p[2], p[3]) then 4
    else 0
  }

  predicate Form3(a: Byte, b: Byte, c: Byte) {
    && Tail(c)
    && (|| (a == 0xE0 && 0xA0 <= b <= 0xBF)
        || (0xE1 <= a <= 0xEC && Tail(b))
        || (a == 0xED && 0x80 <= b <= 0x9F)
        || (0xEE <= a <= 0xEF && Tail(b)))
  }

  predicate Form4(a: Byte, b: Byte, c: Byte, d: Byte) {
    && Tail(c) && Tail(d)
    && (|| (a == 0xF0 && 0x90 <= b <= 0xBF)
        || (0xF1 <= a <= 0xF3 && Tail(b))
        || (a == 0xF4 && 0x80 <= b <= 0x8F))
  }

  /** The value of two, three and four bytes of UTF-8. */
  function Value2(a: int, b: int): int {
    (a - 0xC0) * 64 + (b - 0x80)
  }

  function Value3(a: int, b: int, c: int): int {
    ((a - 0xE0) * 64 + (b - 0x80)) * 64 + (c - 0x80)
  }

  function Value4(a: int, b: int, c: int, d: int): int {
    (((a - 0xF0) * 64 + (b - 0x80)) * 64 + (c - 0x80)) * 64 + (d - 0x80)
  }

  function Checked(v: int, min: nat, k: nat): Read {
    if v < min || !Scalar(v) then Invalid else Char(v, k)
  }

  lemma Low6(b: Byte)
    requires Tail(b)
    ensures b % 64 == b - 0x80
  {
  }

  lemma Rest2(p: seq<Byte>)
    requires |p| > 0 && 0xC0 <= p[0] < 0xE0
    ensures Utf8Rest(p, 1, 2, p[0] % 32, 0x80) ==
            if |p| < 2 then Cut else if !Tail(p[1]) then Invalid else Checked(Value2(p[0], p[1]), 0x80, 2)
  {
    assert p[0] % 32 == p[0] - 0xC0;
    if |p| >= 2 && Tail(p[1]) { Low6(p[1]); }
  }

  lemma Rest3(p: seq<Byte>)
    requires |p| >= 3 && 0xE0 <= p[0] < 0xF0
    ensures Utf8Rest(p, 1, 3, p[0] % 16, 0x800) ==
            if !Tail(p[1]) || !Tail(p[2]) then Invalid else Checked(Value3(p[0], p[1], p[2]), 0x800, 3)
  {
    var c: nat := p[0] % 16;
    assert c == p[0] - 0xE0;
    assert Utf8Rest(p, 1, 3, c, 0x800) == if !Tail(p[1]) then Invalid else Utf8Rest(p, 2, 3, c * 64 + p[1] % 64, 0x800);
    if Tail(p[1]) && Tail(p[2]) {
      Low6(p[1]);
      Low6(p[2]);
    }
  }

  lemma Rest4(p: seq<Byte>)
    requires |p| >= 4 && 0xF0 <= p[0] < 0xF8
    ensures Utf8Rest(p, 1, 4, p[0] % 8, 0x10000) ==
            if !Tail(p[1]) || !Tail(p[2]) || !Tail(p[3]) then Invalid
            else Checked(Value4(p[0], p[1], p[2], p[3]), 0x10000, 4)
  {
    var c: nat := p[0] % 8;
    assert c == p[0] - 0xF0;
    assert Utf8Rest(p, 1, 4, c, 0x10000) == if !Tail(p[1]) then Invalid else Utf8Rest(p, 2, 4, c * 64 + p[1] % 64, 0x10000);
    var c1: nat := c * 64 + p[1] % 64;
    assert Utf8Rest(p, 2, 4, c1, 0x10000) == if !Tail(p[2]) then Invalid else Utf8Rest(p, 3, 4, c1 * 64 + p[2] % 64, 0x10000);
    if Tail(p[1]) && Tail(p[2]) && Tail(p[3]) {
      Low6(p[1]);
      Low6(p[2]);
      Low6(p[3]);
    }
  }

  /** A character needs all its bytes. */
  lemma {:induction false} RestShort(p: seq<Byte>, i: nat, k: nat, c: nat, min: nat)
    requires i <= |p| < k
    ensures !Utf8Rest(p, i, k, c, min).Char?
    decreases k - i
  {
  }

  lemma Digits(x: nat, y: nat, z: nat)
    requires y < 64 && z < 64
    ensures var v := (x * 64 + y) * 64 + z; v / 4096 == x && v / 64 % 64 == y && v % 64 == z && v / 64 == x * 64 + y
  {
    var v := (x * 64 + y) * 64 + z;
    assert v / 64 == x * 64 + y;
    assert v / 4096 == v / 64 / 64;
  }

  lemma Digits4(x: nat, y: nat, z: nat, t: nat)
    requires y < 64 && z < 64 && t < 64
    ensures var v := ((x * 64 + y) * 64 + z) * 64 + t;
            v / 262144 == x && v / 4096 % 64 == y && v / 64 % 64 == z && v % 64 == t
  {
    var v := ((x * 64 + y) * 64 + z) * 64 + t;
    Digits(x * 64 + y, z, t);
    assert v / 4096 == x * 64 + y;
    assert v / 262144 == v / 4096 / 64;
  }

  lemma Bytes2(a: Byte, b: Byte)
    requires 0xC2 <= a <= 0xDF && Tail(b)
    ensures var v := Value2(a, b); 0x80 <= v < 0x800 && WriteUtf8(v) == [a, b]
  {
  }

  lemma Value3Form(a: Byte, b: Byte, c: Byte)
    requires 0xE0 <= a <= 0xEF && Tail(b) && Tail(c)
    ensures var v := Value3(a, b, c); 0 <= v < 0x10000 && (v >= 0x800 && !Surrogate(v) <==> Form3(a, b, c))
  {
  }

  lemma Written3(v: nat, a: Byte, b: Byte, c: Byte)
    requires 0xE0 <= a <= 0xEF && Tail(b) && Tail(c) && v == Value3(a, b, c) && 0x800 <= v < 0x10000
    ensures WriteUtf8(v) == [a, b, c]
  {
    Digits(a - 0xE0, b - 0x80, c - 0x80);
  }

  lemma Value4Form(a: Byte, b: Byte, c: Byte, d: Byte)
    requires 0xF0 <= a <= 0xF4 && Tail(b) && Tail(c) && Tail(d)
    ensures 0x10000 <= Value4(a, b, c, d) <= 0x10FFFF <==> Form4(a, b, c, d)
  {
  }

  lemma Written4(v: nat, a: Byte, b: Byte, c: Byte, d: Byte)
    requires 0xF0 <= a <= 0xF4 && Tail(b) && Tail(c) && Tail(d)
    requires v == Value4(a, b, c, d) && 0x10000 <= v <= 0x10FFFF
    ensures WriteUtf8(v) == [a, b, c, d]
  {
    Digits4(a - 0xF0, b - 0x80, c - 0x80, d - 0x80);
  }

  ghost predicate Accepted(p: seq<Byte>)
    requires |p| > 0
  {
    && (ReadUtf8(p).Char? <==> Form(p) > 0)
    && (ReadUtf8(p).Char? ==> ReadUtf8(p).used == Form(p) && WriteUtf8(ReadUtf8(p).cp) == p[..Form(p)])
  }

  lemma Accepts2(p: seq<Byte>)
    requires |p| > 0 && 0xC2 <= p[0] < 0xE0
    ensures Accepted(p)
  {
    Rest2(p);
    if |p| >= 2 && Tail(p[1]) {
      Bytes2(p[0], p[1]);
      assert p[..2] == [p[0], p[1]];
    }
  }

  lemma Accepts3(p: seq<Byte>)
    requires |p| > 0 && 0xE0 <= p[0] < 0xF0
    ensures Accepted(p)
  {
    if |p| < 3 {
      RestShort(p, 1, 3, p[0] % 16, 0x800);
    } else {
      Rest3(p);
      if Tail(p[1]) && Tail(p[2]) {
        var v := Value3(p[0], p[1], p[2]);
        Value3Form(p[0], p[1], p[2]);
        if v >= 0x800 { Written3(v, p[0], p[1], p[2]); }
        assert p[..3] == [p[0], p[1], p[2]];
      }
    }
  }

  lemma Accepts4(p: seq<Byte>)
    requires |p| > 0 && 0xF0 <= p[0] < 0xF5
    ensures Accepted(p)
  {
    if |p| < 4 {
      RestShort(p, 1, 4, p[0] % 8, 0x10000);
    } else {
      Rest4(p);
      if Tail(p[1]) && Tail(p[2]) && Tail(p[3]) {
        var v := Value4(p[0], p[1], p[2], p[3]);
        Value4Form(p[0], p[1], p[2], p[3]);
        if 0x10000 <= v <= 0x10FFFF { Written4(v, p[0], p[1], p[2], p[3]); }
        assert p[..4] == [p[0], p[1], p[2], p[3]];
      }
    }
  }

  /** The decoder accepts exactly the forms of the grammar, and the encoder gives the same bytes back. */
  lemma Utf8Accepts(p: seq<Byte>)
    requires |p| > 0
    ensures ReadUtf8(p).Char? <==> Form(p) > 0
    ensures ReadUtf8(p).Char? ==> ReadUtf8(p).used == Form(p) && WriteUtf8(ReadUtf8(p).cp) == p[..Form(p)]
  {
    if 0xC2 <= p[0] < 0xE0 {
      Accepts2(p);
    } else if 0xE0 <= p[0] < 0xF0 {
      Accepts3(p);
    } else if 0xF0 <= p[0] < 0xF5 {
      Accepts4(p);
    }
  }

  lemma Write2(c: nat)
    requires 0x80 <= c < 0x800
    ensures var p := WriteUtf8(c); |p| == 2 && Tail(p[1]) && Value2(p[0], p[1]) == c
  {
  }

  lemma Write3(c: nat)
    requires 0x800 <= c < 0x10000
    ensures var p := WriteUtf8(c); |p| == 3 && Tail(p[1]) && Tail(p[2]) && Value3(p[0], p[1], p[2]) == c
  {
    assert c / 4096 == c / 64 / 64;
  }

  lemma Write4(c: nat)
    requires 0x10000 <= c <= 0x10FFFF
    ensures var p := WriteUtf8(c);
            |p| == 4 && Tail(p[1]) && Tail(p[2]) && Tail(p[3]) && Value4(p[0], p[1], p[2], p[3]) == c
  {
    assert c / 4096 == c / 64 / 64 && c / 262144 == c / 4096 / 64;
  }

  lemma Utf8Back(c: nat, x: seq<Byte>)
    requires Scalar(c)
    ensures ReadUtf8(WriteUtf8(c) + x) == Char(c, |WriteUtf8(c)|)
  {
    var p := WriteUtf8(c) + x;
    if 0x80 <= c < 0x800 {
      Write2(c);
      Rest2(p);
    } else if 0x800 <= c < 0x10000 {
      Write3(c);
      Rest3(p);
    } else if 0x10000 <= c {
      Write4(c);
      Rest4(p);
    }
  }
}
