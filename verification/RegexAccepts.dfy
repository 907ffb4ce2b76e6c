/**
  The other way round: every pattern that compiles was written down from a
  description of the grammar. So regcomp accepts exactly the patterns of the
  grammar, in both syntaxes.
  */
module RegexAccepts {
  import opened Common
  import opened RegexTree
  import opened RegexSyntax
  import opened RegexGrammar
  import opened RegexParsed

  /** A C string: no '\0' inside. */
  ghost predicate Clean(src: Source) {
    forall i :: 0 <= i < |src.pat| ==> src.pat[i] != 0
  }

  // ----- places -----

  lemma Join(src: Source, p: nat, a: seq<Byte>, m: nat, b: seq<Byte>, e: nat)
    requires Stands(src, p, a, m) && Stands(src, m, b, e)
    ensures Stands(src, p, a + b, e)
  {
    assert StandsAt(src, p, a, m, 0) && StandsAt(src, m, b, e, 0);
    var ab, n := a + b, |a|;
    forall i ensures StandsAt(src, p, ab, e, i) {
      var k := i - n;
      assert StandsAt(src, p, a, m, i) && StandsAt(src, m, b, e, k);
    }
  }

  lemma Here(src: Source, p: nat, c: Byte)
    requires Ch(src, p) == c != 0
    ensures Stands(src, p, [c], p + 1)
  {
    var e := p + 1;
    forall i ensures StandsAt(src, p, [c], e, i) {
    }
  }

  lemma NothingHere(src: Source, p: nat)
    requires p <= |src.pat|
    ensures Stands(src, p, [], p)
  {
    forall i ensures StandsAt(src, p, [], p, i) {
    }
  }

  lemma SliceStands(src: Source, p: nat, e: nat)
    requires p <= e <= |src.pat|
    ensures Stands(src, p, src.pat[p..e], e)
  {
    var t := src.pat[p..e];
    forall i ensures StandsAt(src, p, t, e, i) {
    }
  }

  lemma TokenHere(src: Source, p: nat, c: Byte)
    requires c != 0 && Operator(src, p, c)
    ensures Stands(src, p, Token(src.ere, c), p + Sign(src))
  {
    if src.ere {
      Here(src, p, c);
    } else {
      Here(src, p, BACKSLASH);
      Here(src, p + 1, c);
      Join(src, p, [BACKSLASH], p + 1, [c], p + 2);
      assert [BACKSLASH] + [c] == [BACKSLASH, c];
    }
  }

  lemma Bounded(src: Source, p: nat, t: seq<Byte>, e: nat)
    requires Stands(src, p, t, e)
    ensures p <= e <= |src.pat| && e == p + |t|
  {
    assert StandsAt(src, p, t, e, 0);
  }

  // ----- sets -----

  lemma {:induction false} ClassEndFirst(src: Source, k: Byte, i: nat)
    requires ClassEnd(src, k, i).Some?
    ensures var e := ClassEnd(src, k, i).value;
            && Ch(src, e) == k && Ch(src, e + 1) == RBRACK
            && forall j :: i <= j < e ==> Ch(src, j) != 0 && !(Ch(src, j) == k && Ch(src, j + 1) == RBRACK)
    decreases |src.pat| - i
  {
    if !(Ch(src, i) == k && Ch(src, i + 1) == RBRACK) { ClassEndFirst(src, k, i + 1); }
  }

  lemma ClassStands(src: Source, p: nat, name: seq<Byte>, e: nat)
    requires Ch(src, p) == LBRACK && Ch(src, p + 1) == COLON && Stands(src, p + 2, name, e)
    requires Ch(src, e) == COLON && Ch(src, e + 1) == RBRACK
    ensures Stands(src, p, ItemText(Class(name)), e + 2)
  {
    Here(src, p, LBRACK);
    Here(src, p + 1, COLON);
    Here(src, e, COLON);
    Here(src, e + 1, RBRACK);
    Join(src, e, [COLON], e + 1, [RBRACK], e + 2);
    Join(src, p + 2, name, e, [COLON] + [RBRACK], e + 2);
    Join(src, p, [LBRACK], p + 1, [COLON], p + 2);
    Join(src, p, [LBRACK] + [COLON], p + 2, name + ([COLON] + [RBRACK]), e + 2);
    assert [LBRACK] + [COLON] + (name + ([COLON] + [RBRACK])) == ItemText(Class(name));
  }

  lemma ClassDescribed(src: Source, st: State) returns (x: Item)
    requires Clean(src) && OpensClass(src, st.p) && ReadClass(src, st).Ok?
    ensures Stands(src, st.p, ItemText(x), ReadClass(src, st).st.p) && ItemOk(src, x, true, []) && x.Class?
  {
    var p := st.p;
    var e := ClassEnd(src, COLON, p + 2).value;
    ClassEndFirst(src, COLON, p + 2);
    var name := src.pat[p + 2..e];
    x := Class(name);
    SliceStands(src, p + 2, e);
    ClassStands(src, p, name, e);
    NameOk(src, p + 2, e, name);
  }

  lemma NameOk(src: Source, b: nat, e: nat, name: seq<Byte>)
    requires b <= e < |src.pat| && name == src.pat[b..e] && Ch(src, e) == COLON
    requires forall j :: b <= j < e ==> Ch(src, j) != 0 && !(Ch(src, j) == COLON && Ch(src, j + 1) == RBRACK)
    ensures forall i :: 0 <= i < |name| ==> name[i] != 0 && (name[i] == COLON ==> (name + [COLON])[i + 1] != RBRACK)
  {
    forall i | 0 <= i < |name| ensures name[i] != 0 && (name[i] == COLON ==> (name + [COLON])[i + 1] != RBRACK) {
      var j := b + i;
      assert Ch(src, j) == name[i];
      if i + 1 < |name| { assert Ch(src, j + 1) == name[i + 1]; }
    }
  }

  /** The item at `st`, before the bytes that make the rest of the set. */
  lemma ItemDescribed(src: Source, st: State, first: bool, rest: seq<Byte>, e: nat) returns (x: Item)
    requires Clean(src) && Ch(src, st.p) != 0 && (Ch(src, st.p) == RBRACK ==> first) && ReadItem(src, st).Ok?
    requires Stands(src, ReadItem(src, st).st.p, rest, e) && rest != []
    ensures Stands(src, st.p, ItemText(x), ReadItem(src, st).st.p) && ItemOk(src, x, first, rest)
  {
    var p := st.p;
    if OpensClass(src, p) {
      x := ClassDescribed(src, st);
    } else if OpensRange(src, p) {
      x := Span(Ch(src, p), Ch(src, p + 2));
      Here(src, p, Ch(src, p));
      Here(src, p + 1, DASH);
      Here(src, p + 2, Ch(src, p + 2));
      Join(src, p, [Ch(src, p)], p + 1, [DASH], p + 2);
      Join(src, p, [Ch(src, p)] + [DASH], p + 2, [Ch(src, p + 2)], p + 3);
      assert [Ch(src, p)] + [DASH] + [Ch(src, p + 2)] == ItemText(x);
    } else {
      x := One(Ch(src, p));
      Here(src, p, Ch(src, p));
      ChAt(src, p + 1, rest, e, 0);
      Bounded(src, p + 1, rest, e);
      if |rest| > 1 { ChAt(src, p + 1, rest, e, 1); }
    }
  }

  lemma {:induction false} ItemsDescribed(src: Source, st: State, first: bool, acc: set<Byte>) returns (xs: seq<Item>)
    requires Clean(src) && ReadItems(src, st, first, acc).Ok?
    ensures Stands(src, st.p, RestText(xs), ReadItems(src, st, first, acc).st.p) && ItemsOk(src, xs, first)
    ensures xs == [] ==> !first
    decreases |src.pat| - st.p
  {
    if Ch(src, st.p) == RBRACK && !first {
      xs := [];
      Here(src, st.p, RBRACK);
      assert RestText(xs) == [RBRACK];
    } else {
      var r := ReadItem(src, st);
      var acc1 := acc + Cased(r.value, src.icase);
      var e := ReadItems(src, r.st, false, acc1).st.p;
      var rest := ItemsDescribed(src, r.st, false, acc1);
      var x := ItemDescribed(src, st, first, RestText(rest), e);
      xs := [x] + rest;
      assert xs[1..] == rest;
      RestSplit(xs);
      Join(src, st.p, ItemText(x), r.st.p, RestText(rest), e);
    }
  }

  lemma BracketStands(src: Source, p: nat, negated: bool, xs: seq<Item>, m: nat, e: nat)
    requires Ch(src, p) == LBRACK && (negated ==> Ch(src, p + 1) == CARET) && m == (if negated then p + 2 else p + 1)
    requires Stands(src, m, RestText(xs), e)
    ensures Stands(src, p, AtomText(src.ere, Bracket(negated, xs)), e)
  {
    var a := Bracket(negated, xs);
    Here(src, p, LBRACK);
    if negated {
      Here(src, p + 1, CARET);
      Join(src, p, [LBRACK], p + 1, [CARET], p + 2);
      Join(src, p, [LBRACK] + [CARET], p + 2, RestText(xs), e);
      assert [LBRACK] + [CARET] + RestText(xs) == AtomText(src.ere, a);
    } else {
      Join(src, p, [LBRACK], p + 1, RestText(xs), e);
      assert [LBRACK] + RestText(xs) == AtomText(src.ere, a);
    }
  }

  /** What is inside, after a '^' if there is one. */
  lemma SetDescribed(src: Source, st: State) returns (negated: bool, xs: seq<Item>, m: nat)
    requires Clean(src) && ReadSet(src, st).Ok?
    ensures negated == (Ch(src, st.p) == CARET) && m == (if negated then st.p + 1 else st.p)
    ensures Stands(src, m, RestText(xs), ReadSet(src, st).st.p) && ItemsOk(src, xs, true) && xs != []
  {
    negated := Ch(src, st.p) == CARET;
    var st2 := if negated then Move(st, 1) else st;
    m := st2.p;
    xs := ItemsDescribed(src, st2, true, {});
  }

  /** A bracket, from its '[' on. */
  lemma BracketDescribed(src: Source, st: State) returns (a: Atom)
    requires Clean(src) && Ch(src, st.p) == LBRACK && ReadSet(src, Move(st, 1)).Ok?
    ensures a.Bracket? && AtomOk(src, a, st.groups, st.open)
    ensures Stands(src, st.p, AtomText(src.ere, a), ReadSet(src, Move(st, 1)).st.p)
  {
    var e := ReadSet(src, Move(st, 1)).st.p;
    var negated, xs, m := SetDescribed(src, Move(st, 1));
    a := Bracket(negated, xs);
    BracketStands(src, st.p, negated, xs, m, e);
    NotCaret(src, m, xs, e, negated);
    BracketOk(src, negated, xs, st.groups, st.open);
  }

  lemma BracketOk(src: Source, negated: bool, xs: seq<Item>, g: nat, open: nat)
    requires xs != [] && ItemsOk(src, xs, true) && ItemsText(xs) != [] && (negated || ItemsText(xs)[0] != CARET)
    ensures AtomOk(src, Bracket(negated, xs), g, open)
  {
  }

  lemma NotCaret(src: Source, m: nat, xs: seq<Item>, e: nat, negated: bool)
    requires Stands(src, m, RestText(xs), e) && xs != [] && (negated || Ch(src, m) != CARET)
    ensures ItemsText(xs) != [] && (negated || ItemsText(xs)[0] != CARET)
  {
    ChAt(src, m, RestText(xs), e, 0);
    FirstOfItems(xs);
  }

  lemma FirstOfItems(xs: seq<Item>)
    requires xs != []
    ensures ItemsText(xs) != [] && RestText(xs)[0] == ItemsText(xs)[0]
  {
  }

  // ----- quantifiers -----

  lemma {:induction false} NumberDescribed(src: Source, st: State, a: nat) returns (ds: seq<Byte>)
    requires ReadNumber(src, st, a).Ok? && st.p <= |src.pat|
    ensures var r := ReadNumber(src, st, a);
            && Stands(src, st.p, ds, r.st.p) && (forall i :: 0 <= i < |ds| ==> IsDigit(ds[i])) && !IsDigit(Ch(src, r.st.p))
            && Value(a, ds) == r.value && (ds != [] ==> r.value <= RIP_MAX) && (ds == [] <==> !IsDigit(Ch(src, st.p)))
    decreases |src.pat| - st.p
  {
    if !IsDigit(Ch(src, st.p)) {
      ds := [];
      NothingHere(src, st.p);
    } else {
      var d := Ch(src, st.p);
      var n: nat := a * 10 + (d - 48);
      var e := ReadNumber(src, Move(st, 1), n).st.p;
      var rest := NumberDescribed(src, Move(st, 1), n);
      ds := [d] + rest;
      assert ds[1..] == rest;
      Here(src, st.p, d);
      Join(src, st.p, [d], st.p + 1, rest, e);
    }
  }

  lemma NumberThere(src: Source, st: State) returns (ds: seq<Byte>)
    requires ReadNumber(src, st, 0).Ok? && IsDigit(Ch(src, st.p))
    ensures var r := ReadNumber(src, st, 0);
            Stands(src, st.p, ds, r.st.p) && Digits(ds) && !IsDigit(Ch(src, r.st.p)) && Value(0, ds) == r.value
  {
    ds := NumberDescribed(src, st, 0);
  }

  lemma CloseThere(src: Source, st: State, c: Count)
    requires CloseBrace(src, st, c).Ok?
    ensures CloseBrace(src, st, c) == Ok(c, Move(st, Sign(src))) && Operator(src, st.p, RBRACE)
    ensures Stands(src, st.p, Token(src.ere, RBRACE), st.p + Sign(src))
  {
    TokenHere(src, st.p, RBRACE);
  }

  lemma ExactlyThere(src: Source, p: nat, m: seq<Byte>, k: nat)
    requires Stands(src, p, m, k) && Stands(src, k, Token(src.ere, RBRACE), k + Sign(src))
    ensures Stands(src, p, Bounds(Exactly(m)) + Token(src.ere, RBRACE), k + Sign(src))
  {
    Join(src, p, m, k, Token(src.ere, RBRACE), k + Sign(src));
  }

  lemma AtLeastThere(src: Source, p: nat, m: seq<Byte>, k: nat)
    requires Stands(src, p, m, k) && Ch(src, k) == COMMA && Stands(src, k + 1, Token(src.ere, RBRACE), k + 1 + Sign(src))
    ensures Stands(src, p, Bounds(AtLeast(m)) + Token(src.ere, RBRACE), k + 1 + Sign(src))
  {
    Here(src, k, COMMA);
    Join(src, p, m, k, [COMMA], k + 1);
    Join(src, p, m + [COMMA], k + 1, Token(src.ere, RBRACE), k + 1 + Sign(src));
  }

  lemma FromToThere(src: Source, p: nat, m: seq<Byte>, k: nat, n: seq<Byte>, l: nat)
    requires Stands(src, p, m, k) && Ch(src, k) == COMMA && Stands(src, k + 1, n, l)
    requires Stands(src, l, Token(src.ere, RBRACE), l + Sign(src))
    ensures Stands(src, p, Bounds(FromTo(m, n)) + Token(src.ere, RBRACE), l + Sign(src))
  {
    Here(src, k, COMMA);
    Join(src, k, [COMMA], k + 1, n, l);
    Join(src, p, m, k, [COMMA] + n, l);
    Join(src, p, m + ([COMMA] + n), l, Token(src.ere, RBRACE), l + Sign(src));
  }

  /** The bounds and the closing brace. */
  lemma BracesDescribed(src: Source, st: State) returns (q: Quant)
    requires ReadBraces(src, st).Ok?
    ensures Braced(q) && QuantOk(q) && Stands(src, st.p, Bounds(q) + Token(src.ere, RBRACE), ReadBraces(src, st).st.p)
  {
    var m := NumberThere(src, st);
    var a := ReadNumber(src, st, 0);
    if Ch(src, a.st.p) != COMMA {
      q := Exactly(m);
      CloseThere(src, a.st, Count(a.value, a.value));
      ExactlyThere(src, st.p, m, a.st.p);
    } else {
      var s1 := Move(a.st, 1);
      if !IsDigit(Ch(src, s1.p)) {
        q := AtLeast(m);
        CloseThere(src, s1, Count(a.value, -1));
        AtLeastThere(src, st.p, m, a.st.p);
      } else {
        var n := NumberThere(src, s1);
        var b := ReadNumber(src, s1, 0);
        q := FromTo(m, n);
        CloseThere(src, b.st, Count(a.value, b.value));
        FromToThere(src, st.p, m, a.st.p, n, b.st.p);
      }
    }
  }

  lemma QuantDescribed(src: Source, st: State) returns (q: Quant)
    requires ReadQuantifier(src, st).Ok? && ReadQuantifier(src, st).value.Some?
    ensures QuantOk(q) && Stands(src, st.p, QuantText(src.ere, q), ReadQuantifier(src, st).st.p)
  {
    if Ch(src, st.p) == STAR {
      q := Quant.Star;
      Here(src, st.p, STAR);
    } else if Operator(src, st.p, PLUS) {
      q := Quant.Plus;
      TokenHere(src, st.p, PLUS);
    } else if Operator(src, st.p, QUESTION) {
      q := Quant.Maybe;
      TokenHere(src, st.p, QUESTION);
    } else {
      q := BraceDescribed(src, st);
    }
  }

  lemma BraceDescribed(src: Source, st: State) returns (q: Quant)
    requires Operator(src, st.p, LBRACE) && (src.ere ==> IsDigit(Ch(src, st.p + 1)))
    requires Ch(src, st.p) != STAR && !Operator(src, st.p, PLUS) && !Operator(src, st.p, QUESTION)
    requires ReadQuantifier(src, st).Ok?
    ensures QuantOk(q) && Stands(src, st.p, QuantText(src.ere, q), ReadQuantifier(src, st).st.p)
  {
    var m := st.p + Sign(src);
    TokenHere(src, st.p, LBRACE);
    q := BracesDescribed(src, Move(st, Sign(src)));
    Join(src, st.p, Token(src.ere, LBRACE), m, Bounds(q) + Token(src.ere, RBRACE), ReadQuantifier(src, st).st.p);
  }

  lemma NoneThere(src: Source, st: State)
    requires ReadQuantifier(src, st).Ok? && ReadQuantifier(src, st).value.None?
    ensures NoQuant(src, st.p)
  {
  }

  lemma {:induction false} QuantsDescribed(src: Source, st: State, op: Op) returns (qs: seq<Quant>)
    requires Quantify(src, st, op).Ok? && st.p <= |src.pat|
    ensures var e := Quantify(src, st, op).st.p;
            Stands(src, st.p, QuantsText(src.ere, qs), e) && QuantsOk(qs) && NoQuant(src, e)
    ensures src.ere && (op.Bol? || op.Eol?) ==> qs == []
    decreases |src.pat| - st.p
  {
    var q := ReadQuantifier(src, st);
    if q.value.None? {
      qs := [];
      NoneThere(src, st);
      NothingHere(src, st.p);
    } else {
      var x := QuantDescribed(src, st);
      Bounded(src, st.p, QuantText(src.ere, x), q.st.p);
      var inner := Repeat(q.value.value.min, q.value.value.max, Node(op, None));
      var rest := QuantsDescribed(src, q.st, inner);
      qs := [x] + rest;
      assert qs[1..] == rest;
      Join(src, st.p, QuantText(src.ere, x), q.st.p, QuantsText(src.ere, rest), Quantify(src, q.st, inner).st.p);
    }
  }

  // ----- atoms -----

  /** The place of an atom that was read up to `e`. */
  function Where(src: Source, st: State, first: bool, start: bool, e: nat): Spot {
    Spot(first, start, EndsBasic(src, e), st.open, IsDigit(Ch(src, e)))
  }

  /** The byte at `st` as itself. */
  lemma PlainDescribed(src: Source, st: State) returns (a: Atom)
    requires Ch(src, st.p) != 0
    ensures a == Plain(Ch(src, st.p)) && Stands(src, st.p, AtomText(src.ere, a), st.p + 1)
  {
    a := Plain(Ch(src, st.p));
    Here(src, st.p, Ch(src, st.p));
  }

  lemma QuoteStands(src: Source, p: nat, c: Byte)
    requires Ch(src, p) == BACKSLASH && Ch(src, p + 1) == c != 0
    ensures Stands(src, p, [BACKSLASH, c], p + 2)
  {
    Here(src, p, BACKSLASH);
    Here(src, p + 1, c);
    Join(src, p, [BACKSLASH], p + 1, [c], p + 2);
    assert [BACKSLASH] + [c] == [BACKSLASH, c];
  }

  /** The atoms that are the same in both syntaxes. */
  lemma CommonDescribed(src: Source, st: State) returns (a: Atom)
    requires Clean(src) && CommonAtom(src, st).Ok? && Ch(src, st.p) != 0
    ensures Stands(src, st.p, AtomText(src.ere, a), CommonAtom(src, st).st.p)
    ensures match Ch(src, st.p)
            case 46 => a == Dot
            case 91 => a.Bracket? && AtomOk(src, a, st.groups, st.open)
            case 92 => a == Quote(Ch(src, st.p + 1)) && a.c != 0
            case c => a == Plain(c)
  {
    var c := Ch(src, st.p);
    if c == RegexSyntax.DOT {
      a := Dot;
      Here(src, st.p, c);
    } else if c == LBRACK {
      a := BracketDescribed(src, st);
    } else if c == BACKSLASH {
      a := Quote(Ch(src, st.p + 1));
      QuoteStands(src, st.p, a.c);
    } else {
      a := PlainDescribed(src, st);
    }
  }

  lemma ExtendedDescribed(src: Source, st: State, at: Spot) returns (a: Atom)
    requires Clean(src) && src.ere && !AtEnd(src, st) && !AtOpen(src, st) && ExtendedAtom(src, st).Ok? && at.open == st.open
    requires at.digit ==> IsDigit(Ch(src, ExtendedAtom(src, st).st.p))
    ensures AtomOk(src, a, st.groups, st.open) && Fits(true, a, at)
    ensures Stands(src, st.p, AtomText(true, a), ExtendedAtom(src, st).st.p)
  {
    var c := Ch(src, st.p);
    if c == LBRACE {
      a := PlainDescribed(src, st);
    } else if c == CARET {
      a := Start;
      Here(src, st.p, c);
    } else if c == DOLLAR {
      a := End;
      Here(src, st.p, c);
    } else {
      a := CommonDescribed(src, st);
    }
  }

  lemma BasicDescribed(src: Source, st: State, at: Spot) returns (a: Atom)
    requires Clean(src) && !src.ere && !AtEnd(src, st) && !AtOpen(src, st) && BasicAtom(src, st, at.start).Ok?
    requires at.last <==> EndsBasic(src, BasicAtom(src, st, at.start).st.p)
    requires (at.first ==> at.start) && (!at.first ==> NoQuant(src, st.p))
    ensures AtomOk(src, a, st.groups, st.open) && Fits(false, a, at)
    ensures Stands(src, st.p, AtomText(false, a), BasicAtom(src, st, at.start).st.p)
  {
    var c := Ch(src, st.p);
    if c == CARET && at.start {
      a := Start;
      Here(src, st.p, c);
    } else if c == DOLLAR && EndsBasic(src, st.p + 1) {
      a := End;
      Here(src, st.p, c);
    } else if c == STAR && at.start {
      a := PlainDescribed(src, st);
    } else if c == BACKSLASH && 49 <= Ch(src, st.p + 1) <= 57 {
      a := Back(Ch(src, st.p + 1));
      QuoteStands(src, st.p, Ch(src, st.p + 1));
    } else {
      a := CommonDescribed(src, st);
    }
  }

  // ----- groups, sequences, alternatives -----

  /** As in RegexParsed, but a digit need only be one where it says so. */
  predicate Seen(src: Source, st: State, at: Spot, e: nat) {
    && at.open == st.open && (at.first ==> at.start) && (!at.first ==> NoQuant(src, st.p))
    && (!src.ere ==> (at.last <==> EndsBasic(src, e))) && (at.digit ==> IsDigit(Ch(src, e)))
  }

  lemma GroupStands(src: Source, p: nat, body: Alt, k: nat)
    requires Operator(src, p, LPAR) && Stands(src, p + Sign(src), AltText(src.ere, body), k) && Operator(src, k, RPAR)
    ensures Stands(src, p, AtomText(src.ere, Paren(body)), k + Sign(src))
  {
    var open, text, close := Token(src.ere, LPAR), AltText(src.ere, body), Token(src.ere, RPAR);
    TokenHere(src, p, LPAR);
    TokenHere(src, k, RPAR);
    Join(src, p + Sign(src), text, k, close, k + Sign(src));
    Join(src, p, open, p + Sign(src), text + close, k + Sign(src));
  }

  lemma EmptyDescribed(src: Source, p: nat, g: nat, open: nat) returns (a: Alt)
    requires p <= |src.pat|
    ensures AltOk(src, a, g, open) && Stands(src, p, AltText(src.ere, a), p)
  {
    a := Alt(Branch([]), []);
    NothingHere(src, p);
    assert AltText(src.ere, a) == [];
  }

  /** What Atom reads after an opening parenthesis. */
  lemma GroupShape(src: Source, st: State, start: bool) returns (k: nat)
    requires !AtEnd(src, st) && AtOpen(src, st) && RegexSyntax.Atom(src, st, start).Ok?
    ensures var inside := Inside(src, st);
            && Operator(src, k, RPAR) && RegexSyntax.Atom(src, st, start).st.p == k + Sign(src)
            && if AtClose(src, inside) then k == inside.p
               else Alternatives(src, inside).Ok? && Alternatives(src, inside).st.p == k
  {
    var inside := Inside(src, st);
    var x := if AtClose(src, inside) then Ok(Node(Empty, None), inside) else Alternatives(src, inside);
    assert RegexSyntax.Atom(src, st, start) == EndGroup(src, st, x);
    k := x.st.p;
  }

  lemma InsidePlace(src: Source, st: State)
    requires AtOpen(src, st)
    ensures st.p < Inside(src, st).p <= |src.pat|
  {
    TokenHere(src, st.p, LPAR);
    Bounded(src, st.p, Token(src.ere, LPAR), st.p + Sign(src));
  }

  lemma LeafShape(src: Source, st: State, start: bool)
    requires !AtEnd(src, st) && !AtOpen(src, st)
    ensures RegexSyntax.Atom(src, st, start) == if src.ere then ExtendedAtom(src, st) else BasicAtom(src, st, start)
  {
  }

  /** An atom that is no group, read up to `e`. */
  lemma LeafDescribed(src: Source, st: State, at: Spot, e: nat) returns (a: Atom)
    requires Clean(src) && !AtEnd(src, st) && !AtOpen(src, st) && Seen(src, st, at, e)
    requires var r := if src.ere then ExtendedAtom(src, st) else BasicAtom(src, st, at.start); r.Ok? && r.st.p == e
    ensures AtomOk(src, a, st.groups, st.open) && Fits(src.ere, a, at) && Stands(src, st.p, AtomText(src.ere, a), e)
  {
    if src.ere { a := ExtendedDescribed(src, st, at); } else { a := BasicDescribed(src, st, at); }
  }

  /** A group that closes at `k`. */
  lemma {:induction false} GroupDescribed(src: Source, st: State, k: nat) returns (a: Atom)
    requires Clean(src) && AtOpen(src, st) && Operator(src, k, RPAR)
    requires var inside := Inside(src, st);
             if AtClose(src, inside) then k == inside.p
             else Alternatives(src, inside).Ok? && Alternatives(src, inside).st.p == k
    ensures a.Paren? && AtomOk(src, a, st.groups, st.open) && Stands(src, st.p, AtomText(src.ere, a), k + Sign(src))
    decreases |src.pat| - st.p, 0
  {
    var inside := Inside(src, st);
    InsidePlace(src, st);
    var body;
    if AtClose(src, inside) {
      body := EmptyDescribed(src, inside.p, inside.groups, inside.open);
    } else {
      body := AltDescribed(src, inside);
    }
    GroupStands(src, st.p, body, k);
    a := Paren(body);
  }

  lemma {:induction false} AtomDescribed(src: Source, st: State, at: Spot, e: nat) returns (a: Atom)
    requires Clean(src) && !AtEnd(src, st) && Seen(src, st, at, e)
    requires RegexSyntax.Atom(src, st, at.start).Ok? && RegexSyntax.Atom(src, st, at.start).st.p == e
    ensures AtomOk(src, a, st.groups, st.open) && Fits(src.ere, a, at) && Stands(src, st.p, AtomText(src.ere, a), e)
    decreases |src.pat| - st.p, 1
  {
    if AtOpen(src, st) {
      var k := GroupShape(src, st, at.start);
      a := GroupDescribed(src, st, k);
    } else {
      LeafShape(src, st, at.start);
      a := LeafDescribed(src, st, at, e);
    }
  }

  lemma StartsLine(src: Source, a: Atom, g: nat)
    ensures AtomOp(src, a, g).v.Bol? <==> a.Start?
    ensures AtomOp(src, a, g).v.Eol? <==> a.End?
  {
  }

  /** One quantified atom: what it is, up to `k`, and its quantifiers, up to `m`. */
  lemma {:induction false} PieceDescribed(src: Source, st: State, start: bool, first: bool)
    returns (x: Piece, k: nat, m: nat)
    requires Clean(src) && !AtEnd(src, st) && (first ==> start) && (!first ==> NoQuant(src, st.p)) && Ops(src, st, start).Ok?
    ensures var g := AtomOp(src, x.atom, st.groups).groups;
            && AtomOk(src, x.atom, st.groups, st.open) && Fits(src.ere, x.atom, Where(src, st, first, start, k))
            && Stands(src, st.p, AtomText(src.ere, x.atom), k) && Stands(src, k, QuantsText(src.ere, x.quants), m)
            && QuantsOk(x.quants) && (src.ere && (x.atom.Start? || x.atom.End?) ==> x.quants == [])
            && NoQuant(src, m) && st.p < m <= |src.pat|
            && Ops(src, State(m, g, st.open), x.atom.Start? && !src.ere).Ok?
            && Ops(src, State(m, g, st.open), x.atom.Start? && !src.ere).st == Ops(src, st, start).st
    decreases |src.pat| - st.p, 2
  {
    var r := RegexSyntax.Atom(src, st, start);
    k := r.st.p;
    var at := Where(src, st, first, start, k);
    var a := AtomDescribed(src, st, at, k);
    AtomRead(src, st, a, k, at);
    StartsLine(src, a, st.groups);
    Bounded(src, st.p, AtomText(src.ere, a), k);
    var q := Quantify(src, r.st, r.value);
    m := q.st.p;
    var qs := QuantsDescribed(src, r.st, r.value);
    Bounded(src, k, QuantsText(src.ere, qs), m);
    x := Piece(a, qs);
  }

  lemma PieceOk(src: Source, st: State, x: Piece, rest: seq<Piece>, k: nat, m: nat, e: nat, first: bool, start: bool)
    requires AtomOk(src, x.atom, st.groups, st.open) && Fits(src.ere, x.atom, Where(src, st, first, start, k))
    requires QuantsOk(x.quants) && (src.ere && (x.atom.Start? || x.atom.End?) ==> x.quants == [])
    requires Stands(src, k, QuantsText(src.ere, x.quants), m) && Stands(src, m, PiecesText(src.ere, rest), e)
    requires AtEnd(src, To(st, m)) <==> rest == []
    requires PiecesOk(src, rest, false, x.atom.Start? && !src.ere, AtomOp(src, x.atom, st.groups).groups, st.open)
    ensures PiecesOk(src, [x] + rest, first, start, st.groups, st.open)
  {
    var ps := [x] + rest;
    assert ps[0] == x && ps[1..] == rest;
    if !src.ere { LastInBasic(src, To(st, k), x.quants, To(st, m), rest); }
    if DigitNext(src.ere, ps) {
      Nothing(src, k, m);
      ChAt(src, m, PiecesText(src.ere, rest), e, 0);
    }
  }

  lemma PieceStands(src: Source, p: nat, x: Piece, k: nat, m: nat, rest: seq<Piece>, e: nat)
    requires Stands(src, p, AtomText(src.ere, x.atom), k) && Stands(src, k, QuantsText(src.ere, x.quants), m)
    requires Stands(src, m, PiecesText(src.ere, rest), e)
    ensures Stands(src, p, PiecesText(src.ere, [x] + rest), e)
  {
    var ps := [x] + rest;
    assert ps[0] == x && ps[1..] == rest;
    Join(src, p, AtomText(src.ere, x.atom), k, QuantsText(src.ere, x.quants), m);
    Join(src, p, PieceText(src.ere, x), m, PiecesText(src.ere, rest), e);
  }

  lemma {:induction false} OpsDescribed(src: Source, st: State, start: bool, first: bool) returns (ps: seq<Piece>)
    requires Clean(src) && st.p <= |src.pat| && Ops(src, st, start).Ok? && (first ==> start) && (!first ==> NoQuant(src, st.p))
    ensures PiecesOk(src, ps, first, start, st.groups, st.open)
    ensures Stands(src, st.p, PiecesText(src.ere, ps), Ops(src, st, start).st.p)
    ensures AtEnd(src, Ops(src, st, start).st) && (ps == [] <==> AtEnd(src, st))
    decreases |src.pat| - st.p, 3
  {
    if AtEnd(src, st) {
      ps := [];
      NothingHere(src, st.p);
    } else {
      var x, k, m := PieceDescribed(src, st, start, first);
      var st2 := State(m, AtomOp(src, x.atom, st.groups).groups, st.open);
      var rest := OpsDescribed(src, st2, x.atom.Start? && !src.ere, false);
      var e := Ops(src, st, start).st.p;
      ps := [x] + rest;
      PieceOk(src, st, x, rest, k, m, e, first, start);
      PieceStands(src, st.p, x, k, m, rest, e);
    }
  }

  /** A sequence that begins at `st`, with the state its description leads to. */
  lemma {:induction false} SequenceDescribed(src: Source, st: State) returns (b: Branch)
    requires Clean(src) && st.p <= |src.pat| && Ops(src, st, true).Ok?
    ensures PiecesOk(src, b.pieces, true, true, st.groups, st.open)
    ensures var r := Ops(src, st, true);
            && Stands(src, st.p, PiecesText(src.ere, b.pieces), r.st.p) && AtEnd(src, r.st) && r.st.p <= |src.pat|
            && r.st == State(r.st.p, PiecesOps(src, b.pieces, st.groups).groups, st.open)
    decreases |src.pat| - st.p, 4
  {
    var ps := OpsDescribed(src, st, true, true);
    PiecesRead(src, st, ps, Ops(src, st, true).st.p, true, true);
    Bounded(src, st.p, PiecesText(src.ere, ps), Ops(src, st, true).st.p);
    b := Branch(ps);
  }

  lemma OthersStand(src: Source, p: nat, b: Branch, k: nat, bs: seq<Branch>, e: nat)
    requires Operator(src, p, BAR) && Stands(src, p + Sign(src), PiecesText(src.ere, b.pieces), k)
    requires Stands(src, k, OthersText(src.ere, bs), e)
    ensures Stands(src, p, OthersText(src.ere, [b] + bs), e)
  {
    var all := [b] + bs;
    assert all[0] == b && all[1..] == bs;
    TokenHere(src, p, BAR);
    Join(src, p + Sign(src), PiecesText(src.ere, b.pieces), k, OthersText(src.ere, bs), e);
    Join(src, p, Token(src.ere, BAR), p + Sign(src), PiecesText(src.ere, b.pieces) + OthersText(src.ere, bs), e);
  }

  lemma BarPlace(src: Source, st: State)
    requires AtBar(src, st)
    ensures Operator(src, st.p, BAR) && st.p < st.p + Sign(src) <= |src.pat|
  {
    TokenHere(src, st.p, BAR);
    Bounded(src, st.p, Token(src.ere, BAR), st.p + Sign(src));
  }

  lemma {:induction false} OthersDescribed(src: Source, st: State) returns (bs: seq<Branch>)
    requires Clean(src) && AtEnd(src, st) && st.p <= |src.pat| && Branches(src, st).Ok?
    ensures OthersOk(src, bs, st.groups, st.open) && (bs == [] <==> !AtBar(src, st))
    ensures var r := Branches(src, st); Stands(src, st.p, OthersText(src.ere, bs), r.st.p) && Closes(src, r.st)
    decreases |src.pat| - st.p, 5
  {
    if !AtBar(src, st) {
      bs := [];
      NothingHere(src, st.p);
    } else {
      BarPlace(src, st);
      var st1 := Move(st, Sign(src));
      var b := SequenceDescribed(src, st1);
      var st2 := Ops(src, st1, true).st;
      var rest := OthersDescribed(src, st2);
      bs := [b] + rest;
      assert bs[1..] == rest;
      OthersStand(src, st.p, b, st2.p, rest, Branches(src, st2).st.p);
    }
  }

  lemma {:induction false} AltDescribed(src: Source, st: State) returns (a: Alt)
    requires Clean(src) && st.p <= |src.pat| && Alternatives(src, st).Ok?
    ensures AltOk(src, a, st.groups, st.open)
    ensures var r := Alternatives(src, st); Stands(src, st.p, AltText(src.ere, a), r.st.p) && Closes(src, r.st)
    decreases |src.pat| - st.p, 6
  {
    var b := SequenceDescribed(src, st);
    var st1 := Ops(src, st, true).st;
    var bs: seq<Branch> := [];
    if AtBar(src, st1) { bs := OthersDescribed(src, st1); } else { NothingHere(src, st1.p); }
    a := Alt(b, bs);
    Join(src, st.p, PiecesText(src.ere, b.pieces), st1.p, OthersText(src.ere, bs), Alternatives(src, st).st.p);
  }

  lemma CompileDescribed(src: Source) returns (a: Alt)
    requires Clean(src) && Compile(src).Ok?
    ensures AltOk(src, a, 0, 0) && src.pat == AltText(src.ere, a)
  {
    a := AltDescribed(src, State(0, 0, 0));
    var e := Alternatives(src, State(0, 0, 0)).st.p;
    Bounded(src, 0, AltText(src.ere, a), e);
    Slice(src, 0, AltText(src.ere, a), e);
    assert src.pat[0..e] == src.pat;
  }

  /**
    regcomp accepts a pattern if and only if it can be written down from a
    description of the grammar of its syntax, and then gives the tree and the
    groups which that description means.
    */
  lemma AcceptsIffDescribed(src: Source)
    requires Clean(src)
    ensures Compile(src).Ok? <==> exists a :: AltOk(src, a, 0, 0) && src.pat == AltText(src.ere, a)
    ensures forall a :: AltOk(src, a, 0, 0) && src.pat == AltText(src.ere, a) ==>
              var m := AltNode(src, a, 0); Compile(src) == Ok(m.v, State(|src.pat|, m.groups, 0))
  {
    if Compile(src).Ok? { var a := CompileDescribed(src); }
    forall a | AltOk(src, a, 0, 0) && src.pat == AltText(src.ere, a)
      ensures var m := AltNode(src, a, 0); Compile(src) == Ok(m.v, State(|src.pat|, m.groups, 0)) {
      CompileReads(src, a);
    }
  }
}
