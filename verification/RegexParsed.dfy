/**
  The compiler reads what the grammar writes: every pattern written down from
  its description, in extended or basic syntax, compiles to the tree the
  description means.
  */
module RegexParsed {
  import opened Common
  import opened RegexTree
  import opened RegexSyntax
  import opened RegexGrammar

  predicate StandsAt(src: Source, p: nat, text: seq<Byte>, e: nat, i: int) {
    e == p + |text| && e <= |src.pat| && (0 <= i < |text| ==> src.pat[p + i] == text[i])
  }

  /** The text stands in the pattern from `p` to `e`. */
  ghost predicate Stands(src: Source, p: nat, text: seq<Byte>, e: nat) {
    forall i {:trigger StandsAt(src, p, text, e, i)} :: StandsAt(src, p, text, e, i)
  }

  function To(st: State, e: nat): State {
    st.(p := e)
  }

  lemma Split(src: Source, p: nat, a: seq<Byte>, b: seq<Byte>, e: nat) returns (m: nat)
    requires Stands(src, p, a + b, e)
    ensures Stands(src, p, a, m) && Stands(src, m, b, e)
  {
    assert StandsAt(src, p, a + b, e, 0);
    m := p + |a|;
    forall i ensures StandsAt(src, p, a, m, i) {
      assert StandsAt(src, p, a + b, e, i);
    }
    forall i ensures StandsAt(src, m, b, e, i) {
      var k := |a| + i;
      assert StandsAt(src, p, a + b, e, k);
    }
  }

  lemma ChAt(src: Source, p: nat, text: seq<Byte>, e: nat, i: nat)
    requires Stands(src, p, text, e) && i < |text|
    ensures Ch(src, p + i) == text[i]
  {
    assert StandsAt(src, p, text, e, i);
  }

  /** One byte. */
  lemma Byte1(src: Source, p: nat, c: Byte, e: nat)
    requires Stands(src, p, [c], e)
    ensures Ch(src, p) == c && e == p + 1
  {
    assert StandsAt(src, p, [c], e, 0);
  }

  lemma Nothing(src: Source, p: nat, e: nat)
    requires Stands(src, p, [], e)
    ensures e == p
  {
    assert StandsAt(src, p, [], e, 0);
  }

  lemma Slice(src: Source, p: nat, text: seq<Byte>, e: nat)
    requires Stands(src, p, text, e)
    ensures p <= e <= |src.pat| && src.pat[p..e] == text
  {
    assert StandsAt(src, p, text, e, 0);
    forall i | 0 <= i < |text| ensures src.pat[p + i] == text[i] {
      assert StandsAt(src, p, text, e, i);
    }
  }

  // ----- sets -----

  lemma {:induction false} ClassEndFound(src: Source, name: seq<Byte>, p: nat, e: nat, i: nat)
    requires Stands(src, p, name + [COLON, RBRACK], e) && i <= |name|
    requires forall k :: 0 <= k < |name| ==> name[k] != 0 && (name[k] == COLON ==> (name + [COLON])[k + 1] != RBRACK)
    ensures ClassEnd(src, COLON, p + i) == Some(p + |name|)
    decreases |name| - i
  {
    var text := name + [COLON, RBRACK];
    ChAt(src, p, text, e, i);
    ChAt(src, p, text, e, i + 1);
    if i < |name| {
      ClassEndFound(src, name, p, e, i + 1);
    }
  }

  lemma ClassRead(src: Source, st: State, name: seq<Byte>, e: nat)
    requires Stands(src, st.p, ItemText(Class(name)), e) && ItemOk(src, Class(name), true, [])
    ensures OpensClass(src, st.p) && ReadClass(src, st) == Ok(src.classes[name], To(st, e))
  {
    var text := ItemText(Class(name));
    ChAt(src, st.p, text, e, 0);
    ChAt(src, st.p, text, e, 1);
    assert text == [LBRACK] + ([COLON] + (name + [COLON, RBRACK]));
    var a := Split(src, st.p, [LBRACK], [COLON] + (name + [COLON, RBRACK]), e);
    Byte1(src, st.p, LBRACK, a);
    var b := Split(src, a, [COLON], name + [COLON, RBRACK], e);
    Byte1(src, a, COLON, b);
    ClassEndFound(src, name, b, e, 0);
    var c := Split(src, b, name, [COLON, RBRACK], e);
    Slice(src, b, name, c);
    Slice(src, c, [COLON, RBRACK], e);
  }

  lemma OneRead(src: Source, st: State, c: Byte, e: nat, d: nat, first: bool, rest: seq<Byte>)
    requires Stands(src, st.p, [c], e) && Stands(src, e, rest, d) && rest != [] && (rest[0] == DASH ==> |rest| > 1)
    requires ItemOk(src, One(c), first, rest)
    ensures Ch(src, st.p) == c && ReadItem(src, st) == Ok({c}, To(st, e))
  {
    Byte1(src, st.p, c, e);
    ChAt(src, e, rest, d, 0);
    if |rest| > 1 { ChAt(src, e, rest, d, 1); }
  }

  lemma SpanRead(src: Source, st: State, lo: Byte, hi: Byte, e: nat)
    requires Stands(src, st.p, [lo, DASH, hi], e) && 0 < lo <= hi && hi != RBRACK
    ensures Ch(src, st.p) == lo && ReadItem(src, st) == Ok(Between(lo, hi), To(st, e))
  {
    ChAt(src, st.p, [lo, DASH, hi], e, 0);
    ChAt(src, st.p, [lo, DASH, hi], e, 1);
    ChAt(src, st.p, [lo, DASH, hi], e, 2);
    Slice(src, st.p, [lo, DASH, hi], e);
  }

  lemma ItemRead(src: Source, st: State, x: Item, e: nat, d: nat, first: bool, rest: seq<Byte>)
    requires Stands(src, st.p, ItemText(x), e) && Stands(src, e, rest, d) && rest != [] && (rest[0] == DASH ==> |rest| > 1)
    requires ItemOk(src, x, first, rest)
    ensures Ch(src, st.p) != 0 && (Ch(src, st.p) == RBRACK ==> first)
    ensures ReadItem(src, st) == Ok(ItemSet(src, x), To(st, e))
  {
    match x {
      case One(c) => OneRead(src, st, c, e, d, first, rest);
      case Span(lo, hi) => SpanRead(src, st, lo, hi, e);
      case Class(name) => ClassRead(src, st, name, e);
    }
  }

  lemma ItemsStep(src: Source, st: State, first: bool, acc: set<Byte>, r: set<Byte>, e: nat)
    requires Ch(src, st.p) != 0 && (Ch(src, st.p) == RBRACK ==> first) && ReadItem(src, st) == Ok(r, To(st, e))
    ensures ReadItems(src, st, first, acc) == ReadItems(src, To(st, e), false, acc + Cased(r, src.icase))
  {
  }

  /** What follows an item inside the brackets. */
  function RestText(xs: seq<Item>): (t: seq<Byte>)
    ensures t != [] && (t[0] == DASH ==> |t| > 1)
  {
    ItemsText(xs) + [RBRACK]
  }

  lemma RestSplit(xs: seq<Item>)
    requires xs != []
    ensures RestText(xs) == ItemText(xs[0]) + RestText(xs[1..])
  {
  }

  lemma {:induction false} ItemsRead(src: Source, st: State, xs: seq<Item>, e: nat, first: bool, acc: set<Byte>)
    requires Stands(src, st.p, RestText(xs), e) && ItemsOk(src, xs, first) && (xs == [] ==> !first)
    ensures ReadItems(src, st, first, acc) == Ok(acc + ItemsSet(src, xs), To(st, e))
    decreases xs
  {
    if xs == [] {
      assert RestText(xs) == [RBRACK];
      Byte1(src, st.p, RBRACK, e);
      assert acc + ItemsSet(src, xs) == acc;
    } else {
      var x := xs[0];
      RestSplit(xs);
      var m := Split(src, st.p, ItemText(x), RestText(xs[1..]), e);
      ItemRead(src, st, x, m, e, first, RestText(xs[1..]));
      var acc1 := acc + Cased(ItemSet(src, x), src.icase);
      ItemsStep(src, st, first, acc, ItemSet(src, x), m);
      ItemsRead(src, To(st, m), xs[1..], e, false, acc1);
      assert acc1 + ItemsSet(src, xs[1..]) == acc + ItemsSet(src, xs);
    }
  }

  lemma SetRead(src: Source, st: State, negated: bool, s: set<Byte>, e: nat)
    requires negated == (Ch(src, st.p) == CARET)
    requires ReadItems(src, if negated then Move(st, 1) else st, true, {}) == Ok(s, To(st, e))
    ensures ReadSet(src, st) == Ok(Set(Finished(src, negated, s)), To(st, e))
  {
  }

  lemma BracketRead(src: Source, st: State, a: Atom, e: nat)
    requires a.Bracket? && AtomOk(src, a, st.groups, st.open) && Stands(src, st.p, AtomText(src.ere, a), e)
    ensures Ch(src, st.p) == LBRACK && ReadSet(src, Move(st, 1)) == Ok(AtomOp(src, a, st.groups).v, To(st, e))
  {
    var items := RestText(a.items);
    var rest := if a.negated then [CARET] + items else items;
    assert AtomText(src.ere, a) == [LBRACK] + rest;
    var m := Split(src, st.p, [LBRACK], rest, e);
    Byte1(src, st.p, LBRACK, m);
    if a.negated { NegatedRead(src, Move(st, 1), a.items, e); } else { ListedRead(src, Move(st, 1), a.items, e); }
  }

  lemma NegatedRead(src: Source, st: State, xs: seq<Item>, e: nat)
    requires Stands(src, st.p, [CARET] + RestText(xs), e) && xs != [] && ItemsOk(src, xs, true)
    ensures ReadSet(src, st) == Ok(Set(Finished(src, true, ItemsSet(src, xs))), To(st, e))
  {
    var k := Split(src, st.p, [CARET], RestText(xs), e);
    Byte1(src, st.p, CARET, k);
    ItemsRead(src, To(st, k), xs, e, true, {});
    assert {} + ItemsSet(src, xs) == ItemsSet(src, xs);
    SetRead(src, st, true, ItemsSet(src, xs), e);
  }

  lemma ListedRead(src: Source, st: State, xs: seq<Item>, e: nat)
    requires Stands(src, st.p, RestText(xs), e) && xs != [] && ItemsOk(src, xs, true) && ItemsText(xs)[0] != CARET
    ensures ReadSet(src, st) == Ok(Set(Finished(src, false, ItemsSet(src, xs))), To(st, e))
  {
    ChAt(src, st.p, RestText(xs), e, 0);
    assert RestText(xs)[0] == ItemsText(xs)[0];
    ItemsRead(src, st, xs, e, true, {});
    assert {} + ItemsSet(src, xs) == ItemsSet(src, xs);
    SetRead(src, st, false, ItemsSet(src, xs), e);
  }

  // ----- quantifiers -----

  lemma {:induction false} ValueGrows(a: nat, ds: seq<Byte>)
    ensures Value(a, ds) >= a
    decreases ds
  {
    if ds != [] { ValueGrows(a * 10 + (if IsDigit(ds[0]) then ds[0] - 48 else 0), ds[1..]); }
  }

  lemma {:induction false} NumberRead(src: Source, st: State, ds: seq<Byte>, e: nat, a: nat)
    requires Stands(src, st.p, ds, e) && (forall i :: 0 <= i < |ds| ==> IsDigit(ds[i])) && !IsDigit(Ch(src, e))
    requires Value(a, ds) <= RIP_MAX
    ensures ReadNumber(src, st, a) == Ok(Value(a, ds), To(st, e))
    decreases ds
  {
    if ds == [] {
      Nothing(src, st.p, e);
    } else {
      assert ds == [ds[0]] + ds[1..];
      var m := Split(src, st.p, [ds[0]], ds[1..], e);
      Byte1(src, st.p, ds[0], m);
      var n: nat := a * 10 + (ds[0] - 48);
      ValueGrows(n, ds[1..]);
      NumberRead(src, To(st, m), ds[1..], e, n);
    }
  }

  /** A number and the byte after it. */
  lemma NumberThen(src: Source, st: State, ds: seq<Byte>, e: nat, c: Byte)
    requires Digits(ds) && !IsDigit(c) && Stands(src, st.p, ds, e) && Ch(src, e) == c
    ensures IsDigit(Ch(src, st.p)) && ReadNumber(src, st, 0) == Ok(Value(0, ds), To(st, e))
  {
    ChAt(src, st.p, ds, e, 0);
    NumberRead(src, st, ds, e, 0);
  }

  /** An operator of the syntax. */
  predicate Operator(src: Source, p: nat, c: Byte) {
    if src.ere then Ch(src, p) == c else Quoted(src, p, c)
  }

  lemma TokenRead(src: Source, p: nat, c: Byte, e: nat)
    requires Stands(src, p, Token(src.ere, c), e)
    ensures Operator(src, p, c) && e == p + Sign(src)
  {
    ChAt(src, p, Token(src.ere, c), e, 0);
    if !src.ere { ChAt(src, p, Token(src.ere, c), e, 1); }
    assert StandsAt(src, p, Token(src.ere, c), e, 0);
  }

  lemma BraceClosed(src: Source, st: State, c: Count, e: nat)
    requires Stands(src, st.p, Token(src.ere, RBRACE), e)
    ensures CloseBrace(src, st, c) == Ok(c, To(st, e)) && !IsDigit(Ch(src, st.p)) && Ch(src, st.p) != COMMA
  {
    TokenRead(src, st.p, RBRACE, e);
  }

  lemma ExactlyRead(src: Source, st: State, m: seq<Byte>, k: nat, e: nat)
    requires Digits(m) && Stands(src, st.p, m, k) && Stands(src, k, Token(src.ere, RBRACE), e)
    ensures IsDigit(Ch(src, st.p)) && ReadBraces(src, st) == Ok(Count(Value(0, m), Value(0, m)), To(st, e))
  {
    BraceClosed(src, To(st, k), Count(Value(0, m), Value(0, m)), e);
    NumberThen(src, st, m, k, Ch(src, k));
  }

  lemma AtLeastRead(src: Source, st: State, m: seq<Byte>, k: nat, e: nat)
    requires Digits(m) && Stands(src, st.p, m + [COMMA], k) && Stands(src, k, Token(src.ere, RBRACE), e)
    ensures IsDigit(Ch(src, st.p)) && ReadBraces(src, st) == Ok(Count(Value(0, m), -1), To(st, e))
  {
    var j := Split(src, st.p, m, [COMMA], k);
    Byte1(src, j, COMMA, k);
    NumberThen(src, st, m, j, COMMA);
    BraceClosed(src, To(st, k), Count(Value(0, m), -1), e);
  }

  lemma FromToRead(src: Source, st: State, m: seq<Byte>, n: seq<Byte>, k: nat, e: nat)
    requires Digits(m) && Digits(n) && Value(0, m) <= Value(0, n)
    requires Stands(src, st.p, m + ([COMMA] + n), k) && Stands(src, k, Token(src.ere, RBRACE), e)
    ensures IsDigit(Ch(src, st.p)) && ReadBraces(src, st) == Ok(Count(Value(0, m), Value(0, n)), To(st, e))
  {
    var i := Split(src, st.p, m, [COMMA] + n, k);
    var j := Split(src, i, [COMMA], n, k);
    Byte1(src, i, COMMA, j);
    NumberThen(src, st, m, i, COMMA);
    BraceClosed(src, To(st, k), Count(Value(0, m), Value(0, n)), e);
    NumberThen(src, To(st, j), n, k, Ch(src, k));
  }

  predicate Braced(q: Quant) {
    q.Exactly? || q.AtLeast? || q.FromTo?
  }

  lemma BoundsRead(src: Source, st: State, q: Quant, k: nat, e: nat)
    requires QuantOk(q) && Braced(q) && Stands(src, st.p, Bounds(q), k) && Stands(src, k, Token(src.ere, RBRACE), e)
    ensures IsDigit(Ch(src, st.p)) && ReadBraces(src, st) == Ok(QuantCount(q), To(st, e))
  {
    match q {
      case Exactly(m) => ExactlyRead(src, st, m, k, e);
      case AtLeast(m) => AtLeastRead(src, st, m, k, e);
      case FromTo(m, n) => FromToRead(src, st, m, n, k, e);
    }
  }

  lemma BracesRead(src: Source, st: State, q: Quant, e: nat)
    requires QuantOk(q) && Braced(q) && Stands(src, st.p, QuantText(src.ere, q), e)
    ensures Operator(src, st.p, LBRACE) && IsDigit(Ch(src, st.p + Sign(src)))
    ensures ReadBraces(src, Move(st, Sign(src))) == Ok(QuantCount(q), To(st, e))
  {
    var open, close := Token(src.ere, LBRACE), Token(src.ere, RBRACE);
    var j := Split(src, st.p, open, Bounds(q) + close, e);
    TokenRead(src, st.p, LBRACE, j);
    var k := Split(src, j, Bounds(q), close, e);
    BoundsRead(src, To(st, j), q, k, e);
  }

  lemma QuantRead(src: Source, st: State, q: Quant, e: nat)
    requires QuantOk(q) && Stands(src, st.p, QuantText(src.ere, q), e)
    ensures ReadQuantifier(src, st) == Ok(Some(QuantCount(q)), To(st, e))
  {
    match q {
      case Star => Byte1(src, st.p, STAR, e);
      case Plus => TokenRead(src, st.p, PLUS, e);
      case Maybe => TokenRead(src, st.p, QUESTION, e);
      case _ => BracesRead(src, st, q, e);
    }
  }

  /** No quantifier stands here. */
  predicate NoQuant(src: Source, p: nat) {
    && Ch(src, p) != STAR && !Operator(src, p, PLUS) && !Operator(src, p, QUESTION)
    && !(Operator(src, p, LBRACE) && (src.ere ==> IsDigit(Ch(src, p + 1))))
  }

  lemma QuantifyStep(src: Source, st: State, op: Op, c: Count, e: nat)
    requires ReadQuantifier(src, st) == Ok(Some(c), To(st, e)) && !(src.ere && (op.Bol? || op.Eol?))
    ensures Quantify(src, st, op) == Quantify(src, To(st, e), Repeat(c.min, c.max, Node(op, None)))
  {
  }

  lemma QuantifyStop(src: Source, st: State, op: Op)
    requires NoQuant(src, st.p)
    ensures Quantify(src, st, op) == Ok(op, st)
  {
  }

  lemma {:induction false} QuantsRead(src: Source, st: State, qs: seq<Quant>, e: nat, op: Op)
    requires Stands(src, st.p, QuantsText(src.ere, qs), e) && NoQuant(src, e)
    requires QuantsOk(qs) && (src.ere && (op.Bol? || op.Eol?) ==> qs == [])
    ensures Quantify(src, st, op) == Ok(Quantified(op, qs), To(st, e))
    decreases qs
  {
    if qs == [] {
      Nothing(src, st.p, e);
      QuantifyStop(src, st, op);
    } else {
      var q, c := qs[0], QuantCount(qs[0]);
      var m := Split(src, st.p, QuantText(src.ere, q), QuantsText(src.ere, qs[1..]), e);
      QuantRead(src, st, q, m);
      QuantifyStep(src, st, op, c, m);
      QuantsRead(src, To(st, m), qs[1..], e, Repeat(c.min, c.max, Node(op, None)));
    }
  }

  /** A quantifier does not end a sequence of basic syntax. */
  lemma QuantFirst(src: Source, p: nat, qs: seq<Quant>, e: nat)
    requires !src.ere && qs != [] && Stands(src, p, QuantsText(src.ere, qs), e)
    ensures !EndsBasic(src, p)
  {
    var m := Split(src, p, QuantText(src.ere, qs[0]), QuantsText(src.ere, qs[1..]), e);
    match qs[0] {
      case Star => Byte1(src, p, STAR, m);
      case Plus => TokenRead(src, p, PLUS, m);
      case Maybe => TokenRead(src, p, QUESTION, m);
      case _ =>
        var k := Split(src, p, Token(src.ere, LBRACE), Bounds(qs[0]) + Token(src.ere, RBRACE), m);
        TokenRead(src, p, LBRACE, k);
    }
  }

  // ----- atoms, sequences, alternatives -----

  /** Two bytes. */
  lemma Byte2(src: Source, p: nat, c: Byte, d: Byte, e: nat)
    requires Stands(src, p, [c, d], e)
    ensures Ch(src, p) == c && Ch(src, p + 1) == d && e == p + 2
  {
    assert StandsAt(src, p, [c, d], e, 0) && StandsAt(src, p, [c, d], e, 1);
  }

  lemma ParenFirst(src: Source, p: nat, body: Alt, e: nat) returns (m: nat, k: nat)
    requires Stands(src, p, AtomText(src.ere, Paren(body)), e)
    ensures Operator(src, p, LPAR) && m == p + Sign(src) && Stands(src, m, AltText(src.ere, body), k)
    ensures Operator(src, k, RPAR) && e == k + Sign(src)
  {
    var open, text, close := Token(src.ere, LPAR), AltText(src.ere, body), Token(src.ere, RPAR);
    m := Split(src, p, open, text + close, e);
    TokenRead(src, p, LPAR, m);
    k := Split(src, m, text, close, e);
    TokenRead(src, k, RPAR, e);
  }

  /** The place where an atom up to `e` stands is as described. */
  predicate Spotted(src: Source, st: State, at: Spot, e: nat) {
    && (at.first ==> at.start) && at.open == st.open
    && (!src.ere ==> (at.last <==> EndsBasic(src, e))) && (IsDigit(Ch(src, e)) ==> at.digit)
  }

  /** Basic syntax takes these as quantifiers unless they come first. */
  predicate Unsafe(ere: bool, a: Atom) {
    !ere && (a == Plain(STAR) || a == Quote(PLUS) || a == Quote(QUESTION) || a == Quote(LBRACE))
  }

  /** What begins an atom: no end of a sequence and, unless it comes first in basic syntax, no quantifier. */
  lemma AtomFirst(src: Source, st: State, a: Atom, e: nat, at: Spot)
    requires AtomOk(src, a, st.groups, st.open) && Stands(src, st.p, AtomText(src.ere, a), e)
    requires Fits(src.ere, a, at) && Spotted(src, st, at, e)
    ensures NoQuant(src, st.p) || Unsafe(src.ere, a)
    ensures !AtEnd(src, st) && (AtOpen(src, st) <==> a.Paren?)
  {
    match a {
      case Plain(c) => Byte1(src, st.p, c, e);
      case Quote(c) => Byte2(src, st.p, BACKSLASH, c, e);
      case Dot => Byte1(src, st.p, RegexSyntax.DOT, e);
      case Bracket(_, _) => BracketRead(src, st, a, e);
      case Start => Byte1(src, st.p, CARET, e);
      case End => Byte1(src, st.p, DOLLAR, e);
      case Back(d) => Byte2(src, st.p, BACKSLASH, d, e);
      case Paren(body) => var m, k := ParenFirst(src, st.p, body, e);
    }
  }

  lemma PlainRead(src: Source, st: State, c: Byte, e: nat, at: Spot)
    requires AtomOk(src, Plain(c), st.groups, st.open) && Stands(src, st.p, [c], e)
    requires Fits(src.ere, Plain(c), at) && Spotted(src, st, at, e) && !AtEnd(src, st) && !AtOpen(src, st)
    ensures RegexSyntax.Atom(src, st, at.start) == Ok(LiteralOp(src, c), To(st, e))
  {
    Byte1(src, st.p, c, e);
  }

  lemma QuoteRead(src: Source, st: State, c: Byte, e: nat, start: bool)
    requires AtomOk(src, Quote(c), st.groups, st.open) && Stands(src, st.p, [BACKSLASH, c], e)
    requires !AtEnd(src, st) && !AtOpen(src, st)
    ensures RegexSyntax.Atom(src, st, start) == Ok(LiteralOp(src, c), To(st, e))
  {
    Byte2(src, st.p, BACKSLASH, c, e);
  }

  lemma LeafRead(src: Source, st: State, a: Atom, e: nat, at: Spot)
    requires AtomOk(src, a, st.groups, st.open) && !a.Paren? && Stands(src, st.p, AtomText(src.ere, a), e)
    requires Fits(src.ere, a, at) && Spotted(src, st, at, e) && !AtEnd(src, st)
    ensures RegexSyntax.Atom(src, st, at.start) == Ok(AtomOp(src, a, st.groups).v, To(st, e))
  {
    AtomFirst(src, st, a, e, at);
    match a {
      case Plain(c) => PlainRead(src, st, c, e, at);
      case Quote(c) => QuoteRead(src, st, c, e, at.start);
      case Dot => Byte1(src, st.p, RegexSyntax.DOT, e);
      case Bracket(_, _) => BracketRead(src, st, a, e);
      case Start => Byte1(src, st.p, CARET, e);
      case End => Byte1(src, st.p, DOLLAR, e);
      case Back(d) => Byte2(src, st.p, BACKSLASH, d, e);
    }
  }

  /** A group, once what is inside it is read. */
  lemma GroupRead(src: Source, st: State, r: Meant<Node>, k: nat, start: bool)
    requires AtOpen(src, st) && !AtEnd(src, st) && AtClose(src, State(k, r.groups, st.open + 1))
    requires var inside := Inside(src, st);
             if AtClose(src, inside) then r == Meant(Node(Empty, None), inside.groups) && k == inside.p
             else Alternatives(src, inside) == Ok(r.v, State(k, r.groups, inside.open))
    ensures RegexSyntax.Atom(src, st, start) == Ok(Group(st.groups + 1, r.v), State(k + Sign(src), r.groups, st.open))
  {
    var inside := Inside(src, st);
    var x := if AtClose(src, inside) then Ok(Node(Empty, None), inside) else Alternatives(src, inside);
    assert x == Ok(r.v, State(k, r.groups, inside.open));
    assert EndGroup(src, st, x) == Ok(Group(st.groups + 1, r.v), State(k + Sign(src), r.groups, st.open));
  }

  lemma {:induction false} AtomRead(src: Source, st: State, a: Atom, e: nat, at: Spot)
    requires AtomOk(src, a, st.groups, st.open) && Stands(src, st.p, AtomText(src.ere, a), e)
    requires Fits(src.ere, a, at) && Spotted(src, st, at, e) && !AtEnd(src, st)
    ensures var m := AtomOp(src, a, st.groups); RegexSyntax.Atom(src, st, at.start) == Ok(m.v, State(e, m.groups, st.open))
    decreases a, 0
  {
    AtomFirst(src, st, a, e, at);
    if a.Paren? {
      var m, k := ParenFirst(src, st.p, a.body, e);
      var inside := Inside(src, st);
      AltRead(src, inside, a.body, k);
      if AtClose(src, inside) { EmptyAlt(src, inside, a.body, k); }
      GroupRead(src, st, AltNode(src, a.body, st.groups + 1), k, at.start);
    } else {
      LeafRead(src, st, a, e, at);
    }
  }

  /** Right before a closing parenthesis only the empty alternative was written. */
  lemma EmptyAlt(src: Source, st: State, a: Alt, e: nat)
    requires AltOk(src, a, st.groups, st.open) && Stands(src, st.p, AltText(src.ere, a), e) && Closes(src, To(st, e))
    requires AtClose(src, st) && st.open > 0
    ensures AltNode(src, a, st.groups) == Meant(Node(Empty, None), st.groups) && e == st.p
  {
    var k := Split(src, st.p, PiecesText(src.ere, a.first.pieces), OthersText(src.ere, a.others), e);
    if a.first.pieces != [] {
      if a.others == [] { Nothing(src, k, e); } else { var m := BarFirst(src, k, a.others, e); }
      PiecesFirst(src, st, a.first.pieces, k, true, true);
    } else {
      Nothing(src, st.p, k);
      if a.others != [] {
        var m := BarFirst(src, k, a.others, e);
      } else {
        Nothing(src, k, e);
      }
    }
  }

  lemma BarFirst(src: Source, p: nat, bs: seq<Branch>, e: nat) returns (m: nat)
    requires bs != [] && Stands(src, p, OthersText(src.ere, bs), e)
    ensures Operator(src, p, BAR) && m == p + Sign(src)
    ensures Stands(src, m, PiecesText(src.ere, bs[0].pieces) + OthersText(src.ere, bs[1..]), e)
  {
    m := Split(src, p, Token(src.ere, BAR), PiecesText(src.ere, bs[0].pieces) + OthersText(src.ere, bs[1..]), e);
    TokenRead(src, p, BAR, m);
  }

  /** A sequence of quantifiers does not begin with a digit. */
  lemma QuantNoDigit(src: Source, p: nat, qs: seq<Quant>, e: nat)
    requires qs != [] && Stands(src, p, QuantsText(src.ere, qs), e)
    ensures !IsDigit(Ch(src, p))
  {
    var m := Split(src, p, QuantText(src.ere, qs[0]), QuantsText(src.ere, qs[1..]), e);
    match qs[0] {
      case Star => Byte1(src, p, STAR, m);
      case Plus => TokenRead(src, p, PLUS, m);
      case Maybe => TokenRead(src, p, QUESTION, m);
      case _ =>
        var k := Split(src, p, Token(src.ere, LBRACE), Bounds(qs[0]) + Token(src.ere, RBRACE), m);
        TokenRead(src, p, LBRACE, k);
    }
  }

  /** The places of the first of some pieces: its atom up to `k`, its quantifiers up to `m`. */
  lemma PiecePlaces(src: Source, st: State, ps: seq<Piece>, e: nat) returns (k: nat, m: nat)
    requires ps != [] && Stands(src, st.p, PiecesText(src.ere, ps), e) && AtEnd(src, To(st, e))
    ensures Stands(src, st.p, AtomText(src.ere, ps[0].atom), k) && Stands(src, k, QuantsText(src.ere, ps[0].quants), m)
    ensures Stands(src, m, PiecesText(src.ere, ps[1..]), e) && (IsDigit(Ch(src, k)) ==> DigitNext(src.ere, ps))
  {
    m := Split(src, st.p, PieceText(src.ere, ps[0]), PiecesText(src.ere, ps[1..]), e);
    k := Split(src, st.p, AtomText(src.ere, ps[0].atom), QuantsText(src.ere, ps[0].quants), m);
    if ps[0].quants != [] {
      QuantNoDigit(src, k, ps[0].quants, m);
    } else {
      Nothing(src, k, m);
      var t := PiecesText(src.ere, ps[1..]);
      if t == [] { Nothing(src, m, e); } else { ChAt(src, m, t, e, 0); }
    }
  }

  /** In basic syntax a piece is the last thing in its sequence exactly if it is the last piece and has no quantifier. */
  lemma PieceSpot(src: Source, st: State, ps: seq<Piece>, e: nat, first: bool, start: bool, k: nat, m: nat)
    requires ps != [] && PiecesOk(src, ps, first, start, st.groups, st.open) && (first ==> start) && AtEnd(src, To(st, e))
    requires Stands(src, k, QuantsText(src.ere, ps[0].quants), m) && Stands(src, m, PiecesText(src.ere, ps[1..]), e)
    requires IsDigit(Ch(src, k)) ==> DigitNext(src.ere, ps)
    requires NoQuant(src, m) && (AtEnd(src, To(st, m)) <==> ps[1..] == [])
    ensures Spotted(src, st, SpotOf(src.ere, ps, first, start, st.open), k)
  {
    if !src.ere { LastInBasic(src, To(st, k), ps[0].quants, To(st, m), ps[1..]); }
  }

  /** What comes after a piece is no quantifier. */
  lemma {:induction false} PiecesFirst(src: Source, st: State, ps: seq<Piece>, e: nat, first: bool, start: bool)
    requires PiecesOk(src, ps, first, start, st.groups, st.open) && Stands(src, st.p, PiecesText(src.ere, ps), e)
    requires AtEnd(src, To(st, e)) && (first ==> start)
    ensures (NoQuant(src, st.p) || (first && !src.ere)) && (AtEnd(src, st) <==> ps == [])
    decreases ps
  {
    if ps == [] {
      Nothing(src, st.p, e);
    } else {
      var k, m := PiecePlaces(src, st, ps, e);
      var a := AtomOp(src, ps[0].atom, st.groups);
      PiecesFirst(src, State(m, a.groups, st.open), ps[1..], e, false, ps[0].atom.Start? && !src.ere);
      PieceSpot(src, st, ps, e, first, start, k, m);
      AtomFirst(src, st, ps[0].atom, k, SpotOf(src.ere, ps, first, start, st.open));
    }
  }

  /** An atom of basic syntax ends its sequence exactly if it is the last thing in it. */
  lemma LastInBasic(src: Source, st: State, qs: seq<Quant>, st2: State, rest: seq<Piece>)
    requires !src.ere && Stands(src, st.p, QuantsText(src.ere, qs), st2.p) && (AtEnd(src, st2) <==> rest == [])
    ensures EndsBasic(src, st.p) <==> qs == [] && rest == []
  {
    if qs == [] { Nothing(src, st.p, st2.p); } else { QuantFirst(src, st.p, qs, st2.p); }
  }

  lemma OpsStep(src: Source, st: State, start: bool, op: Op, st1: State, q: Op, st2: State)
    requires !AtEnd(src, st) && RegexSyntax.Atom(src, st, start) == Ok(op, st1) && Quantify(src, st1, op) == Ok(q, st2)
    ensures var rest := Ops(src, st2, op.Bol? && !src.ere);
            rest.Ok? ==> Ops(src, st, start) == Ok([q] + rest.value, rest.st)
  {
  }

  lemma {:induction false} PiecesRead(src: Source, st: State, ps: seq<Piece>, e: nat, first: bool, start: bool)
    requires PiecesOk(src, ps, first, start, st.groups, st.open) && Stands(src, st.p, PiecesText(src.ere, ps), e)
    requires AtEnd(src, To(st, e)) && (first ==> start)
    ensures var m := PiecesOps(src, ps, st.groups); Ops(src, st, start) == Ok(m.v, State(e, m.groups, st.open))
    decreases ps, 2
  {
    if ps == [] {
      Nothing(src, st.p, e);
    } else {
      var x := ps[0];
      var a := AtomOp(src, x.atom, st.groups);
      var k, m := PieceRead(src, st, ps, e, first, start);
      var next := x.atom.Start? && !src.ere;
      PiecesRead(src, State(m, a.groups, st.open), ps[1..], e, false, next);
      OpsStep(src, st, start, a.v, State(k, a.groups, st.open), Quantified(a.v, x.quants), State(m, a.groups, st.open));
    }
  }

  /** One piece: its atom up to `k`, its quantifiers up to `m`. */
  lemma {:induction false} PieceRead(src: Source, st: State, ps: seq<Piece>, e: nat, first: bool, start: bool)
    returns (k: nat, m: nat)
    requires ps != [] && PiecesOk(src, ps, first, start, st.groups, st.open) && Stands(src, st.p, PiecesText(src.ere, ps), e)
    requires AtEnd(src, To(st, e)) && (first ==> start)
    ensures !AtEnd(src, st) && Stands(src, m, PiecesText(src.ere, ps[1..]), e)
    ensures var a := AtomOp(src, ps[0].atom, st.groups);
            && RegexSyntax.Atom(src, st, start) == Ok(a.v, State(k, a.groups, st.open))
            && Quantify(src, State(k, a.groups, st.open), a.v) == Ok(Quantified(a.v, ps[0].quants), State(m, a.groups, st.open))
    decreases ps, 1
  {
    var x := ps[0];
    var a := AtomOp(src, x.atom, st.groups);
    k, m := PiecePlaces(src, st, ps, e);
    PiecesFirst(src, st, ps, e, first, start);
    PiecesFirst(src, State(m, a.groups, st.open), ps[1..], e, false, x.atom.Start? && !src.ere);
    PieceSpot(src, st, ps, e, first, start, k, m);
    AtomRead(src, st, x.atom, k, SpotOf(src.ere, ps, first, start, st.open));
    QuantsRead(src, State(k, a.groups, st.open), x.quants, m, a.v);
  }

  /** After the other branches comes no bar. */
  predicate Closes(src: Source, st: State) {
    AtEnd(src, st) && !AtBar(src, st)
  }

  lemma {:induction false} OthersRead(src: Source, st: State, bs: seq<Branch>, e: nat)
    requires OthersOk(src, bs, st.groups, st.open) && Stands(src, st.p, OthersText(src.ere, bs), e) && Closes(src, To(st, e))
    ensures var m := OthersNodes(src, bs, st.groups); Branches(src, st) == Ok(m.v, State(e, m.groups, st.open))
    ensures AtEnd(src, st) && (AtBar(src, st) <==> bs != [])
    decreases bs, 3
  {
    if bs == [] {
      Nothing(src, st.p, e);
    } else {
      var m := BarFirst(src, st.p, bs, e);
      var k := Split(src, m, PiecesText(src.ere, bs[0].pieces), OthersText(src.ere, bs[1..]), e);
      var b := PiecesOps(src, bs[0].pieces, st.groups);
      OthersRead(src, State(k, b.groups, st.open), bs[1..], e);
      PiecesRead(src, Move(st, Sign(src)), bs[0].pieces, k, true, true);
    }
  }

  lemma {:induction false} AltRead(src: Source, st: State, a: Alt, e: nat)
    requires AltOk(src, a, st.groups, st.open) && Stands(src, st.p, AltText(src.ere, a), e) && Closes(src, To(st, e))
    ensures var m := AltNode(src, a, st.groups); Alternatives(src, st) == Ok(m.v, State(e, m.groups, st.open))
    decreases a, 4
  {
    var m := Split(src, st.p, PiecesText(src.ere, a.first.pieces), OthersText(src.ere, a.others), e);
    var b := PiecesOps(src, a.first.pieces, st.groups);
    OthersRead(src, State(m, b.groups, st.open), a.others, e);
    PiecesRead(src, st, a.first.pieces, m, true, true);
    if a.others == [] { Nothing(src, m, e); }
  }

  /**
    Every pattern written down from a description of the grammar, in either
    syntax, compiles, to the tree the description means and with its groups.
    */
  lemma CompileReads(src: Source, a: Alt)
    requires AltOk(src, a, 0, 0) && src.pat == AltText(src.ere, a)
    ensures var m := AltNode(src, a, 0); Compile(src) == Ok(m.v, State(|src.pat|, m.groups, 0))
  {
    forall i ensures StandsAt(src, 0, AltText(src.ere, a), |src.pat|, i) {
    }
    AltRead(src, State(0, 0, 0), a, |src.pat|);
  }
}
