/**
  What a pattern says, directly on its description and byte by byte: no tree,
  no sets, no counts. The tree a description means has exactly that language.
  */
module RegexMeaning {
  import opened Common
  import opened RegexTree
  import opened RegexSyntax
  import opened RegexSemantics
  import opened RegexGrammar

  // ----- one byte -----

  /** An ASCII letter and the same letter in the other case. */
  predicate OtherCase(a: Byte, b: Byte) {
    (65 <= a <= 90 && b == a + 32) || (97 <= a <= 122 && a == b + 32)
  }

  predicate SameByte(icase: bool, a: Byte, b: Byte) {
    a == b || (icase && OtherCase(a, b))
  }

  /** The bytes an item lists. */
  predicate Lists(classes: Classes, x: Item, c: Byte) {
    match x
    case One(d) => c == d
    case Span(lo, hi) => lo <= c <= hi
    case Class(name) => name in classes && c in classes[name]
  }

  /** An item holds what it lists, and with REG_ICASE the other case of it. */
  ghost predicate Holds(classes: Classes, icase: bool, x: Item, c: Byte) {
    exists b: Byte :: Lists(classes, x, b) && SameByte(icase, b, c)
  }

  ghost predicate SomeHolds(classes: Classes, icase: bool, xs: seq<Item>, c: Byte) {
    exists k :: 0 <= k < |xs| && Holds(classes, icase, xs[k], c)
  }

  /** A bracket: what some item holds; negated, what none does, but not a newline with REG_NEWLINE; never '\0'. */
  ghost predicate InBracket(env: Env, classes: Classes, negated: bool, xs: seq<Item>, c: Byte) {
    && c != 0
    && if negated then !SomeHolds(classes, env.icase, xs, c) && !(env.newline && c == 10)
       else SomeHolds(classes, env.icase, xs, c)
  }

  // ----- how often -----

  /** The number that digits stand for. */
  function Decimal(ds: seq<Byte>): nat {
    if ds == [] then 0
    else
      var d := ds[|ds| - 1];
      Decimal(ds[..|ds| - 1]) * 10 + (if 48 <= d <= 57 then d - 48 else 0)
  }

  predicate Allows(q: Quant, count: nat) {
    match q
    case Star => true
    case Plus => count >= 1
    case Maybe => count <= 1
    case Exactly(m) => count == Decimal(m)
    case AtLeast(m) => count >= Decimal(m)
    case FromTo(m, n) => Decimal(m) <= count <= Decimal(n)
  }

  // ----- which part of the text -----

  /** The atom takes the text from `i` to `j`; back references are not described here. */
  ghost predicate AtomSays(env: Env, classes: Classes, a: Atom, i: nat, j: nat)
    requires i <= |env.text|
    decreases a, 0, 0
  {
    match a
    case Plain(c) => i < |env.text| && j == i + 1 && SameByte(env.icase, c, env.text[i])
    case Quote(c) => i < |env.text| && j == i + 1 && SameByte(env.icase, c, env.text[i])
    case Dot => i < |env.text| && j == i + 1 && !(env.newline && env.text[i] == 10)
    case Bracket(negated, xs) => i < |env.text| && j == i + 1 && InBracket(env, classes, negated, xs, env.text[i])
    case Start => j == i && ((i == 0 && !env.notBol) || (0 < i && env.newline && env.text[i - 1] == 10))
    case End => j == i && ((i == |env.text| && !env.notEol) || (i < |env.text| && env.newline && env.text[i] == 10))
    case Back(_) => false
    case Paren(body) => AltSays(env, classes, body, i, j)
  }

  /** The last quantifier counts turns of the atom with the quantifiers before it. */
  ghost predicate PieceSays(env: Env, classes: Classes, a: Atom, qs: seq<Quant>, i: nat, j: nat)
    requires i <= |env.text|
    decreases a, 1 + 2 * |qs|, 0
  {
    if qs == [] then AtomSays(env, classes, a, i, j)
    else
      var (front, last) := (qs[..|qs| - 1], qs[|qs| - 1]);
      exists count: nat :: Allows(last, count) && TurnsSay(env, classes, a, front, count, i, j)
  }

  ghost predicate TurnsSay(env: Env, classes: Classes, a: Atom, qs: seq<Quant>, count: nat, i: nat, j: nat)
    requires i <= |env.text|
    decreases a, 2 + 2 * |qs|, count
  {
    if count == 0 then j == i
    else exists x: nat | x <= |env.text| ::
      PieceSays(env, classes, a, qs, i, x) && TurnsSay(env, classes, a, qs, count - 1, x, j)
  }

  ghost predicate PiecesSay(env: Env, classes: Classes, ps: seq<Piece>, i: nat, j: nat)
    requires i <= |env.text|
    decreases ps, 3, 0
  {
    if ps == [] then j == i
    else exists x: nat | x <= |env.text| ::
      PieceSays(env, classes, ps[0].atom, ps[0].quants, i, x) && PiecesSay(env, classes, ps[1..], x, j)
  }

  ghost predicate AltSays(env: Env, classes: Classes, a: Alt, i: nat, j: nat)
    requires i <= |env.text|
    decreases a, 4, 0
  {
    || PiecesSay(env, classes, a.first.pieces, i, j)
    || exists k :: 0 <= k < |a.others| && PiecesSay(env, classes, a.others[k].pieces, i, j)
  }

  /** The flags of a pattern and of a call of regexec with it agree. */
  predicate Fitting(src: Source, env: Env) {
    env.icase == src.icase && env.newline == src.newline
  }

  // ----- brackets -----

  lemma CasedHolds(classes: Classes, src: Source, x: Item, c: Byte)
    requires classes == src.classes
    ensures c in Cased(ItemSet(src, x), src.icase) <==> Holds(classes, src.icase, x, c)
  {
    assert forall b: Byte :: b in ItemSet(src, x) <==> Lists(classes, x, b);
    if c in Cased(ItemSet(src, x), src.icase) {
      var b: Byte :| b in ItemSet(src, x) && (c == b || (src.icase && (c == ToLower(b) || c == ToUpper(b))));
      assert Lists(classes, x, b) && SameByte(src.icase, b, c);
    }
    if Holds(classes, src.icase, x, c) {
      var b: Byte :| Lists(classes, x, b) && SameByte(src.icase, b, c);
      assert c == b || c == ToLower(b) || c == ToUpper(b);
    }
  }

  lemma {:induction false} ItemsHold(src: Source, xs: seq<Item>, c: Byte)
    ensures c in ItemsSet(src, xs) <==> SomeHolds(src.classes, src.icase, xs, c)
    decreases xs
  {
    if xs != [] {
      CasedHolds(src.classes, src, xs[0], c);
      ItemsHold(src, xs[1..], c);
      if SomeHolds(src.classes, src.icase, xs, c) {
        var k :| 0 <= k < |xs| && Holds(src.classes, src.icase, xs[k], c);
        assert k > 0 ==> xs[1..][k - 1] == xs[k];
      }
    }
  }

  /** The set a bracket compiles to, byte for byte. */
  lemma BracketHolds(src: Source, env: Env, negated: bool, xs: seq<Item>, g: nat, c: Byte)
    requires Fitting(src, env)
    ensures AtomOp(src, Bracket(negated, xs), g).v.Set?
    ensures c in AtomOp(src, Bracket(negated, xs), g).v.members <==> InBracket(env, src.classes, negated, xs, c)
  {
    ItemsHold(src, xs, c);
  }

  // ----- counts -----

  lemma {:induction false} DecimalIs(ds: seq<Byte>, k: nat)
    requires k <= |ds|
    ensures Value(Decimal(ds[..k]), ds[k..]) == Decimal(ds)
    decreases |ds| - k
  {
    if k == |ds| {
      assert ds[..k] == ds;
    } else {
      assert ds[..k + 1][..k] == ds[..k];
      assert ds[k..][1..] == ds[k + 1..];
      DecimalIs(ds, k + 1);
    }
  }

  lemma CountAllows(q: Quant, count: nat)
    ensures Allows(q, count) <==> QuantCount(q).min <= count && (QuantCount(q).max < 0 || count <= QuantCount(q).max)
  {
    if q.Exactly? || q.AtLeast? || q.FromTo? {
      DecimalIs(q.m, 0);
      assert q.m[0..] == q.m;
    }
    if q.FromTo? {
      DecimalIs(q.n, 0);
      assert q.n[0..] == q.n;
    }
  }

  lemma {:induction false} LastOutermost(op: Op, qs: seq<Quant>)
    requires qs != []
    ensures var c := QuantCount(qs[|qs| - 1]);
            Quantified(op, qs) == Repeat(c.min, c.max, Node(Quantified(op, qs[..|qs| - 1]), None))
    decreases qs
  {
    if |qs| > 1 {
      var inner := Repeat(QuantCount(qs[0]).min, QuantCount(qs[0]).max, Node(op, None));
      LastOutermost(inner, qs[1..]);
      assert qs[1..][..|qs| - 2] == qs[..|qs| - 1][1..];
    }
  }

  // ----- the tree says the same -----

  lemma LangForward(env: Env, n: Node, i: nat, j: nat)
    requires i <= |env.text| && Lang(env, n, i, j)
    ensures i <= j <= |env.text|
  {
    var c := Caps([], []);
    var d := LangDerives(env, n, i, c, j);
    DerivesForward(env, n, i, c, j, d);
  }

  ghost predicate Meet(env: Env, op: Op, m: Node, i: nat, x: nat, j: nat)
    requires i <= |env.text|
  {
    x <= |env.text| && OpLang(env, op, i, x) && Lang(env, m, x, j)
  }

  lemma LangMeets(env: Env, n: Node, i: nat, j: nat) returns (x: nat)
    requires i <= |env.text| && n.next.Some? && Lang(env, n, i, j)
    ensures Meet(env, n.op, n.next.value, i, x, j)
  {
    x :| x <= |env.text| && OpLang(env, n.op, i, x) && Lang(env, n.next.value, x, j);
  }

  lemma MeetsLang(env: Env, n: Node, i: nat, x: nat, j: nat)
    requires i <= |env.text| && n.next.Some? && Meet(env, n.op, n.next.value, i, x, j)
    ensures Lang(env, n, i, j)
  {
  }

  lemma LangLink(env: Env, ops: seq<Op>, n: Node, m: Node, i: nat, j: nat)
    requires i <= |env.text| && ops != [] && n == Link(ops) && m == Link(ops[1..])
    ensures Lang(env, n, i, j) <==> exists x: nat :: Meet(env, ops[0], m, i, x, j)
  {
    if Lang(env, n, i, j) {
      var x := j;
      if |ops| > 1 { x := LangMeets(env, n, i, j); } else { LangForward(env, n, i, j); }
      assert Meet(env, ops[0], m, i, x, j);
    }
    if x: nat :| Meet(env, ops[0], m, i, x, j) {
      if |ops| > 1 { MeetsLang(env, n, i, x, j); }
    }
  }

  lemma LiteralMeans(src: Source, env: Env, c: Byte, i: nat)
    requires Fitting(src, env)
    ensures Takes(env, LiteralOp(src, c), i) <==> i < |env.text| && SameByte(env.icase, c, env.text[i])
  {
  }

  lemma {:induction false} AtomMeans(src: Source, env: Env, a: Atom, g: nat, i: nat, j: nat)
    requires Fitting(src, env) && i <= |env.text|
    ensures OpLang(env, AtomOp(src, a, g).v, i, j) <==> AtomSays(env, src.classes, a, i, j)
    decreases a, 0, 0
  {
    match a {
      case Plain(c) => LiteralMeans(src, env, c, i);
      case Quote(c) => LiteralMeans(src, env, c, i);
      case Bracket(negated, xs) =>
        if i < |env.text| { BracketHolds(src, env, negated, xs, g, env.text[i]); }
      case Paren(body) =>
        AltMeans(src, env, body, g + 1, i, j);
      case _ =>
    }
  }

  lemma {:induction false} PieceMeans(src: Source, env: Env, a: Atom, qs: seq<Quant>, g: nat, i: nat, j: nat)
    requires Fitting(src, env) && i <= |env.text|
    ensures OpLang(env, Quantified(AtomOp(src, a, g).v, qs), i, j) <==> PieceSays(env, src.classes, a, qs, i, j)
    decreases a, 1 + 2 * |qs|, 0
  {
    if qs == [] {
      AtomMeans(src, env, a, g, i, j);
    } else {
      var (front, last) := (qs[..|qs| - 1], qs[|qs| - 1]);
      var op, count0 := Quantified(AtomOp(src, a, g).v, front), QuantCount(last);
      LastOutermost(AtomOp(src, a, g).v, qs);
      forall count: nat
        ensures TurnsLang(env, Node(op, None), count, i, j) <==> TurnsSay(env, src.classes, a, front, count, i, j)
        ensures Allows(last, count) <==> (count0.min <= count && (count0.max < 0 || count <= count0.max))
      {
        TurnsMean(src, env, a, front, g, count, i, j);
        CountAllows(last, count);
      }
    }
  }

  lemma {:induction false} TurnsMean(src: Source, env: Env, a: Atom, qs: seq<Quant>, g: nat, count: nat, i: nat, j: nat)
    requires Fitting(src, env) && i <= |env.text|
    ensures TurnsLang(env, Node(Quantified(AtomOp(src, a, g).v, qs), None), count, i, j)
       <==> TurnsSay(env, src.classes, a, qs, count, i, j)
    decreases a, 2 + 2 * |qs|, count
  {
    if count > 0 {
      forall x: nat | x <= |env.text|
        ensures Lang(env, Node(Quantified(AtomOp(src, a, g).v, qs), None), i, x) <==> PieceSays(env, src.classes, a, qs, i, x)
        ensures TurnsLang(env, Node(Quantified(AtomOp(src, a, g).v, qs), None), count - 1, x, j)
           <==> TurnsSay(env, src.classes, a, qs, count - 1, x, j)
      {
        PieceMeans(src, env, a, qs, g, i, x);
        TurnsMean(src, env, a, qs, g, count - 1, x, j);
      }
    }
  }

  lemma {:induction false} PiecesMean(src: Source, env: Env, ps: seq<Piece>, g: nat, i: nat, j: nat)
    requires Fitting(src, env) && i <= |env.text|
    ensures Lang(env, Link(PiecesOps(src, ps, g).v), i, j) <==> PiecesSay(env, src.classes, ps, i, j)
    decreases ps, 3, 0
  {
    if ps != [] {
      var a := AtomOp(src, ps[0].atom, g);
      var rest := PiecesOps(src, ps[1..], a.groups).v;
      var ops := [Quantified(a.v, ps[0].quants)] + rest;
      LangLink(env, ops, Link(ops), Link(rest), i, j);
      forall x: nat | x <= |env.text|
        ensures Meet(env, Quantified(a.v, ps[0].quants), Link(rest), i, x, j)
           <==> PieceSays(env, src.classes, ps[0].atom, ps[0].quants, i, x) && PiecesSay(env, src.classes, ps[1..], x, j)
      {
        PieceMeans(src, env, ps[0].atom, ps[0].quants, g, i, x);
        PiecesMean(src, env, ps[1..], a.groups, x, j);
      }
    }
  }

  lemma {:induction false} OthersMean(src: Source, env: Env, bs: seq<Branch>, g: nat, i: nat, j: nat)
    requires Fitting(src, env) && i <= |env.text|
    ensures |OthersNodes(src, bs, g).v| == |bs|
    ensures forall k :: 0 <= k < |bs| ==>
              (Lang(env, OthersNodes(src, bs, g).v[k], i, j) <==> PiecesSay(env, src.classes, bs[k].pieces, i, j))
    decreases bs, 3, 0
  {
    if bs != [] {
      var b := PiecesOps(src, bs[0].pieces, g);
      PiecesMean(src, env, bs[0].pieces, g, i, j);
      OthersMean(src, env, bs[1..], b.groups, i, j);
    }
  }

  /** The tree of a description has the language that the description says. */
  lemma {:induction false} AltMeans(src: Source, env: Env, a: Alt, g: nat, i: nat, j: nat)
    requires Fitting(src, env) && i <= |env.text|
    ensures Lang(env, AltNode(src, a, g).v, i, j) <==> AltSays(env, src.classes, a, i, j)
    decreases a, 4, 0
  {
    PiecesMean(src, env, a.first.pieces, g, i, j);
    if a.others != [] {
      var b := PiecesOps(src, a.first.pieces, g);
      OthersMean(src, env, a.others, b.groups, i, j);
      ChoiceMeans(src, env, a, Link(b.v), OthersNodes(src, a.others, b.groups).v, i, j);
    }
  }

  lemma ChoiceMeans(src: Source, env: Env, a: Alt, first: Node, others: seq<Node>, i: nat, j: nat)
    requires i <= |env.text| && |others| == |a.others|
    requires Lang(env, first, i, j) <==> PiecesSay(env, src.classes, a.first.pieces, i, j)
    requires forall k :: 0 <= k < |others| ==>
               (Lang(env, others[k], i, j) <==> PiecesSay(env, src.classes, a.others[k].pieces, i, j))
    ensures Lang(env, Node(Choice([first] + others), None), i, j) <==> AltSays(env, src.classes, a, i, j)
  {
    var bs := [first] + others;
    assert Lang(env, Node(Choice(bs), None), i, j) <==> OpLang(env, Choice(bs), i, j);
    if OpLang(env, Choice(bs), i, j) {
      var x :| 0 <= x < |bs| && Lang(env, bs[x], i, j);
      if x > 0 { assert bs[x] == others[x - 1]; }
    }
    if PiecesSay(env, src.classes, a.first.pieces, i, j) {
      assert bs[0] == first;
    } else if AltSays(env, src.classes, a, i, j) {
      var k :| 0 <= k < |others| && PiecesSay(env, src.classes, a.others[k].pieces, i, j);
      assert bs[k + 1] == others[k];
    }
  }
}
