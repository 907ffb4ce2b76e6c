/**
  Patterns by their grammar: alternatives of sequences of quantified atoms,
  written down in extended or in basic syntax. What can be written down in a
  syntax compiles to exactly the tree the description means.
  */
module RegexGrammar {
  import opened Common
  import opened RegexTree
  import opened RegexSyntax

  /** An item of a bracket expression. */
  datatype Item = One(c: Byte) | Span(lo: Byte, hi: Byte) | Class(name: seq<Byte>)

  /** `*`, `+`, `?`, `{m}`, `{m,}`, `{m,n}`; numbers by their digits. */
  datatype Quant = Star | Plus | Maybe | Exactly(m: seq<Byte>) | AtLeast(m: seq<Byte>) | FromTo(m: seq<Byte>, n: seq<Byte>)

  datatype Atom =
    | Plain(c: Byte)
    | Quote(c: Byte)
    | Dot
    | Bracket(negated: bool, items: seq<Item>)
    | Start
    | End
    | Back(digit: Byte)                         // basic syntax only
    | Paren(body: Alt)

  datatype Piece = Piece(atom: Atom, quants: seq<Quant>)

  datatype Branch = Branch(pieces: seq<Piece>)

  /** Branches separated by `|`: at least one, each perhaps empty. */
  datatype Alt = Alt(first: Branch, others: seq<Branch>)

  // ----- how it is written -----

  /** An operator: alone in extended syntax, after a backslash in basic syntax. */
  function Token(ere: bool, c: Byte): seq<Byte> {
    if ere then [c] else [BACKSLASH, c]
  }

  function ItemText(x: Item): seq<Byte> {
    match x
    case One(c) => [c]
    case Span(lo, hi) => [lo, DASH, hi]
    case Class(name) => [LBRACK, COLON] + name + [COLON, RBRACK]
  }

  function ItemsText(xs: seq<Item>): seq<Byte> {
    if xs == [] then [] else ItemText(xs[0]) + ItemsText(xs[1..])
  }

  /** What is between the braces. */
  function Bounds(q: Quant): seq<Byte> {
    match q
    case Exactly(m) => m
    case AtLeast(m) => m + [COMMA]
    case FromTo(m, n) => m + ([COMMA] + n)
    case _ => []
  }

  function QuantText(ere: bool, q: Quant): seq<Byte> {
    match q
    case Star => [STAR]
    case Plus => Token(ere, PLUS)
    case Maybe => Token(ere, QUESTION)
    case _ => Token(ere, LBRACE) + (Bounds(q) + Token(ere, RBRACE))
  }

  function QuantsText(ere: bool, qs: seq<Quant>): seq<Byte> {
    if qs == [] then [] else QuantText(ere, qs[0]) + QuantsText(ere, qs[1..])
  }

  function AtomText(ere: bool, a: Atom): seq<Byte>
    decreases a, 0
  {
    match a
    case Plain(c) => [c]
    case Quote(c) => [BACKSLASH, c]
    case Dot => [DOT]
    case Bracket(negated, xs) => [LBRACK] + (if negated then [CARET] else []) + ItemsText(xs) + [RBRACK]
    case Start => [CARET]
    case End => [DOLLAR]
    case Back(d) => [BACKSLASH, d]
    case Paren(body) => Token(ere, LPAR) + (AltText(ere, body) + Token(ere, RPAR))
  }

  function PieceText(ere: bool, p: Piece): seq<Byte>
    decreases p, 1
  {
    AtomText(ere, p.atom) + QuantsText(ere, p.quants)
  }

  function PiecesText(ere: bool, ps: seq<Piece>): seq<Byte>
    decreases ps, 2
  {
    if ps == [] then [] else PieceText(ere, ps[0]) + PiecesText(ere, ps[1..])
  }

  function OthersText(ere: bool, bs: seq<Branch>): seq<Byte>
    decreases bs, 3
  {
    if bs == [] then [] else Token(ere, BAR) + (PiecesText(ere, bs[0].pieces) + OthersText(ere, bs[1..]))
  }

  function AltText(ere: bool, a: Alt): seq<Byte>
    decreases a, 4
  {
    PiecesText(ere, a.first.pieces) + OthersText(ere, a.others)
  }

  // ----- what it means -----

  function ItemSet(src: Source, x: Item): set<Byte> {
    match x
    case One(c) => {c}
    case Span(lo, hi) => Between(lo, hi)
    case Class(name) => if name in src.classes then src.classes[name] else {}
  }

  function ItemsSet(src: Source, xs: seq<Item>): set<Byte> {
    if xs == [] then {} else Cased(ItemSet(src, xs[0]), src.icase) + ItemsSet(src, xs[1..])
  }

  /** The number that digits stand for, after `a`. */
  function Value(a: nat, ds: seq<Byte>): nat
    decreases ds
  {
    if ds == [] then a else Value(a * 10 + (if IsDigit(ds[0]) then ds[0] - 48 else 0), ds[1..])
  }

  function QuantCount(q: Quant): Count {
    match q
    case Star => Count(0, -1)
    case Plus => Count(1, -1)
    case Maybe => Count(0, 1)
    case Exactly(m) => Count(Value(0, m), Value(0, m))
    case AtLeast(m) => Count(Value(0, m), -1)
    case FromTo(m, n) => Count(Value(0, m), Value(0, n))
  }

  function Quantified(op: Op, qs: seq<Quant>): Op
    decreases qs
  {
    if qs == [] then op
    else Quantified(Repeat(QuantCount(qs[0]).min, QuantCount(qs[0]).max, Node(op, None)), qs[1..])
  }

  /** A meaning, and the number of the last group in it. */
  datatype Meant<T> = Meant(v: T, groups: nat)

  function LiteralOp(src: Source, c: Byte): Op {
    Char(if src.icase then ToLower(c) else c)
  }

  /** Groups are numbered from `g + 1` on, by their opening parentheses. */
  function AtomOp(src: Source, a: Atom, g: nat): Meant<Op>
    decreases a, 0
  {
    match a
    case Plain(c) => Meant(LiteralOp(src, c), g)
    case Quote(c) => Meant(LiteralOp(src, c), g)
    case Dot => Meant(Any, g)
    case Bracket(negated, xs) => Meant(Set(Finished(src, negated, ItemsSet(src, xs))), g)
    case Start => Meant(Bol, g)
    case End => Meant(Eol, g)
    case Back(d) => Meant(Ref(if d >= 48 then d - 48 else 0), g)
    case Paren(body) => var b := AltNode(src, body, g + 1); Meant(Group(g + 1, b.v), b.groups)
  }

  function PiecesOps(src: Source, ps: seq<Piece>, g: nat): Meant<seq<Op>>
    decreases ps, 2
  {
    if ps == [] then Meant([], g)
    else
      var a := AtomOp(src, ps[0].atom, g);
      var rest := PiecesOps(src, ps[1..], a.groups);
      Meant([Quantified(a.v, ps[0].quants)] + rest.v, rest.groups)
  }

  function OthersNodes(src: Source, bs: seq<Branch>, g: nat): Meant<seq<Node>>
    decreases bs, 3
  {
    if bs == [] then Meant([], g)
    else
      var b := PiecesOps(src, bs[0].pieces, g);
      var rest := OthersNodes(src, bs[1..], b.groups);
      Meant([Link(b.v)] + rest.v, rest.groups)
  }

  function AltNode(src: Source, a: Alt, g: nat): Meant<Node>
    decreases a, 4
  {
    var b := PiecesOps(src, a.first.pieces, g);
    if a.others == [] then Meant(Link(b.v), b.groups)
    else
      var rest := OthersNodes(src, a.others, b.groups);
      Meant(Node(Choice([Link(b.v)] + rest.v), None), rest.groups)
  }

  // ----- which descriptions can be written down -----

  /** The bytes that are not themselves, wherever they stand. */
  predicate Special(ere: bool, c: Byte) {
    || c in {0, RegexSyntax.DOT, LBRACK, BACKSLASH}
    || (ere && c in {BAR, LPAR, RPAR, STAR, PLUS, QUESTION, LBRACE, CARET, DOLLAR})
  }

  /** The bytes that a backslash before them does not make ordinary. */
  predicate Meaningful(ere: bool, c: Byte) {
    c == 0 || (!ere && (c in {BAR, LPAR, RPAR, PLUS, QUESTION, LBRACE} || 49 <= c <= 57))
  }

  /** Where an item is read as it was meant, before the bytes `rest`. */
  predicate ItemOk(src: Source, x: Item, first: bool, rest: seq<Byte>) {
    match x
    case One(c) =>
      && c != 0 && (c == RBRACK ==> first)
      && !(c == LBRACK && rest != [] && rest[0] in {COLON, RegexSyntax.DOT, EQUALS})
      && !(|rest| > 1 && rest[0] == DASH && rest[1] != RBRACK)
    case Span(lo, hi) => 0 < lo <= hi && hi != RBRACK && (lo == RBRACK ==> first)
    case Class(name) => name in src.classes && forall i :: 0 <= i < |name| ==> name[i] != 0 && (name[i] == COLON ==> (name + [COLON])[i + 1] != RBRACK)
  }

  predicate ItemsOk(src: Source, xs: seq<Item>, first: bool) {
    xs == [] || (ItemOk(src, xs[0], first, ItemsText(xs[1..]) + [RBRACK]) && ItemsOk(src, xs[1..], false))
  }

  predicate Digits(ds: seq<Byte>) {
    ds != [] && (forall i :: 0 <= i < |ds| ==> IsDigit(ds[i])) && Value(0, ds) <= RIP_MAX
  }

  predicate QuantOk(q: Quant) {
    match q
    case Exactly(m) => Digits(m)
    case AtLeast(m) => Digits(m)
    case FromTo(m, n) => Digits(m) && Digits(n) && Value(0, m) <= Value(0, n)
    case _ => true
  }

  predicate QuantsOk(qs: seq<Quant>) {
    qs == [] || (QuantOk(qs[0]) && QuantsOk(qs[1..]))
  }

  /** `g` groups were opened before it, `open` of them are still open. Some bytes are themselves only in some places. */
  predicate AtomOk(src: Source, a: Atom, g: nat, open: nat)
    decreases a, 0
  {
    match a
    case Plain(c) => !Special(src.ere, c) || (src.ere && c in {LBRACE, RPAR})
    case Quote(c) => !Meaningful(src.ere, c) || (!src.ere && c in {PLUS, QUESTION, LBRACE})
    case Bracket(negated, xs) => xs != [] && ItemsOk(src, xs, true) && (negated || ItemsText(xs)[0] != CARET)
    case Back(d) => !src.ere && 49 <= d <= 57 && d - 48 <= g
    case Paren(body) => AltOk(src, body, g + 1, open + 1)
    case _ => true
  }

  /** The place of an atom: the first in its sequence; at its start, that is first or, in basic syntax, after a `^`; the
      last thing in it; inside so many groups; before a digit. */
  datatype Spot = Spot(first: bool, start: bool, last: bool, open: nat, digit: bool)

  /** Extended syntax takes a `{` that no digit follows and a `)` outside of groups as themselves. Basic syntax reads
      `*`, `^`, `$`, `\+`, `\?` and `\{` by their place. */
  predicate Fits(ere: bool, a: Atom, at: Spot) {
    if ere then
      match a
      case Plain(c) => (c == LBRACE ==> !at.digit) && (c == RPAR ==> at.open == 0)
      case _ => true
    else
      match a
      case Plain(c) => (c == STAR ==> at.first) && (c == CARET ==> !at.start) && (c == DOLLAR ==> !at.last)
      case Quote(c) => c in {PLUS, QUESTION, LBRACE} ==> at.first
      case Start => at.start
      case End => at.last
      case _ => true
  }

  /** A digit follows the atom of the first piece. */
  predicate DigitNext(ere: bool, ps: seq<Piece>)
    requires ps != []
  {
    ps[0].quants == [] && var t := PiecesText(ere, ps[1..]); t != [] && IsDigit(t[0])
  }

  /** The place of the first of these pieces. */
  function SpotOf(ere: bool, ps: seq<Piece>, first: bool, start: bool, open: nat): Spot
    requires ps != []
  {
    Spot(first, start, ps[0].quants == [] && |ps| == 1, open, DigitNext(ere, ps))
  }

  predicate PiecesOk(src: Source, ps: seq<Piece>, first: bool, start: bool, g: nat, open: nat)
    decreases ps, 1
  {
    ps == [] ||
    (&& AtomOk(src, ps[0].atom, g, open) && QuantsOk(ps[0].quants)
     && Fits(src.ere, ps[0].atom, SpotOf(src.ere, ps, first, start, open))
     && (src.ere && (ps[0].atom.Start? || ps[0].atom.End?) ==> ps[0].quants == [])
     && PiecesOk(src, ps[1..], false, ps[0].atom.Start? && !src.ere, AtomOp(src, ps[0].atom, g).groups, open))
  }

  predicate OthersOk(src: Source, bs: seq<Branch>, g: nat, open: nat)
    decreases bs, 2
  {
    bs == [] ||
    (PiecesOk(src, bs[0].pieces, true, true, g, open) && OthersOk(src, bs[1..], PiecesOps(src, bs[0].pieces, g).groups, open))
  }

  predicate AltOk(src: Source, a: Alt, g: nat, open: nat)
    decreases a, 3
  {
    && PiecesOk(src, a.first.pieces, true, true, g, open)
    && OthersOk(src, a.others, PiecesOps(src, a.first.pieces, g).groups, open)
  }
}
