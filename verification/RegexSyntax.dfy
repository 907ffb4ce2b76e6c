/**
  The compiler of regular expressions, as functions of the pattern and of the
  place reached in it: rx_insieme, rx_graffe, rx_atomo, rx_quantifica,
  rx_sequenza, rx_scelta and regcomp, for basic and extended syntax.
  */
module RegexSyntax {
  import opened Common
  import opened RegexTree

  /** REG_ECOLLATE and so on; REG_ESPACE is not modelled. */
  datatype Error =
    | ECollate | ECtype | EEscape | ESubreg | EBrack | EParen | EBrace | BadBr | ERange | BadRpt

  /** The classes of the C locale: which bytes [:name:] stands for. */
  type Classes = map<seq<Byte>, set<Byte>>

  /** What does not change while a pattern is compiled. */
  datatype Source = Source(pat: seq<Byte>, ere: bool, icase: bool, newline: bool, classes: Classes)

  /** ps->p, ps->gruppi, ps->aperti. */
  datatype State = State(p: nat, groups: nat, open: nat)

  datatype Result<T> = Ok(value: T, st: State) | Bad(err: Error)

  const RIP_MAX := 32767

  const DOLLAR: Byte := 36
  const LPAR: Byte := 40
  const RPAR: Byte := 41
  const STAR: Byte := 42
  const PLUS: Byte := 43
  const COMMA: Byte := 44
  const DASH: Byte := 45
  const DOT: Byte := 46
  const COLON: Byte := 58
  const EQUALS: Byte := 61
  const QUESTION: Byte := 63
  const LBRACK: Byte := 91
  const BACKSLASH: Byte := 92
  const RBRACK: Byte := 93
  const CARET: Byte := 94
  const LBRACE: Byte := 123
  const BAR: Byte := 124
  const RBRACE: Byte := 125

  /** The byte at `i`, 0 at the end. */
  function Ch(src: Source, i: nat): Byte {
    if i < |src.pat| then src.pat[i] else 0
  }

  predicate IsDigit(c: Byte) {
    48 <= c <= 57
  }

  function Move(st: State, n: nat): State {
    st.(p := st.p + n)
  }

  /** A backslash and this. */
  predicate Quoted(src: Source, i: nat, c: Byte) {
    Ch(src, i) == BACKSLASH && Ch(src, i + 1) == c
  }

  // ----- sets -----

  /** rx_metti on each of `s`. */
  function Cased(s: set<Byte>, icase: bool): set<Byte> {
    if icase then s + (set c | c in s :: ToLower(c)) + (set c | c in s :: ToUpper(c)) else s
  }

  function Between(a: Byte, b: Byte): (s: set<Byte>)
    ensures forall c: Byte :: c in s <==> a <= c <= b
    decreases b - a
  {
    if a > b then {} else if a == b then {a} else {a} + Between(a + 1, b)
  }

  /** Where `k` and ']' first stand together from `i` on. */
  function ClassEnd(src: Source, k: Byte, i: nat): (r: Option<nat>)
    ensures r.Some? ==> i <= r.value < |src.pat|
    decreases |src.pat| - i
  {
    if Ch(src, i) == 0 then None
    else if Ch(src, i) == k && Ch(src, i + 1) == RBRACK then Some(i)
    else ClassEnd(src, k, i + 1)
  }

  predicate OpensClass(src: Source, i: nat) {
    Ch(src, i) == LBRACK && (Ch(src, i + 1) == COLON || Ch(src, i + 1) == DOT || Ch(src, i + 1) == EQUALS)
  }

  predicate OpensRange(src: Source, i: nat) {
    Ch(src, i + 1) == DASH && Ch(src, i + 2) != RBRACK && Ch(src, i + 2) != 0
  }

  /** [:name:] at `i`: its bytes. */
  function ReadClass(src: Source, st: State): (r: Result<set<Byte>>)
    requires OpensClass(src, st.p)
    ensures r.Ok? ==> st.p < r.st.p && r.st.groups == st.groups && r.st.open == st.open
  {
    var e := ClassEnd(src, Ch(src, st.p + 1), st.p + 2);
    if e.None? then Bad(EBrack)
    else if Ch(src, st.p + 1) != COLON then Bad(ECollate)
    else if src.pat[st.p + 2..e.value] !in src.classes then Bad(ECtype)
    else Ok(src.classes[src.pat[st.p + 2..e.value]], st.(p := e.value + 2))
  }

  /** One item of a set: a class, a range or a byte. */
  function ReadItem(src: Source, st: State): (r: Result<set<Byte>>)
    requires Ch(src, st.p) != 0
    ensures r.Ok? ==> st.p < r.st.p && r.st.groups == st.groups && r.st.open == st.open
  {
    if OpensClass(src, st.p) then ReadClass(src, st)
    else if OpensRange(src, st.p) then
      if Ch(src, st.p + 2) < Ch(src, st.p) then Bad(ERange)
      else Ok(Between(Ch(src, st.p), Ch(src, st.p + 2)), Move(st, 3))
    else Ok({Ch(src, st.p)}, Move(st, 1))
  }

  /** The items of a set up to its ']', added to `acc`. */
  function ReadItems(src: Source, st: State, first: bool, acc: set<Byte>): (r: Result<set<Byte>>)
    ensures r.Ok? ==> st.p < r.st.p && r.st.groups == st.groups && r.st.open == st.open
    decreases |src.pat| - st.p
  {
    if Ch(src, st.p) == 0 then Bad(EBrack)
    else if Ch(src, st.p) == RBRACK && !first then Ok(acc, Move(st, 1))
    else
      var r := ReadItem(src, st);
      if r.Bad? then Bad(r.err) else ReadItems(src, r.st, false, acc + Cased(r.value, src.icase))
  }

  function AllBytes(): set<Byte> {
    Between(0, 255)
  }

  /** What a set holds in the end: '\0' never, and a newline not if it is negated and REG_NEWLINE is set. */
  function Finished(src: Source, negated: bool, s: set<Byte>): set<Byte> {
    (if negated then AllBytes() - s - (if src.newline then {NEWLINE} else {}) else s) - {0}
  }

  /** rx_insieme, after the '['. */
  function ReadSet(src: Source, st: State): (r: Result<Op>)
    ensures r.Ok? ==> r.value.Set? && st.p < r.st.p && r.st.groups == st.groups && r.st.open == st.open
  {
    var negated := Ch(src, st.p) == CARET;
    var s := ReadItems(src, if negated then Move(st, 1) else st, true, {});
    if s.Bad? then Bad(s.err) else Ok(Set(Finished(src, negated, s.value)), s.st)
  }

  // ----- repeat counts -----

  /** A number of at most RIP_MAX, continuing from `a`. */
  function ReadNumber(src: Source, st: State, a: nat): (r: Result<nat>)
    ensures r.Ok? ==> st.p <= r.st.p && r.st.groups == st.groups && r.st.open == st.open
    decreases |src.pat| - st.p
  {
    if !IsDigit(Ch(src, st.p)) then Ok(a, st)
    else
      var n: nat := a * 10 + (Ch(src, st.p) - 48);
      if n > RIP_MAX then Bad(BadBr) else ReadNumber(src, Move(st, 1), n)
  }

  datatype Count = Count(min: nat, max: int)

  function CloseBrace(src: Source, st: State, c: Count): Result<Count> {
    if src.ere then if Ch(src, st.p) == RBRACE then Ok(c, Move(st, 1)) else Bad(EBrace)
    else if Quoted(src, st.p, RBRACE) then Ok(c, Move(st, 2)) else Bad(EBrace)
  }

  /** rx_graffe, after the brace. */
  function ReadBraces(src: Source, st: State): (r: Result<Count>)
    ensures r.Ok? ==> st.p <= r.st.p && r.st.groups == st.groups && r.st.open == st.open
  {
    if !IsDigit(Ch(src, st.p)) then Bad(BadBr)
    else
      var a := ReadNumber(src, st, 0);
      if a.Bad? then Bad(a.err)
      else if Ch(src, a.st.p) != COMMA then CloseBrace(src, a.st, Count(a.value, a.value))
      else
        var s1 := Move(a.st, 1);
        if !IsDigit(Ch(src, s1.p)) then CloseBrace(src, s1, Count(a.value, -1))
        else
          var b := ReadNumber(src, s1, 0);
          if b.Bad? then Bad(b.err)
          else if b.value < a.value then Bad(BadBr)
          else CloseBrace(src, b.st, Count(a.value, b.value))
  }

  /** The quantifier at `st`, or None if there is none. */
  function ReadQuantifier(src: Source, st: State): (r: Result<Option<Count>>)
    ensures r.Ok? && r.value.None? ==> r.st == st
    ensures r.Ok? && r.value.Some? ==> st.p < |src.pat| && st.p < r.st.p && r.st.groups == st.groups && r.st.open == st.open
  {
    var c := Ch(src, st.p);
    if c == STAR then Ok(Some(Count(0, -1)), Move(st, 1))
    else if src.ere && c == PLUS then Ok(Some(Count(1, -1)), Move(st, 1))
    else if src.ere && c == QUESTION then Ok(Some(Count(0, 1)), Move(st, 1))
    else if !src.ere && Quoted(src, st.p, PLUS) then Ok(Some(Count(1, -1)), Move(st, 2))
    else if !src.ere && Quoted(src, st.p, QUESTION) then Ok(Some(Count(0, 1)), Move(st, 2))
    else if (src.ere && c == LBRACE && IsDigit(Ch(src, st.p + 1))) || (!src.ere && Quoted(src, st.p, LBRACE)) then
      var r := ReadBraces(src, Move(st, if src.ere then 1 else 2));
      if r.Bad? then Bad(r.err) else Ok(Some(r.value), r.st)
    else Ok(None, st)
  }

  /** rx_quantifica: every quantifier after an atom wraps what is there. */
  function Quantify(src: Source, st: State, op: Op): (r: Result<Op>)
    ensures r.Ok? ==> st.p <= r.st.p && r.st.groups == st.groups && r.st.open == st.open
    decreases |src.pat| - st.p
  {
    var q := ReadQuantifier(src, st);
    if q.Bad? then Bad(q.err)
    else if q.value.None? then Ok(op, st)
    else if src.ere && (op.Bol? || op.Eol?) then Bad(BadRpt)
    else Quantify(src, q.st, Repeat(q.value.value.min, q.value.value.max, Node(op, None)))
  }

  // ----- atoms, sequences, alternatives -----

  predicate AtBar(src: Source, st: State) {
    if src.ere then Ch(src, st.p) == BAR else Quoted(src, st.p, BAR)
  }

  predicate AtClose(src: Source, st: State) {
    if src.ere then Ch(src, st.p) == RPAR else Quoted(src, st.p, RPAR)
  }

  /** How many bytes a parenthesis or a bar takes. */
  function Sign(src: Source): nat {
    if src.ere then 1 else 2
  }

  predicate AtOpen(src: Source, st: State) {
    if src.ere then Ch(src, st.p) == LPAR else Quoted(src, st.p, LPAR)
  }

  /** Where a sequence ends. */
  predicate AtEnd(src: Source, st: State) {
    || Ch(src, st.p) == 0
    || (if src.ere then Ch(src, st.p) == BAR || (Ch(src, st.p) == RPAR && st.open > 0)
        else Quoted(src, st.p, RPAR) || Quoted(src, st.p, BAR))
  }

  function Literal(src: Source, st: State): Result<Op> {
    var c := Ch(src, st.p);
    Ok(Char(if src.icase then ToLower(c) else c), Move(st, 1))
  }

  /** The atoms that are the same in both syntaxes. */
  function CommonAtom(src: Source, st: State): (r: Result<Op>)
    ensures r.Ok? ==> st.p < r.st.p && r.st.groups == st.groups && r.st.open == st.open
  {
    if Ch(src, st.p) == DOT then Ok(Any, Move(st, 1))
    else if Ch(src, st.p) == LBRACK then ReadSet(src, Move(st, 1))
    else if Ch(src, st.p) == BACKSLASH then
      if Ch(src, st.p + 1) == 0 then Bad(EEscape) else Literal(src, Move(st, 1))
    else Literal(src, st)
  }

  /** The atoms of extended syntax that are not groups. */
  function ExtendedAtom(src: Source, st: State): (r: Result<Op>)
    ensures r.Ok? ==> st.p < r.st.p && r.st.groups == st.groups && r.st.open == st.open
  {
    var c := Ch(src, st.p);
    if c == LBRACE && !IsDigit(Ch(src, st.p + 1)) then Literal(src, st)
    else if c == STAR || c == PLUS || c == QUESTION || c == LBRACE then Bad(BadRpt)
    else if c == CARET then Ok(Bol, Move(st, 1))
    else if c == DOLLAR then Ok(Eol, Move(st, 1))
    else CommonAtom(src, st)
  }

  /** Where a '$' of basic syntax is an anchor. */
  predicate EndsBasic(src: Source, i: nat) {
    Ch(src, i) == 0 || Quoted(src, i, RPAR) || Quoted(src, i, BAR)
  }

  /** The atoms of basic syntax that are not groups; `start` at the start of a sequence. */
  function BasicAtom(src: Source, st: State, start: bool): (r: Result<Op>)
    ensures r.Ok? ==> st.p < r.st.p && r.st.groups == st.groups && r.st.open == st.open
  {
    var c := Ch(src, st.p);
    if c == CARET && start then Ok(Bol, Move(st, 1))
    else if c == DOLLAR && EndsBasic(src, st.p + 1) then Ok(Eol, Move(st, 1))
    else if c == STAR && start then Literal(src, st)
    else if c == BACKSLASH && 49 <= Ch(src, st.p + 1) <= 57 then
      var k: nat := Ch(src, st.p + 1) - 48;
      if k > st.groups then Bad(ESubreg) else Ok(Ref(k), Move(st, 2))
    else CommonAtom(src, st)
  }

  /** After an opening parenthesis. */
  function Inside(src: Source, st: State): State {
    State(st.p + Sign(src), st.groups + 1, st.open + 1)
  }

  /** The closing parenthesis of the group opened at `st`, after what is inside. */
  function EndGroup(src: Source, st: State, r: Result<Node>): Result<Op> {
    if r.Bad? then Bad(r.err)
    else if !AtClose(src, r.st) then Bad(EParen)
    else Ok(Group(st.groups + 1, r.value), State(r.st.p + Sign(src), r.st.groups, st.open))
  }

  /** rx_atomo where a sequence does not end. */
  function Atom(src: Source, st: State, start: bool): (r: Result<Op>)
    requires !AtEnd(src, st)
    ensures r.Ok? ==> st.p < r.st.p && st.groups <= r.st.groups && r.st.open == st.open
    decreases |src.pat| - st.p, 0
  {
    if AtOpen(src, st) then
      var inside := Inside(src, st);
      EndGroup(src, st, if AtClose(src, inside) then Ok(Node(Empty, None), inside) else Alternatives(src, inside))
    else if src.ere then ExtendedAtom(src, st)
    else BasicAtom(src, st, start)
  }

  /** rx_sequenza: the quantified atoms up to the end of the sequence. */
  function Ops(src: Source, st: State, start: bool): (r: Result<seq<Op>>)
    ensures r.Ok? ==> st.p <= r.st.p && st.groups <= r.st.groups && r.st.open == st.open
    decreases |src.pat| - st.p, 1
  {
    if AtEnd(src, st) then Ok([], st)
    else
      var a := Atom(src, st, start);
      if a.Bad? then Bad(a.err)
      else
        var q := Quantify(src, a.st, a.value);
        if q.Bad? then Bad(q.err)
        else
          var rest := Ops(src, q.st, a.value.Bol? && !src.ere);
          if rest.Bad? then Bad(rest.err) else Ok([q.value] + rest.value, rest.st)
  }

  /** The nodes in a row; an empty sequence is RX_VUOTO. */
  function Link(ops: seq<Op>): Node {
    if ops == [] then Node(Empty, None)
    else if |ops| == 1 then Node(ops[0], None)
    else Node(ops[0], Some(Link(ops[1..])))
  }

  /** The branches after the first. */
  function Branches(src: Source, st: State): (r: Result<seq<Node>>)
    ensures r.Ok? ==> st.p <= r.st.p && st.groups <= r.st.groups && r.st.open == st.open
    decreases |src.pat| - st.p, 2
  {
    if !AtBar(src, st) then Ok([], st)
    else
      var b := Ops(src, Move(st, Sign(src)), true);
      if b.Bad? then Bad(b.err)
      else
        var rest := Branches(src, b.st);
        if rest.Bad? then Bad(rest.err) else Ok([Link(b.value)] + rest.value, rest.st)
  }

  /** rx_scelta */
  function Alternatives(src: Source, st: State): (r: Result<Node>)
    ensures r.Ok? ==> st.p <= r.st.p && st.groups <= r.st.groups && r.st.open == st.open
    decreases |src.pat| - st.p, 3
  {
    var a := Ops(src, st, true);
    if a.Bad? then Bad(a.err)
    else if !AtBar(src, a.st) then Ok(Link(a.value), a.st)
    else
      var rest := Branches(src, a.st);
      if rest.Bad? then Bad(rest.err) else Ok(Node(Choice([Link(a.value)] + rest.value), None), rest.st)
  }

  /** regcomp: the tree and the number of groups. */
  function Compile(src: Source): Result<Node> {
    var r := Alternatives(src, State(0, 0, 0));
    if r.Ok? && Ch(src, r.st.p) != 0 then Bad(EParen) else r
  }
}
