/**
  Expressions of the BASIC interpreter: evaluated while they are parsed.
  The parser is a function from tokens to a value and the tokens left, one
  level per precedence; an expression tree printed with the parentheses its
  precedence needs is parsed back to exactly its value.
  */
module BasicExpr {

  datatype Value = Int(i: int) | Dbl(d: real) | Str(s: string)

  datatype BinOp =
    | Or | Xor | And | Eq | Ne | Lt | Gt | Le | Ge | Concat | Add | Sub | Mul | Div | IntDiv | Mod | Pow

  /** Operators and names, as the rest of the interpreter gives them. */
  datatype Host = Host(bin: (BinOp, Value, Value) -> Value, neg: Value -> Value, not: Value -> Value,
                       name: (string, bool, seq<Value>) -> Value)

  function Upper(c: char): char {
    if 'a' <= c <= 'z' then c - 32 as char else c
  }

  /** str_ieq against a word in capitals. */
  predicate Spells(s: string, word: string) {
    |s| == |word| && forall i :: 0 <= i < |s| ==> Upper(s[i]) == word[i]
  }

  /** The identifiers that are operators, whatever their case. */
  predicate Reserved(s: string) {
    exists word :: word in {"OR", "XOR", "AND", "NOT", "MOD"} && Spells(s, word)
  }

  /** The other identifiers. */
  type Identifier = s: string | !Reserved(s)

  /** A binary operator is one token, whether it is spelled as a sign or as a word. */
  datatype Token = Literal(v: Value) | Name(n: Identifier) | Oper(op: BinOp) | Not | Open | Close | Comma | Other

  /** From OR, which binds least, to a primary. */
  const OR: nat := 0
  const AND: nat := 1
  const NOT: nat := 2
  const COMPARE: nat := 3
  const PRIMARY: nat := 8
  const MAX_ARGS: nat := 16

  function LevelOf(op: BinOp): (k: nat)
    ensures k < PRIMARY && k != NOT
  {
    match op
    case Or => OR
    case Xor => OR
    case And => AND
    case Eq => COMPARE
    case Ne => COMPARE
    case Lt => COMPARE
    case Gt => COMPARE
    case Le => COMPARE
    case Ge => COMPARE
    case Concat => 4
    case Add => 5
    case Sub => 5
    case Mul => 6
    case Div => 6
    case IntDiv => 6
    case Mod => 6
    case Pow => 7
  }

  /** The spelling of an operator that is a word, for the places where a name is expected. */
  function Spelling(t: Token): string {
    match t
    case Name(n) => n
    case Not => "NOT"
    case Oper(op) =>
      (match op case Or => "OR" case Xor => "XOR" case And => "AND" case Mod => "MOD" case _ => "")
    case _ => ""
  }

  predicate IsWord(t: Token) {
    t.Name? || t.Not? || (t.Oper? && t.op in {Or, Xor, And, Mod})
  }

  predicate Starts(ts: seq<Token>, t: Token) {
    ts != [] && ts[0] == t
  }

  predicate OperAt(ts: seq<Token>, k: nat) {
    ts != [] && ts[0].Oper? && LevelOf(ts[0].op) == k
  }

  datatype Parsed = Parsed(v: Value, rest: seq<Token>)
  datatype ParsedArgs = ParsedArgs(vs: seq<Value>, rest: seq<Token>)

  function Skip(ts: seq<Token>, t: Token): seq<Token> {
    if Starts(ts, t) then ts[1..] else ts
  }

  /** parse_or down to parse_primary, by level. */
  function Parse(h: Host, k: nat, ts: seq<Token>): (r: Parsed)
    requires k <= PRIMARY
    ensures |r.rest| <= |ts|
    decreases |ts|, 10 - k
  {
    if k == PRIMARY then Primary(h, ts)
    else if k == NOT then
      if Starts(ts, Not) then var r := Parse(h, NOT, ts[1..]); Parsed(h.not(r.v), r.rest)
      else Parse(h, COMPARE, ts)
    else if k == COMPARE then
      var l := Parse(h, COMPARE + 1, ts);
      if OperAt(l.rest, COMPARE) then
        var r := Parse(h, COMPARE + 1, l.rest[1..]);
        Parsed(h.bin(l.rest[0].op, l.v, r.v), r.rest)
      else l
    else
      var l := Parse(h, k + 1, ts);
      Loop(h, k, l.v, l.rest)
  }

  /** The loop of a left-associative level, from its value so far. */
  function Loop(h: Host, k: nat, v: Value, ts: seq<Token>): (r: Parsed)
    requires k < PRIMARY
    ensures |r.rest| <= |ts|
    decreases |ts|, 0
  {
    if OperAt(ts, k) then
      var r := Parse(h, k + 1, ts[1..]);
      Loop(h, k, h.bin(ts[0].op, v, r.v), r.rest)
    else Parsed(v, ts)
  }

  /** parse_primary */
  function Primary(h: Host, ts: seq<Token>): (r: Parsed)
    ensures |r.rest| <= |ts|
    decreases |ts|, 1
  {
    if ts == [] then Parsed(Int(0), ts)
    else if ts[0].Literal? then Parsed(ts[0].v, ts[1..])
    else if ts[0].Open? then
      var r := Parse(h, OR, ts[1..]);
      Parsed(r.v, Skip(r.rest, Close))
    else if ts[0] == Oper(Sub) then
      var r := Primary(h, ts[1..]);
      Parsed(h.neg(r.v), r.rest)
    else if IsWord(ts[0]) then
      if Starts(ts[1..], Open) then
        if Starts(ts[2..], Close) then Parsed(h.name(Spelling(ts[0]), true, []), ts[3..])
        else
          var r := Args(h, [], ts[2..]);
          Parsed(h.name(Spelling(ts[0]), true, r.vs), Skip(r.rest, Close))
      else Parsed(h.name(Spelling(ts[0]), false, []), ts[1..])
    else Parsed(Int(0), ts[1..])
  }

  /** The arguments between parentheses; those after the sixteenth are read and dropped. */
  function Args(h: Host, vs: seq<Value>, ts: seq<Token>): (r: ParsedArgs)
    ensures |r.rest| <= |ts|
    decreases |ts|, 11
  {
    var r := Parse(h, OR, ts);
    var more := if |vs| < MAX_ARGS then vs + [r.v] else vs;
    if Starts(r.rest, Comma) then Args(h, more, r.rest[1..]) else ParsedArgs(more, r.rest)
  }

  // ----- expression trees -----

  datatype Expr =
    | Constant(v: Value)
    | Negated(e: Expr)
    | Inverted(e: Expr)
    | Binary(op: BinOp, l: Expr, r: Expr)
    | Variable(n: Identifier)
    | Call(n: Identifier, args: seq<Expr>)

  function Eval(h: Host, e: Expr): Value {
    match e
    case Constant(v) => v
    case Negated(f) => h.neg(Eval(h, f))
    case Inverted(f) => h.not(Eval(h, f))
    case Binary(op, l, r) => h.bin(op, Eval(h, l), Eval(h, r))
    case Variable(n) => h.name(n, false, [])
    case Call(n, args) => h.name(n, true, FirstArgs([], EvalAll(h, args)))
  }

  function EvalAll(h: Host, es: seq<Expr>): seq<Value> {
    if es == [] then [] else [Eval(h, es[0])] + EvalAll(h, es[1..])
  }

  /** No more than sixteen arguments reach a function. */
  function FirstArgs(vs: seq<Value>, more: seq<Value>): seq<Value>
    decreases more
  {
    if more == [] then vs else FirstArgs(if |vs| < MAX_ARGS then vs + [more[0]] else vs, more[1..])
  }

  function Level(e: Expr): (k: nat)
    ensures k <= PRIMARY
  {
    match e
    case Binary(op, _, _) => LevelOf(op)
    case Inverted(_) => NOT
    case _ => PRIMARY
  }

  /** The tokens of a tree where level `k` is wanted: in parentheses if it binds less. */
  function Print(e: Expr, k: nat): seq<Token>
    decreases e, 1
  {
    if Level(e) < k then [Open] + Raw(e) + [Close] else Raw(e)
  }

  function Raw(e: Expr): seq<Token>
    decreases e, 0
  {
    match e
    case Constant(v) => [Literal(v)]
    case Negated(f) => [Oper(Sub)] + Print(f, PRIMARY)
    case Inverted(f) => [Token.Not] + Print(f, NOT)
    case Binary(op, l, r) =>
      var k := LevelOf(op);
      Print(l, if k == COMPARE then COMPARE + 1 else k) + ([Oper(op)] + Print(r, k + 1))
    case Variable(n) => [Name(n)]
    case Call(n, args) => [Name(n), Open] + PrintArgs(args) + [Close]
  }

  function PrintArgs(es: seq<Expr>): seq<Token>
    decreases es, 0
  {
    if es == [] then []
    else if |es| == 1 then Print(es[0], OR)
    else Print(es[0], OR) + ([Comma] + PrintArgs(es[1..]))
  }

  // ----- what is printed is parsed -----

  /** The tokens after an expression of level `k` do not continue it. */
  predicate Stops(ts: seq<Token>, k: nat) {
    ts == [] || (ts[0] != Open && !(ts[0].Oper? && LevelOf(ts[0].op) >= k))
  }

  predicate Reads(h: Host, k: nat, ts: seq<Token>, v: Value, rest: seq<Token>)
    requires k <= PRIMARY
  {
    Parse(h, k, ts + rest) == Parsed(v, rest)
  }

  /** An expression that binds tighter than NOT does not begin with it. */
  lemma {:induction false} NotFirst(e: Expr)
    requires Level(e) >= COMPARE
    ensures Raw(e) != [] && Raw(e)[0] != Token.Not
    decreases e
  {
    if e.Binary? {
      var k := if LevelOf(e.op) == COMPARE then COMPARE + 1 else LevelOf(e.op);
      if Level(e.l) >= k { NotFirst(e.l); }
    }
  }

  /** What a tighter level reads is read here too, if nothing at this level follows. */
  lemma Through(h: Host, k: nat, ts: seq<Token>, v: Value, rest: seq<Token>)
    requires k < PRIMARY && Reads(h, k + 1, ts, v, rest) && Stops(rest, k)
    requires k == NOT ==> ts != [] && ts[0] != Token.Not
    ensures Reads(h, k, ts, v, rest)
  {
  }

  predicate Chained(k: nat) {
    k < PRIMARY && k != NOT && k != COMPARE
  }

  /** After `e`, the loop of level `k` goes on from its value, however `e` was put together. */
  ghost predicate Carries(h: Host, k: nat, e: Expr, rest: seq<Token>)
    requires k < PRIMARY
  {
    var p := Parse(h, k + 1, Print(e, k) + rest);
    Loop(h, k, p.v, p.rest) == Loop(h, k, Eval(h, e), rest)
  }

  lemma {:induction false} ReadsAny(h: Host, e: Expr, k: nat, rest: seq<Token>)
    requires k <= PRIMARY && Stops(rest, k)
    ensures Reads(h, k, Print(e, k), Eval(h, e), rest)
    decreases e, 2, 0
  {
    if Level(e) < k { ReadsParen(h, e, k, rest); } else { ReadsRaw(h, e, k, rest); }
  }

  lemma {:induction false} ReadsParen(h: Host, e: Expr, k: nat, rest: seq<Token>)
    requires Level(e) < k <= PRIMARY && Stops(rest, k)
    ensures Reads(h, k, Print(e, k), Eval(h, e), rest)
    decreases e, 1, 9 - k
  {
    var ts := Print(e, k);
    if k == PRIMARY {
      ReadsRaw(h, e, OR, [Close] + rest);
      assert (ts + rest)[1..] == Raw(e) + ([Close] + rest);
      assert ([Close] + rest)[1..] == rest;
    } else {
      ReadsParen(h, e, k + 1, rest);
      Through(h, k, ts, Eval(h, e), rest);
    }
  }

  lemma {:induction false} ReadsRaw(h: Host, e: Expr, k: nat, rest: seq<Token>)
    requires k <= Level(e) && Stops(rest, k)
    ensures Reads(h, k, Raw(e), Eval(h, e), rest)
    decreases e, 0, 10 - k
  {
    if k < Level(e) {
      if k == NOT { NotFirst(e); }
      ReadsRaw(h, e, k + 1, rest);
      Through(h, k, Raw(e), Eval(h, e), rest);
    } else if e.Binary? {
      if k == COMPARE { ReadsCompare(h, e, rest); } else { ReadsChain(h, e, rest); }
    } else if e.Inverted? {
      ReadsAny(h, e.e, NOT, rest);
      assert (Raw(e) + rest)[1..] == Print(e.e, NOT) + rest;
    } else {
      ReadsPrimary(h, e, rest);
    }
  }

  lemma {:induction false} ReadsCompare(h: Host, e: Expr, rest: seq<Token>)
    requires e.Binary? && LevelOf(e.op) == COMPARE && Stops(rest, COMPARE)
    ensures Reads(h, COMPARE, Raw(e), Eval(h, e), rest)
    decreases e, 0, 0
  {
    var right := Print(e.r, COMPARE + 1) + rest;
    ReadsAny(h, e.l, COMPARE + 1, [Oper(e.op)] + right);
    ReadsAny(h, e.r, COMPARE + 1, rest);
    assert Raw(e) + rest == Print(e.l, COMPARE + 1) + ([Oper(e.op)] + right);
    assert ([Oper(e.op)] + right)[1..] == right;
  }

  lemma {:induction false} ReadsChain(h: Host, e: Expr, rest: seq<Token>)
    requires e.Binary? && Chained(LevelOf(e.op)) && Stops(rest, LevelOf(e.op))
    ensures Reads(h, LevelOf(e.op), Raw(e), Eval(h, e), rest)
    decreases e, 0, 1
  {
    var k := LevelOf(e.op);
    CarriesBinary(h, e, rest);
    assert Print(e, k) == Raw(e);
  }

  lemma {:induction false} CarriesAny(h: Host, e: Expr, k: nat, rest: seq<Token>)
    requires Chained(k) && Stops(rest, k + 1)
    ensures Carries(h, k, e, rest)
    decreases e, 3, 0
  {
    if Level(e) == k {
      CarriesBinary(h, e, rest);
    } else {
      ReadsAny(h, e, k + 1, rest);
      assert Print(e, k) == Print(e, k + 1);
    }
  }

  lemma {:induction false} CarriesBinary(h: Host, e: Expr, rest: seq<Token>)
    requires e.Binary? && Chained(LevelOf(e.op)) && Stops(rest, LevelOf(e.op) + 1)
    ensures Carries(h, LevelOf(e.op), e, rest)
    decreases e, 0, 0
  {
    var k := LevelOf(e.op);
    var right := Print(e.r, k + 1) + rest;
    CarriesAny(h, e.l, k, [Oper(e.op)] + right);
    ReadsAny(h, e.r, k + 1, rest);
    assert Print(e, k) + rest == Print(e.l, k) + ([Oper(e.op)] + right);
    assert ([Oper(e.op)] + right)[1..] == right;
  }

  lemma {:induction false} ReadsPrimary(h: Host, e: Expr, rest: seq<Token>)
    requires Level(e) == PRIMARY && Stops(rest, PRIMARY)
    ensures Reads(h, PRIMARY, Raw(e), Eval(h, e), rest)
    decreases e, 0, 1
  {
    var ts := Raw(e) + rest;
    match e {
      case Constant(v) =>
        assert ts[1..] == rest;
      case Negated(f) =>
        ReadsAny(h, f, PRIMARY, rest);
        assert ts[1..] == Print(f, PRIMARY) + rest;
      case Variable(n) =>
        assert ts[1..] == rest;
      case Call(n, args) =>
        ReadsCall(h, e, rest);
    }
  }

  lemma PrimaryCall(h: Host, n: Identifier, ts: seq<Token>, r: ParsedArgs)
    requires ts != [] && ts[0] != Close && Args(h, [], ts) == r
    ensures Primary(h, [Name(n), Open] + ts) == Parsed(h.name(n, true, r.vs), Skip(r.rest, Close))
  {
    var all := [Name(n), Open] + ts;
    assert all[1..] == [Open] + ts && all[2..] == ts;
  }

  lemma PrimaryNoArgs(h: Host, n: Identifier, rest: seq<Token>)
    ensures Primary(h, [Name(n), Open, Close] + rest) == Parsed(h.name(n, true, []), rest)
  {
    var all := [Name(n), Open, Close] + rest;
    assert all[1..][0] == Open && all[2..][0] == Close && all[3..] == rest;
  }

  lemma {:induction false} ReadsCall(h: Host, e: Expr, rest: seq<Token>)
    requires e.Call?
    ensures Reads(h, PRIMARY, Raw(e), Eval(h, e), rest)
    decreases e, 0, 0
  {
    if e.args == [] {
      assert PrintArgs(e.args) == [];
      PrimaryNoArgs(h, e.n, rest);
      assert Raw(e) + rest == [Name(e.n), Open, Close] + rest;
    } else {
      var end := [Close] + rest;
      ReadsArgs(h, [], e.args, end);
      NotClosed(e.args, end);
      PrimaryCall(h, e.n, PrintArgs(e.args) + end, ParsedArgs(FirstArgs([], EvalAll(h, e.args)), end));
      assert Raw(e) + rest == [Name(e.n), Open] + (PrintArgs(e.args) + end);
      assert Skip(end, Close) == rest;
    }
  }

  lemma NotClosed(es: seq<Expr>, rest: seq<Token>)
    requires es != []
    ensures PrintArgs(es) != [] && (PrintArgs(es) + rest)[0] != Close
  {
    FirstToken(es[0], OR);
  }

  lemma {:induction false} FirstToken(e: Expr, k: nat)
    ensures Print(e, k) != [] && Print(e, k)[0] != Close
    decreases e
  {
    if e.Binary? { FirstToken(e.l, if LevelOf(e.op) == COMPARE then COMPARE + 1 else LevelOf(e.op)); }
  }

  lemma {:induction false} ReadsArgs(h: Host, vs: seq<Value>, es: seq<Expr>, rest: seq<Token>)
    requires es != [] && Starts(rest, Close)
    ensures Args(h, vs, PrintArgs(es) + rest) == ParsedArgs(FirstArgs(vs, EvalAll(h, es)), rest)
    decreases es, 3, 0
  {
    var more := if |vs| < MAX_ARGS then vs + [Eval(h, es[0])] else vs;
    assert EvalAll(h, es)[1..] == EvalAll(h, es[1..]);
    if |es| == 1 {
      ReadsAny(h, es[0], OR, rest);
      assert EvalAll(h, es[1..]) == [];
    } else {
      var after := PrintArgs(es[1..]) + rest;
      ReadsAny(h, es[0], OR, [Comma] + after);
      assert PrintArgs(es) + rest == Print(es[0], OR) + ([Comma] + after);
      assert ([Comma] + after)[1..] == after;
      ReadsArgs(h, more, es[1..], rest);
    }
  }

  /**
    Every expression, printed with the parentheses its precedence needs, is
    parsed to exactly its value, and exactly its tokens are used.
    */
  lemma ParsePrinted(h: Host, e: Expr, rest: seq<Token>)
    requires Stops(rest, OR)
    ensures Parse(h, OR, Print(e, OR) + rest) == Parsed(Eval(h, e), rest)
  {
    ReadsAny(h, e, OR, rest);
  }

  /** A minus sign binds tighter than `^`: -a ^ b is (-a) ^ b. */
  lemma MinusBeforePower(h: Host, a: Identifier, b: Identifier, rest: seq<Token>)
    requires Stops(rest, OR)
    ensures Parse(h, OR, [Oper(Sub), Name(a), Oper(Pow), Name(b)] + rest)
         == Parsed(h.bin(Pow, h.neg(h.name(a, false, [])), h.name(b, false, [])), rest)
  {
    var e := Binary(Pow, Negated(Variable(a)), Variable(b));
    ParsePrinted(h, e, rest);
    assert Raw(Variable(b)) == [Name(b)] && Raw(Variable(a)) == [Name(a)];
    assert Raw(Negated(Variable(a))) == [Oper(Sub), Name(a)];
    assert Eval(h, Negated(Variable(a))) == h.neg(h.name(a, false, []));
    assert Print(e, OR) == Print(Negated(Variable(a)), 7) + ([Oper(Pow)] + Print(Variable(b), PRIMARY));
    assert Print(e, OR) == [Oper(Sub), Name(a), Oper(Pow), Name(b)];
  }
}
