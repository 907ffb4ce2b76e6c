/**
  The order of precedence, without levels: which operator binds tighter is
  written out, and a row of operands is grouped around the last of its
  loosest operators.
  */
module BasicPrecedence {
  import opened BasicExpr

  predicate Comparison(o: BinOp) {
    o in {Eq, Ne, Lt, Gt, Le, Ge}
  }

  predicate Logical(o: BinOp) {
    o in {And, Or, Xor}
  }

  /** `a` binds tighter than `b`: ^, then * / \ MOD, then + -, then &, then the comparisons, then AND, then OR and XOR. */
  predicate Tighter(a: BinOp, b: BinOp) {
    || (a == Pow && b != Pow)
    || (a in {Mul, Div, IntDiv, Mod} && (b in {Add, Sub, Concat} || Comparison(b) || Logical(b)))
    || (a in {Add, Sub} && (b == Concat || Comparison(b) || Logical(b)))
    || (a == Concat && (Comparison(b) || Logical(b)))
    || (Comparison(a) && Logical(b))
    || (a == And && b in {Or, Xor})
  }

  /** Tokens that parse_primary reads as one value, whatever comes after them, unless it opens a parenthesis. */
  datatype Operand = Operand(ts: seq<Token>, v: Value)

  predicate ReadBefore(h: Host, x: Operand, rest: seq<Token>) {
    !Starts(rest, Open) ==> Primary(h, x.ts + rest) == Parsed(x.v, rest)
  }

  ghost predicate Good(h: Host, x: Operand) {
    x.ts != [] && forall rest {:trigger ReadBefore(h, x, rest)} :: ReadBefore(h, x, rest)
  }

  /** An operator and the operand after it. */
  datatype Link = Link(op: BinOp, x: Operand)

  /** x op y op z ... */
  function Tokens(x: Operand, links: seq<Link>): seq<Token>
    decreases links
  {
    if links == [] then x.ts else x.ts + [Oper(links[0].op)] + Tokens(links[0].x, links[1..])
  }

  /** After AND, OR and XOR, as at the start, NOT is an operator and no operand. */
  ghost predicate GoodAt(h: Host, links: seq<Link>, i: int) {
    0 <= i < |links| ==> Good(h, links[i].x) && (Logical(links[i].op) ==> links[i].x.ts[0] != Token.Not)
  }

  ghost predicate AllGood(h: Host, links: seq<Link>) {
    forall i {:trigger GoodAt(h, links, i)} :: GoodAt(h, links, i)
  }

  /** The place of the last operator than which none is looser. */
  function LastLoosest(links: seq<Link>): (k: nat)
    requires links != []
    ensures k < |links|
  {
    if |links| == 1 then 0
    else
      var n := |links| - 1;
      var k := LastLoosest(links[..n]);
      if Tighter(links[n].op, links[k].op) then k else n
  }

  /** The value of a row: both sides of that operator first. */
  function Grouped(h: Host, v: Value, links: seq<Link>): Value
    decreases |links|
  {
    if links == [] then v
    else
      var k := LastLoosest(links);
      h.bin(links[k].op, Grouped(h, v, links[..k]), Grouped(h, links[k].x.v, links[k + 1..]))
  }

  /** Comparisons do not follow one another without AND, OR or XOR between them. */
  ghost predicate Spaced(links: seq<Link>) {
    forall i, j {:trigger SpacedAt(links, i, j)} :: SpacedAt(links, i, j)
  }

  ghost predicate SpacedAt(links: seq<Link>, i: int, j: int) {
    0 <= i < j < |links| && Comparison(links[i].op) && Comparison(links[j].op) ==>
      exists m :: i < m < j && Logical(links[m].op)
  }

  /** There is a comparison after the last AND, OR or XOR. */
  ghost predicate Compared(links: seq<Link>) {
    exists i {:trigger ComparedAt(links, i)} :: ComparedAt(links, i)
  }

  ghost predicate ComparedAt(links: seq<Link>, i: int) {
    0 <= i < |links| && Comparison(links[i].op) && forall m :: i < m < |links| ==> !Logical(links[m].op)
  }

  /** What may come after a row: no operator and no parenthesis, or a comparison that is one too many. */
  ghost predicate Over(links: seq<Link>, rest: seq<Token>) {
    rest == [] || (rest[0] != Open && (rest[0].Oper? ==> Comparison(rest[0].op) && Compared(links)))
  }

  // ----- levels -----

  lemma TighterIs(a: BinOp, b: BinOp)
    ensures Tighter(a, b) <==> LevelOf(a) > LevelOf(b)
  {
  }

  lemma {:induction false} LastLoosestIs(links: seq<Link>)
    requires links != []
    ensures var k := LastLoosest(links);
            && (forall j :: 0 <= j < |links| ==> LevelOf(links[j].op) >= LevelOf(links[k].op))
            && (forall j :: k < j < |links| ==> LevelOf(links[j].op) > LevelOf(links[k].op))
    decreases |links|
  {
    if |links| > 1 {
      var n := |links| - 1;
      var less := links[..n];
      LastLoosestIs(less);
      assert forall j :: 0 <= j < n ==> less[j] == links[j];
      TighterIs(links[n].op, links[LastLoosest(less)].op);
    }
  }

  predicate FromAt(links: seq<Link>, k: nat, j: int) {
    0 <= j < |links| ==> LevelOf(links[j].op) >= k
  }

  ghost predicate AllFrom(links: seq<Link>, k: nat) {
    forall j {:trigger FromAt(links, k, j)} :: FromAt(links, k, j)
  }

  /** `rest` ends the row at level `k`. */
  ghost predicate Ends(links: seq<Link>, rest: seq<Token>, k: nat) {
    rest == [] || (rest[0] != Open && (rest[0].Oper? ==>
      LevelOf(rest[0].op) < k || (Comparison(rest[0].op) && Compared(links))))
  }

  lemma {:induction false} TokensSplit(x: Operand, links: seq<Link>, i: nat, rest: seq<Token>)
    requires i < |links|
    ensures Tokens(x, links) + rest
         == Tokens(x, links[..i]) + ([Oper(links[i].op)] + (Tokens(links[i].x, links[i + 1..]) + rest))
    decreases i
  {
    var after := [Oper(links[i].op)] + (Tokens(links[i].x, links[i + 1..]) + rest);
    var head := x.ts + [Oper(links[0].op)];
    if i > 0 {
      var tail := links[1..];
      TokensSplit(links[0].x, tail, i - 1, rest);
      assert tail[i - 1] == links[i] && tail[i..] == links[i + 1..];
      var left := Tokens(links[0].x, tail[..i - 1]);
      assert Tokens(links[0].x, tail) + rest == left + after;
      assert links[..i][0] == links[0] && links[..i][1..] == tail[..i - 1];
      assert Tokens(x, links[..i]) == head + left;
      assert head + Tokens(links[0].x, tail) + rest == head + (Tokens(links[0].x, tail) + rest);
    } else {
      assert links[..0] == [];
    }
  }

  lemma FirstOf(x: Operand, links: seq<Link>)
    requires x.ts != [] && x.ts[0] != Token.Not
    ensures Tokens(x, links) != [] && Tokens(x, links)[0] != Token.Not
  {
  }

  // ----- what is read -----

  /** What the next tighter level reads is read here too, if no operator of this level follows. */
  lemma Through1(h: Host, k: nat, ts: seq<Token>, v: Value, rest: seq<Token>)
    requires k < PRIMARY && Parse(h, k + 1, ts) == Parsed(v, rest) && !OperAt(rest, k)
    requires k == NOT ==> !Starts(ts, Token.Not)
    ensures Parse(h, k, ts) == Parsed(v, rest)
  {
  }

  lemma SpacedParts(links: seq<Link>, i: nat)
    requires Spaced(links) && i < |links|
    ensures Spaced(links[..i]) && Spaced(links[i + 1..])
  {
    var a, b := links[..i], links[i + 1..];
    forall p, q ensures SpacedAt(a, p, q) { SpacedLeft(links, i, p, q); }
    forall p, q ensures SpacedAt(b, p, q) { SpacedRight(links, i, p, q); }
  }

  lemma SpacedLeft(links: seq<Link>, i: nat, p: int, q: int)
    requires Spaced(links) && i < |links|
    ensures SpacedAt(links[..i], p, q)
  {
    var a := links[..i];
    assert SpacedAt(links, p, q);
    if 0 <= p < q < |a| && Comparison(a[p].op) && Comparison(a[q].op) {
      var m :| p < m < q && Logical(links[m].op);
      assert a[m] == links[m];
    }
  }

  lemma SpacedRight(links: seq<Link>, i: nat, p: int, q: int)
    requires Spaced(links) && i < |links|
    ensures SpacedAt(links[i + 1..], p, q)
  {
    var b, d := links[i + 1..], i + 1;
    assert SpacedAt(links, p + d, q + d);
    if 0 <= p < q < |b| && Comparison(b[p].op) && Comparison(b[q].op) {
      assert links[p + d] == b[p] && links[q + d] == b[q];
      var m :| p + d < m < q + d && Logical(links[m].op);
      assert b[m - d] == links[m];
    }
  }

  /** The comparison after the last AND, OR or XOR comes after this one. */
  lemma ComparedRight(links: seq<Link>, i: nat)
    requires i < |links| && Compared(links) && Logical(links[i].op)
    ensures Compared(links[i + 1..])
  {
    var c :| ComparedAt(links, c);
    var b, d := links[i + 1..], i + 1;
    assert c > i;
    assert b[c - d] == links[c];
    forall m | c - d < m < |b| ensures !Logical(b[m].op) {
      var m' := m + d;
      assert links[m'] == b[m];
    }
    assert ComparedAt(b, c - d);
  }

  lemma LogicalIs(o: BinOp)
    ensures Logical(o) <==> LevelOf(o) < NOT
    ensures Comparison(o) <==> LevelOf(o) == COMPARE
  {
  }

  /** None of the operators is of level `k` itself. */
  ghost predicate NoneAt(links: seq<Link>, k: nat) {
    links == [] || LevelOf(links[LastLoosest(links)].op) > k
  }

  lemma NoneAtFrom(links: seq<Link>, k: nat)
    requires NoneAt(links, k)
    ensures AllFrom(links, k + 1)
  {
    if links != [] { LastLoosestIs(links); }
  }

  lemma ComparedLevel(links: seq<Link>, k: nat)
    requires Compared(links) && AllFrom(links, k)
    ensures k <= COMPARE
  {
    var i :| ComparedAt(links, i);
    assert FromAt(links, k, i);
    LogicalIs(links[i].op);
  }

  /** A row that the levels from `k` on read. */
  ghost predicate Row(h: Host, k: nat, x: Operand, links: seq<Link>) {
    && Good(h, x) && (k <= NOT ==> x.ts[0] != Token.Not)
    && AllGood(h, links) && AllFrom(links, k) && Spaced(links)
  }

  lemma RowNext(h: Host, k: nat, x: Operand, links: seq<Link>, rest: seq<Token>)
    requires Row(h, k, x, links) && NoneAt(links, k) && Ends(links, rest, k)
    ensures Row(h, k + 1, x, links) && Ends(links, rest, k + 1) && !OperAt(rest, k)
  {
    NoneAtFrom(links, k);
    if OperAt(rest, k) {
      LogicalIs(rest[0].op);
      ComparedLevel(links, k + 1);
    }
  }

  /** Up to the last operator of level `k` and after it. */
  lemma RowParts(h: Host, k: nat, x: Operand, links: seq<Link>, i: nat)
    requires Row(h, k, x, links) && !NoneAt(links, k) && i == LastLoosest(links)
    ensures LevelOf(links[i].op) == k && Row(h, k, x, links[..i]) && Row(h, k + 1, links[i].x, links[i + 1..])
  {
    LastLoosestIs(links);
    SpacedParts(links, i);
    var a, b, d := links[..i], links[i + 1..], i + 1;
    assert FromAt(links, k, i) && GoodAt(h, links, i);
    LogicalIs(links[i].op);
    forall m ensures GoodAt(h, a, m) && FromAt(a, k, m) { assert GoodAt(h, links, m) && FromAt(links, k, m); }
    var next := k + 1;
    forall m ensures GoodAt(h, b, m) && FromAt(b, next, m) {
      assert GoodAt(h, links, m + d);
      if 0 <= m < |b| { assert b[m] == links[m + d]; }
    }
  }

  lemma OneComparison(h: Host, x: Operand, links: seq<Link>, i: nat)
    requires Row(h, COMPARE, x, links) && !NoneAt(links, COMPARE) && i == LastLoosest(links)
    ensures AllFrom(links[..i], COMPARE + 1)
  {
    LastLoosestIs(links);
    assert FromAt(links, COMPARE, i);
    LogicalIs(links[i].op);
    var a, k := links[..i], COMPARE + 1;
    forall j ensures FromAt(a, k, j) {
      assert FromAt(links, COMPARE, j) && SpacedAt(links, j, i);
      if 0 <= j < i && LevelOf(links[j].op) == COMPARE {
        LogicalIs(links[j].op);
        NoneBetween(links, j, i);
      }
    }
  }

  lemma NoneBetween(links: seq<Link>, i: nat, j: nat)
    requires AllFrom(links, COMPARE) && i <= j <= |links|
    ensures forall m :: i < m < j ==> !Logical(links[m].op)
  {
    forall m | i < m < j ensures !Logical(links[m].op) {
      assert FromAt(links, COMPARE, m);
      LogicalIs(links[m].op);
    }
  }

  lemma GroupedAt(h: Host, v: Value, links: seq<Link>, i: nat)
    requires links != [] && i == LastLoosest(links)
    ensures Grouped(h, v, links) == h.bin(links[i].op, Grouped(h, v, links[..i]), Grouped(h, links[i].x.v, links[i + 1..]))
  {
  }

  lemma LoopTurn(h: Host, k: nat, v: Value, op: BinOp, more: seq<Token>, w: Value, rest: seq<Token>)
    requires k < PRIMARY && LevelOf(op) == k && Parse(h, k + 1, more) == Parsed(w, rest)
    ensures Loop(h, k, v, [Oper(op)] + more) == Loop(h, k, h.bin(op, v, w), rest)
  {
    assert ([Oper(op)] + more)[1..] == more;
  }

  lemma CompareTurn(h: Host, ts: seq<Token>, v: Value, op: BinOp, more: seq<Token>, w: Value, rest: seq<Token>)
    requires LevelOf(op) == COMPARE && Parse(h, COMPARE + 1, ts) == Parsed(v, [Oper(op)] + more)
    requires Parse(h, COMPARE + 1, more) == Parsed(w, rest)
    ensures Parse(h, COMPARE, ts) == Parsed(h.bin(op, v, w), rest)
  {
    assert ([Oper(op)] + more)[1..] == more;
  }

  ghost predicate LoopFrom(h: Host, k: nat, ts: seq<Token>, v: Value, rest: seq<Token>)
    requires k < PRIMARY
  {
    var p := Parse(h, k + 1, ts);
    Loop(h, k, p.v, p.rest) == Loop(h, k, v, rest)
  }

  lemma LoopEnds(h: Host, k: nat, ts: seq<Token>, v: Value, rest: seq<Token>)
    requires Chained(k) && LoopFrom(h, k, ts, v, rest) && !OperAt(rest, k)
    ensures Parse(h, k, ts) == Parsed(v, rest)
  {
  }

  lemma {:induction false} ReadsRow(h: Host, k: nat, x: Operand, links: seq<Link>, rest: seq<Token>)
    requires k <= PRIMARY && Row(h, k, x, links) && Ends(links, rest, k)
    ensures Parse(h, k, Tokens(x, links) + rest) == Parsed(Grouped(h, x.v, links), rest)
    decreases |links|, 10 - k, 1
  {
    if k == PRIMARY {
      assert FromAt(links, k, 0) && ReadBefore(h, x, rest);
    } else if NoneAt(links, k) {
      RowNext(h, k, x, links, rest);
      ReadsRow(h, k + 1, x, links, rest);
      if k == NOT { FirstOf(x, links); }
      Through1(h, k, Tokens(x, links) + rest, Grouped(h, x.v, links), rest);
    } else if k == COMPARE {
      ReadsOne(h, x, links, rest);
    } else {
      RowParts(h, k, x, links, LastLoosest(links));
      EndsChain(links, rest, k);
      CarriesRow(h, k, x, links, rest);
      LoopEnds(h, k, Tokens(x, links) + rest, Grouped(h, x.v, links), rest);
    }
  }

  lemma EndsChain(links: seq<Link>, rest: seq<Token>, k: nat)
    requires Ends(links, rest, k) && k != COMPARE
    ensures !OperAt(rest, k) && Ends(links, rest, k + 1)
  {
    if OperAt(rest, k) { LogicalIs(rest[0].op); }
  }

  lemma {:induction false} ReadsOne(h: Host, x: Operand, links: seq<Link>, rest: seq<Token>)
    requires Row(h, COMPARE, x, links) && Ends(links, rest, COMPARE) && !NoneAt(links, COMPARE)
    ensures Parse(h, COMPARE, Tokens(x, links) + rest) == Parsed(Grouped(h, x.v, links), rest)
    decreases |links|, 0, 0
  {
    var i := LastLoosest(links);
    RowParts(h, COMPARE, x, links, i);
    OneComparison(h, x, links, i);
    var left, right, op := links[..i], links[i + 1..], links[i].op;
    var more := Tokens(links[i].x, right) + rest;
    TokensSplit(x, links, i, rest);
    ReadsRow(h, COMPARE + 1, x, left, [Oper(op)] + more);
    EndsAfter(right, rest);
    ReadsRow(h, COMPARE + 1, links[i].x, right, rest);
    GroupedAt(h, x.v, links, i);
    CompareTurn(h, Tokens(x, links) + rest, Grouped(h, x.v, left), op, more, Grouped(h, links[i].x.v, right), rest);
  }

  lemma EndsAfter(right: seq<Link>, rest: seq<Token>)
    requires rest == [] || (rest[0] != Open && (rest[0].Oper? ==> LevelOf(rest[0].op) <= COMPARE))
    ensures Ends(right, rest, COMPARE + 1)
  {
  }

  /** After the row, the loop of level `k` goes on from its value. */
  lemma {:induction false} CarriesRow(h: Host, k: nat, x: Operand, links: seq<Link>, rest: seq<Token>)
    requires Chained(k) && Row(h, k, x, links) && Ends(links, rest, k + 1)
    ensures LoopFrom(h, k, Tokens(x, links) + rest, Grouped(h, x.v, links), rest)
    decreases |links|, 10 - k, 0
  {
    if NoneAt(links, k) {
      NoneAtFrom(links, k);
      ReadsRow(h, k + 1, x, links, rest);
    } else {
      var i := LastLoosest(links);
      RowParts(h, k, x, links, i);
      var left, right, op := links[..i], links[i + 1..], links[i].op;
      var more := Tokens(links[i].x, right) + rest;
      TokensSplit(x, links, i, rest);
      CarriesRow(h, k, x, left, [Oper(op)] + more);
      EndsRight(links, i, rest, k);
      ReadsRow(h, k + 1, links[i].x, right, rest);
      LoopTurn(h, k, Grouped(h, x.v, left), op, more, Grouped(h, links[i].x.v, right), rest);
      GroupedAt(h, x.v, links, i);
    }
  }

  lemma EndsRight(links: seq<Link>, i: nat, rest: seq<Token>, k: nat)
    requires Chained(k) && i < |links| && LevelOf(links[i].op) == k && Ends(links, rest, k + 1)
    ensures Ends(links[i + 1..], rest, k + 1)
  {
    LogicalIs(links[i].op);
    if rest != [] && rest[0].Oper? { LogicalIs(rest[0].op); }
    if Compared(links) && k < NOT { ComparedRight(links, i); }
  }

  // ----- the laws -----

  /** Every row of operands: its value is that of the grouping, and exactly its tokens are used. */
  lemma RowGrouped(h: Host, x: Operand, links: seq<Link>, rest: seq<Token>)
    requires Good(h, x) && x.ts[0] != Token.Not && AllGood(h, links) && Spaced(links) && Over(links, rest)
    ensures Parse(h, OR, Tokens(x, links) + rest) == Parsed(Grouped(h, x.v, links), rest)
  {
    forall j ensures FromAt(links, OR, j) {
    }
    ReadsRow(h, OR, x, links, rest);
  }

  predicate Clear(rest: seq<Token>) {
    rest == [] || (rest[0] != Open && !rest[0].Oper?)
  }

  /** An operand that does not begin with NOT. */
  ghost predicate Plain(h: Host, x: Operand) {
    Good(h, x) && x.ts[0] != Token.Not
  }

  lemma TokensOne(a: Operand, o: BinOp, b: Operand)
    ensures Tokens(a, [Link(o, b)]) == a.ts + [Oper(o)] + b.ts
  {
    var links := [Link(o, b)];
    assert links[1..] == [];
  }

  lemma GroupedOne(h: Host, v: Value, o: BinOp, b: Operand)
    ensures Grouped(h, v, [Link(o, b)]) == h.bin(o, v, b.v)
  {
    var links := [Link(o, b)];
    assert links[..0] == [] && links[1..] == [];
    GroupedAt(h, v, links, 0);
  }

  /** Two operators: the second one first exactly if it binds tighter. */
  lemma TwoOperators(h: Host, a: Operand, o1: BinOp, b: Operand, o2: BinOp, c: Operand, rest: seq<Token>)
    requires Plain(h, a) && Plain(h, b) && Plain(h, c) && Clear(rest) && !(Comparison(o1) && Comparison(o2))
    ensures Parse(h, OR, a.ts + [Oper(o1)] + b.ts + [Oper(o2)] + c.ts + rest)
         == Parsed(if Tighter(o2, o1) then h.bin(o1, a.v, h.bin(o2, b.v, c.v)) else h.bin(o2, h.bin(o1, a.v, b.v), c.v), rest)
  {
    var l1, l2 := Link(o1, b), Link(o2, c);
    var links := [l1, l2];
    assert links[..1] == [l1] && links[1..] == [l2] && links[..0] == [] && links[2..] == [];
    TokensOne(b, o2, c);
    assert Tokens(a, links) + rest == a.ts + [Oper(o1)] + b.ts + [Oper(o2)] + c.ts + rest;
    forall i, j ensures SpacedAt(links, i, j) {
    }
    forall i ensures GoodAt(h, links, i) {
    }
    RowGrouped(h, a, links, rest);
    GroupedOne(h, b.v, o2, c);
    GroupedOne(h, a.v, o1, b);
    GroupedAt(h, a.v, links, if Tighter(o2, o1) then 0 else 1);
  }

  /** A second comparison ends the expression; it and what comes after it is not read. */
  lemma SecondComparison(h: Host, a: Operand, o1: BinOp, b: Operand, o2: BinOp, rest: seq<Token>)
    requires Plain(h, a) && Plain(h, b) && Comparison(o1) && Comparison(o2)
    ensures Parse(h, OR, a.ts + [Oper(o1)] + b.ts + ([Oper(o2)] + rest)) == Parsed(h.bin(o1, a.v, b.v), [Oper(o2)] + rest)
  {
    var links := [Link(o1, b)];
    TokensOne(a, o1, b);
    assert ComparedAt(links, 0);
    forall i ensures GoodAt(h, links, i) {
    }
    RowGrouped(h, a, links, [Oper(o2)] + rest);
    GroupedOne(h, a.v, o1, b);
  }

  /** NOT binds less than everything but AND, OR and XOR. */
  lemma NotBefore(h: Host, a: Operand, o: BinOp, b: Operand, rest: seq<Token>)
    requires Plain(h, a) && Plain(h, b) && Clear(rest)
    ensures Parse(h, OR, [Token.Not] + (a.ts + [Oper(o)] + b.ts + rest))
         == Parsed(if Logical(o) then h.bin(o, h.not(a.v), b.v) else h.not(h.bin(o, a.v, b.v)), rest)
  {
    var links := [Link(o, b)];
    TokensOne(a, o, b);
    var more := b.ts + rest;
    var ts := a.ts + [Oper(o)] + b.ts + rest;
    assert ([Token.Not] + ts)[1..] == ts;
    LogicalIs(o);
    forall i ensures GoodAt(h, links, i) {
    }
    if Logical(o) {
      assert ts == a.ts + ([Oper(o)] + more);
      ReadsRow(h, NOT, a, [], [Oper(o)] + more);
      ReadsRow(h, LevelOf(o) + 1, b, [], rest);
      NotThen(h, [Token.Not] + ts, h.not(a.v), o, more, b.v, rest);
    } else {
      forall j ensures FromAt(links, NOT, j) {
      }
      ReadsRow(h, NOT, a, links, rest);
      GroupedOne(h, a.v, o, b);
      Upward(h, [Token.Not] + ts, h.not(h.bin(o, a.v, b.v)), rest);
    }
  }

  lemma Upward(h: Host, ts: seq<Token>, v: Value, rest: seq<Token>)
    requires Parse(h, NOT, ts) == Parsed(v, rest) && Clear(rest)
    ensures Parse(h, OR, ts) == Parsed(v, rest)
  {
    Through1(h, AND, ts, v, rest);
    Through1(h, OR, ts, v, rest);
  }

  lemma NotThen(h: Host, ts: seq<Token>, v: Value, o: BinOp, more: seq<Token>, w: Value, rest: seq<Token>)
    requires Parse(h, NOT, ts) == Parsed(v, [Oper(o)] + more) && LevelOf(o) < NOT && Clear(rest)
    requires Parse(h, LevelOf(o) + 1, more) == Parsed(w, rest)
    ensures Parse(h, OR, ts) == Parsed(h.bin(o, v, w), rest)
  {
    var k := LevelOf(o);
    LoopTurn(h, k, v, o, more, w, rest);
    if k == AND {
      LoopEnds(h, AND, ts, h.bin(o, v, w), rest);
      Through1(h, OR, ts, h.bin(o, v, w), rest);
    } else {
      Through1(h, AND, ts, v, [Oper(o)] + more);
      LoopEnds(h, OR, ts, h.bin(o, v, w), rest);
    }
  }

  /** NOT after AND, OR or XOR inverts what follows; after another operator it is read as a name, and what follows is not read. */
  lemma NotAfter(h: Host, a: Operand, o: BinOp, b: Operand, rest: seq<Token>)
    requires Plain(h, a) && Plain(h, b) && Clear(rest)
    ensures Logical(o) ==>
              Parse(h, OR, a.ts + [Oper(o)] + ([Token.Not] + b.ts) + rest) == Parsed(h.bin(o, a.v, h.not(b.v)), rest)
    ensures !Logical(o) && Clear(b.ts) ==>
              Parse(h, OR, a.ts + [Oper(o)] + [Token.Not] + (b.ts + rest))
              == Parsed(h.bin(o, a.v, h.name("NOT", false, [])), b.ts + rest)
  {
    LogicalIs(o);
    if Logical(o) {
      var more := [Token.Not] + (b.ts + rest);
      assert a.ts + [Oper(o)] + ([Token.Not] + b.ts) + rest == a.ts + ([Oper(o)] + more);
      assert more[1..] == b.ts + rest;
      ReadsRow(h, NOT, b, [], rest);
      ReadsRow(h, NOT, a, [], [Oper(o)] + more);
      if o != And { Through1(h, AND, more, h.not(b.v), rest); }
      NotThen(h, a.ts + ([Oper(o)] + more), a.v, o, more, h.not(b.v), rest);
    } else if Clear(b.ts) {
      var n := Operand([Token.Not], h.name("NOT", false, []));
      forall r ensures ReadBefore(h, n, r) {
        assert (n.ts + r)[1..] == r;
      }
      var links := [Link(o, n)];
      forall i ensures GoodAt(h, links, i) {
      }
      TokensOne(a, o, n);
      RowGrouped(h, a, links, b.ts + rest);
      GroupedOne(h, a.v, o, n);
    }
  }

  /** Literals, variables, calls, negations and anything in parentheses are operands. */
  lemma ExprOperand(h: Host, e: Expr)
    ensures Plain(h, Operand(Print(e, PRIMARY), Eval(h, e)))
  {
    var x := Operand(Print(e, PRIMARY), Eval(h, e));
    if Level(e) >= PRIMARY { NotFirst(e); }
    forall rest ensures ReadBefore(h, x, rest) {
      if !Starts(rest, Open) { ReadsAny(h, e, PRIMARY, rest); }
    }
  }
}
