/** Where regexec falls short of the meaning of the tree, by example. */
module RegexLimits {
  import opened Common
  import opened RegexTree
  import opened RegexRun
  import opened RegexSemantics
  import opened RegexExec
  import RegexSyntax
  import RegexParsed
  import G = RegexGrammar

  const A_STAR := Node(Repeat(0, -1, Node(Char(97), None)), None)
  const GROUP := Node(Group(1, A_STAR), None)
  const BACK := Node(Ref(1), None)
  const B_BACK := Node(Char(98), Some(BACK))

  /** \(a*\)*b\1 */
  const PATTERN := Node(Repeat(0, -1, GROUP), Some(B_BACK))
  const PROG := Prog(PATTERN, 1, false, false, false)

  const AB := Env([97, 98], false, false, false, false)

  /** A turn of the outer repeat that takes nothing is dropped. */
  lemma EmptyTurn(s: nat, c: Caps, turns: nat)
    requires 1 <= s <= 2
    ensures Try(AB, GROUP, s, c, Turn(PATTERN, turns, s, Done)) == Out([], [], 3, false)
  {
    var k := Close(1, Turn(PATTERN, turns, s, Done));
    var c' := OpenGroup(c, 1, s);
    assert Try(AB, A_STAR.op.body, s, c', Turn(A_STAR, 0, s, k)) == Out([], [], 1, false);
    assert Advance(AB, s, CloseGroup(c', 1, s), k.rest) == NOTHING;
    assert Advance(AB, s, c', k) == NOTHING;
    assert Try(AB, A_STAR, s, c', k) == Out([], [], 2, false);
  }

  /** b\1 fails at the end of the text unless group 1 is set to the empty text. */
  lemma BackFails(s: nat, c: Caps)
    requires s <= 2 && |c.so| == |c.eo| == 2 && (c.so[1] < 0 || c.eo[1] == c.so[1] + 1)
    ensures Try(AB, B_BACK, s, c, Done).ways == [] && Try(AB, B_BACK, s, c, Done).visits <= 2
    ensures !Try(AB, B_BACK, s, c, Done).stop
  {
    if s == 1 {
      assert RefEnd(AB, c, 1, 2) == None;
      assert Try(AB, BACK, 2, c, Done) == Out([], [], 1, false);
      assert Advance(AB, 2, c, Then(BACK, Done)) == Out([], [], 1, false);
    }
  }

  /** The a taken and group 1 closed: the only way on is one that \1 refuses. */
  lemma AfterFirstTurn(c: Caps)
    requires |c.so| == |c.eo| == 2 && c.eo[1] == c.so[1] + 1
    ensures var o := Advance(AB, 1, c, Turn(PATTERN, 0, 0, Done));
            o.ways == [] && !o.stop && o.visits <= 5
  {
    EmptyTurn(1, c, 1);
    BackFails(1, c);
    assert Advance(AB, 1, c, Then(B_BACK, Done)) == Try(AB, B_BACK, 1, c, Done);
  }

  lemma InsideGroup(c: Caps)
    requires |c.so| == |c.eo| == 2 && c.so[1] == 0
    ensures var o := Advance(AB, 1, c, Turn(A_STAR, 0, 0, Close(1, Turn(PATTERN, 0, 0, Done))));
            o.ways == [] && !o.stop && o.visits <= 6
  {
    var k := Close(1, Turn(PATTERN, 0, 0, Done));
    AfterFirstTurn(CloseGroup(c, 1, 1));
    assert Advance(AB, 1, c, k) == Advance(AB, 1, CloseGroup(c, 1, 1), k.rest);
    assert Try(AB, A_STAR.op.body, 1, c, Turn(A_STAR, 1, 1, k)) == Out([], [], 1, false);
  }

  lemma TakeA(s: nat, c: Caps, k: Cont)
    requires s == 0
    ensures Try(AB, A_STAR.op.body, s, c, k) == Visit(Advance(AB, s + 1, c, k))
  {
  }

  lemma ManyA(s: nat, c: Caps, k: Cont)
    requires s <= 2
    ensures Try(AB, A_STAR, s, c, k)
         == Visit(Chain(Try(AB, A_STAR.op.body, s, c, Turn(A_STAR, 0, s, k)), Advance(AB, s, c, k)))
  {
  }

  lemma EmptyFirst(s: nat, c: Caps)
    requires s == 0
    ensures Advance(AB, s, c, Close(1, Turn(PATTERN, 0, s, Done))) == NOTHING
  {
    assert Advance(AB, s, CloseGroup(c, 1, s), Turn(PATTERN, 0, s, Done)) == NOTHING;
  }

  /** Inside the group at the start: the a is taken, or the turn is empty and dropped. */
  lemma InnerRepeat(s: nat, c: Caps)
    requires |c.so| == |c.eo| == 2 && c.so[1] == s == 0
    ensures var o := Try(AB, A_STAR, s, c, Close(1, Turn(PATTERN, 0, s, Done)));
            o.ways == [] && !o.stop && o.visits <= 8
  {
    var k := Close(1, Turn(PATTERN, 0, s, Done));
    InsideGroup(c);
    TakeA(s, c, Turn(A_STAR, 0, s, k));
    EmptyFirst(s, c);
    ManyA(s, c, k);
  }

  lemma FirstTurn(s: nat, c: Caps)
    requires |c.so| == |c.eo| == 2 && s == 0
    ensures var o := Try(AB, GROUP, s, c, Turn(PATTERN, 0, s, Done));
            o.ways == [] && !o.stop && o.visits <= 9
  {
    InnerRepeat(s, OpenGroup(c, 1, s));
  }

  lemma NothingAt(s: nat)
    requires s <= 2
    ensures SearchAt(AB, PROG, s).ways == [] && SearchAt(AB, PROG, s).visits <= 12
  {
    var c := Start(1, s);
    if s == 0 { FirstTurn(s, c); } else { EmptyTurn(s, c, 0); }
    BackFails(s, c);
    var first := Try(AB, GROUP, s, c, Turn(PATTERN, 0, s, Done));
    var second := Try(AB, B_BACK, s, c, Done);
    assert Advance(AB, s, c, Then(B_BACK, Done)) == second;
    assert TryOut(AB, PATTERN, s, c, Done) == Chain(first, second);
  }

  /** The group takes the a, or nothing. */
  lemma GroupTakes(s: nat, c: Caps, e: nat)
    requires s <= e <= 1
    ensures Derives(AB, GROUP, s, c, e, CloseGroup(OpenGroup(c, 1, s), 1, e))
  {
    var o := OpenGroup(c, 1, s);
    assert TurnsDerive(AB, A_STAR.op.body, 0, e, o, e, o);
    if s < e {
      assert Derives(AB, A_STAR.op.body, s, o, e, o);
      assert TurnsDerive(AB, A_STAR.op.body, 1, s, o, e, o);
    }
    assert Derives(AB, A_STAR, s, o, e, o);
  }

  lemma TwoTurns(c: Caps, c1: Caps, c2: Caps)
    requires Derives(AB, GROUP, 0, c, 1, c1) && Derives(AB, GROUP, 1, c1, 1, c2)
    ensures OpDerives(AB, PATTERN.op, 0, c, 1, c2)
  {
    assert TurnsDerive(AB, GROUP, 0, 1, c2, 1, c2);
    assert TurnsDerive(AB, GROUP, 1, 1, c1, 1, c2);
    assert TurnsDerive(AB, GROUP, 2, 0, c, 1, c2);
  }

  lemma BackMatches(c: Caps)
    requires |c.so| == |c.eo| == 2 && c.so[1] == c.eo[1] == 1
    ensures Derives(AB, B_BACK, 1, c, 2, c)
  {
    assert RefEnd(AB, c, 1, 2) == Some(2);
    assert Derives(AB, BACK, 2, c, 2, c);
    assert OpDerives(AB, B_BACK.op, 1, c, 2, c);
  }

  lemma Derivable()
    ensures Matches(AB, PROG, 0, 2)
  {
    var c := Start(1, 0);
    var c1 := CloseGroup(OpenGroup(c, 1, 0), 1, 1);
    var c2 := CloseGroup(OpenGroup(c1, 1, 1), 1, 1);
    GroupTakes(0, c, 1);
    GroupTakes(1, c1, 1);
    TwoTurns(c, c1, c2);
    BackMatches(c2);
    assert Derives(AB, PATTERN, 0, c, 2, c2);
  }

  lemma {:induction false} NothingFound(s: nat, steps: nat)
    requires s <= 2 && steps <= 12 * s
    ensures Search(AB, PROG, s, steps) == NoMatch
    decreases 2 - s
  {
    NothingAt(s);
    if s < 2 {
      NothingFound(s + 1, steps + SearchAt(AB, PROG, s).visits);
    }
  }

  lemma Unsafe()
    ensures !RefsSafe(PATTERN)
  {
    assert Groups(GROUP) == {1} && Refs(BACK) == {1} && Refs(B_BACK) == {1};
    assert Refs(PATTERN) == {1} by { assert Refs(A_STAR) == {}; }
  }

  /** The pattern as regcomp receives it, in the basic syntax. */
  const SOURCE := RegexSyntax.Source([92, 40, 97, 42, 92, 41, 42, 98, 92, 49], false, false, false, map[])

  /** Its description. */
  const INNER := G.Alt(G.Branch([G.Piece(G.Plain(97), [G.Star])]), [])
  const PIECE := G.Piece(G.Paren(INNER), [G.Star])
  const AFTER := [G.Piece(G.Plain(98), []), G.Piece(G.Back(49), [])]
  const PIECES := [PIECE] + AFTER

  lemma Starred(op: Op)
    ensures G.QuantsText(false, [G.Star]) == [42] && G.QuantsOk([G.Star])
    ensures G.Quantified(op, [G.Star]) == Repeat(0, -1, Node(op, None))
  {
    assert [G.Star][1..] == [];
    assert G.QuantsText(false, []) == [];
  }

  lemma Unquantified(a: G.Atom)
    ensures G.PieceText(false, G.Piece(a, [])) == G.AtomText(false, a)
  {
  }

  lemma InnerIs()
    ensures G.AltText(false, INNER) == [97, 42] && G.AltOk(SOURCE, INNER, 1, 1) && G.AltNode(SOURCE, INNER, 1) == G.Meant(A_STAR, 1)
  {
    var p := G.Piece(G.Plain(97), [G.Star]);
    Starred(Char(97));
    assert G.PieceText(false, p) == [97, 42];
    assert G.PiecesText(false, [p]) == [97, 42];
    assert [A_STAR.op] + [] == [A_STAR.op];
    assert G.PiecesOps(SOURCE, [p], 1) == G.Meant([A_STAR.op], 1);
  }

  lemma LastIs()
    ensures var ps := [G.Piece(G.Back(49), [])];
            && G.PiecesText(false, ps) == [92, 49] && G.PiecesOk(SOURCE, ps, false, false, 1, 0)
            && G.PiecesOps(SOURCE, ps, 1) == G.Meant([Ref(1)], 1)
  {
    var ps := [G.Piece(G.Back(49), [])];
    assert ps[1..] == [];
    Unquantified(G.Back(49));
    assert G.PiecesText(false, []) == [] && G.PiecesOps(SOURCE, [], 1) == G.Meant([], 1);
    assert G.AtomOp(SOURCE, G.Back(49), 1) == G.Meant(Ref(1), 1);
    assert [Ref(1)] + [] == [Ref(1)];
  }

  lemma AfterIs()
    ensures G.PiecesText(false, AFTER) == [98, 92, 49] && G.PiecesOk(SOURCE, AFTER, false, false, 1, 0)
    ensures G.PiecesOps(SOURCE, AFTER, 1) == G.Meant([Char(98), Ref(1)], 1)
  {
    assert AFTER[1..] == [G.Piece(G.Back(49), [])];
    LastIs();
    Unquantified(G.Plain(98));
    assert G.AtomOp(SOURCE, G.Plain(98), 1) == G.Meant(Char(98), 1);
    assert [Char(98)] + [Ref(1)] == [Char(98), Ref(1)];
  }

  lemma PieceIs()
    ensures G.PieceText(false, PIECE) == [92, 40, 97, 42, 92, 41, 42] && G.AtomOk(SOURCE, PIECE.atom, 0, 0)
    ensures G.AtomOp(SOURCE, PIECE.atom, 0) == G.Meant(Group(1, A_STAR), 1)
  {
    InnerIs();
    Starred(Group(1, A_STAR));
    assert G.AtomText(false, PIECE.atom) == [92, 40] + ([97, 42] + [92, 41]);
  }

  lemma PiecesAre()
    ensures G.PiecesText(false, PIECES) == SOURCE.pat && G.PiecesOk(SOURCE, PIECES, true, true, 0, 0)
    ensures G.PiecesOps(SOURCE, PIECES, 0) == G.Meant([PATTERN.op, Char(98), Ref(1)], 1)
  {
    PieceIs();
    AfterIs();
    Starred(Group(1, A_STAR));
    assert PIECES[0] == PIECE && PIECES[1..] == AFTER;
    assert [PATTERN.op] + [Char(98), Ref(1)] == [PATTERN.op, Char(98), Ref(1)];
  }

  lemma Compiles()
    ensures RegexSyntax.Compile(SOURCE).Ok? && RegexSyntax.Compile(SOURCE).value == PATTERN
    ensures RegexSyntax.Compile(SOURCE).st.groups == 1
  {
    var alt := G.Alt(G.Branch(PIECES), []);
    PiecesAre();
    assert G.AltText(false, alt) == SOURCE.pat;
    var ops := [PATTERN.op, Char(98), Ref(1)];
    assert ops[1..] == [Char(98), Ref(1)] && ops[1..][1..] == [Ref(1)];
    assert RegexSyntax.Link(ops[1..]) == B_BACK;
    assert RegexSyntax.Link(ops) == PATTERN;
    RegexParsed.CompileReads(SOURCE, alt);
  }

  /** The pattern \(a*\)*b\1 matches "ab": a second, empty turn sets \1 to nothing. No lean derivation has that turn;
      regexec drops it and reports no match. */
  lemma LostBackReference()
    ensures RegexSyntax.Compile(SOURCE).Ok? && PROG.root == RegexSyntax.Compile(SOURCE).value
    ensures PROG.ngroups == RegexSyntax.Compile(SOURCE).st.groups
    ensures Matches(AB, PROG, 0, 2) && !LeanMatches(AB, PROG, 0, 2)
    ensures Search(AB, PROG, 0, 0) == NoMatch && !RefsSafe(PROG.root)
  {
    Compiles();
    Derivable();
    NothingFound(0, 0);
    SearchCorrect(AB, PROG, 0, 0);
    assert !MatchesAt(AB, PROG, true, 0);
    assert Ends(AB, PROG, true, 0, 2) <==> LeanMatches(AB, PROG, 0, 2);
    Unsafe();
  }
}
