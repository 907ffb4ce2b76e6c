/**
  Back references: what `\(A\)\1` finds, for every A without references.
  */
module RegexDoubled {
  import opened Common
  import opened RegexTree
  import opened RegexSyntax
  import opened RegexSemantics
  import opened RegexGroups
  import opened RegexExec
  import opened RegexCompiled
  import opened RegexMeaning
  import opened RegexPatterns
  import G = RegexGrammar
  import RegexParsed
  import RegexRun

  // ----- the pattern -----

  function Pieces(a: G.Alt): seq<G.Piece> {
    [G.Piece(G.Paren(a), []), G.Piece(G.Back(49), [])]
  }

  function Doubling(a: G.Alt): G.Alt {
    G.Alt(G.Branch(Pieces(a)), [])
  }

  /** Its tree, where `b` is that of A. */
  function Tree(b: Node): Node {
    Node(Group(1, b), Some(Node(Ref(1), None)))
  }

  lemma BackWritten(src: Source, p: G.Piece, g: nat)
    requires !src.ere && p == G.Piece(G.Back(49), []) && g >= 1
    ensures G.PiecesText(false, [p]) == [92, 49] && G.PiecesOps(src, [p], g).v == [Ref(1)]
    ensures G.PiecesOk(src, [p], false, false, g, 0)
  {
    var ps := [p];
    assert ps[0] == p && ps[1..] == [];
    assert G.PieceText(false, p) == [92, 49];
    assert G.AtomOp(src, p.atom, g) == G.Meant(Ref(1), g) && G.Quantified(Ref(1), p.quants) == Ref(1);
    assert G.PiecesOps(src, ps[1..], g) == G.Meant([], g);
    assert G.PiecesOps(src, ps, g).v == [Ref(1)] + [];
    assert G.PiecesOk(src, ps[1..], false, false, g, 0);
    assert G.AtomOk(src, p.atom, g, 0) && G.QuantsOk(p.quants) && G.Fits(false, p.atom, G.SpotOf(false, ps, false, false, 0));
  }

  lemma Written(src: Source, a: G.Alt)
    requires !src.ere && G.AltOk(src, a, 1, 1)
    ensures G.AltText(false, Doubling(a)) == [92, 40] + G.AltText(false, a) + [92, 41, 92, 49]
    ensures G.AltOk(src, Doubling(a), 0, 0)
    ensures G.AltNode(src, Doubling(a), 0).v == Tree(G.AltNode(src, a, 1).v)
  {
    var ps := Pieces(a);
    var b := G.AltNode(src, a, 1);
    GroupsGrow(src, a, 1);
    assert ps[1..] == [ps[1]];
    BackWritten(src, ps[1], b.groups);
    assert G.AtomOp(src, ps[0].atom, 0) == G.Meant(Group(1, b.v), b.groups);
    assert G.AtomText(false, ps[0].atom) == [92, 40] + (G.AltText(false, a) + [92, 41]);
    assert G.PieceText(false, ps[0]) == G.AtomText(false, ps[0].atom);
    assert G.PiecesOps(src, ps, 0).v == [Group(1, b.v)] + [Ref(1)];
    LinkTwo(Group(1, b.v), Ref(1));
  }

  lemma LinkTwo(x: Op, y: Op)
    ensures Link([x] + [y]) == Node(x, Some(Node(y, None)))
  {
    assert ([x] + [y])[1..] == [y];
  }

  lemma {:induction false} GroupsGrow(src: Source, a: G.Alt, g: nat)
    ensures G.AltNode(src, a, g).groups >= g
    decreases a, 4
  {
    PiecesGrow(src, a.first.pieces, g);
    OthersGrow(src, a.others, G.PiecesOps(src, a.first.pieces, g).groups);
  }

  lemma {:induction false} PiecesGrow(src: Source, ps: seq<G.Piece>, g: nat)
    ensures G.PiecesOps(src, ps, g).groups >= g
    decreases ps, 2
  {
    if ps != [] {
      if ps[0].atom.Paren? { GroupsGrow(src, ps[0].atom.body, g + 1); }
      PiecesGrow(src, ps[1..], G.AtomOp(src, ps[0].atom, g).groups);
    }
  }

  lemma {:induction false} OthersGrow(src: Source, bs: seq<G.Branch>, g: nat)
    ensures G.OthersNodes(src, bs, g).groups >= g
    decreases bs, 3
  {
    if bs != [] {
      PiecesGrow(src, bs[0].pieces, g);
      OthersGrow(src, bs[1..], G.PiecesOps(src, bs[0].pieces, g).groups);
    }
  }

  /** A description without back references. */
  predicate NoBack(a: G.Alt)
    decreases a, 4
  {
    NoBackIn(a.first.pieces) && forall k :: 0 <= k < |a.others| ==> NoBackIn(a.others[k].pieces)
  }

  predicate NoBackIn(ps: seq<G.Piece>)
    decreases ps, 2
  {
    ps == [] || (!ps[0].atom.Back? && (ps[0].atom.Paren? ==> NoBack(ps[0].atom.body)) && NoBackIn(ps[1..]))
  }

  lemma {:induction false} NoRefsQuantified(op: Op, qs: seq<G.Quant>)
    requires NoRefs(Node(op, None))
    ensures NoRefs(Node(G.Quantified(op, qs), None))
    decreases qs
  {
    if qs != [] { NoRefsQuantified(Repeat(G.QuantCount(qs[0]).min, G.QuantCount(qs[0]).max, Node(op, None)), qs[1..]); }
  }

  lemma {:induction false} NoRefsAlt(src: Source, a: G.Alt, g: nat)
    requires NoBack(a)
    ensures NoRefs(G.AltNode(src, a, g).v)
    decreases a, 4
  {
    NoRefsPieces(src, a.first.pieces, g);
    NoRefsOthers(src, a.others, G.PiecesOps(src, a.first.pieces, g).groups);
  }

  lemma {:induction false} NoRefsPieces(src: Source, ps: seq<G.Piece>, g: nat)
    requires NoBackIn(ps)
    ensures NoRefs(Link(G.PiecesOps(src, ps, g).v))
    decreases ps, 2
  {
    if ps != [] {
      if ps[0].atom.Paren? { NoRefsAlt(src, ps[0].atom.body, g + 1); }
      var a := G.AtomOp(src, ps[0].atom, g);
      assert NoRefs(Node(a.v, None));
      NoRefsQuantified(a.v, ps[0].quants);
      NoRefsPieces(src, ps[1..], a.groups);
      NoRefsLink([G.Quantified(a.v, ps[0].quants)] + G.PiecesOps(src, ps[1..], a.groups).v);
    }
  }

  lemma NoRefsLink(ops: seq<Op>)
    requires ops != [] && NoRefs(Node(ops[0], None)) && NoRefs(Link(ops[1..]))
    ensures NoRefs(Link(ops))
  {
  }

  lemma {:induction false} NoRefsOthers(src: Source, bs: seq<G.Branch>, g: nat)
    requires forall k :: 0 <= k < |bs| ==> NoBackIn(bs[k].pieces)
    ensures forall k :: 0 <= k < |G.OthersNodes(src, bs, g).v| ==> NoRefs(G.OthersNodes(src, bs, g).v[k])
    decreases bs, 3
  {
    if bs != [] {
      NoRefsPieces(src, bs[0].pieces, g);
      NoRefsOthers(src, bs[1..], G.PiecesOps(src, bs[0].pieces, g).groups);
    }
  }

  // ----- what the tree matches -----

  predicate Same(icase: bool, u: seq<Byte>, v: seq<Byte>) {
    |u| == |v| && forall t :: 0 <= t < |u| ==> SameByte(icase, u[t], v[t])
  }

  /** The text from `s` to `k`, and the same again up to `e`. */
  predicate Again(env: Env, s: nat, k: nat, e: nat) {
    s <= k <= e <= |env.text| && Same(env.icase, env.text[s..k], env.text[k..e])
  }

  /** A back reference to a group set from `s` to `k` leads from `k` exactly to where the text of the group ends again. */
  lemma RefMeans(env: Env, c: Caps, g: nat, s: nat, k: nat, e: nat)
    requires g < |c.so| && g < |c.eo| && c.so[g] == s <= c.eo[g] == k <= |env.text|
    ensures RefEnd(env, c, g, k) == Some(e) <==> Again(env, s, k, e)
  {
    if k + (k - s) <= |env.text| {
      var u, v := env.text[s..k], env.text[k..k + (k - s)];
      assert forall t :: 0 <= t < |u| ==> (SameChar(env, v[t], u[t]) <==> SameByte(env.icase, u[t], v[t]));
      assert SameText(env, v, u) <==> Same(env.icase, u, v);
    }
  }

  lemma {:induction false} NoRefsNone(n: Node)
    requires NoRefs(n)
    ensures Refs(n) == {}
  {
    match n.op {
      case Group(_, b) => NoRefsNone(b);
      case Choice(bs) => NoRefsNoneOf(bs);
      case Repeat(_, _, b) => NoRefsNone(b);
      case _ =>
    }
    if n.next.Some? { NoRefsNone(n.next.value); }
  }

  lemma {:induction false} NoRefsNoneOf(bs: seq<Node>)
    requires forall i :: 0 <= i < |bs| ==> NoRefs(bs[i])
    ensures RefsOf(bs) == {}
  {
    if bs != [] {
      NoRefsNone(bs[0]);
      NoRefsNoneOf(bs[1..]);
    }
  }

  lemma {:induction false} TurnsSafeOutside(n: Node, refs: set<nat>)
    requires Groups(n) !! refs
    ensures TurnsSafe(n, refs)
  {
    match n.op {
      case Group(_, b) => TurnsSafeOutside(b, refs);
      case Choice(bs) =>
        forall i | 0 <= i < |bs| ensures TurnsSafe(bs[i], refs) {
          GroupsOfContains(bs, i);
          TurnsSafeOutside(bs[i], refs);
        }
      case Repeat(_, _, b) => TurnsSafeOutside(b, refs);
      case _ =>
    }
    if n.next.Some? { TurnsSafeOutside(n.next.value, refs); }
  }

  lemma TreeSafe(b: Node)
    requires NoRefs(b) && 1 !in Groups(b)
    ensures RefsSafe(Tree(b))
  {
    NoRefsNone(b);
    var last := Node(Ref(1), None);
    assert Refs(last) == {1};
    assert Refs(Tree(b)) == {1};
    TurnsSafeOutside(b, {1});
    assert TurnsSafe(last, {1});
  }

  /** What the group leaves behind. */
  lemma GroupLeaves(env: Env, b: Node, s: nat, c: Caps, k: nat, d: Caps)
    requires s <= |env.text| && |c.so| == |c.eo| >= 2 && 1 !in Groups(b) && OpDerives(env, Group(1, b), s, c, k, d) && NoRefs(b)
    ensures s <= k <= |env.text| && Lang(env, b, s, k) && |d.so| == |c.so| && |d.eo| == |c.eo| && d.so[1] == s && d.eo[1] == k
  {
    var o := OpenGroup(c, 1, s);
    var e: Caps :| Derives(env, b, s, o, k, e) && d == CloseGroup(e, 1, k);
    DerivesInLang(env, b, s, o, k, e);
    DerivesForward(env, b, s, o, k, e);
    DerivesOnly(env, b, s, o, k, e);
  }

  lemma TreeSplits(env: Env, n: Node, s: nat, c: Caps, j: nat, d: Caps) returns (x: nat, e: Caps)
    requires s <= |env.text| && n.next.Some? && Derives(env, n, s, c, j, d)
    ensures x <= |env.text| && OpDerives(env, n.op, s, c, x, e) && Derives(env, n.next.value, x, e, j, d)
  {
    x, e :| x <= |env.text| && OpDerives(env, n.op, s, c, x, e) && Derives(env, n.next.value, x, e, j, d);
  }

  /** The group and then the reference: a text of the tree, and the same again. */
  lemma TreeMatches(env: Env, b: Node, ng: nat, s: nat, e: nat, d: Caps) returns (k: nat)
    requires s <= |env.text| && ng >= 1 && NoRefs(b) && 1 !in Groups(b) && Derives(env, Tree(b), s, Start(ng, s), e, d)
    ensures s <= k <= |env.text| && Lang(env, b, s, k) && Again(env, s, k, e)
    ensures |d.so| == |d.eo| == ng + 1 && d.so[1] == s && d.eo[1] == k
  {
    var x, c := TreeSplits(env, Tree(b), s, Start(ng, s), e, d);
    k := x;
    GroupLeaves(env, b, s, Start(ng, s), k, c);
    RefMeans(env, c, 1, s, k, e);
    assert OpDerives(env, Ref(1), k, c, e, d);
  }

  lemma MatchesTree(env: Env, b: Node, ng: nat, s: nat, k: nat, e: nat) returns (d: Caps)
    requires s <= |env.text| && ng >= 1 && 1 !in Groups(b) && Lang(env, b, s, k) && Again(env, s, k, e)
    ensures Derives(env, Tree(b), s, Start(ng, s), e, d)
  {
    var c, n := Start(ng, s), Tree(b);
    var e0 := LangDerives(env, b, s, OpenGroup(c, 1, s), k);
    DerivesOnly(env, b, s, OpenGroup(c, 1, s), k, e0);
    d := CloseGroup(e0, 1, k);
    RefMeans(env, d, 1, s, k, e);
    assert OpDerives(env, n.op, s, c, k, d);
    assert Derives(env, n.next.value, k, d, e, d);
  }

  // ----- what regexec finds -----

  /** A text that the description takes, written twice. */
  ghost predicate Twice(env: Env, classes: Classes, a: G.Alt, s: nat, e: nat)
    requires s <= |env.text|
  {
    exists k: nat :: AltSays(env, classes, a, s, k) && Again(env, s, k, e)
  }

  lemma MatchesTwice(src: Source, env: Env, p: Prog, a: G.Alt, s: nat, e: nat)
    requires Fitting(src, env) && s <= |env.text| && p.root == Tree(G.AltNode(src, a, 1).v) && p.ngroups >= 1
    requires NoRefs(G.AltNode(src, a, 1).v) && 1 !in Groups(G.AltNode(src, a, 1).v)
    ensures Matches(env, p, s, e) <==> Twice(env, src.classes, a, s, e)
  {
    var b := G.AltNode(src, a, 1).v;
    if d :| Derives(env, p.root, s, Start(p.ngroups, s), e, d) {
      var k := TreeMatches(env, b, p.ngroups, s, e, d);
      AltMeans(src, env, a, 1, s, k);
    }
    if k: nat :| AltSays(env, src.classes, a, s, k) && Again(env, s, k, e) {
      AltMeans(src, env, a, 1, s, k);
      var d := MatchesTree(env, b, p.ngroups, s, k, e);
    }
  }

  /** The leftmost longest part of the text that is a text of A written twice, and group 1 is its first half. */
  ghost predicate FindsTwice(env: Env, classes: Classes, a: G.Alt, v: Verdict) {
    match v
    case Found(s, w) =>
      && s <= w.end <= |env.text| && Twice(env, classes, a, s, w.end)
      && (forall i, j :: 0 <= i < s && i <= j <= |env.text| ==> !Twice(env, classes, a, i, j))
      && (forall j :: w.end < j <= |env.text| ==> !Twice(env, classes, a, s, j))
      && |w.caps.so| == |w.caps.eo| >= 2 && w.caps.so[1] == s && w.caps.eo[1] == s + (w.end - s) / 2
    case NoMatch => forall i, j :: 0 <= i <= j <= |env.text| ==> !Twice(env, classes, a, i, j)
    case NoSpace => false
  }

  lemma FirstHalf(env: Env, p: Prog, b: Node, s: nat, w: RegexRun.Way)
    requires s <= |env.text| && p.root == Tree(b) && p.ngroups >= 1 && NoRefs(b) && 1 !in Groups(b) && Derived(env, p, s, w)
    ensures s <= w.end <= |env.text|
    ensures |w.caps.so| == |w.caps.eo| >= 2 && w.caps.so[1] == s && w.caps.eo[1] == s + (w.end - s) / 2
  {
    var d :| Derives(env, p.root, s, Start(p.ngroups, s), w.end, d) && w.caps == Finish(d, w.end);
    var k := TreeMatches(env, b, p.ngroups, s, w.end, d);
  }

  lemma BestIsTwice(src: Source, env: Env, p: Prog, a: G.Alt, v: Verdict)
    requires Fitting(src, env) && WithinFuse(env, p) && Best(env, p, v)
    requires forall s, e: nat :: 0 <= s <= |env.text| ==> (Matches(env, p, s, e) <==> Twice(env, src.classes, a, s, e))
    requires v.Found? ==> v.start <= v.way.end <= |env.text| && var c := v.way.caps;
               |c.so| == |c.eo| >= 2 && c.so[1] == v.start && c.eo[1] == v.start + (v.way.end - v.start) / 2
    ensures FindsTwice(env, src.classes, a, v)
  {
    var before := if v.Found? then v.start else |env.text| + 1;
    forall i, j | 0 <= i < before && i <= j <= |env.text| ensures !Twice(env, src.classes, a, i, j) {
      assert !MatchesAt(env, p, false, i);
      assert !Ends(env, p, false, i, j);
    }
    if v.Found? {
      forall j | v.way.end < j <= |env.text| ensures !Twice(env, src.classes, a, v.start, j) {
        assert !Ends(env, p, false, v.start, j);
      }
    }
  }

  lemma DoubledFinds(src: Source, a: G.Alt, nosub: bool, text: seq<Byte>, notBol: bool, notEol: bool)
    requires !src.ere && G.AltOk(src, a, 1, 1) && NoBack(a)
    requires src.pat == [92, 40] + G.AltText(false, a) + [92, 41, 92, 49]
    ensures Compile(src).Ok?
    ensures var p := Compiled(src, nosub);
            var env := Call(p, text, notBol, notEol);
            WithinFuse(env, p) ==> FindsTwice(env, src.classes, a, Search(env, p, 0, 0))
  {
    Written(src, a);
    RegexParsed.CompileReads(src, Doubling(a));
    CompiledGood(src);
    var p := Compiled(src, nosub);
    var env := Call(p, text, notBol, notEol);
    var b := G.AltNode(src, a, 1).v;
    NoRefsAlt(src, a, 1);
    TreeSafe(b);
    forall s, e: nat | 0 <= s <= |env.text| ensures Matches(env, p, s, e) <==> Twice(env, src.classes, a, s, e) {
      MatchesTwice(src, env, p, a, s, e);
    }
    SafeIsBest(env, p);
    SearchCorrect(env, p, 0, 0);
    var v := Search(env, p, 0, 0);
    if v.Found? { FirstHalf(env, p, b, v.start, v.way); }
    if WithinFuse(env, p) { BestIsTwice(src, env, p, a, v); }
  }
}
