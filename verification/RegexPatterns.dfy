/**
  The two halves together: what regcomp and regexec promise about a pattern.
  */
module RegexPatterns {
  import opened Common
  import opened RegexTree
  import opened RegexSyntax
  import opened RegexCompiled
  import opened RegexSemantics
  import opened RegexComplete
  import opened RegexExec
  import opened RegexIcase
  import opened RegexMeaning
  import G = RegexGrammar
  import RegexParsed
  import RegexAccepts

  /** What regcomp stores. */
  function Compiled(src: Source, nosub: bool): Prog
    requires Compile(src).Ok?
  {
    Prog(Compile(src).value, Compile(src).st.groups, src.icase, src.newline, nosub)
  }

  /** Found exactly when some part of the text is in the language, then at the leftmost start and the longest end. */
  ghost predicate FindsLongest(env: Env, root: Node, v: Verdict) {
    match v
    case Found(s, w) =>
      && s <= w.end <= |env.text| && Lang(env, root, s, w.end)
      && (forall i, j :: 0 <= i < s && i <= j <= |env.text| ==> !Lang(env, root, i, j))
      && (forall j :: w.end < j <= |env.text| ==> !Lang(env, root, s, j))
    case NoMatch => forall i, j :: 0 <= i <= j <= |env.text| ==> !Lang(env, root, i, j)
    case NoSpace => false
  }

  lemma NoRefsLongest(env: Env, p: Prog)
    requires NoRefs(p.root) && WithinFuse(env, p)
    ensures FindsLongest(env, p.root, Search(env, p, 0, 0))
  {
    NoRefsSafe(p.root);
    SafeIsBest(env, p);
    var v := Search(env, p, 0, 0);
    forall i, j | 0 <= i <= j <= |env.text| ensures Ends(env, p, false, i, j) <==> Lang(env, p.root, i, j) {
      MatchesIsLang(env, p, i, j);
    }
    if v.Found? {
      var d :| Derives(env, p.root, v.start, Start(p.ngroups, v.start), v.way.end, d);
      DerivesForward(env, p.root, v.start, Start(p.ngroups, v.start), v.way.end, d);
    }
    var before := if v.Found? then v.start else |env.text| + 1;
    forall i, j | 0 <= i < before && i <= j <= |env.text| ensures !Ends(env, p, false, i, j) {
      assert !MatchesAt(env, p, false, i);
    }
  }

  /** Every extended pattern and every text, as long as the step fuse is not reached. */
  lemma ExtendedPatterns(src: Source, nosub: bool, text: seq<Byte>, notBol: bool, notEol: bool)
    requires src.ere && Compile(src).Ok? && WithinFuse(Call(Compiled(src, nosub), text, notBol, notEol), Compiled(src, nosub))
    ensures var p := Compiled(src, nosub);
            var env := Call(p, text, notBol, notEol);
            WellFormed(p) && FindsLongest(env, p.root, Search(env, p, 0, 0))
  {
    CompiledGood(src);
    NoRefsLongest(Call(Compiled(src, nosub), text, notBol, notEol), Compiled(src, nosub));
  }

  /** With REG_ICASE, for every pattern, texts that differ only in the case of ASCII letters give the same result. */
  lemma CaseDoesNotMatter(src: Source, nosub: bool, a: seq<Byte>, b: seq<Byte>, notBol: bool, notEol: bool)
    requires src.icase && Compile(src).Ok? && |a| == |b| && forall i :: 0 <= i < |a| ==> ToLower(a[i]) == ToLower(b[i])
    ensures var p := Compiled(src, nosub);
            Search(Call(p, a, notBol, notEol), p, 0, 0) == Search(Call(p, b, notBol, notEol), p, 0, 0)
  {
    CompiledGood(src);
    var p := Compiled(src, nosub);
    SearchLockstep(Call(p, a, notBol, notEol), Call(p, b, notBol, notEol), p, 0, 0);
  }

  /** Found exactly when the description takes some part of the text, then at the leftmost start and the longest end. */
  ghost predicate FindsSaid(env: Env, classes: Classes, a: G.Alt, v: Verdict) {
    match v
    case Found(s, w) =>
      && s <= w.end <= |env.text| && AltSays(env, classes, a, s, w.end)
      && (forall i, j :: 0 <= i < s && i <= j <= |env.text| ==> !AltSays(env, classes, a, i, j))
      && (forall j :: w.end < j <= |env.text| ==> !AltSays(env, classes, a, s, j))
    case NoMatch => forall i, j :: 0 <= i <= j <= |env.text| ==> !AltSays(env, classes, a, i, j)
    case NoSpace => false
  }

  lemma LongestIsSaid(src: Source, env: Env, a: G.Alt, root: Node, v: Verdict)
    requires Fitting(src, env) && root == G.AltNode(src, a, 0).v && FindsLongest(env, root, v)
    ensures FindsSaid(env, src.classes, a, v)
  {
    forall i, j | 0 <= i <= j <= |env.text| ensures Lang(env, root, i, j) <==> AltSays(env, src.classes, a, i, j) {
      AltMeans(src, env, a, 0, i, j);
    }
  }

  /**
    From the text of a pattern to what it finds: a pattern written down from a
    description of the grammar, in either syntax, compiles to the tree that
    the description means, and regexec finds the leftmost longest of its lean
    matches; without back references, which extended syntax does not have,
    that is the leftmost longest part of the text the description takes.
    */
  lemma GrammarFinds(src: Source, a: G.Alt, nosub: bool, text: seq<Byte>, notBol: bool, notEol: bool)
    requires G.AltOk(src, a, 0, 0) && src.pat == G.AltText(src.ere, a)
    ensures Compile(src).Ok? && Compiled(src, nosub).root == G.AltNode(src, a, 0).v
    ensures var p := Compiled(src, nosub);
            var env := Call(p, text, notBol, notEol);
            var v := Search(env, p, 0, 0);
            && Correct(env, p, v) && (src.ere ==> NoRefs(p.root))
            && (NoRefs(p.root) && WithinFuse(env, p) ==> FindsSaid(env, src.classes, a, v))
  {
    RegexParsed.CompileReads(src, a);
    CompiledGood(src);
    var p := Compiled(src, nosub);
    var env := Call(p, text, notBol, notEol);
    SearchCorrect(env, p, 0, 0);
    if NoRefs(p.root) && WithinFuse(env, p) {
      NoRefsLongest(env, p);
      LongestIsSaid(src, env, a, p.root, Search(env, p, 0, 0));
    }
  }

  /** Every pattern that compiles has a description, and finds what that description says. */
  lemma EveryPattern(src: Source, nosub: bool, text: seq<Byte>, notBol: bool, notEol: bool) returns (a: G.Alt)
    requires RegexAccepts.Clean(src) && Compile(src).Ok?
    ensures src.pat == G.AltText(src.ere, a)
    ensures var p := Compiled(src, nosub);
            var env := Call(p, text, notBol, notEol);
            NoRefs(p.root) && WithinFuse(env, p) ==> FindsSaid(env, src.classes, a, Search(env, p, 0, 0))
  {
    a := RegexAccepts.CompileDescribed(src);
    GrammarFinds(src, a, nosub, text, notBol, notEol);
  }

  // ----- a pattern that is one bracket -----

  /** The first byte of the text that the bracket holds, and no other. */
  ghost predicate FindsByte(env: Env, classes: Classes, negated: bool, xs: seq<G.Item>, v: Verdict) {
    match v
    case Found(s, w) =>
      && s < |env.text| && w.end == s + 1 && InBracket(env, classes, negated, xs, env.text[s])
      && (forall i :: 0 <= i < s ==> !InBracket(env, classes, negated, xs, env.text[i]))
    case NoMatch => forall i :: 0 <= i < |env.text| ==> !InBracket(env, classes, negated, xs, env.text[i])
    case NoSpace => false
  }

  function Alone(a: G.Atom): G.Alt {
    G.Alt(G.Branch([G.Piece(a, [])]), [])
  }

  lemma AloneSays(env: Env, classes: Classes, a: G.Atom, i: nat, j: nat)
    requires i <= |env.text|
    ensures AltSays(env, classes, Alone(a), i, j) <==> j <= |env.text| && AtomSays(env, classes, a, i, j)
  {
    var ps := Alone(a).first.pieces;
    if PiecesSay(env, classes, ps, i, j) { OnePiece(env, classes, ps, i, j); }
    if j <= |env.text| && AtomSays(env, classes, a, i, j) {
      assert PieceSays(env, classes, ps[0].atom, ps[0].quants, i, j) && PiecesSay(env, classes, ps[1..], j, j);
    }
  }

  lemma OnePiece(env: Env, classes: Classes, ps: seq<G.Piece>, i: nat, j: nat)
    requires i <= |env.text| && |ps| == 1 && PiecesSay(env, classes, ps, i, j)
    ensures j <= |env.text| && PieceSays(env, classes, ps[0].atom, ps[0].quants, i, j)
  {
    var x: nat :| x <= |env.text| && PieceSays(env, classes, ps[0].atom, ps[0].quants, i, x)
                  && PiecesSay(env, classes, ps[1..], x, j);
  }

  lemma BracketFinds(src: Source, negated: bool, xs: seq<G.Item>, nosub: bool, text: seq<Byte>, notBol: bool, notEol: bool)
    requires G.AtomOk(src, G.Bracket(negated, xs), 0, 0) && src.pat == G.AtomText(src.ere, G.Bracket(negated, xs))
    ensures Compile(src).Ok?
    ensures var p := Compiled(src, nosub);
            var env := Call(p, text, notBol, notEol);
            WithinFuse(env, p) ==> FindsByte(env, src.classes, negated, xs, Search(env, p, 0, 0))
  {
    var a := G.Bracket(negated, xs);
    AloneWritten(src, a);
    GrammarFinds(src, Alone(a), nosub, text, notBol, notEol);
    var p := Compiled(src, nosub);
    var env := Call(p, text, notBol, notEol);
    assert p.root == Node(G.AtomOp(src, a, 0).v, None);
    forall i, j | 0 <= i <= j <= |env.text|
      ensures AltSays(env, src.classes, Alone(a), i, j) <==> AtomSays(env, src.classes, a, i, j) {
      AloneSays(env, src.classes, a, i, j);
    }
    if WithinFuse(env, p) { SaidIsByte(env, src.classes, negated, xs, Search(env, p, 0, 0)); }
  }

  lemma AloneWritten(src: Source, a: G.Atom)
    requires a.Bracket? && G.AtomOk(src, a, 0, 0)
    ensures G.AltOk(src, Alone(a), 0, 0) && G.AltText(src.ere, Alone(a)) == G.AtomText(src.ere, a)
    ensures G.AltNode(src, Alone(a), 0).v == Node(G.AtomOp(src, a, 0).v, None)
  {
    var ps := [G.Piece(a, [])];
    assert ps[1..] == [];
    assert G.PiecesText(src.ere, ps) == G.AtomText(src.ere, a);
    assert G.PiecesOps(src, ps, 0).v == [G.AtomOp(src, a, 0).v];
  }

  lemma SaidIsByte(env: Env, classes: Classes, negated: bool, xs: seq<G.Item>, v: Verdict)
    requires FindsSaid(env, classes, Alone(G.Bracket(negated, xs)), v)
    requires forall i, j :: 0 <= i <= j <= |env.text| ==>
               (AltSays(env, classes, Alone(G.Bracket(negated, xs)), i, j)
                <==> AtomSays(env, classes, G.Bracket(negated, xs), i, j))
    ensures FindsByte(env, classes, negated, xs, v)
  {
    var a := G.Bracket(negated, xs);
    var before := if v.Found? then v.start else |env.text|;
    if !v.NoSpace? {
      forall i | 0 <= i < before && i < |env.text| ensures !InBracket(env, classes, negated, xs, env.text[i]) {
        var j := i + 1;
        assert !AltSays(env, classes, Alone(a), i, j);
        assert !AtomSays(env, classes, a, i, j);
      }
    }
  }
}
