/**
  The statements of the BASIC interpreter, as classified by their first word,
  and structured programs with the flat form the interpreter works on.

  The rest of a statement is kept as text; what a text does to the store is
  given by a `Host` when a program is run (see BasicMachine).
  */
module BasicCode {

  type Text = string

  datatype Stmt =
    | Atom(t: Text)
    | End
    | IfThen(t: Text) | Else | EndIf
    | For(v: string, t: Text) | Next
    | While(t: Text) | Wend
    | Do(t: Text) | Loop(t: Text)
    | Gosub(l: nat) | Return

  /** GfbStmt: a statement with its two jump fields; -1 is "none". */
  datatype Line = Line(stmt: Stmt, jmp1: int, jmp2: int)

  /** Structured commands. */
  datatype Cmd =
    | Skip
    | Act(t: Text)
    | Seq(a: Cmd, b: Cmd)
    | If(t: Text, a: Cmd)
    | IfElse(t: Text, a: Cmd, b: Cmd)
    | ForTo(v: string, t: Text, a: Cmd)
    | WhileDo(t: Text, a: Cmd)
    | DoLoop(t: Text, a: Cmd, back: Text)
    | Call(l: nat)
    | Stop

  /** A main part and subroutines, reached by GOSUB to their labels. */
  datatype Program = Program(main: Cmd, subs: seq<Cmd>)

  /** Commands of one statement. */
  predicate Plain(c: Cmd) {
    c.Act? || c.Call? || c.Stop?
  }

  function PlainStmt(c: Cmd): Stmt
    requires Plain(c)
  {
    match c
    case Act(t) => Atom(t)
    case Call(l) => Gosub(l)
    case _ => End
  }

  /** Commands of an opening line, a body and a closing line. */
  predicate Block(c: Cmd) {
    c.If? || c.ForTo? || c.WhileDo? || c.DoLoop?
  }

  function Opening(c: Cmd): Stmt
    requires Block(c)
  {
    match c
    case If(t, _) => IfThen(t)
    case ForTo(v, t, _) => For(v, t)
    case WhileDo(t, _) => While(t)
    case _ => Do(c.t)
  }

  function Closing(c: Cmd): Stmt
    requires Block(c)
  {
    match c
    case If(_, _) => EndIf
    case ForTo(_, _, _) => Next
    case WhileDo(_, _) => Wend
    case _ => Loop(c.back)
  }

  function Size(c: Cmd): nat {
    if c.Skip? then 0
    else if c.Seq? then Size(c.a) + Size(c.b)
    else if c.IfElse? then Size(c.a) + Size(c.b) + 3
    else if Block(c) then Size(c.a) + 2
    else 1
  }

  /** The opening line of a block at `k` that closes at `end`, its jumps set. */
  function OpeningLine(c: Cmd, end: nat): Line
    requires Block(c)
  {
    match c
    case If(_, _) => Line(Opening(c), end + 1, -1)
    case ForTo(_, _, _) => Line(Opening(c), -1, end)
    case _ => Line(Opening(c), end, -1)
  }

  function ClosingLine(c: Cmd, k: nat): Line
    requires Block(c)
  {
    Line(Closing(c), if c.If? then -1 else k, -1)
  }

  /** A statement before gfb_preprocess. */
  function Bare(s: Stmt): Line {
    Line(s, -1, -1)
  }

  /** The statements of `c` are the lines from index `k` on; `linked`: with the jumps they need, else with none. */
  ghost predicate Coded(lines: seq<Line>, c: Cmd, k: nat, linked: bool)
    requires k + Size(c) <= |lines|
  {
    if c.Skip? then true
    else if c.Seq? then Coded(lines, c.a, k, linked) && Coded(lines, c.b, k + Size(c.a), linked)
    else if c.IfElse? then
      var other := k + 1 + Size(c.a);
      var end := other + 1 + Size(c.b);
      && lines[k] == (if linked then Line(IfThen(c.t), other + 1, -1) else Bare(IfThen(c.t)))
      && Coded(lines, c.a, k + 1, linked)
      && lines[other] == (if linked then Line(Else, -1, end + 1) else Bare(Else))
      && Coded(lines, c.b, other + 1, linked)
      && lines[end] == Bare(EndIf)
    else if Block(c) then
      var end := k + 1 + Size(c.a);
      && lines[k] == (if linked then OpeningLine(c, end) else Bare(Opening(c)))
      && Coded(lines, c.a, k + 1, linked)
      && lines[end] == (if linked then ClosingLine(c, k) else Bare(Closing(c)))
    else lines[k] == Bare(PlainStmt(c))
  }

  ghost predicate SameIn(l: seq<Line>, m: seq<Line>, k: nat, n: nat) {
    |l| == |m| && forall i :: k <= i < n && i < |l| ==> l[i] == m[i]
  }

  /** Only the lines of the command count. */
  lemma {:induction false} CodedFrame(l: seq<Line>, m: seq<Line>, c: Cmd, k: nat, linked: bool)
    requires k + Size(c) <= |l| && Coded(l, c, k, linked) && SameIn(l, m, k, k + Size(c))
    ensures Coded(m, c, k, linked)
    decreases c, 1
  {
    if c.Seq? {
      CodedFrame(l, m, c.a, k, linked);
      CodedFrame(l, m, c.b, k + Size(c.a), linked);
    } else if c.IfElse? {
      IfElseFrame(l, m, c, k, linked);
    } else if Block(c) {
      CodedFrame(l, m, c.a, k + 1, linked);
    }
  }

  lemma {:induction false} IfElseFrame(l: seq<Line>, m: seq<Line>, c: Cmd, k: nat, linked: bool)
    requires c.IfElse? && k + Size(c) <= |l| && Coded(l, c, k, linked) && SameIn(l, m, k, k + Size(c))
    ensures Coded(m, c, k, linked)
    decreases c, 0
  {
    CodedFrame(l, m, c.a, k + 1, linked);
    CodedFrame(l, m, c.b, k + 2 + Size(c.a), linked);
  }

  /** How deeply blocks are nested. */
  function Depth(c: Cmd): nat {
    if c.Seq? then Max(Depth(c.a), Depth(c.b))
    else if c.IfElse? then 1 + Max(Depth(c.a), Depth(c.b))
    else if Block(c) then 1 + Depth(c.a)
    else 0
  }

  function Max(a: nat, b: nat): nat {
    if a < b then b else a
  }

  // ----- whole programs: the main part, END, then every subroutine with its RETURN -----

  function SubsSize(subs: seq<Cmd>): nat {
    if subs == [] then 0 else Size(subs[0]) + 1 + SubsSize(subs[1..])
  }

  ghost predicate SubsCoded(lines: seq<Line>, subs: seq<Cmd>, k: nat, linked: bool)
    requires k + SubsSize(subs) <= |lines|
  {
    subs == [] ||
    (&& Coded(lines, subs[0], k, linked)
     && lines[k + Size(subs[0])] == Bare(Return)
     && SubsCoded(lines, subs[1..], k + Size(subs[0]) + 1, linked))
  }

  function ProgramSize(p: Program): nat {
    Size(p.main) + 1 + SubsSize(p.subs)
  }

  ghost predicate ProgramCoded(lines: seq<Line>, p: Program, linked: bool) {
    && |lines| == ProgramSize(p)
    && Coded(lines, p.main, 0, linked)
    && lines[Size(p.main)] == Bare(End)
    && SubsCoded(lines, p.subs, Size(p.main) + 1, linked)
  }

  /** The index of the statement after the label of each subroutine. */
  function Labels(subs: seq<Cmd>, k: nat): (ls: seq<nat>)
    ensures |ls| == |subs|
  {
    if subs == [] then [] else [k] + Labels(subs[1..], k + Size(subs[0]) + 1)
  }

  function SubsDepth(subs: seq<Cmd>): nat {
    if subs == [] then 0 else Max(Depth(subs[0]), SubsDepth(subs[1..]))
  }

  function ProgramDepth(p: Program): nat {
    Max(Depth(p.main), SubsDepth(p.subs))
  }

  // ----- the statements of a program, in order -----

  function Listing(c: Cmd): (t: seq<Stmt>)
    ensures |t| == Size(c)
  {
    if c.Skip? then []
    else if c.Seq? then Listing(c.a) + Listing(c.b)
    else if c.IfElse? then [IfThen(c.t)] + (Listing(c.a) + ([Else] + (Listing(c.b) + [EndIf])))
    else if Block(c) then [Opening(c)] + (Listing(c.a) + [Closing(c)])
    else [PlainStmt(c)]
  }

  function SubsListing(subs: seq<Cmd>): (t: seq<Stmt>)
    ensures |t| == SubsSize(subs)
  {
    if subs == [] then [] else Listing(subs[0]) + ([Return] + SubsListing(subs[1..]))
  }

  function ProgramListing(p: Program): (t: seq<Stmt>)
    ensures |t| == ProgramSize(p)
  {
    Listing(p.main) + ([End] + SubsListing(p.subs))
  }

  predicate ListsAt(lines: seq<Line>, t: seq<Stmt>, k: nat, i: int) {
    k + |t| <= |lines| && (0 <= i < |t| ==> lines[k + i] == Bare(t[i]))
  }

  /** The lines from `k` on are these statements, before gfb_preprocess. */
  ghost predicate Lists(lines: seq<Line>, t: seq<Stmt>, k: nat) {
    forall i {:trigger ListsAt(lines, t, k, i)} :: ListsAt(lines, t, k, i)
  }

  lemma ListsBoth(lines: seq<Line>, a: seq<Stmt>, b: seq<Stmt>, k: nat)
    ensures Lists(lines, a + b, k) <==> Lists(lines, a, k) && Lists(lines, b, k + |a|)
  {
    var m, n := k + |a|, |a|;
    if Lists(lines, a + b, k) {
      forall i ensures ListsAt(lines, a, k, i) { assert ListsAt(lines, a + b, k, i); }
      forall i ensures ListsAt(lines, b, m, i) {
        var j := n + i;
        assert ListsAt(lines, a + b, k, j);
      }
    }
    if Lists(lines, a, k) && Lists(lines, b, m) {
      forall i ensures ListsAt(lines, a + b, k, i) {
        var j := i - n;
        assert ListsAt(lines, a, k, i) && ListsAt(lines, b, m, j);
      }
    }
  }

  lemma ListsOne(lines: seq<Line>, s: Stmt, k: nat)
    ensures Lists(lines, [s], k) <==> k < |lines| && lines[k] == Bare(s)
  {
    assert Lists(lines, [s], k) ==> ListsAt(lines, [s], k, 0);
  }

  /** A line, statements and another line. */
  lemma ListsBlock(lines: seq<Line>, s: Stmt, a: seq<Stmt>, t: Stmt, k: nat)
    ensures Lists(lines, [s] + (a + [t]), k) <==>
      Lists(lines, a, k + 1) && k + 1 + |a| < |lines| && lines[k] == Bare(s) && lines[k + 1 + |a|] == Bare(t)
  {
    ListsBoth(lines, [s], a + [t], k);
    ListsBoth(lines, a, [t], k + 1);
    ListsOne(lines, s, k);
    ListsOne(lines, t, k + 1 + |a|);
  }

  lemma ListsTwoBlocks(lines: seq<Line>, s: Stmt, a: seq<Stmt>, t: Stmt, b: seq<Stmt>, u: Stmt, k: nat, m: nat)
    requires m == k + 1 + |a|
    ensures Lists(lines, [s] + (a + ([t] + (b + [u]))), k) <==>
      && Lists(lines, a, k + 1) && Lists(lines, b, m + 1) && m + 1 + |b| < |lines|
      && lines[k] == Bare(s) && lines[m] == Bare(t) && lines[m + 1 + |b|] == Bare(u)
  {
    var last := [t] + (b + [u]);
    ListsBoth(lines, [s], a + last, k);
    ListsBoth(lines, a, last, k + 1);
    ListsBlock(lines, t, b, u, m);
    ListsOne(lines, s, k);
  }

  /** A structured command before gfb_preprocess is its listing. */
  lemma {:induction false} CodedIsListing(lines: seq<Line>, c: Cmd, k: nat)
    requires k + Size(c) <= |lines|
    ensures Coded(lines, c, k, false) <==> Lists(lines, Listing(c), k)
    decreases c, 1
  {
    if c.Seq? {
      CodedIsListing(lines, c.a, k);
      CodedIsListing(lines, c.b, k + Size(c.a));
      ListsBoth(lines, Listing(c.a), Listing(c.b), k);
    } else if c.IfElse? {
      IfElseIsListing(lines, c, k);
    } else if Block(c) {
      BlockIsListing(lines, c, k);
    } else if !c.Skip? {
      ListsOne(lines, PlainStmt(c), k);
    }
  }

  lemma {:induction false} IfElseIsListing(lines: seq<Line>, c: Cmd, k: nat)
    requires c.IfElse? && k + Size(c) <= |lines|
    ensures Coded(lines, c, k, false) <==> Lists(lines, Listing(c), k)
    decreases c, 0
  {
    var other := k + 1 + Size(c.a);
    CodedIsListing(lines, c.a, k + 1);
    CodedIsListing(lines, c.b, other + 1);
    ListsTwoBlocks(lines, IfThen(c.t), Listing(c.a), Else, Listing(c.b), EndIf, k, other);
  }

  lemma {:induction false} BlockIsListing(lines: seq<Line>, c: Cmd, k: nat)
    requires Block(c) && k + Size(c) <= |lines|
    ensures Coded(lines, c, k, false) <==> Lists(lines, Listing(c), k)
    decreases c, 0
  {
    CodedIsListing(lines, c.a, k + 1);
    ListsBlock(lines, Opening(c), Listing(c.a), Closing(c), k);
  }

  lemma {:induction false} SubsAreListing(lines: seq<Line>, subs: seq<Cmd>, k: nat)
    requires k + SubsSize(subs) <= |lines|
    ensures SubsCoded(lines, subs, k, false) <==> Lists(lines, SubsListing(subs), k)
    decreases |subs|
  {
    if subs != [] {
      var n := k + Size(subs[0]);
      CodedIsListing(lines, subs[0], k);
      SubsAreListing(lines, subs[1..], n + 1);
      ListsBoth(lines, Listing(subs[0]), [Return] + SubsListing(subs[1..]), k);
      ListsBoth(lines, [Return], SubsListing(subs[1..]), n);
      ListsOne(lines, Return, n);
    }
  }

  lemma ProgramIsListing(lines: seq<Line>, p: Program)
    requires |lines| == ProgramSize(p)
    ensures ProgramCoded(lines, p, false) <==> Lists(lines, ProgramListing(p), 0)
  {
    var n := Size(p.main);
    CodedIsListing(lines, p.main, 0);
    SubsAreListing(lines, p.subs, n + 1);
    ListsBoth(lines, Listing(p.main), [End] + SubsListing(p.subs), 0);
    ListsBoth(lines, [End], SubsListing(p.subs), n);
    ListsOne(lines, End, n);
  }

  /** Every structured program has lines. */
  function Flatten(p: Program): (lines: seq<Line>)
    ensures ProgramCoded(lines, p, false)
  {
    var t := ProgramListing(p);
    var lines := seq(|t|, i requires 0 <= i < |t| => Bare(t[i]));
    assert forall i {:trigger ListsAt(lines, t, 0, i)} :: ListsAt(lines, t, 0, i);
    ProgramIsListing(lines, p);
    lines
  }
}
