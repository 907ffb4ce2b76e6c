/**
  The nesting limit of gfb_preprocess.

  It links a structured program if and only if its blocks are nested at most
  128 deep; one level more leaves an opening line without its jump, although
  no error is reported.
  */
module BasicLimits {
  import opened BasicCode
  import opened BasicPreprocess

  predicate StackBelow(s: Stack, k: nat) {
    s.Over? ==> s.top.idx < k && s.top.other < k && StackBelow(s.below, k)
  }

  predicate NotOn(s: Stack, i: nat) {
    s.Over? ==> s.top.idx != i && s.top.other != i && NotOn(s.below, i)
  }

  lemma {:induction false} BelowNotOn(s: Stack, k: nat)
    requires StackBelow(s, k)
    ensures NotOn(s, k)
  {
    if s.Over? { BelowNotOn(s.below, k); }
  }

  lemma {:induction false} StackBelowMore(s: Stack, k: nat, n: nat)
    requires StackBelow(s, k) && k <= n
    ensures StackBelow(s, n)
  {
    if s.Over? { StackBelowMore(s.below, k, n); }
  }

  /** The opening line at `i` was passed without being put on the stack. */
  ghost predicate Dropped(p: Pass, i: nat) {
    i < |p.lines| && Opens(p.lines[i].stmt).Some? && p.lines[i] == Bare(p.lines[i].stmt) && NotOn(p.stack, i)
  }

  lemma DroppedStep(p: Pass, k: nat, i: nat)
    requires k < |p.lines| && StackOk(p.stack, |p.lines|) && Dropped(p, i) && i < k
    ensures Dropped(PassStep(p, k), i)
  {
  }

  /** A dropped line keeps its empty jumps to the end. */
  lemma {:induction false} DroppedStays(p: Pass, k: nat, n: nat, i: nat)
    requires k <= n <= |p.lines| && StackOk(p.stack, |p.lines|) && Dropped(p, i) && i < k
    ensures Dropped(PassRange(p, k, n), i)
    decreases n - k
  {
    if k < n {
      DroppedStep(p, k, i);
      DroppedStays(PassStep(p, k), k + 1, n, i);
    }
  }

  /** In linked code every opening line has a jump. */
  lemma {:induction false} LinkedOpening(lines: seq<Line>, c: Cmd, k: nat, i: nat)
    requires k + Size(c) <= |lines| && Coded(lines, c, k, true) && k <= i < k + Size(c)
    ensures Opens(lines[i].stmt).Some? ==> lines[i] != Bare(lines[i].stmt)
  {
    if c.Seq? {
      if i < k + Size(c.a) { LinkedOpening(lines, c.a, k, i); } else { LinkedOpening(lines, c.b, k + Size(c.a), i); }
    } else if c.IfElse? {
      var other := k + 1 + Size(c.a);
      if k < i < other { LinkedOpening(lines, c.a, k + 1, i); }
      if other < i < other + 1 + Size(c.b) { LinkedOpening(lines, c.b, other + 1, i); }
    } else if Block(c) {
      if k < i < k + 1 + Size(c.a) { LinkedOpening(lines, c.a, k + 1, i); }
    }
  }

  ghost predicate Before(p: Pass, c: Cmd, k: nat) {
    && StackOk(p.stack, |p.lines|) && StackBelow(p.stack, k) && Height(p.stack) <= MAX_OPEN
    && k + Size(c) <= |p.lines| && Coded(p.lines, c, k, false)
  }

  /** The pass from `k` drops an opening line `i` and gets to `n`, both inside the command. */
  ghost predicate Drops(p: Pass, c: Cmd, k: nat, q: Pass, n: nat, i: nat) {
    Reaches(p, k, q, n) && k <= i < n <= k + Size(c) && Dropped(q, i)
  }

  /** A command nested too deep: some opening line in it is dropped on the way. */
  lemma {:induction false} DeepDrops(p: Pass, c: Cmd, k: nat) returns (q: Pass, n: nat, i: nat)
    requires Before(p, c, k) && Height(p.stack) + Depth(c) > MAX_OPEN
    ensures Drops(p, c, k, q, n, i)
    decreases c, 1
  {
    if c.Seq? {
      q, n, i := SeqDrops(p, c, k);
    } else if Height(p.stack) == MAX_OPEN {
      q, n, i := p, k + 1, k;
      ReachesStep(p, k);
      BelowNotOn(p.stack, k);
    } else if c.IfElse? && Height(p.stack) + 1 + Depth(c.a) <= MAX_OPEN {
      q, n, i := ElseDrops(p, c, k);
    } else {
      q, n, i := BodyDrops(p, c, k);
    }
  }

  lemma {:induction false} SeqDrops(p: Pass, c: Cmd, k: nat) returns (q: Pass, n: nat, i: nat)
    requires c.Seq? && Before(p, c, k) && Height(p.stack) + Depth(c) > MAX_OPEN
    ensures Drops(p, c, k, q, n, i)
    decreases c, 0
  {
    if Height(p.stack) + Depth(c.a) <= MAX_OPEN {
      var m := k + Size(c.a);
      var p1 := PassCommand(p, c.a, k);
      CodedFrame(p.lines, p1.lines, c.b, m, false);
      StackBelowMore(p.stack, k, m);
      q, n, i := DeepDrops(p1, c.b, m);
      ReachesTrans(p, k, p1, m, q, n);
    } else {
      q, n, i := DeepDrops(p, c.a, k);
    }
  }

  lemma {:induction false} BodyDrops(p: Pass, c: Cmd, k: nat) returns (q: Pass, n: nat, i: nat)
    requires (Block(c) || c.IfElse?) && Before(p, c, k) && Height(p.stack) < MAX_OPEN
    requires Height(p.stack) + 1 + Depth(c.a) > MAX_OPEN
    ensures Drops(p, c, k, q, n, i)
    decreases c, 0
  {
    var p1 := Opened(p, KindOf(c), k);
    StackBelowMore(p.stack, k, k + 1);
    q, n, i := DeepDrops(p1, c.a, k + 1);
    ReachesTrans(p, k, p1, k + 1, q, n);
  }

  /** The ELSE branch is the one nested too deep. */
  lemma {:induction false} ElseDrops(p: Pass, c: Cmd, k: nat) returns (q: Pass, n: nat, i: nat)
    requires c.IfElse? && Before(p, c, k) && Height(p.stack) + 1 + Depth(c.a) <= MAX_OPEN
    requires Height(p.stack) + 1 + Depth(c.b) > MAX_OPEN
    ensures Drops(p, c, k, q, n, i)
    decreases c, 0
  {
    var at := k + 1 + Size(c.a) + 1;
    var p1 := BeforeElse(p, c, k, at);
    q, n, i := DeepDrops(p1, c.b, at);
    ReachesTrans(p, k, p1, at, q, n);
  }

  lemma BeforeElse(p: Pass, c: Cmd, k: nat, at: nat) returns (q: Pass)
    requires c.IfElse? && Before(p, c, k) && Height(p.stack) + 1 + Depth(c.a) <= MAX_OPEN && at == k + 2 + Size(c.a)
    ensures Reaches(p, k, q, at) && Before(q, c.b, at) && Height(q.stack) == Height(p.stack) + 1
  {
    q := ThroughElse(p, c, k, at - 1);
    StackBelowMore(p.stack, k, at);
  }

  lemma {:induction false} SubsDrop(p: Pass, subs: seq<Cmd>, k: nat) returns (q: Pass, n: nat, i: nat)
    requires StackOk(p.stack, |p.lines|) && StackBelow(p.stack, k) && Height(p.stack) <= MAX_OPEN
    requires k + SubsSize(subs) <= |p.lines| && SubsCoded(p.lines, subs, k, false)
    requires Height(p.stack) + SubsDepth(subs) > MAX_OPEN
    ensures Reaches(p, k, q, n) && k <= i < n <= k + SubsSize(subs) && Dropped(q, i)
    decreases |subs|
  {
    if subs != [] {
      var m := k + Size(subs[0]) + 1;
      if Height(p.stack) + Depth(subs[0]) > MAX_OPEN {
        q, n, i := DeepDrops(p, subs[0], k);
      } else {
        var p1 := PassCommand(p, subs[0], k);
        SubsFrame(p.lines, p1.lines, subs[1..], m, false);
        ReachesPlain(p1, m - 1);
        ReachesTrans(p, k, p1, m - 1, p1, m);
        StackBelowMore(p.stack, k, m);
        q, n, i := SubsDrop(p1, subs[1..], m);
        ReachesTrans(p, k, p1, m, q, n);
      }
    }
  }

  lemma {:induction false} LinkedSubs(lines: seq<Line>, subs: seq<Cmd>, k: nat, i: nat)
    requires k + SubsSize(subs) <= |lines| && SubsCoded(lines, subs, k, true) && k <= i < k + SubsSize(subs)
    ensures Opens(lines[i].stmt).Some? ==> lines[i] != Bare(lines[i].stmt)
    decreases |subs|
  {
    if subs != [] {
      if i < k + Size(subs[0]) { LinkedOpening(lines, subs[0], k, i); }
      else if i > k + Size(subs[0]) { LinkedSubs(lines, subs[1..], k + Size(subs[0]) + 1, i); }
    }
  }

  lemma LinkedProgram(lines: seq<Line>, p: Program, i: nat)
    requires ProgramCoded(lines, p, true) && i < |lines|
    ensures Opens(lines[i].stmt).Some? ==> lines[i] != Bare(lines[i].stmt)
  {
    if i < Size(p.main) { LinkedOpening(lines, p.main, 0, i); }
    else if i > Size(p.main) { LinkedSubs(lines, p.subs, Size(p.main) + 1, i); }
  }

  lemma ProgramDrops(lines: seq<Line>, p: Program) returns (q: Pass, n: nat, i: nat)
    requires ProgramCoded(lines, p, false) && ProgramDepth(p) > MAX_OPEN
    ensures Reaches(Pass(lines, Bottom), 0, q, n) && i < n && Dropped(q, i)
  {
    var p0 := Pass(lines, Bottom);
    if Depth(p.main) > MAX_OPEN {
      q, n, i := DeepDrops(p0, p.main, 0);
    } else {
      var m := Size(p.main);
      var p1 := PassCommand(p0, p.main, 0);
      ReachesPlain(p1, m);
      ReachesTrans(p0, 0, p1, m, p1, m + 1);
      SubsFrame(lines, p1.lines, p.subs, m + 1, false);
      q, n, i := SubsDrop(p1, p.subs, m + 1);
      ReachesTrans(p0, 0, p1, m + 1, q, n);
    }
  }

  /** gfb_preprocess gives a structured program the jumps it needs if and only if it is nested at most 128 deep. */
  lemma LinkedIffShallow(lines: seq<Line>, p: Program)
    requires ProgramCoded(lines, p, false)
    ensures ProgramCoded(PassRange(Pass(lines, Bottom), 0, |lines|).lines, p, true) <==> ProgramDepth(p) <= MAX_OPEN
  {
    if ProgramDepth(p) <= MAX_OPEN {
      PassProgram(lines, p);
    } else {
      var q, n, i := ProgramDrops(lines, p);
      assert SameRest(Pass(lines, Bottom), 0, q, n, |lines|);
      DroppedStays(q, n, |lines|, i);
      var last := PassRange(q, n, |lines|);
      if ProgramCoded(last.lines, p, true) {
        LinkedProgram(last.lines, p, i);
      }
    }
  }

  // ----- nothing is reported -----

  /** The kinds of the open blocks, the outermost first. */
  function Kinds(s: Stack): (ks: seq<Kind>)
    ensures |ks| == Height(s)
  {
    if s.Bottom? then [] else Kinds(s.below) + [s.top.kind]
  }

  /** What a statement does to the open blocks. */
  function KindStep(ks: seq<Kind>, s: Stmt): seq<Kind> {
    if Opens(s).Some? then if |ks| < MAX_OPEN then ks + [Opens(s).value] else ks
    else if Closes(s).Some? && ks != [] && ks[|ks| - 1] == Closes(s).value then ks[..|ks| - 1]
    else ks
  }

  function KindRun(ks: seq<Kind>, t: seq<Stmt>): seq<Kind>
    decreases t
  {
    if t == [] then ks else KindRun(KindStep(ks, t[0]), t[1..])
  }

  lemma {:induction false} KindRunBoth(ks: seq<Kind>, a: seq<Stmt>, b: seq<Stmt>)
    ensures KindRun(ks, a + b) == KindRun(KindRun(ks, a), b)
    decreases a
  {
    if a == [] {
      assert a + b == b;
    } else {
      assert (a + b)[1..] == a[1..] + b;
      KindRunBoth(KindStep(ks, a[0]), a[1..], b);
    }
  }

  lemma KindRunOne(ks: seq<Kind>, s: Stmt)
    ensures KindRun(ks, [s]) == KindStep(ks, s)
  {
  }

  /** An opening line, statements that leave a bottom part of what they meet, and the line that closes it. */
  lemma BlockLeavesPart(ks: seq<Kind>, open: Stmt, body: seq<Stmt>, close: Stmt)
    requires Opens(open).Some? && Opens(close).None? && Closes(close) == Opens(open)
    requires KindRun(KindStep(ks, open), body) <= KindStep(ks, open)
    ensures KindRun(ks, [open] + (body + [close])) <= ks
  {
    var k1 := KindStep(ks, open);
    var k2 := KindRun(k1, body);
    KindRunBoth(ks, [open], body + [close]);
    KindRunOne(ks, open);
    KindRunBoth(k1, body, [close]);
    KindRunOne(k2, close);
    if |ks| < MAX_OPEN && k2 != k1 {
      assert k2 == k1[..|k2|] == ks[..|k2|];
    }
  }

  /** A command leaves a bottom part of the stack it met, however deep it is: where an opening line was dropped, its
      closing line may close the block around it. */
  lemma {:induction false} CommandLeavesPart(ks: seq<Kind>, c: Cmd)
    ensures KindRun(ks, Listing(c)) <= ks
    decreases c, 1
  {
    if c.Seq? {
      SeqLeavesPart(ks, c);
    } else if c.IfElse? {
      IfElseLeavesPart(ks, c);
    } else if Block(c) {
      NestedLeavesPart(ks, c);
    } else {
      PlainLeavesAll(ks, c);
    }
  }

  lemma {:induction false} NestedLeavesPart(ks: seq<Kind>, c: Cmd)
    requires Block(c)
    ensures KindRun(ks, Listing(c)) <= ks
    decreases c, 0
  {
    CommandLeavesPart(KindStep(ks, Opening(c)), c.a);
    BlockLeavesPart(ks, Opening(c), Listing(c.a), Closing(c));
  }

  lemma PlainLeavesAll(ks: seq<Kind>, c: Cmd)
    requires c.Skip? || Plain(c)
    ensures KindRun(ks, Listing(c)) == ks
  {
    if Plain(c) { KindRunOne(ks, PlainStmt(c)); }
  }

  lemma {:induction false} SeqLeavesPart(ks: seq<Kind>, c: Cmd)
    requires c.Seq?
    ensures KindRun(ks, Listing(c)) <= ks
    decreases c, 0
  {
    var k1 := KindRun(ks, Listing(c.a));
    CommandLeavesPart(ks, c.a);
    CommandLeavesPart(k1, c.b);
    KindRunBoth(ks, Listing(c.a), Listing(c.b));
    PartOfPart(KindRun(k1, Listing(c.b)), k1, ks);
  }

  lemma ElseIsNothing(ks: seq<Kind>, a: seq<Stmt>, b: seq<Stmt>)
    ensures KindRun(ks, a + ([Else] + b)) == KindRun(KindRun(ks, a), b)
  {
    var k1 := KindRun(ks, a);
    KindRunBoth(ks, a, [Else] + b);
    KindRunBoth(k1, [Else], b);
    KindRunOne(k1, Else);
  }

  lemma {:induction false} IfElseLeavesPart(ks: seq<Kind>, c: Cmd)
    requires c.IfElse?
    ensures KindRun(ks, Listing(c)) <= ks
    decreases c, 0
  {
    var a, b := Listing(c.a), Listing(c.b);
    var k1 := KindStep(ks, IfThen(c.t));
    var k2 := KindRun(k1, a);
    CommandLeavesPart(k1, c.a);
    CommandLeavesPart(k2, c.b);
    ElseIsNothing(k1, a, b);
    PartOfPart(KindRun(k2, b), k2, k1);
    BlockLeavesPart(ks, IfThen(c.t), a + ([Else] + b), EndIf);
    assert Listing(c) == [IfThen(c.t)] + ((a + ([Else] + b)) + [EndIf]);
  }

  lemma PartOfPart(a: seq<Kind>, b: seq<Kind>, c: seq<Kind>)
    requires a <= b && b <= c
    ensures a <= c
  {
  }

  lemma {:induction false} SubsLeavePart(ks: seq<Kind>, subs: seq<Cmd>)
    ensures KindRun(ks, SubsListing(subs)) <= ks
    decreases |subs|
  {
    if subs != [] {
      var k1 := KindRun(ks, Listing(subs[0]));
      CommandLeavesPart(ks, subs[0]);
      KindRunBoth(ks, Listing(subs[0]), [Return] + SubsListing(subs[1..]));
      KindRunBoth(k1, [Return], SubsListing(subs[1..]));
      KindRunOne(k1, Return);
      SubsLeavePart(k1, subs[1..]);
    }
  }

  /** The pass treats the open blocks as KindStep says. */
  lemma KindsStep(p: Pass, k: nat)
    requires k < |p.lines| && StackOk(p.stack, |p.lines|)
    ensures Kinds(PassStep(p, k).stack) == KindStep(Kinds(p.stack), p.lines[k].stmt)
  {
    var s, ks := p.lines[k].stmt, Kinds(p.stack);
    if p.stack.Over? {
      KindsOver(p.stack.top, p.stack.below);
      if s == Else { KindsOver(p.stack.top.(other := k), p.stack.below); }
    }
    if Opens(s).Some? { KindsOver(Entry(Opens(s).value, k, -1), p.stack); }
  }

  lemma KindsOver(e: Entry, s: Stack)
    ensures Kinds(Over(e, s)) == Kinds(s) + [e.kind]
    ensures Kinds(Over(e, s))[|Kinds(s)|] == e.kind && Kinds(Over(e, s))[..|Kinds(s)|] == Kinds(s)
  {
  }

  /** The pass keeps the statements. */
  lemma StepKeepsStmts(p: Pass, k: nat)
    requires k < |p.lines| && StackOk(p.stack, |p.lines|)
    ensures forall i :: 0 <= i < |p.lines| ==> PassStep(p, k).lines[i].stmt == p.lines[i].stmt
  {
  }

  lemma {:induction false} KindsRange(p: Pass, k: nat, t: seq<Stmt>)
    requires |p.lines| == |t| && k <= |t| && StackOk(p.stack, |p.lines|)
    requires forall i :: 0 <= i < |t| ==> p.lines[i].stmt == t[i]
    ensures Kinds(PassRange(p, k, |t|).stack) == KindRun(Kinds(p.stack), t[k..])
    decreases |t| - k
  {
    if k < |t| {
      KindsStep(p, k);
      StepKeepsStmts(p, k);
      KindsRange(PassStep(p, k), k + 1, t);
      assert t[k..][1..] == t[k + 1..];
    }
  }

  /** The stack is empty at the end, and gfb_preprocess reports success, however deep the program is nested. */
  lemma NothingReported(lines: seq<Line>, p: Program)
    requires ProgramCoded(lines, p, false)
    ensures PassRange(Pass(lines, Bottom), 0, |lines|).stack == Bottom
  {
    var t := ProgramListing(p);
    ProgramIsListing(lines, p);
    forall i | 0 <= i < |t| ensures lines[i].stmt == t[i] { assert ListsAt(lines, t, 0, i); }
    KindsRange(Pass(lines, Bottom), 0, t);
    assert t[0..] == t;
    CommandLeavesPart([], p.main);
    KindRunBoth([], Listing(p.main), [End] + SubsListing(p.subs));
    KindRunBoth([], [End], SubsListing(p.subs));
    KindRunOne([], End);
    SubsLeavePart([], p.subs);
  }
}
