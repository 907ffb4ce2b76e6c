/**
  The second pass of gfb_preprocess: one loop over the statements with a
  stack of open blocks fills in the jump fields.
  */
module BasicPreprocess {
  import opened Common
  import opened BasicCode

  const MAX_OPEN := 128

  datatype Kind = KIf | KFor | KWhile | KDo

  /** StackEnt: an open block, where it starts, and for an IF where its ELSE is (-1: none). */
  datatype Entry = Entry(kind: Kind, idx: nat, other: int)

  /** The stack array and its pointer `sp`. */
  datatype Stack = Bottom | Over(top: Entry, below: Stack)

  function Height(s: Stack): nat {
    if s.Bottom? then 0 else 1 + Height(s.below)
  }

  datatype Pass = Pass(lines: seq<Line>, stack: Stack)

  predicate StackOk(s: Stack, n: nat) {
    s.Over? ==> s.top.idx < n && -1 <= s.top.other < n && StackOk(s.below, n)
  }

  /** The block a statement opens. */
  function Opens(s: Stmt): Option<Kind> {
    match s
    case IfThen(_) => Some(KIf)
    case For(_, _) => Some(KFor)
    case While(_) => Some(KWhile)
    case Do(_) => Some(KDo)
    case _ => None
  }

  function Closes(s: Stmt): Option<Kind> {
    match s
    case EndIf => Some(KIf)
    case Next => Some(KFor)
    case Wend => Some(KWhile)
    case Loop(_) => Some(KDo)
    case _ => None
  }

  predicate TopIs(s: Stack, kind: Kind) {
    s.Over? && s.top.kind == kind
  }

  function SetJmp1(lines: seq<Line>, i: nat, to: int): (r: seq<Line>)
    requires i < |lines|
    ensures |r| == |lines|
  {
    lines[i := lines[i].(jmp1 := to)]
  }

  function SetJmp2(lines: seq<Line>, i: nat, to: int): (r: seq<Line>)
    requires i < |lines|
    ensures |r| == |lines|
  {
    lines[i := lines[i].(jmp2 := to)]
  }

  /** The jumps set when statement `k` closes the block `e`. */
  function Close(lines: seq<Line>, e: Entry, k: nat): (r: seq<Line>)
    requires k < |lines| && e.idx < |lines| && -1 <= e.other < |lines|
    ensures |r| == |lines|
  {
    match e.kind
    case KIf => if e.other == -1 then SetJmp1(lines, e.idx, k + 1) else SetJmp2(lines, e.other, k + 1)
    case KFor => SetJmp1(SetJmp2(lines, e.idx, k), k, e.idx)
    case _ => SetJmp1(SetJmp1(lines, e.idx, k), k, e.idx)
  }

  /** One turn of the loop, at statement `k`. */
  function PassStep(p: Pass, k: nat): (q: Pass)
    requires k < |p.lines| && StackOk(p.stack, |p.lines|)
    ensures |q.lines| == |p.lines| && StackOk(q.stack, |q.lines|)
  {
    var s := p.lines[k].stmt;
    if Opens(s).Some? then
      if Height(p.stack) < MAX_OPEN then p.(stack := Over(Entry(Opens(s).value, k, -1), p.stack)) else p
    else if s == Else && TopIs(p.stack, KIf) then
      Pass(SetJmp1(p.lines, p.stack.top.idx, k + 1), p.stack.(top := p.stack.top.(other := k)))
    else if Closes(s).Some? && TopIs(p.stack, Closes(s).value) then
      Pass(Close(p.lines, p.stack.top, k), p.stack.below)
    else p
  }

  function PassRange(p: Pass, k: nat, n: nat): (q: Pass)
    requires k <= n <= |p.lines| && StackOk(p.stack, |p.lines|)
    ensures |q.lines| == |p.lines| && StackOk(q.stack, |q.lines|)
    decreases n - k
  {
    if k == n then p else PassRange(PassStep(p, k), k + 1, n)
  }

  ghost predicate SameRest(p: Pass, k: nat, q: Pass, n: nat, end: nat) {
    && k <= n <= |p.lines| == |q.lines| && StackOk(p.stack, |p.lines|) && StackOk(q.stack, |q.lines|)
    && (n <= end <= |p.lines| ==> PassRange(p, k, end) == PassRange(q, n, end))
  }

  /** The loop at statement `k` with `p` gets to statement `n` with `q`: the rest is the same. */
  ghost predicate Reaches(p: Pass, k: nat, q: Pass, n: nat) {
    forall end: nat {:trigger SameRest(p, k, q, n, end)} :: SameRest(p, k, q, n, end)
  }

  lemma ReachesStep(p: Pass, k: nat)
    requires k < |p.lines| && StackOk(p.stack, |p.lines|)
    ensures Reaches(p, k, PassStep(p, k), k + 1)
  {
  }

  lemma ReachesTrans(p: Pass, k: nat, q: Pass, m: nat, r: Pass, n: nat)
    requires Reaches(p, k, q, m) && Reaches(q, m, r, n)
    ensures Reaches(p, k, r, n)
  {
    forall end: nat ensures SameRest(p, k, r, n, end) {
      assert SameRest(p, k, q, m, end) && SameRest(q, m, r, n, end);
    }
  }

  /** The method: the jump fields are set in place; success is an empty stack at the end. */
  method Preprocess(lines: array<Line>) returns (ok: bool)
    modifies lines
    ensures lines[..] == PassRange(Pass(old(lines[..]), Bottom), 0, lines.Length).lines
    ensures ok <==> PassRange(Pass(old(lines[..]), Bottom), 0, lines.Length).stack == Bottom
  {
    var stack := Bottom;
    ghost var goal := PassRange(Pass(lines[..], Bottom), 0, lines.Length);
    for k := 0 to lines.Length
      invariant StackOk(stack, lines.Length)
      invariant PassRange(Pass(lines[..], stack), k, lines.Length) == goal
    {
      ghost var p := Pass(lines[..], stack);
      var s := lines[k].stmt;
      if Opens(s).Some? {
        if Height(stack) < MAX_OPEN { stack := Over(Entry(Opens(s).value, k, -1), stack); }
      } else if s == Else {
        if TopIs(stack, KIf) {
          var e := stack.top;
          lines[e.idx] := lines[e.idx].(jmp1 := k + 1);
          stack := stack.(top := e.(other := k));
        }
      } else if Closes(s).Some? && TopIs(stack, Closes(s).value) {
        var e := stack.top;
        stack := stack.below;
        if e.kind == KIf {
          if e.other == -1 {
            lines[e.idx] := lines[e.idx].(jmp1 := k + 1);
          } else {
            lines[e.other] := lines[e.other].(jmp2 := k + 1);
          }
        } else {
          if e.kind == KFor {
            lines[e.idx] := lines[e.idx].(jmp2 := k);
          } else {
            lines[e.idx] := lines[e.idx].(jmp1 := k);
          }
          lines[k] := lines[k].(jmp1 := e.idx);
        }
      }
      assert Pass(lines[..], stack) == PassStep(p, k);
    }
    ok := stack == Bottom;
  }

  // ----- on the statements of a structured command the pass sets exactly the jumps it needs -----

  ghost predicate SameOutside(l: seq<Line>, m: seq<Line>, k: nat, n: nat) {
    |l| == |m| && forall i :: 0 <= i < |l| && !(k <= i < n) ==> l[i] == m[i]
  }

  /** The pass took the command at `k`: its jumps are set, nothing else is changed, the stack is as it was. */
  ghost predicate Took(p: Pass, q: Pass, c: Cmd, k: nat)
    requires k + Size(c) <= |p.lines|
  {
    q.stack == p.stack && SameOutside(p.lines, q.lines, k, k + Size(c)) && Coded(q.lines, c, k, true)
  }

  lemma {:induction false} PassCommand(p: Pass, c: Cmd, k: nat) returns (q: Pass)
    requires StackOk(p.stack, |p.lines|) && Height(p.stack) + Depth(c) <= MAX_OPEN
    requires k + Size(c) <= |p.lines| && Coded(p.lines, c, k, false)
    ensures Reaches(p, k, q, k + Size(c)) && Took(p, q, c, k)
    decreases c, 3
  {
    if c.Seq? {
      q := PassSeq(p, c, k, k + Size(c.a), k + Size(c));
    } else if c.IfElse? {
      q := PassIfElse(p, c, k);
    } else if Block(c) {
      q := PassBlock(p, c, k, k + 1 + Size(c.a));
    } else {
      q := p;
      if !c.Skip? { ReachesStep(p, k); }
    }
  }

  lemma TookSeq(p: Pass, p1: Pass, q: Pass, c: Cmd, k: nat)
    requires c.Seq? && k + Size(c) <= |p.lines|
    requires Took(p, p1, c.a, k) && Took(p1, q, c.b, k + Size(c.a))
    ensures Took(p, q, c, k)
  {
    CodedFrame(p1.lines, q.lines, c.a, k, true);
  }

  lemma {:induction false} PassSeq(p: Pass, c: Cmd, k: nat, m: nat, n: nat) returns (q: Pass)
    requires c.Seq? && m == k + Size(c.a) && n == m + Size(c.b) && n <= |p.lines|
    requires StackOk(p.stack, |p.lines|) && Height(p.stack) + Max(Depth(c.a), Depth(c.b)) <= MAX_OPEN
    requires Coded(p.lines, c.a, k, false) && Coded(p.lines, c.b, m, false)
    ensures Reaches(p, k, q, n) && Took(p, q, c, k)
    decreases c, 1
  {
    var p1 := PassFirst(p, c.a, k, m, c.b);
    q := PassCommand(p1, c.b, m);
    TookSeq(p, p1, q, c, k);
    ReachesTrans(p, k, p1, m, q, n);
  }

  /** The first of two commands; the second is as it was. */
  lemma {:induction false} PassFirst(p: Pass, a: Cmd, k: nat, m: nat, b: Cmd) returns (q: Pass)
    requires m == k + Size(a) && m + Size(b) <= |p.lines|
    requires StackOk(p.stack, |p.lines|) && Height(p.stack) + Depth(a) <= MAX_OPEN
    requires Coded(p.lines, a, k, false) && Coded(p.lines, b, m, false)
    ensures Reaches(p, k, q, m) && Took(p, q, a, k) && Coded(q.lines, b, m, false)
    decreases a, 4
  {
    q := PassCommand(p, a, k);
    CodedFrame(p.lines, q.lines, b, m, false);
  }

  lemma {:induction false} PassBlock(p: Pass, c: Cmd, k: nat, end: nat) returns (q: Pass)
    requires Block(c) && end == k + 1 + Size(c.a) && end < |p.lines|
    requires StackOk(p.stack, |p.lines|) && Height(p.stack) + 1 + Depth(c.a) <= MAX_OPEN
    requires p.lines[k] == Bare(Opening(c)) && Coded(p.lines, c.a, k + 1, false) && p.lines[end] == Bare(Closing(c))
    ensures Reaches(p, k, q, end + 1) && Took(p, q, c, k)
    decreases c, 1
  {
    var p1 := ThroughBody(p, c, k, end);
    q := CloseBlock(p, p1, c, k, end);
    ReachesTrans(p, k, p1, end, q, end + 1);
  }

  /** The opening line and the body were taken; the next statement closes the block. */
  ghost predicate BodyTaken(p: Pass, q: Pass, c: Cmd, k: nat)
    requires k + Size(c) <= |p.lines| && (Block(c) || c.IfElse?)
  {
    && StackOk(p.stack, |p.lines|) && Height(p.stack) < MAX_OPEN
    && q.stack == Over(Entry(KindOf(c), k, -1), p.stack)
    && SameOutside(p.lines, q.lines, k + 1, k + 1 + Size(c.a)) && Coded(q.lines, c.a, k + 1, true)
  }

  /** The two lines of a block after its closing line was met; nothing else is changed. */
  lemma CloseLines(q: Pass, c: Cmd, k: nat, end: nat, below: Stack) returns (r: Pass)
    requires Block(c) && k < end < |q.lines| && StackOk(q.stack, |q.lines|)
    requires q.lines[k] == Bare(Opening(c)) && q.lines[end] == Bare(Closing(c)) && q.stack == Over(Entry(KindOf(c), k, -1), below)
    ensures r == PassStep(q, end) && r.stack == below && |r.lines| == |q.lines|
    ensures r.lines[k] == OpeningLine(c, end) && r.lines[end] == ClosingLine(c, k)
    ensures forall i :: 0 <= i < |q.lines| && i != k && i != end ==> r.lines[i] == q.lines[i]
  {
    r := PassStep(q, end);
    assert r == Pass(Close(q.lines, q.stack.top, end), below);
  }

  lemma CloseBlock(p: Pass, q: Pass, c: Cmd, k: nat, end: nat) returns (r: Pass)
    requires Block(c) && k + Size(c) <= |p.lines| && BodyTaken(p, q, c, k)
    requires end == k + 1 + Size(c.a) && p.lines[k] == Bare(Opening(c)) && p.lines[end] == Bare(Closing(c))
    ensures Reaches(q, end, r, end + 1) && Took(p, r, c, k)
  {
    ReachesStep(q, end);
    r := CloseLines(q, c, k, end, p.stack);
    CodedFrame(q.lines, r.lines, c.a, k + 1, true);
    BlockCoded(r.lines, c, k, end);
  }

  lemma BlockCoded(lines: seq<Line>, c: Cmd, k: nat, end: nat)
    requires Block(c) && end == k + 1 + Size(c.a) && end < |lines| && Coded(lines, c.a, k + 1, true)
    requires lines[k] == OpeningLine(c, end) && lines[end] == ClosingLine(c, k)
    ensures Coded(lines, c, k, true)
  {
  }

  /** An opening line is put on the stack. */
  lemma Opened(p: Pass, kind: Kind, k: nat) returns (q: Pass)
    requires k < |p.lines| && StackOk(p.stack, |p.lines|) && Height(p.stack) < MAX_OPEN
    requires Opens(p.lines[k].stmt) == Some(kind)
    ensures q == Pass(p.lines, Over(Entry(kind, k, -1), p.stack)) && Reaches(p, k, q, k + 1)
  {
    q := PassStep(p, k);
    ReachesStep(p, k);
  }

  lemma {:induction false} ThroughBody(p: Pass, c: Cmd, k: nat, end: nat) returns (q: Pass)
    requires (Block(c) || c.IfElse?) && end == k + 1 + Size(c.a) && k + Size(c) <= |p.lines|
    requires StackOk(p.stack, |p.lines|) && Height(p.stack) + 1 + Depth(c.a) <= MAX_OPEN
    requires Opens(p.lines[k].stmt) == Some(KindOf(c)) && Coded(p.lines, c.a, k + 1, false)
    ensures Reaches(p, k, q, end) && BodyTaken(p, q, c, k)
    decreases c, 0
  {
    var p1 := Opened(p, KindOf(c), k);
    q := PassCommand(p1, c.a, k + 1);
    ReachesTrans(p, k, p1, k + 1, q, end);
  }

  function KindOf(c: Cmd): Kind
    requires Block(c) || c.IfElse?
  {
    if c.ForTo? then KFor else if c.WhileDo? then KWhile else if c.DoLoop? then KDo else KIf
  }

  /** The lines of an IF with an ELSE before they are linked. */
  ghost predicate IfElseParts(lines: seq<Line>, c: Cmd, k: nat)
    requires c.IfElse? && k + Size(c) <= |lines|
  {
    var other := k + 1 + Size(c.a);
    && lines[k] == Bare(IfThen(c.t)) && Coded(lines, c.a, k + 1, false)
    && lines[other] == Bare(Else) && Coded(lines, c.b, other + 1, false)
    && lines[k + Size(c) - 1] == Bare(EndIf)
  }

  lemma {:induction false} PassIfElse(p: Pass, c: Cmd, k: nat) returns (q: Pass)
    requires c.IfElse? && k + Size(c) <= |p.lines| && IfElseParts(p.lines, c, k)
    requires StackOk(p.stack, |p.lines|) && Height(p.stack) + Depth(c) <= MAX_OPEN
    ensures Reaches(p, k, q, k + Size(c)) && Took(p, q, c, k)
    decreases c, 2
  {
    var other := k + 1 + Size(c.a);
    var end := other + 1 + Size(c.b);
    var p1 := ThroughElse(p, c, k, other);
    var p2 := SecondBranch(p, p1, c, k, other, end);
    q := CloseIfElse(p, p1, p2, c, k, other, end);
    ReachesTrans(p, k, p2, end, q, end + 1);
    assert end + 1 == k + Size(c);
  }

  lemma {:induction false} SecondBranch(p: Pass, p1: Pass, c: Cmd, k: nat, other: nat, end: nat) returns (p2: Pass)
    requires c.IfElse? && k + Size(c) <= |p.lines| && other == k + 1 + Size(c.a) && end == other + 1 + Size(c.b)
    requires Reaches(p, k, p1, other + 1) && |p1.lines| == |p.lines| && Coded(p1.lines, c.b, other + 1, false)
    requires StackOk(p1.stack, |p1.lines|) && Height(p1.stack) + Depth(c.b) <= MAX_OPEN
    ensures Reaches(p, k, p2, end) && Took(p1, p2, c.b, other + 1)
    decreases c, 1
  {
    p2 := PassCommand(p1, c.b, other + 1);
    ReachesTrans(p, k, p1, other + 1, p2, end);
  }

  lemma {:induction false} ThroughElse(p: Pass, c: Cmd, k: nat, other: nat) returns (q: Pass)
    requires c.IfElse? && k + Size(c) <= |p.lines| && IfElseParts(p.lines, c, k) && other == k + 1 + Size(c.a)
    requires StackOk(p.stack, |p.lines|) && Height(p.stack) + 1 + Depth(c.a) <= MAX_OPEN
    ensures Reaches(p, k, q, other + 1) && ElseTaken(p, q, c, k)
    ensures Coded(q.lines, c.b, other + 1, false)
    decreases c, 1
  {
    var p1 := ThroughBody(p, c, k, other);
    q := TakeElse(p, p1, c, k, other);
    ReachesTrans(p, k, p1, other, q, other + 1);
  }

  /** The ELSE was taken: the false jump of the IF is set and the entry knows where the ELSE is. */
  ghost predicate ElseTaken(p: Pass, q: Pass, c: Cmd, k: nat)
    requires k + Size(c) <= |p.lines| && c.IfElse?
  {
    var other := k + 1 + Size(c.a);
    && StackOk(p.stack, |p.lines|) && Height(p.stack) < MAX_OPEN
    && q.stack == Over(Entry(KIf, k, other), p.stack)
    && SameOutside(p.lines, q.lines, k, other) && Coded(q.lines, c.a, k + 1, true)
    && q.lines[k] == Line(IfThen(c.t), other + 1, -1)
  }

  lemma TakeElse(p: Pass, q: Pass, c: Cmd, k: nat, other: nat) returns (q1: Pass)
    requires c.IfElse? && k + Size(c) <= |p.lines| && BodyTaken(p, q, c, k)
    requires other == k + 1 + Size(c.a) && p.lines[k] == Bare(IfThen(c.t)) && p.lines[other] == Bare(Else)
    requires Coded(p.lines, c.b, other + 1, false)
    ensures Reaches(q, other, q1, other + 1) && ElseTaken(p, q1, c, k)
    ensures Coded(q1.lines, c.b, other + 1, false)
  {
    assert q.lines[other].stmt == Else && q.lines[k] == Bare(IfThen(c.t));
    q1 := PassStep(q, other);
    assert q1 == Pass(SetJmp1(q.lines, k, other + 1), Over(Entry(KIf, k, other), p.stack));
    CodedFrame(q.lines, q1.lines, c.a, k + 1, true);
    CodedFrame(p.lines, q1.lines, c.b, other + 1, false);
    ReachesStep(q, other);
  }

  lemma CloseIfElse(p: Pass, q1: Pass, q2: Pass, c: Cmd, k: nat, other: nat, end: nat) returns (r: Pass)
    requires c.IfElse? && k + Size(c) <= |p.lines| && ElseTaken(p, q1, c, k)
    requires other == k + 1 + Size(c.a) && end == other + 1 + Size(c.b)
    requires p.lines[other] == Bare(Else) && p.lines[end] == Bare(EndIf)
    requires Took(q1, q2, c.b, other + 1)
    ensures Reaches(q2, end, r, end + 1) && Took(p, r, c, k)
  {
    ReachesStep(q2, end);
    r := CloseElse(q2, k, other, end, p.stack);
    ElseLinked(q1.lines, q2.lines, r.lines, c, k, other, end);
    OutsideElse(p.lines, q1.lines, q2.lines, r.lines, k, other, end);
  }

  lemma ElseLinked(l1: seq<Line>, l2: seq<Line>, r: seq<Line>, c: Cmd, k: nat, other: nat, end: nat)
    requires c.IfElse? && other == k + 1 + Size(c.a) && end == other + 1 + Size(c.b) && end < |l1|
    requires SameOutside(l1, l2, other + 1, end) && |r| == |l2| && forall i :: 0 <= i < |l2| && i != other ==> r[i] == l2[i]
    requires Coded(l1, c.a, k + 1, true) && Coded(l2, c.b, other + 1, true)
    requires l1[k] == Line(IfThen(c.t), other + 1, -1) && r[other] == Line(Else, -1, end + 1) && l1[end] == Bare(EndIf)
    ensures Coded(r, c, k, true)
  {
    assert Coded(r, c.a, k + 1, true) by { CodedFrame(l1, r, c.a, k + 1, true); }
    assert Coded(r, c.b, other + 1, true) by { CodedFrame(l2, r, c.b, other + 1, true); }
    IfElseCoded(r, c, k, other, end);
  }

  lemma OutsideElse(l: seq<Line>, l1: seq<Line>, l2: seq<Line>, r: seq<Line>, k: nat, other: nat, end: nat)
    requires k < other < end < |l| && SameOutside(l, l1, k, other) && SameOutside(l1, l2, other + 1, end)
    requires |r| == |l2| && forall i :: 0 <= i < |l2| && i != other ==> r[i] == l2[i]
    ensures SameOutside(l, r, k, end + 1)
  {
  }

  lemma IfElseCoded(lines: seq<Line>, c: Cmd, k: nat, other: nat, end: nat)
    requires c.IfElse? && other == k + 1 + Size(c.a) && end == other + 1 + Size(c.b) && end < |lines|
    requires Coded(lines, c.a, k + 1, true) && Coded(lines, c.b, other + 1, true)
    requires lines[k] == Line(IfThen(c.t), other + 1, -1) && lines[other] == Line(Else, -1, end + 1) && lines[end] == Bare(EndIf)
    ensures Coded(lines, c, k, true)
  {
  }

  lemma CloseElse(q: Pass, k: nat, other: nat, end: nat, below: Stack) returns (r: Pass)
    requires k < other < end < |q.lines| && StackOk(q.stack, |q.lines|)
    requires q.lines[other] == Bare(Else) && q.lines[end] == Bare(EndIf) && q.stack == Over(Entry(KIf, k, other), below)
    ensures r == PassStep(q, end) && r.stack == below && |r.lines| == |q.lines|
    ensures r.lines[other] == Line(Else, -1, end + 1)
    ensures forall i :: 0 <= i < |q.lines| && i != other ==> r.lines[i] == q.lines[i]
  {
    r := PassStep(q, end);
    assert r == Pass(SetJmp2(q.lines, other, end + 1), below);
  }

  ghost predicate SubsTook(p: Pass, q: Pass, subs: seq<Cmd>, k: nat)
    requires k + SubsSize(subs) <= |p.lines|
  {
    q.stack == p.stack && SameOutside(p.lines, q.lines, k, k + SubsSize(subs)) && SubsCoded(q.lines, subs, k, true)
  }

  lemma SubsTookCons(p: Pass, p1: Pass, q: Pass, subs: seq<Cmd>, k: nat)
    requires subs != [] && k + SubsSize(subs) <= |p.lines| && SubsCoded(p.lines, subs, k, false)
    requires Took(p, p1, subs[0], k) && SubsTook(p1, q, subs[1..], k + Size(subs[0]) + 1)
    ensures SubsTook(p, q, subs, k)
  {
    CodedFrame(p1.lines, q.lines, subs[0], k, true);
  }

  lemma ReachesPlain(p: Pass, k: nat)
    requires k < |p.lines| && StackOk(p.stack, |p.lines|)
    requires p.lines[k].stmt == Return || p.lines[k].stmt == End
    ensures Reaches(p, k, p, k + 1)
  {
    ReachesStep(p, k);
  }

  /** One subroutine and its RETURN. */
  lemma PassSub(p: Pass, subs: seq<Cmd>, k: nat) returns (q: Pass)
    requires StackOk(p.stack, |p.lines|) && Height(p.stack) + SubsDepth(subs) <= MAX_OPEN && subs != []
    requires k + SubsSize(subs) <= |p.lines| && SubsCoded(p.lines, subs, k, false)
    ensures Reaches(p, k, q, k + Size(subs[0]) + 1) && Took(p, q, subs[0], k)
    ensures SubsCoded(q.lines, subs[1..], k + Size(subs[0]) + 1, false)
  {
    var n := k + Size(subs[0]);
    q := PassCommand(p, subs[0], k);
    SubsFrame(p.lines, q.lines, subs[1..], n + 1, false);
    ReachesPlain(q, n);
    ReachesTrans(p, k, q, n, q, n + 1);
  }

  lemma {:induction false} PassSubs(p: Pass, subs: seq<Cmd>, k: nat) returns (q: Pass)
    requires StackOk(p.stack, |p.lines|) && Height(p.stack) + SubsDepth(subs) <= MAX_OPEN
    requires k + SubsSize(subs) <= |p.lines| && SubsCoded(p.lines, subs, k, false)
    ensures Reaches(p, k, q, k + SubsSize(subs)) && SubsTook(p, q, subs, k)
    decreases |subs|
  {
    if subs == [] {
      q := p;
    } else {
      var n, end := k + Size(subs[0]) + 1, k + SubsSize(subs);
      var p1 := PassSub(p, subs, k);
      q := PassSubs(p1, subs[1..], n);
      assert SubsTook(p, q, subs, k) by { SubsTookCons(p, p1, q, subs, k); }
      assert Reaches(p, k, q, end) by { ReachesTrans(p, k, p1, n, q, end); }
    }
  }

  lemma {:induction false} SubsFrame(l: seq<Line>, m: seq<Line>, subs: seq<Cmd>, k: nat, linked: bool)
    requires k + SubsSize(subs) <= |l| && |m| == |l| && SubsCoded(l, subs, k, linked)
    requires forall i :: k <= i < k + SubsSize(subs) ==> l[i] == m[i]
    ensures SubsCoded(m, subs, k, linked)
  {
    if subs != [] {
      CodedFrame(l, m, subs[0], k, linked);
      SubsFrame(l, m, subs[1..], k + Size(subs[0]) + 1, linked);
    }
  }

  /** The main part and its END. */
  lemma PassMain(lines: seq<Line>, p: Program) returns (q: Pass)
    requires ProgramCoded(lines, p, false) && ProgramDepth(p) <= MAX_OPEN
    ensures Reaches(Pass(lines, Bottom), 0, q, Size(p.main) + 1) && Took(Pass(lines, Bottom), q, p.main, 0)
    ensures SubsCoded(q.lines, p.subs, Size(p.main) + 1, false)
  {
    var n := Size(p.main);
    q := PassCommand(Pass(lines, Bottom), p.main, 0);
    ReachesPlain(q, n);
    ReachesTrans(Pass(lines, Bottom), 0, q, n, q, n + 1);
    SubsFrame(lines, q.lines, p.subs, n + 1, false);
  }

  /** gfb_preprocess resolves every block of a structured program that is nested at most 128 deep. */
  lemma PassProgram(lines: seq<Line>, p: Program)
    requires ProgramCoded(lines, p, false) && ProgramDepth(p) <= MAX_OPEN
    ensures var q := PassRange(Pass(lines, Bottom), 0, |lines|); q.stack == Bottom && ProgramCoded(q.lines, p, true)
  {
    var n := Size(p.main);
    var p1 := PassMain(lines, p);
    var q := PassSubs(p1, p.subs, n + 1);
    ProgramTook(lines, p, p1, q);
    ReachesTrans(Pass(lines, Bottom), 0, p1, n + 1, q, |lines|);
    assert SameRest(Pass(lines, Bottom), 0, q, |lines|, |lines|);
  }

  lemma ProgramTook(lines: seq<Line>, p: Program, p1: Pass, q: Pass)
    requires |lines| == ProgramSize(p) && lines[Size(p.main)] == Bare(End)
    requires Took(Pass(lines, Bottom), p1, p.main, 0) && SubsTook(p1, q, p.subs, Size(p.main) + 1)
    ensures q.stack == Bottom && ProgramCoded(q.lines, p, true)
  {
    CodedFrame(p1.lines, q.lines, p.main, 0, true);
  }
}
