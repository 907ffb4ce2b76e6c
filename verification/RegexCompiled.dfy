/**
  What regcomp guarantees of every tree it makes, which the matcher and its
  correctness rely on: groups are numbered 1, 2, ... by their opening
  parentheses, each once; back references are to groups that exist; and with
  REG_ICASE no set tells the two cases of a letter apart.
  */
module RegexCompiled {
  import opened Common
  import opened RegexTree
  import opened RegexSyntax

  // ----- sets -----

  ghost predicate ClosedIf(icase: bool, s: set<Byte>) {
    icase ==> CaseClosed(s)
  }

  lemma CasedClosed(s: set<Byte>, icase: bool)
    ensures ClosedIf(icase, Cased(s, icase))
  {
    if icase {
      var t := Cased(s, true);
      forall a: Byte, b: Byte | ToLower(a) == ToLower(b) && a in t ensures b in t {
        var c :| c in s && (a == c || a == ToLower(c) || a == ToUpper(c));
        assert ToLower(c) in t && ToUpper(c) in t;
        assert b == c || b == ToLower(c) || b == ToUpper(c);
      }
    }
  }

  lemma {:induction false} ItemsClosed(src: Source, st: State, first: bool, acc: set<Byte>)
    requires ClosedIf(src.icase, acc)
    ensures ReadItems(src, st, first, acc).Ok? ==> ClosedIf(src.icase, ReadItems(src, st, first, acc).value)
    decreases |src.pat| - st.p
  {
    if Ch(src, st.p) != 0 && !(Ch(src, st.p) == RBRACK && !first) {
      var r := ReadItem(src, st);
      if r.Ok? {
        CasedClosed(r.value, src.icase);
        ItemsClosed(src, r.st, false, acc + Cased(r.value, src.icase));
      }
    }
  }

  lemma FinishedClosed(src: Source, negated: bool, s: set<Byte>)
    requires ClosedIf(src.icase, s)
    ensures ClosedIf(src.icase, Finished(src, negated, s))
  {
  }

  lemma SetClosed(src: Source, st: State)
    ensures ReadSet(src, st).Ok? ==> ClosedIf(src.icase, ReadSet(src, st).value.members)
  {
    var negated := Ch(src, st.p) == CARET;
    var st1 := if negated then Move(st, 1) else st;
    ItemsClosed(src, st1, true, {});
    var s := ReadItems(src, st1, true, {});
    if s.Ok? { FinishedClosed(src, negated, s.value); }
  }

  // ----- groups in the order of their opening parentheses -----

  function Opened(n: Node): seq<nat> {
    (match n.op
     case Group(g, b) => [g] + Opened(b)
     case Choice(bs) => OpenedOf(bs)
     case Repeat(_, _, b) => Opened(b)
     case _ => [])
    + (if n.next.Some? then Opened(n.next.value) else [])
  }

  function OpenedOf(bs: seq<Node>): seq<nat> {
    if bs == [] then [] else Opened(bs[0]) + OpenedOf(bs[1..])
  }

  /** lo + 1, ..., hi */
  function Upto(lo: nat, hi: nat): seq<nat>
    requires lo <= hi
  {
    seq(hi - lo, i requires 0 <= i < hi - lo => lo + 1 + i)
  }

  lemma {:induction false} GroupsOpened(n: Node, g: nat)
    requires g in Groups(n)
    ensures g in Opened(n)
    decreases n, 1
  {
    match n.op {
      case Group(k, b) => if g in Groups(b) { GroupsOpened(b, g); }
      case Choice(bs) => if g in GroupsOf(bs) { GroupsOfOpened(n, bs, g); }
      case Repeat(_, _, b) => if g in Groups(b) { GroupsOpened(b, g); }
      case _ =>
    }
    if n.next.Some? && g in Groups(n.next.value) { GroupsOpened(n.next.value, g); }
  }

  lemma {:induction false} GroupsOfOpened(n: Node, bs: seq<Node>, g: nat)
    requires g in GroupsOf(bs) && n.op.Choice? && |bs| <= |n.op.branches| && bs == n.op.branches[|n.op.branches| - |bs|..]
    ensures g in OpenedOf(bs)
    decreases n, 0, |bs|
  {
    if g in Groups(bs[0]) {
      assert bs[0] in n.op.branches;
      GroupsOpened(bs[0], g);
    } else {
      GroupsOfOpened(n, bs[1..], g);
    }
  }

  // ----- what every part of the compiler keeps -----

  /** With REG_ICASE sets are closed under case; extended syntax has no back references. */
  ghost predicate Plain(src: Source, n: Node) {
    (src.icase ==> SetsCaseClosed(n)) && (src.ere ==> NoRefs(n))
  }

  /** A tree made while the group counter went from `lo` to `hi`. */
  ghost predicate Good(src: Source, n: Node, lo: nat, hi: nat) {
    && lo <= hi && Opened(n) == Upto(lo, hi)
    && NumbersIn(n, hi) && NoReentry(n) && Plain(src, n)
  }

  lemma {:induction false} NumbersGrow(n: Node, a: nat, b: nat)
    requires NumbersIn(n, a) && a <= b
    ensures NumbersIn(n, b)
    decreases n
  {
    match n.op {
      case Group(_, body) => NumbersGrow(body, a, b);
      case Choice(bs) =>
        forall i | 0 <= i < |bs| ensures NumbersIn(bs[i], b) {
          NumbersGrow(bs[i], a, b);
        }
      case Repeat(_, _, body) => NumbersGrow(body, a, b);
      case _ =>
    }
    if n.next.Some? { NumbersGrow(n.next.value, a, b); }
  }

  lemma UptoSplit(lo: nat, mid: nat, hi: nat)
    requires lo <= mid <= hi
    ensures Upto(lo, hi) == Upto(lo, mid) + Upto(mid, hi)
  {
  }

  lemma GoodGroup(src: Source, k: nat, body: Node, hi: nat)
    requires k > 0 && Good(src, body, k, hi)
    ensures Good(src, Node(Group(k, body), None), k - 1, hi)
  {
    UptoSplit(k - 1, k, hi);
    assert Upto(k - 1, k) == [k];
    if k in Groups(body) { GroupsOpened(body, k); }
    assert Opened(Node(Group(k, body), None)) == [k] + Opened(body);
  }

  lemma GoodRepeat(src: Source, op: Op, min: nat, max: int, lo: nat, hi: nat)
    requires Good(src, Node(op, None), lo, hi)
    ensures Good(src, Node(Repeat(min, max, Node(op, None)), None), lo, hi)
  {
    assert Opened(Node(Repeat(min, max, Node(op, None)), None)) == Opened(Node(op, None));
  }

  function OwnOpened(op: Op): seq<nat> {
    match op
    case Group(g, b) => [g] + Opened(b)
    case Choice(bs) => OpenedOf(bs)
    case Repeat(_, _, b) => Opened(b)
    case _ => []
  }

  lemma OpenedNext(op: Op, n: Node)
    ensures Opened(Node(op, Some(n))) == Opened(Node(op, None)) + Opened(n)
  {
    assert Opened(Node(op, None)) == OwnOpened(op) + [];
    assert Opened(Node(op, Some(n))) == OwnOpened(op) + Opened(n);
  }

  /** The static properties of an operation and of what follows it are those of both. */
  lemma StaticNext(src: Source, op: Op, n: Node, hi: nat)
    requires NumbersIn(Node(op, None), hi) && NoReentry(Node(op, None)) && Plain(src, Node(op, None))
    requires NumbersIn(n, hi) && NoReentry(n) && Plain(src, n)
    ensures var m := Node(op, Some(n)); NumbersIn(m, hi) && NoReentry(m) && Plain(src, m)
  {
  }

  lemma GoodNext(src: Source, op: Op, n: Node, lo: nat, mid: nat, hi: nat)
    requires Good(src, Node(op, None), lo, mid) && Good(src, n, mid, hi)
    ensures Good(src, Node(op, Some(n)), lo, hi)
  {
    UptoSplit(lo, mid, hi);
    NumbersGrow(Node(op, None), mid, hi);
    OpenedNext(op, n);
    StaticNext(src, op, n, hi);
  }

  lemma GoodEmpty(src: Source, lo: nat, hi: nat)
    requires Good(src, Node(Empty, None), lo, hi)
    ensures lo == hi
  {
    assert |Upto(lo, hi)| == hi - lo;
  }

  lemma GoodLink(src: Source, op: Op, ops: seq<Op>, lo: nat, mid: nat, hi: nat)
    requires Good(src, Node(op, None), lo, mid) && Good(src, Link(ops), mid, hi)
    ensures Good(src, Link([op] + ops), lo, hi)
  {
    if ops == [] {
      GoodEmpty(src, mid, hi);
    } else {
      GoodNext(src, op, Link(ops), lo, mid, hi);
      assert ([op] + ops)[1..] == ops;
      assert Link([op] + ops) == Node(op, Some(Link(ops)));
    }
  }

  ghost predicate GoodBranches(src: Source, bs: seq<Node>, lo: nat, hi: nat) {
    && lo <= hi && OpenedOf(bs) == Upto(lo, hi)
    && forall i :: 0 <= i < |bs| ==> NumbersIn(bs[i], hi) && NoReentry(bs[i]) && Plain(src, bs[i])
  }

  lemma GoodBranch(src: Source, b: Node, bs: seq<Node>, lo: nat, mid: nat, hi: nat)
    requires Good(src, b, lo, mid) && GoodBranches(src, bs, mid, hi)
    ensures GoodBranches(src, [b] + bs, lo, hi)
  {
    UptoSplit(lo, mid, hi);
    NumbersGrow(b, mid, hi);
    assert ([b] + bs)[1..] == bs;
  }

  lemma GoodChoice(src: Source, bs: seq<Node>, lo: nat, hi: nat)
    requires GoodBranches(src, bs, lo, hi)
    ensures Good(src, Node(Choice(bs), None), lo, hi)
  {
    assert Opened(Node(Choice(bs), None)) == OpenedOf(bs);
  }

  /** Atoms without groups. */
  lemma GoodLeaf(src: Source, op: Op, g: nat)
    requires !op.Group? && !op.Choice? && !op.Repeat? && (op.Ref? ==> !src.ere && 1 <= op.g <= g) && (op.Set? ==> ClosedIf(src.icase, op.members))
    ensures Good(src, Node(op, None), g, g)
  {
    assert Upto(g, g) == [];
  }

  lemma CommonGood(src: Source, st: State)
    ensures CommonAtom(src, st).Ok? ==> Good(src, Node(CommonAtom(src, st).value, None), st.groups, st.groups)
  {
    var r := CommonAtom(src, st);
    if r.Ok? {
      if Ch(src, st.p) == LBRACK { SetClosed(src, Move(st, 1)); }
      GoodLeaf(src, r.value, st.groups);
    }
  }

  lemma SimpleGood(src: Source, st: State, start: bool)
    ensures ExtendedAtom(src, st).Ok? ==> Good(src, Node(ExtendedAtom(src, st).value, None), st.groups, st.groups)
    ensures !src.ere && BasicAtom(src, st, start).Ok? ==> Good(src, Node(BasicAtom(src, st, start).value, None), st.groups, st.groups)
  {
    CommonGood(src, st);
    var e := ExtendedAtom(src, st);
    if e.Ok? && e != CommonAtom(src, st) { GoodLeaf(src, e.value, st.groups); }
    var b := BasicAtom(src, st, start);
    if !src.ere && b.Ok? && b != CommonAtom(src, st) { GoodLeaf(src, b.value, st.groups); }
  }

  lemma {:induction false} QuantifyGood(src: Source, st: State, op: Op, lo: nat)
    requires Good(src, Node(op, None), lo, st.groups)
    ensures Quantify(src, st, op).Ok? ==> Good(src, Node(Quantify(src, st, op).value, None), lo, st.groups)
    decreases |src.pat| - st.p
  {
    var q := ReadQuantifier(src, st);
    if q.Ok? && q.value.Some? && !(src.ere && (op.Bol? || op.Eol?)) {
      var c := q.value.value;
      GoodRepeat(src, op, c.min, c.max, lo, st.groups);
      QuantifyGood(src, q.st, Repeat(c.min, c.max, Node(op, None)), lo);
    }
  }

  lemma EndGroupGood(src: Source, st: State, r: Result<Node>)
    requires r.Ok? ==> Good(src, r.value, st.groups + 1, r.st.groups)
    ensures var g := EndGroup(src, st, r); g.Ok? ==> Good(src, Node(g.value, None), st.groups, g.st.groups)
  {
    if r.Ok? { GoodGroup(src, st.groups + 1, r.value, r.st.groups); }
  }

  lemma {:induction false} AtomGood(src: Source, st: State, start: bool)
    requires !AtEnd(src, st)
    ensures var r := Atom(src, st, start); r.Ok? ==> Good(src, Node(r.value, None), st.groups, r.st.groups)
    decreases |src.pat| - st.p, 0
  {
    if AtOpen(src, st) {
      var inside := Inside(src, st);
      if AtClose(src, inside) {
        GoodLeaf(src, Empty, inside.groups);
        EndGroupGood(src, st, Ok(Node(Empty, None), inside));
      } else {
        AlternativesGood(src, inside);
        EndGroupGood(src, st, Alternatives(src, inside));
      }
    } else {
      SimpleGood(src, st, start);
    }
  }

  lemma {:induction false} OpsGood(src: Source, st: State, start: bool)
    ensures var r := Ops(src, st, start); r.Ok? ==> Good(src, Link(r.value), st.groups, r.st.groups)
    decreases |src.pat| - st.p, 1
  {
    if AtEnd(src, st) {
      GoodLeaf(src, Empty, st.groups);
    } else {
      var a := Atom(src, st, start);
      AtomGood(src, st, start);
      if a.Ok? {
        QuantifyGood(src, a.st, a.value, st.groups);
        var q := Quantify(src, a.st, a.value);
        if q.Ok? {
          OpsGood(src, q.st, a.value.Bol? && !src.ere);
          var rest := Ops(src, q.st, a.value.Bol? && !src.ere);
          if rest.Ok? { GoodLink(src, q.value, rest.value, st.groups, q.st.groups, rest.st.groups); }
        }
      }
    }
  }

  lemma {:induction false} BranchesGood(src: Source, st: State)
    ensures var r := Branches(src, st); r.Ok? ==> GoodBranches(src, r.value, st.groups, r.st.groups)
    decreases |src.pat| - st.p, 2
  {
    if AtBar(src, st) {
      var b := Ops(src, Move(st, Sign(src)), true);
      OpsGood(src, Move(st, Sign(src)), true);
      if b.Ok? {
        BranchesGood(src, b.st);
        var rest := Branches(src, b.st);
        if rest.Ok? { GoodBranch(src, Link(b.value), rest.value, st.groups, b.st.groups, rest.st.groups); }
      }
    }
  }

  lemma {:induction false} AlternativesGood(src: Source, st: State)
    ensures var r := Alternatives(src, st); r.Ok? ==> Good(src, r.value, st.groups, r.st.groups)
    decreases |src.pat| - st.p, 3
  {
    var a := Ops(src, st, true);
    OpsGood(src, st, true);
    if a.Ok? && AtBar(src, a.st) {
      BranchesGood(src, a.st);
      var rest := Branches(src, a.st);
      if rest.Ok? {
        GoodBranch(src, Link(a.value), rest.value, st.groups, a.st.groups, rest.st.groups);
        GoodChoice(src, [Link(a.value)] + rest.value, st.groups, rest.st.groups);
      }
    }
  }

  /** Every pattern that compiles gives a tree the matcher can trust. */
  lemma CompiledGood(src: Source)
    requires Compile(src).Ok?
    ensures var n, ng := Compile(src).value, Compile(src).st.groups;
            && Opened(n) == Upto(0, ng) && NumbersIn(n, ng) && NoReentry(n)
            && (src.icase ==> SetsCaseClosed(n)) && (src.ere ==> NoRefs(n))
  {
    AlternativesGood(src, State(0, 0, 0));
  }
}
