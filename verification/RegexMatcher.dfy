/**
  rx_prova and rx_avanti as they work: one record (RxStato) whose capture
  arrays, best match and step counter are updated in place.

  The matcher is proved against the search function of RegexRun, step fuse
  included.
  */
module RegexMatcher {
  import opened Common
  import opened RegexTree
  import opened RegexRun

  const MAX_STEPS: nat := 20_000_000    // REGEX_PASSI

  const FOUND := 0
  const NO_MATCH := 1                   // REG_NOMATCH
  const BAD_PATTERN := 2                // REG_BADPAT
  const NO_SPACE := 12                  // REG_ESPACE

  /** The longest way so far, the first one found of that length. */
  function Keep(best: Option<Way>, w: Way): Option<Way> {
    if best.None? || w.end > best.value.end then Some(w) else best
  }

  function KeepAll(best: Option<Way>, ws: seq<Way>): Option<Way>
    decreases |ws|
  {
    if ws == [] then best else KeepAll(Keep(best, ws[0]), ws[1..])
  }

  lemma {:induction false} KeepAllAppend(best: Option<Way>, a: seq<Way>, b: seq<Way>)
    ensures KeepAll(best, a + b) == KeepAll(KeepAll(best, a), b)
    decreases |a|
  {
    if a == [] {
      assert a + b == b;
    } else {
      assert (a + b)[1..] == a[1..] + b;
      KeepAllAppend(Keep(best, a[0]), a[1..], b);
    }
  }

  /** What is kept is the first of the longest ways. */
  lemma {:induction false} KeepAllLongest(best: Option<Way>, ws: seq<Way>)
    ensures KeepAll(best, ws).None? <==> best.None? && ws == []
    ensures KeepAll(best, ws) != best ==> FirstLongest(ws, KeepAll(best, ws))
    ensures forall w :: (w in ws || Some(w) == best) ==> KeepAll(best, ws).Some? && w.end <= KeepAll(best, ws).value.end
    decreases |ws|
  {
    if ws != [] {
      KeepAllLongest(Keep(best, ws[0]), ws[1..]);
      assert Some(ws[0]) == Keep(best, ws[0]) || ws[0].end <= best.value.end;
      assert forall w :: w in ws ==> w == ws[0] || w in ws[1..];
      if KeepAll(best, ws) != best && KeepAll(best, ws) != Keep(best, ws[0]) {
        var i :| 0 <= i < |ws[1..]| && IsFirstLongest(ws[1..], i) && Some(ws[1..][i]) == KeepAll(best, ws);
        assert Keep(best, ws[0]).Some? && Some(Keep(best, ws[0]).value) == Keep(best, ws[0]);
        assert ws[1..][i].end > ws[0].end by { KeepAllGrows(Keep(best, ws[0]), ws[1..]); }
        assert IsFirstLongest(ws, i + 1);
      } else if KeepAll(best, ws) != best {
        assert IsFirstLongest(ws, 0);
      }
    }
  }

  ghost predicate IsFirstLongest(ws: seq<Way>, i: nat)
    requires i < |ws|
  {
    && (forall j :: 0 <= j < |ws| ==> ws[j].end <= ws[i].end)
    && (forall j :: 0 <= j < i ==> ws[j].end < ws[i].end)
  }

  ghost predicate FirstLongest(ws: seq<Way>, best: Option<Way>) {
    exists i :: 0 <= i < |ws| && IsFirstLongest(ws, i) && best == Some(ws[i])
  }

  lemma {:induction false} KeepAllGrows(best: Option<Way>, ws: seq<Way>)
    requires best.Some?
    ensures KeepAll(best, ws) == best || (KeepAll(best, ws).Some? && KeepAll(best, ws).value.end > best.value.end)
    decreases |ws|
  {
    if ws != [] {
      KeepAllGrows(Keep(best, ws[0]), ws[1..]);
    }
  }

  /** How many of the ways are found within `m` visits. */
  function Cut(at: seq<nat>, m: int): (n: nat)
    ensures n <= |at|
  {
    if at == [] || at[0] > m then 0 else 1 + Cut(at[1..], m)
  }

  lemma {:induction false} CutAppend(a: seq<nat>, b: seq<nat>, m: int)
    ensures (forall i :: 0 <= i < |a| ==> a[i] <= m) ==> Cut(a + b, m) == |a| + Cut(b, m)
    ensures (forall i :: 0 <= i < |b| ==> b[i] > m) ==> Cut(a + b, m) == Cut(a, m)
    decreases |a|
  {
    if a == [] {
      assert a + b == b;
    } else {
      assert (a + b)[1..] == a[1..] + b;
      CutAppend(a[1..], b, m);
    }
  }

  lemma {:induction false} CutLater(at: seq<nat>, n: nat, m: int)
    ensures Cut(Later(at, n), m) == Cut(at, m - n)
    decreases |at|
  {
    if at != [] {
      assert Later(at, n)[1..] == Later(at[1..], n);
      CutLater(at[1..], n, m);
    }
  }

  /** A search `o` started with `steps` steps used and `best` kept leaves the record like this: past the fuse, with what
      had been found by then. */
  ghost predicate Ran(o: Out, steps: nat, best: Option<Way>, steps': nat, tooMany': bool, best': Option<Way>, r: bool)
    requires OutOk(o)
  {
    if steps + o.visits <= MAX_STEPS then
      steps' == steps + o.visits && !tooMany' && r == o.stop && best' == KeepAll(best, o.ways)
    else
      steps' == MAX_STEPS + 1 && tooMany' && !r && best' == KeepAll(best, o.ways[..Cut(o.at, MAX_STEPS - steps)])
  }

  lemma RanChain(a: Out, b: Out, s0: nat, b0: Option<Way>, s1: nat, t1: bool, b1: Option<Way>, r1: bool,
                 s2: nat, t2: bool, b2: Option<Way>, r2: bool)
    requires OutOk(a) && OutOk(b)
    requires Ran(a, s0, b0, s1, t1, b1, r1)
    requires if r1 || t1 then s2 == s1 && t2 == t1 && b2 == b1 && r2 == r1 else Ran(b, s1, b1, s2, t2, b2, r2)
    ensures Ran(Chain(a, b), s0, b0, s2, t2, b2, r2)
  {
    if !a.stop {
      if t1 {
        PastInFirst(a, b, s0);
      } else if t2 {
        PastInSecond(a, b, s0, b0);
      } else {
        KeepAllAppend(b0, a.ways, b.ways);
      }
    }
  }

  /** The fuse is reached in the first of two searches. */
  lemma PastInFirst(a: Out, b: Out, s0: nat)
    requires OutOk(a) && OutOk(b) && !a.stop && s0 + a.visits > MAX_STEPS
    ensures var o, m := Chain(a, b), MAX_STEPS - s0; o.ways[..Cut(o.at, m)] == a.ways[..Cut(a.at, m)]
  {
    CutAppend(a.at, Later(b.at, a.visits), MAX_STEPS - s0);
    CutLater(b.at, a.visits, MAX_STEPS - s0);
  }

  /** The fuse is reached in the second. */
  lemma PastInSecond(a: Out, b: Out, s0: nat, b0: Option<Way>)
    requires OutOk(a) && OutOk(b) && !a.stop && s0 + a.visits <= MAX_STEPS < s0 + a.visits + b.visits
    ensures var o, m := Chain(a, b), MAX_STEPS - s0;
            KeepAll(b0, o.ways[..Cut(o.at, m)]) == KeepAll(KeepAll(b0, a.ways), b.ways[..Cut(b.at, m - a.visits)])
  {
    var m := MAX_STEPS - s0;
    var q := Cut(b.at, m - a.visits);
    CutAppend(a.at, Later(b.at, a.visits), m);
    CutLater(b.at, a.visits, m);
    assert (a.ways + b.ways)[..|a.ways| + q] == a.ways + b.ways[..q];
    KeepAllAppend(b0, a.ways, b.ways[..q]);
  }

  /** Counting the visit of a node, with or without a step left for it. */
  lemma RanVisit(o: Out, steps: nat, best: Option<Way>, steps': nat, tooMany': bool, best': Option<Way>, r: bool)
    requires OutOk(o) && steps <= MAX_STEPS
    requires if steps < MAX_STEPS then Ran(o, steps + 1, best, steps', tooMany', best', r)
             else steps' == steps + 1 && tooMany' && !r && best' == best
    ensures Ran(Visit(o), steps, best, steps', tooMany', best', r)
  {
    CutLater(o.at, 1, MAX_STEPS - steps);
    assert o.ways[..0] == [];
  }

  /** The capture arrays at position `s`: nothing beyond it, and a closed group does not end before it starts. */
  predicate CapsOk(c: Caps, ng: nat, s: nat) {
    && |c.so| == |c.eo| == ng + 1
    && (forall g :: 0 <= g <= ng ==> -1 <= c.so[g] <= s && -1 <= c.eo[g] <= s)
    && (forall g :: 0 <= g <= ng && 0 <= c.so[g] && 0 <= c.eo[g] ==> c.so[g] <= c.eo[g])
  }

  ghost predicate ContNumbersIn(k: Cont, ng: nat) {
    match k
    case Done => true
    case Then(n, rest) => NumbersIn(n, ng) && ContNumbersIn(rest, ng)
    case Close(g, rest) => 1 <= g <= ng && ContNumbersIn(rest, ng)
    case Turn(r, _, _, rest) => r.op.Repeat? && NumbersIn(r, ng) && ContNumbersIn(rest, ng)
  }

  class State {
    const env: Env
    const ng: nat
    const so: array<int>
    const eo: array<int>
    const bestSo: array<int>
    const bestEo: array<int>
    var best: int                       // -1: none
    var steps: nat
    var tooMany: bool

    ghost predicate Valid()
      reads this
    {
      && so.Length == eo.Length == bestSo.Length == bestEo.Length == ng + 1
      && so != eo && so != bestSo && so != bestEo && eo != bestSo && eo != bestEo && bestSo != bestEo
      && -1 <= best <= |env.text|
      && (tooMany <==> MAX_STEPS < steps) && steps <= MAX_STEPS + 1
    }

    ghost function Captures(): Caps
      reads this, so, eo
    {
      Caps(so[..], eo[..])
    }

    ghost function Best(): Option<Way>
      reads this, bestSo, bestEo
    {
      if best < 0 then None else Some(Way(best, Caps(bestSo[..], bestEo[..])))
    }

    constructor (env: Env, ng: nat)
      ensures Valid() && this.env == env && this.ng == ng && steps == 0 && best == -1
      ensures fresh(so) && fresh(eo) && fresh(bestSo) && fresh(bestEo)
    {
      this.env := env;
      this.ng := ng;
      so := new int[ng + 1];
      eo := new int[ng + 1];
      bestSo := new int[ng + 1];
      bestEo := new int[ng + 1];
      best := -1;
      steps := 0;
      tooMany := false;
    }

    /** A way to the end: kept if it is the longest so far. */
    method Record(s: nat)
      requires Valid() && s <= |env.text|
      modifies this`best, bestSo, bestEo
      ensures Valid()
      ensures Best() == Keep(old(Best()), Way(s, Finish(Captures(), s)))
    {
      if best < 0 || s > best {
        best := s;
        forall i | 0 <= i <= ng { bestSo[i] := so[i]; }
        forall i | 0 <= i <= ng { bestEo[i] := eo[i]; }
        bestEo[0] := s;
        assert bestSo[..] == so[..];
        assert bestEo[..] == eo[..][0 := s];
      }
    }

    /** The text of group `g` again at `s`: where it ends, if it is there. */
    method MatchRef(g: nat, s: nat) returns (e: Option<nat>)
      requires Valid() && 1 <= g <= ng && s <= |env.text| && CapsOk(Captures(), ng, s)
      ensures e == RefEnd(env, Captures(), g, s)
    {
      if so[g] < 0 || eo[g] < 0 { return None; }
      var l := eo[g] - so[g];
      if |env.text| - s < l { return None; }
      for i := 0 to l
        invariant forall j :: 0 <= j < i ==> SameChar(env, env.text[s..s + l][j], env.text[so[g]..eo[g]][j])
      {
        assert env.text[s..s + l][i] == env.text[s + i];
        assert env.text[so[g]..eo[g]][i] == env.text[so[g] + i];
        if !SameChar(env, env.text[s + i], env.text[so[g] + i]) { return None; }
      }
      return Some(s + l);
    }

    /** The cases of rx_prova without a body: where the node leads from `s`, if it matches there. */
    method Step(op: Op, s: nat) returns (e: Option<nat>)
      requires Valid() && s <= |env.text| && CapsOk(Captures(), ng, s)
      requires op.Ref? ==> 1 <= op.g <= ng
      ensures e == StepEnd(env, op, Captures(), s)
    {
      e := None;
      var n := |env.text|;
      match op {
        case Empty =>
          e := Some(s);
        case Char(c) =>
          if s < n && SameChar(env, env.text[s], c) { e := Some(s + 1); }
        case Any =>
          if s < n && (env.text[s] != NEWLINE || !env.newline) { e := Some(s + 1); }
        case Set(m) =>
          if s < n && env.text[s] in m { e := Some(s + 1); }
        case Bol =>
          if (s == 0 && !env.notBol) || (s > 0 && env.newline && env.text[s - 1] == NEWLINE) { e := Some(s); }
        case Eol =>
          if (s == n && !env.notEol) || (s < n && env.newline && env.text[s] == NEWLINE) { e := Some(s); }
        case Ref(g) =>
          e := MatchRef(g, s);
        case _ =>
      }
    }

    /** rx_prova. The capture arrays come back as they were. */
    method Try(n: Node, s: nat, k: Cont) returns (r: bool)
      requires Valid() && !tooMany && s <= |env.text| && CapsOk(Captures(), ng, s)
      requires NumbersIn(n, ng) && ContNumbersIn(k, ng)
      modifies this`best, this`steps, this`tooMany, so, eo, bestSo, bestEo
      ensures Valid() && Captures() == old(Captures())
      ensures Ran(RegexRun.Try(env, n, s, old(Captures()), k), old(steps), old(Best()), steps, tooMany, Best(), r)
      decreases |env.text| - s, NodeWork(n) + ContWork(k, s), 2
    {
      ghost var o := TryOut(env, n, s, Captures(), k);
      ghost var steps0, best0 := steps, Best();
      steps := steps + 1;
      r := false;
      if steps > MAX_STEPS {
        tooMany := true;
      } else {
        r := TryOp(n, s, k);
      }
      RanVisit(o, steps0, best0, steps, tooMany, Best(), r);
    }

    /** The switch of rx_prova, after the visit is counted. */
    method TryOp(n: Node, s: nat, k: Cont) returns (r: bool)
      requires Valid() && !tooMany && s <= |env.text| && CapsOk(Captures(), ng, s)
      requires NumbersIn(n, ng) && ContNumbersIn(k, ng)
      modifies this`best, this`steps, this`tooMany, so, eo, bestSo, bestEo
      ensures Valid() && Captures() == old(Captures())
      ensures Ran(TryOut(env, n, s, old(Captures()), k), old(steps), old(Best()), steps, tooMany, Best(), r)
      decreases |env.text| - s, NodeWork(n) + ContWork(k, s), 1
    {
      AfterWork(n.next, k, s);
      OpWorkDrops(n, s, k);
      var rest := After(n.next, k);
      ghost var o := TryOut(env, n, s, Captures(), k);
      if n.op.Group? {
        r := TryGroup(n.op.g, n.op.body, s, rest);
      } else if n.op.Choice? {
        r := TryBranches(n.op.branches, s, rest);
      } else if n.op.Repeat? {
        r := TryRepeat(n, s, k);
      } else {
        var e := Step(n.op, s);
        if e.Some? {
          assert o == RegexRun.Advance(env, e.value, Captures(), rest);
          r := Advance(e.value, rest);
        } else {
          assert o == NOTHING;
          r := false;
        }
      }
    }

    /** RX_GRUPPO: the old bounds of the group are put back afterwards. */
    method TryGroup(g: nat, b: Node, s: nat, rest: Cont) returns (r: bool)
      requires Valid() && !tooMany && s <= |env.text| && CapsOk(Captures(), ng, s)
      requires 1 <= g <= ng && NumbersIn(b, ng) && ContNumbersIn(rest, ng)
      modifies this`best, this`steps, this`tooMany, so, eo, bestSo, bestEo
      ensures Valid() && Captures() == old(Captures())
      ensures Ran(RegexRun.Try(env, b, s, OpenGroup(old(Captures()), g, s), Close(g, rest)),
                  old(steps), old(Best()), steps, tooMany, Best(), r)
      decreases |env.text| - s, NodeWork(b) + ContWork(Close(g, rest), s), 3
    {
      ghost var c := Captures();
      var oldSo, oldEo := so[g], eo[g];
      so[g] := s;
      eo[g] := -1;
      assert Captures() == OpenGroup(c, g, s);
      r := Try(b, s, Close(g, rest));
      so[g] := oldSo;
      eo[g] := oldEo;
      assert so[..] == c.so && eo[..] == c.eo;
    }

    /** The branches of RX_SCELTA in turn. */
    method TryBranches(bs: seq<Node>, s: nat, k: Cont) returns (r: bool)
      requires Valid() && !tooMany && s <= |env.text| && CapsOk(Captures(), ng, s)
      requires (forall i :: 0 <= i < |bs| ==> NumbersIn(bs[i], ng)) && ContNumbersIn(k, ng)
      modifies this`best, this`steps, this`tooMany, so, eo, bestSo, bestEo
      ensures Valid() && Captures() == old(Captures())
      ensures Ran(TryAll(env, bs, s, old(Captures()), k), old(steps), old(Best()), steps, tooMany, Best(), r)
      decreases |env.text| - s, BranchWork(bs) + ContWork(k, s), 1
    {
      if bs == [] { return false; }
      ghost var c := Captures();
      ghost var first, second := RegexRun.Try(env, bs[0], s, c, k), TryAll(env, bs[1..], s, c, k);
      ghost var steps0, best0 := steps, Best();
      r := Try(bs[0], s, k);
      ghost var steps1, tooMany1, best1, r1 := steps, tooMany, Best(), r;
      if !r && !tooMany {
        r := TryBranches(bs[1..], s, k);
      }
      RanChain(first, second, steps0, best0, steps1, tooMany1, best1, r1, steps, tooMany, Best(), r);
    }

    /** RX_RIPETI, after the visit is counted. */
    method TryRepeat(n: Node, s: nat, k: Cont) returns (r: bool)
      requires Valid() && !tooMany && s <= |env.text| && CapsOk(Captures(), ng, s)
      requires n.op.Repeat? && NumbersIn(n, ng) && ContNumbersIn(k, ng)
      modifies this`best, this`steps, this`tooMany, so, eo, bestSo, bestEo
      ensures Valid() && Captures() == old(Captures())
      ensures Ran(TryOut(env, n, s, old(Captures()), k), old(steps), old(Best()), steps, tooMany, Best(), r)
      decreases |env.text| - s, NodeWork(n) + ContWork(k, s), 0
    {
      AfterWork(n.next, k, s);
      OpWorkDrops(n, s, k);
      ghost var c := Captures();
      ghost var steps0, best0 := steps, Best();
      ghost var first := if n.op.max != 0 then RegexRun.Try(env, n.op.body, s, c, Turn(n, 0, s, k)) else NOTHING;
      ghost var second := if n.op.min == 0 then RegexRun.Advance(env, s, c, After(n.next, k)) else NOTHING;
      r := false;
      if n.op.max != 0 {
        r := Try(n.op.body, s, Turn(n, 0, s, k));
      }
      ghost var steps1, tooMany1, best1, r1 := steps, tooMany, Best(), r;
      assert Valid() && Captures() == c && Ran(first, steps0, best0, steps, tooMany, best1, r);
      if !r && !tooMany && n.op.min == 0 {
        r := Advance(s, After(n.next, k));
      }
      RanChain(first, second, steps0, best0, steps1, tooMany1, best1, r1, steps, tooMany, Best(), r);
    }

    /** rx_avanti. The capture arrays come back as they were. */
    method Advance(s: nat, k: Cont) returns (r: bool)
      requires Valid() && !tooMany && s <= |env.text| && CapsOk(Captures(), ng, s)
      requires ContNumbersIn(k, ng)
      modifies this`best, this`steps, this`tooMany, so, eo, bestSo, bestEo
      ensures Valid() && Captures() == old(Captures())
      ensures Ran(RegexRun.Advance(env, s, old(Captures()), k), old(steps), old(Best()), steps, tooMany, Best(), r)
      decreases |env.text| - s, ContWork(k, s), 1
    {
      ghost var c := Captures();
      match k {
        case Done =>
          Record(s);
          r := s == |env.text|;
        case Then(n, rest) =>
          r := Try(n, s, rest);
        case Close(g, rest) =>
          var oldEo := eo[g];
          eo[g] := s;
          assert Captures() == CloseGroup(c, g, s);
          r := Advance(s, rest);
          eo[g] := oldEo;
          assert so[..] == c.so && eo[..] == c.eo;
        case Turn(n, turns, from, rest) =>
          if !Unpruned(n, turns, from, s) { return false; }
          r := NextTurn(n, turns, from, s, rest);
      }
    }

    /** One turn of a repeat is over and was not an idle one: another turn, or what follows the repeat. */
    method NextTurn(n: Node, turns: nat, from: nat, s: nat, k: Cont) returns (r: bool)
      requires Valid() && !tooMany && s <= |env.text| && CapsOk(Captures(), ng, s)
      requires n.op.Repeat? && Unpruned(n, turns, from, s) && NumbersIn(n, ng) && ContNumbersIn(k, ng)
      modifies this`best, this`steps, this`tooMany, so, eo, bestSo, bestEo
      ensures Valid() && Captures() == old(Captures())
      ensures Ran(TurnOut(env, n, turns, from, s, old(Captures()), k), old(steps), old(Best()), steps, tooMany, Best(), r)
      decreases |env.text| - s, ContWork(Turn(n, turns, from, k), s), 0
    {
      AfterWork(n.next, k, s);
      TurnWorkDrops(n, turns, from, s, k);
      var again := Turn(n, turns + 1, s, k);
      ghost var c := Captures();
      ghost var first := if MayRepeat(n, turns + 1) then RegexRun.Try(env, n.op.body, s, c, again) else NOTHING;
      ghost var second := if n.op.min <= turns + 1 then RegexRun.Advance(env, s, c, After(n.next, k)) else NOTHING;
      ghost var steps0, best0 := steps, Best();
      r := false;
      if MayRepeat(n, turns + 1) {
        r := Try(n.op.body, s, again);
      }
      ghost var steps1, tooMany1, best1, r1 := steps, tooMany, Best(), r;
      assert Valid() && Captures() == c && Ran(first, steps0, best0, steps, tooMany, best1, r);
      if !r && !tooMany && n.op.min <= turns + 1 {
        r := Advance(s, After(n.next, k));
      }
      RanChain(first, second, steps0, best0, steps1, tooMany1, best1, r1, steps, tooMany, Best(), r);
    }
  }
}
