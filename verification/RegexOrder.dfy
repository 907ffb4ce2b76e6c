/**
  Which of the longest ways is reported. Where a tree can lead from a place,
  in order of preference, without any search: an earlier branch before a later
  one, another turn of a repeat before none. The search with its continuations
  and its early stop reports the first of the longest in that order.
  */
module RegexOrder {
  import opened Common
  import opened RegexTree
  import opened RegexRun
  import opened RegexMatcher
  import opened RegexExec

  /** A position and the captures there. */
  datatype Place = Place(s: nat, c: Caps)

  ghost predicate Inside(env: Env, s: nat, ps: seq<Place>) {
    forall i :: 0 <= i < |ps| ==> s <= ps[i].s <= |env.text|
  }

  // ----- the order of preference -----

  /** Everything the tree can lead to, the preferred first. */
  function All(env: Env, n: Node, s: nat, c: Caps): (ps: seq<Place>)
    requires s <= |env.text|
    ensures Inside(env, s, ps)
    decreases n, 3, 0, 0, 0, 0
  {
    if n.next.None? then OpAll(env, n, s, c) else Onward(env, n.next.value, s, OpAll(env, n, s, c))
  }

  /** From each of the places in turn. */
  function Onward(env: Env, m: Node, s: nat, ps: seq<Place>): (qs: seq<Place>)
    requires Inside(env, s, ps)
    ensures Inside(env, s, qs)
    decreases m, 4, 0, 0, 0, |ps|
  {
    if ps == [] then [] else All(env, m, ps[0].s, ps[0].c) + Onward(env, m, s, ps[1..])
  }

  function OpAll(env: Env, n: Node, s: nat, c: Caps): (ps: seq<Place>)
    requires s <= |env.text|
    ensures Inside(env, s, ps)
    decreases n, 2, 0, 0, 0, 0
  {
    match n.op
    case Group(g, b) => Closed(g, All(env, b, s, OpenGroup(c, g, s)))
    case Choice(bs) => Either(env, bs, s, c)
    case Repeat(min, max, b) => Turns(env, b, min, max, 0, s, c)
    case _ =>
      var e := StepEnd(env, n.op, c, s);
      if e.Some? then [Place(e.value, c)] else []
  }

  function Closed(g: nat, ps: seq<Place>): (qs: seq<Place>)
    ensures |qs| == |ps| && forall i :: 0 <= i < |ps| ==> qs[i] == Place(ps[i].s, CloseGroup(ps[i].c, g, ps[i].s))
  {
    if ps == [] then [] else [Place(ps[0].s, CloseGroup(ps[0].c, g, ps[0].s))] + Closed(g, ps[1..])
  }

  /** An earlier branch is preferred. */
  function Either(env: Env, bs: seq<Node>, s: nat, c: Caps): (ps: seq<Place>)
    requires s <= |env.text|
    ensures Inside(env, s, ps)
    decreases bs, 3, 0, 0, 0, 0
  {
    if bs == [] then [] else All(env, bs[0], s, c) + Either(env, bs[1..], s, c)
  }

  function Left(min: nat, done: nat): nat {
    if done < min then min - done else 0
  }

  /** After `done` turns: another turn is preferred to none. */
  function Turns(env: Env, b: Node, min: nat, max: int, done: nat, s: nat, c: Caps): (ps: seq<Place>)
    requires s <= |env.text|
    ensures Inside(env, s, ps)
    decreases b, 5, |env.text| - s, Left(min, done), 1, 0
  {
    (if max < 0 || done < max then Further(env, b, min, max, done, s, All(env, b, s, c)) else [])
    + (if min <= done then [Place(s, c)] else [])
  }

  /** From where one more turn ends; a turn that takes nothing counts only among the mandatory ones. */
  function Further(env: Env, b: Node, min: nat, max: int, done: nat, s: nat, ps: seq<Place>): (qs: seq<Place>)
    requires s <= |env.text| && Inside(env, s, ps)
    ensures Inside(env, s, qs)
    decreases b, 5, |env.text| - s, Left(min, done), 0, |ps|
  {
    if ps == [] then []
    else
      (if ps[0].s != s || done + 1 <= min then Turns(env, b, min, max, done + 1, ps[0].s, ps[0].c) else [])
      + Further(env, b, min, max, done, s, ps[1..])
  }

  // ----- the search follows it -----

  /** The same ways, and both stopped or neither; the visits do not count. */
  ghost predicate Same(a: Out, b: Out) {
    a.ways == b.ways && a.stop == b.stop
  }

  lemma SameChain(a: Out, a1: Out, b: Out, b1: Out)
    requires Same(a, a1) && Same(b, b1)
    ensures Same(Chain(a, b), Chain(a1, b1))
  {
  }

  lemma ChainChain(a: Out, b: Out, c: Out)
    ensures Same(Chain(Chain(a, b), c), Chain(a, Chain(b, c)))
  {
    assert a.ways + b.ways + c.ways == a.ways + (b.ways + c.ways);
  }

  lemma ChainNothing(a: Out)
    ensures Same(Chain(a, NOTHING), a) && Same(Chain(NOTHING, a), a)
  {
    assert a.ways + [] == a.ways && [] + a.ways == a.ways;
  }

  lemma SameVisit(a: Out)
    ensures Same(Visit(a), a)
  {
  }

  /** What comes after, from each of the places in turn, until a way reaches the end of the text. */
  function Feed(env: Env, s: nat, ps: seq<Place>, k: Cont): Out
    requires Inside(env, s, ps)
    decreases ps
  {
    if ps == [] then NOTHING else Chain(Advance(env, ps[0].s, ps[0].c, k), Feed(env, s, ps[1..], k))
  }

  lemma {:induction false} FeedAppend(env: Env, s: nat, ps: seq<Place>, qs: seq<Place>, k: Cont)
    requires Inside(env, s, ps) && Inside(env, s, qs) && Inside(env, s, ps + qs)
    ensures Same(Feed(env, s, ps + qs, k), Chain(Feed(env, s, ps, k), Feed(env, s, qs, k)))
    decreases ps
  {
    if ps == [] {
      assert ps + qs == qs;
      ChainNothing(Feed(env, s, qs, k));
    } else {
      var a := Advance(env, ps[0].s, ps[0].c, k);
      assert (ps + qs)[0] == ps[0] && (ps + qs)[1..] == ps[1..] + qs;
      FeedAppend(env, s, ps[1..], qs, k);
      SameChain(a, a, Feed(env, s, ps[1..] + qs, k), Chain(Feed(env, s, ps[1..], k), Feed(env, s, qs, k)));
      ChainChain(a, Feed(env, s, ps[1..], k), Feed(env, s, qs, k));
    }
  }

  /** The bound from which places are seen does not matter. */
  lemma {:induction false} FeedFrom(env: Env, s: nat, t: nat, ps: seq<Place>, k: Cont)
    requires Inside(env, s, ps) && Inside(env, t, ps)
    ensures Feed(env, s, ps, k) == Feed(env, t, ps, k)
    decreases ps
  {
    if ps != [] { FeedFrom(env, s, t, ps[1..], k); }
  }

  lemma FeedOne(env: Env, s: nat, p: Place, k: Cont)
    requires s <= p.s <= |env.text|
    ensures Inside(env, s, [p]) && Same(Feed(env, s, [p], k), Advance(env, p.s, p.c, k))
  {
    assert [p][1..] == [];
    ChainNothing(Advance(env, p.s, p.c, k));
  }

  lemma {:induction false} FeedClosed(env: Env, s: nat, g: nat, ps: seq<Place>, k: Cont)
    requires Inside(env, s, ps) && Inside(env, s, Closed(g, ps))
    ensures Feed(env, s, ps, Close(g, k)) == Feed(env, s, Closed(g, ps), k)
    decreases ps
  {
    if ps != [] {
      assert Closed(g, ps)[1..] == Closed(g, ps[1..]);
      FeedClosed(env, s, g, ps[1..], k);
    }
  }

  /** Trying a tree is going on from everything it leads to, in that order. */
  ghost predicate Tries(env: Env, n: Node, s: nat, c: Caps, k: Cont)
    requires s <= |env.text|
  {
    Same(Try(env, n, s, c, k), Feed(env, s, All(env, n, s, c), k))
  }

  lemma {:induction false} TryFeeds(env: Env, n: Node, s: nat, c: Caps, k: Cont)
    requires s <= |env.text|
    ensures Tries(env, n, s, c, k)
    decreases n, 3, 0, 0, 0, 0
  {
    var rest := After(n.next, k);
    OpFeeds(env, n, s, c, k);
    SameVisit(TryOut(env, n, s, c, k));
    if n.next.Some? { OnwardFeeds(env, n.next.value, s, OpAll(env, n, s, c), k); }
  }

  lemma {:induction false} OnwardFeeds(env: Env, m: Node, s: nat, ps: seq<Place>, k: Cont)
    requires Inside(env, s, ps)
    ensures Same(Feed(env, s, ps, Then(m, k)), Feed(env, s, Onward(env, m, s, ps), k))
    decreases m, 4, 0, 0, 0, |ps|
  {
    if ps != [] {
      var p := ps[0];
      var here, more := All(env, m, p.s, p.c), Onward(env, m, s, ps[1..]);
      TryFeeds(env, m, p.s, p.c, k);
      OnwardFeeds(env, m, s, ps[1..], k);
      FeedFrom(env, p.s, s, here, k);
      SameChain(Try(env, m, p.s, p.c, k), Feed(env, s, here, k), Feed(env, s, ps[1..], Then(m, k)), Feed(env, s, more, k));
      FeedAppend(env, s, here, more, k);
    }
  }

  /** What the search does after `done` turns of the repeat `n`. */
  function Turning(env: Env, n: Node, done: nat, s: nat, c: Caps, k: Cont): Out
    requires s <= |env.text| && n.op.Repeat?
  {
    Chain(if MayRepeat(n, done) then Try(env, n.op.body, s, c, Turn(n, done, s, k)) else NOTHING,
          if n.op.min <= done then Advance(env, s, c, After(n.next, k)) else NOTHING)
  }

  lemma TurnTaken(env: Env, n: Node, done: nat, from: nat, s: nat, c: Caps, k: Cont)
    requires s <= |env.text| && n.op.Repeat?
    ensures Advance(env, s, c, Turn(n, done, from, k))
         == if Unpruned(n, done, from, s) then Turning(env, n, done + 1, s, c, k) else NOTHING
  {
    if Unpruned(n, done, from, s) {
      assert Advance(env, s, c, Turn(n, done, from, k)) == TurnOut(env, n, done, from, s, c, k);
    }
  }

  lemma GroupTried(env: Env, n: Node, s: nat, c: Caps, k: Cont)
    requires s <= |env.text| && n.op.Group?
    ensures TryOut(env, n, s, c, k) == Try(env, n.op.body, s, OpenGroup(c, n.op.g, s), Close(n.op.g, After(n.next, k)))
  {
  }

  lemma ChoiceTried(env: Env, n: Node, s: nat, c: Caps, k: Cont)
    requires s <= |env.text| && n.op.Choice?
    ensures TryOut(env, n, s, c, k) == TryAll(env, n.op.branches, s, c, After(n.next, k))
  {
  }

  lemma RepeatTried(env: Env, n: Node, s: nat, c: Caps, k: Cont)
    requires s <= |env.text| && n.op.Repeat?
    ensures TryOut(env, n, s, c, k) == Turning(env, n, 0, s, c, k)
  {
    var first := if n.op.max != 0 then Try(env, n.op.body, s, c, Turn(n, 0, s, k)) else NOTHING;
    var second := if n.op.min == 0 then Advance(env, s, c, After(n.next, k)) else NOTHING;
    TriedTwice(env, n, s, c, k, first, second);
    assert MayRepeat(n, 0) <==> n.op.max != 0;
  }

  lemma TriedTwice(env: Env, n: Node, s: nat, c: Caps, k: Cont, first: Out, second: Out)
    requires s <= |env.text| && n.op.Repeat?
    requires first == if n.op.max != 0 then Try(env, n.op.body, s, c, Turn(n, 0, s, k)) else NOTHING
    requires second == if n.op.min == 0 then Advance(env, s, c, After(n.next, k)) else NOTHING
    ensures TryOut(env, n, s, c, k) == Chain(first, second)
  {
  }

  lemma StepTried(env: Env, n: Node, s: nat, c: Caps, k: Cont)
    requires s <= |env.text| && !n.op.Group? && !n.op.Choice? && !n.op.Repeat?
    ensures Same(TryOut(env, n, s, c, k), Feed(env, s, OpAll(env, n, s, c), After(n.next, k)))
  {
    var e := StepEnd(env, n.op, c, s);
    if e.Some? { FeedOne(env, s, Place(e.value, c), After(n.next, k)); }
  }

  lemma {:induction false} OpFeeds(env: Env, n: Node, s: nat, c: Caps, k: Cont)
    requires s <= |env.text|
    ensures Same(TryOut(env, n, s, c, k), Feed(env, s, OpAll(env, n, s, c), After(n.next, k)))
    decreases n, 2, 0, 0, 0, 0
  {
    var rest := After(n.next, k);
    match n.op {
      case Group(g, b) =>
        GroupTried(env, n, s, c, k);
        TryFeeds(env, b, s, OpenGroup(c, g, s), Close(g, rest));
        FeedClosed(env, s, g, All(env, b, s, OpenGroup(c, g, s)), rest);
      case Choice(bs) =>
        ChoiceTried(env, n, s, c, k);
        EitherFeeds(env, bs, s, c, rest);
      case Repeat(min, max, b) =>
        RepeatTried(env, n, s, c, k);
        TurnsFeed(env, n, b, 0, s, c, k);
      case _ =>
        StepTried(env, n, s, c, k);
    }
  }

  lemma {:induction false} EitherFeeds(env: Env, bs: seq<Node>, s: nat, c: Caps, k: Cont)
    requires s <= |env.text|
    ensures Same(TryAll(env, bs, s, c, k), Feed(env, s, Either(env, bs, s, c), k))
    decreases bs, 3, 0, 0, 0, 0
  {
    if bs != [] {
      TryFeeds(env, bs[0], s, c, k);
      EitherFeeds(env, bs[1..], s, c, k);
      var here, more := All(env, bs[0], s, c), Either(env, bs[1..], s, c);
      SameChain(Try(env, bs[0], s, c, k), Feed(env, s, here, k), TryAll(env, bs[1..], s, c, k), Feed(env, s, more, k));
      FeedAppend(env, s, here, more, k);
    }
  }

  lemma {:induction false} TurnsFeed(env: Env, n: Node, b: Node, done: nat, s: nat, c: Caps, k: Cont)
    requires s <= |env.text| && n.op.Repeat? && b == n.op.body
    ensures Same(Turning(env, n, done, s, c, k), Feed(env, s, Turns(env, b, n.op.min, n.op.max, done, s, c), After(n.next, k)))
    decreases b, 5, |env.text| - s, Left(n.op.min, done), 1, 0
  {
    var rest, min, max := After(n.next, k), n.op.min, n.op.max;
    var more := if max < 0 || done < max then Further(env, b, min, max, done, s, All(env, b, s, c)) else [];
    var none := if min <= done then [Place(s, c)] else [];
    var first := if MayRepeat(n, done) then Try(env, b, s, c, Turn(n, done, s, k)) else NOTHING;
    var second := if min <= done then Advance(env, s, c, rest) else NOTHING;
    if MayRepeat(n, done) {
      TryFeeds(env, b, s, c, Turn(n, done, s, k));
      FurtherFeeds(env, n, b, done, s, All(env, b, s, c), k);
    }
    if min <= done { FeedOne(env, s, Place(s, c), rest); }
    SameChain(first, Feed(env, s, more, rest), second, Feed(env, s, none, rest));
    FeedAppend(env, s, more, none, rest);
  }

  lemma {:induction false} FurtherFeeds(env: Env, n: Node, b: Node, done: nat, s: nat, ps: seq<Place>, k: Cont)
    requires s <= |env.text| && n.op.Repeat? && b == n.op.body && Inside(env, s, ps)
    ensures Same(Feed(env, s, ps, Turn(n, done, s, k)),
                 Feed(env, s, Further(env, b, n.op.min, n.op.max, done, s, ps), After(n.next, k)))
    decreases b, 5, |env.text| - s, Left(n.op.min, done), 0, |ps|
  {
    if ps != [] {
      var p, rest, min, max := ps[0], After(n.next, k), n.op.min, n.op.max;
      var here := if p.s != s || done + 1 <= min then Turns(env, b, min, max, done + 1, p.s, p.c) else [];
      var more := Further(env, b, min, max, done, s, ps[1..]);
      var turn := Advance(env, p.s, p.c, Turn(n, done, s, k));
      TurnTaken(env, n, done, s, p.s, p.c, k);
      if p.s != s || done + 1 <= min {
        TurnsFeed(env, n, b, done + 1, p.s, p.c, k);
        FeedFrom(env, p.s, s, here, rest);
      }
      FurtherFeeds(env, n, b, done, s, ps[1..], k);
      SameChain(turn, Feed(env, s, here, rest), Feed(env, s, ps[1..], Turn(n, done, s, k)), Feed(env, s, more, rest));
      FeedAppend(env, s, here, more, rest);
    }
  }

  // ----- what is reported -----

  /** The ways of a search that nothing comes after. */
  function WaysOf(ps: seq<Place>): (ws: seq<Way>)
    ensures |ws| == |ps| && forall i :: 0 <= i < |ps| ==> ws[i] == Way(ps[i].s, Finish(ps[i].c, ps[i].s))
  {
    if ps == [] then [] else [Way(ps[0].s, Finish(ps[0].c, ps[0].s))] + WaysOf(ps[1..])
  }

  /** Up to the first that reaches the end of the text. */
  function UpToEnd(env: Env, ws: seq<Way>): seq<Way> {
    if ws == [] then [] else if ws[0].end == |env.text| then [ws[0]] else [ws[0]] + UpToEnd(env, ws[1..])
  }

  lemma {:induction false} FeedDone(env: Env, s: nat, ps: seq<Place>)
    requires Inside(env, s, ps)
    ensures Feed(env, s, ps, Done).ways == UpToEnd(env, WaysOf(ps))
    decreases ps
  {
    if ps != [] {
      FeedDone(env, s, ps[1..]);
      assert WaysOf(ps)[1..] == WaysOf(ps[1..]);
    }
  }

  /** The early stop does not change which of the longest is the first. */
  lemma {:induction false} StopIsHarmless(env: Env, best: Option<Way>, ws: seq<Way>)
    requires (forall i :: 0 <= i < |ws| ==> ws[i].end <= |env.text|) && (best.Some? ==> best.value.end <= |env.text|)
    ensures KeepAll(best, UpToEnd(env, ws)) == KeepAll(best, ws)
    decreases ws
  {
    if ws != [] {
      if ws[0].end == |env.text| {
        assert [ws[0]][1..] == [];
        NoneBetter(env, Keep(best, ws[0]).value, ws[1..]);
      } else {
        assert UpToEnd(env, ws)[1..] == UpToEnd(env, ws[1..]);
        StopIsHarmless(env, Keep(best, ws[0]), ws[1..]);
      }
    }
  }

  lemma {:induction false} NoneBetter(env: Env, w: Way, ws: seq<Way>)
    requires w.end == |env.text| && forall i :: 0 <= i < |ws| ==> ws[i].end <= |env.text|
    ensures KeepAll(Some(w), ws) == Some(w)
    decreases ws
  {
    if ws != [] { NoneBetter(env, w, ws[1..]); }
  }

  /** Everything the pattern can take from `s` on, the preferred first. */
  function Preferred(env: Env, p: Prog, s: nat): seq<Way>
    requires s <= |env.text|
  {
    WaysOf(All(env, p.root, s, Start(p.ngroups, s)))
  }

  lemma SearchPrefers(env: Env, p: Prog, s: nat)
    requires s <= |env.text|
    ensures SearchAt(env, p, s).ways == [] <==> Preferred(env, p, s) == []
    ensures KeepAll(None, SearchAt(env, p, s).ways) == KeepAll(None, Preferred(env, p, s))
  {
    var ps := All(env, p.root, s, Start(p.ngroups, s));
    TryFeeds(env, p.root, s, Start(p.ngroups, s), Done);
    FeedDone(env, s, ps);
    StopIsHarmless(env, None, WaysOf(ps));
  }

  /** What regexec reports, by the order of preference alone. */
  ghost predicate FirstPreferred(env: Env, p: Prog, v: Verdict) {
    match v
    case Found(s, w) =>
      && s <= |env.text| && FirstLongest(Preferred(env, p, s), Some(w))
      && (forall i :: 0 <= i < s ==> Preferred(env, p, i) == [])
    case NoMatch => forall i :: 0 <= i <= |env.text| ==> Preferred(env, p, i) == []
    case NoSpace => false
  }

  lemma {:induction false} SearchFrom(env: Env, p: Prog, s: nat, steps: nat)
    requires s <= |env.text| && steps + VisitsFrom(env, p, s) <= MAX_STEPS
    requires forall i :: 0 <= i < s ==> Preferred(env, p, i) == []
    ensures FirstPreferred(env, p, Search(env, p, s, steps))
    decreases |env.text| - s
  {
    var o := SearchAt(env, p, s);
    SearchPrefers(env, p, s);
    KeepAllLongest(None, Preferred(env, p, s));
    if o.ways == [] && s < |env.text| { SearchFrom(env, p, s + 1, steps + o.visits); }
  }

  /**
    For every tree and text, within the step fuse: the match begins where
    something can be taken for the first time, and of everything that can be
    taken from there it is the first of the longest in the order of
    preference. So the groups are those of that way.
    */
  lemma ReportsPreferred(env: Env, p: Prog)
    requires WithinFuse(env, p)
    ensures FirstPreferred(env, p, Search(env, p, 0, 0))
  {
    SearchFrom(env, p, 0, 0);
  }
}
