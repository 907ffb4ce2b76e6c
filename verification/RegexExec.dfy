/**
  regexec: the search at every starting point, and what is reported.
  */
module RegexExec {
  import opened Common
  import opened RegexTree
  import opened RegexRun
  import opened RegexSemantics
  import opened RegexSound
  import opened RegexGroups
  import opened RegexLean
  import opened RegexComplete
  import opened RegexMatcher

  /** RxProg: the result of regcomp. */
  datatype Prog = Prog(root: Node, ngroups: nat, icase: bool, newline: bool, nosub: bool)

  /** What regcomp guarantees of its result (see RegexCompiler). */
  ghost predicate WellFormed(p: Prog) {
    NumbersIn(p.root, p.ngroups) && NoReentry(p.root)
  }

  datatype Span = Span(so: int, eo: int)          // regmatch_t

  const UNSET := Span(-1, -1)

  /** The captures with which a search starts at `s`. */
  function Start(ng: nat, s: nat): Caps {
    Caps(seq(ng + 1, i => if i == 0 then s else -1), seq(ng + 1, i => -1))
  }

  function SearchAt(env: Env, p: Prog, s: nat): Out
    requires s <= |env.text|
  {
    Try(env, p.root, s, Start(p.ngroups, s), Done)
  }

  /** How regexec ends. */
  datatype Verdict = Found(start: nat, way: Way) | NoMatch | NoSpace

  /** The search from the starting point `s` on, with `steps` nodes visited before. */
  function Search(env: Env, p: Prog, s: nat, steps: nat): Verdict
    requires s <= |env.text|
    decreases |env.text| - s
  {
    var o := SearchAt(env, p, s);
    if steps + o.visits <= MAX_STEPS then
      if o.ways != [] then FoundOr(s, KeepAll(None, o.ways))
      else if s < |env.text| then Search(env, p, s + 1, steps + o.visits)
      else NoMatch
    else FoundOr(s, KeepAll(None, o.ways[..Cut(o.at, MAX_STEPS - steps)]))
  }

  function FoundOr(s: nat, best: Option<Way>): Verdict {
    if best.Some? then Found(s, best.value) else NoSpace
  }

  /** Nodes visited from the starting point `s` on, up to the first one that matches, if there were no fuse. */
  function VisitsFrom(env: Env, p: Prog, s: nat): nat
    requires s <= |env.text|
    decreases |env.text| - s
  {
    var o := SearchAt(env, p, s);
    o.visits + (if o.ways == [] && s < |env.text| then VisitsFrom(env, p, s + 1) else 0)
  }

  /** The search stays within the step fuse. */
  predicate WithinFuse(env: Env, p: Prog) {
    VisitsFrom(env, p, 0) <= MAX_STEPS
  }

  /** The tree matches the text from `s` to `e`. */
  ghost predicate Matches(env: Env, p: Prog, s: nat, e: nat)
    requires s <= |env.text|
  {
    exists d :: Derives(env, p.root, s, Start(p.ngroups, s), e, d)
  }

  /** The same with a lean derivation: no turn of a repeat beyond its minimum takes nothing. */
  ghost predicate LeanMatches(env: Env, p: Prog, s: nat, e: nat)
    requires s <= |env.text|
  {
    exists d :: Lean(env, p.root, s, Start(p.ngroups, s), e, d)
  }

  /** `lean` chooses between all matches and the ones with a lean derivation. */
  ghost predicate Ends(env: Env, p: Prog, lean: bool, s: nat, e: nat)
    requires s <= |env.text|
  {
    if lean then LeanMatches(env, p, s, e) else Matches(env, p, s, e)
  }

  ghost predicate MatchesAt(env: Env, p: Prog, lean: bool, s: nat)
    requires s <= |env.text|
  {
    exists e: nat :: Ends(env, p, lean, s, e)
  }

  ghost predicate NoneBefore(env: Env, p: Prog, lean: bool, s: nat)
    requires s <= |env.text| + 1
  {
    forall i :: 0 <= i < s ==> !MatchesAt(env, p, lean, i)
  }

  ghost predicate NoneLonger(env: Env, p: Prog, lean: bool, s: nat, e: nat)
    requires s <= |env.text|
  {
    forall j: nat :: Ends(env, p, lean, s, j) ==> j <= e
  }

  /** `s` is the leftmost starting point of a match and `e` the end of the longest one there. */
  ghost predicate LeftmostLongest(env: Env, p: Prog, lean: bool, s: nat, e: nat) {
    s <= |env.text| && Ends(env, p, lean, s, e) && NoneBefore(env, p, lean, s) && NoneLonger(env, p, lean, s, e)
  }

  lemma LeanMatchesMatch(env: Env, p: Prog, s: nat, e: nat)
    requires s <= |env.text| && LeanMatches(env, p, s, e)
    ensures Matches(env, p, s, e) && s <= e <= |env.text|
  {
    var c := Start(p.ngroups, s);
    var d :| Lean(env, p.root, s, c, e, d);
    LeanDerives(env, p.root, s, c, e, d);
    LeanForward(env, p.root, s, c, e, d);
  }

  /** If no back reference depends on an empty turn, every match has a lean derivation. */
  lemma SafeMatchesAreLean(env: Env, p: Prog, s: nat, e: nat)
    requires s <= |env.text| && RefsSafe(p.root)
    ensures Matches(env, p, s, e) <==> LeanMatches(env, p, s, e)
  {
    var c := Start(p.ngroups, s);
    if d :| Derives(env, p.root, s, c, e, d) {
      var d' := MakeLean(env, Refs(p.root), p.root, s, c, e, d, c);
    }
    if LeanMatches(env, p, s, e) { LeanMatchesMatch(env, p, s, e); }
  }

  /** Without back references a match is a text in the language of the tree. */
  lemma MatchesIsLang(env: Env, p: Prog, s: nat, e: nat)
    requires s <= |env.text| && NoRefs(p.root)
    ensures Matches(env, p, s, e) <==> Lang(env, p.root, s, e)
  {
    var c := Start(p.ngroups, s);
    if d :| Derives(env, p.root, s, c, e, d) {
      DerivesInLang(env, p.root, s, c, e, d);
    }
    if Lang(env, p.root, s, e) {
      var d := LangDerives(env, p.root, s, c, e);
    }
  }

  /** A derivation of the whole tree from `s`, started with no group set, that leaves the captures of `w`. */
  ghost predicate Derived(env: Env, p: Prog, s: nat, w: Way)
    requires s <= |env.text|
  {
    exists d :: Derives(env, p.root, s, Start(p.ngroups, s), w.end, d) && w.caps == Finish(d, w.end)
  }

  /** Every way found at `s` is a derivation, and a lean one, whatever the tree. */
  lemma WaysDerived(env: Env, p: Prog, s: nat, w: Way)
    requires s <= |env.text| && w in SearchAt(env, p, s).ways
    ensures Derived(env, p, s, w) && LeanMatches(env, p, s, w.end) && s <= w.end <= |env.text|
  {
    var c := Start(p.ngroups, s);
    var x, e := TrySound(env, p.root, s, c, Done, w);
    LeanDerives(env, p.root, s, c, x, e);
    LeanForward(env, p.root, s, c, x, e);
  }

  /** At one starting point the search finds a way exactly when a lean derivation starts there, and the longest one. */
  lemma LongestAt(env: Env, p: Prog, s: nat)
    requires s <= |env.text|
    ensures SearchAt(env, p, s).ways == [] <==> !MatchesAt(env, p, true, s)
    ensures var best := KeepAll(None, SearchAt(env, p, s).ways);
            best.Some? ==> LeanMatches(env, p, s, best.value.end) && NoneLonger(env, p, true, s, best.value.end)
  {
    var o := SearchAt(env, p, s);
    var c := Start(p.ngroups, s);
    forall j: nat | Ends(env, p, true, s, j) ensures Covers(o, j) {
      var d :| Lean(env, p.root, s, c, j, d);
      LeanForward(env, p.root, s, c, j, d);
      TryComplete(env, p.root, s, c, Done, j, d, j, Finish(d, j));
    }
    if o.ways != [] {
      WaysDerived(env, p, s, o.ways[0]);
      assert Ends(env, p, true, s, o.ways[0].end);
    }
    KeepAllLongest(None, o.ways);
    var best := KeepAll(None, o.ways);
    if best.Some? {
      WaysDerived(env, p, s, best.value);
    }
  }

  /** The groups of a derived way lie inside the match and were matched by their bodies. */
  lemma GroupsOfWay(env: Env, p: Prog, s: nat, w: Way)
    requires s <= |env.text| && WellFormed(p) && Derived(env, p, s, w)
    ensures s <= w.end <= |env.text| && Justified(env, p.root, w.caps, s, w.end)
    ensures |w.caps.so| == p.ngroups + 1 && w.caps.so[0] == s && w.caps.eo[0] == w.end
  {
    var c := Start(p.ngroups, s);
    var d :| Derives(env, p.root, s, c, w.end, d) && w.caps == Finish(d, w.end);
    assert Justified(env, p.root, c, s, s);
    assert GroupsWithin(p.root, p.root);
    DerivesJustified(env, p.root, s, p.root, s, c, w.end, d);
    DerivesOnly(env, p.root, s, c, w.end, d);
    GroupsPositive(p.root, p.ngroups);
  }

  lemma {:induction false} GroupsPositive(n: Node, ng: nat)
    requires NumbersIn(n, ng)
    ensures 0 !in Groups(n)
  {
    match n.op {
      case Group(_, b) => GroupsPositive(b, ng);
      case Choice(bs) => GroupsOfPositive(bs, ng);
      case Repeat(_, _, b) => GroupsPositive(b, ng);
      case _ =>
    }
    if n.next.Some? {
      GroupsPositive(n.next.value, ng);
    }
  }

  lemma {:induction false} GroupsOfPositive(bs: seq<Node>, ng: nat)
    requires forall i :: 0 <= i < |bs| ==> NumbersIn(bs[i], ng)
    ensures 0 !in GroupsOf(bs)
  {
    if bs != [] {
      GroupsPositive(bs[0], ng);
      GroupsOfPositive(bs[1..], ng);
    }
  }

  /** What regexec puts in pm[i]. */
  function Reported(c: Caps, i: nat): Span {
    if i < |c.so| && i < |c.eo| && c.so[i] >= 0 && c.eo[i] >= 0 then Span(c.so[i], c.eo[i]) else UNSET
  }

  /** What a verdict means, for every tree: leftmost among the matches with a lean derivation and, if the fuse is not
      reached, the longest of them there. */
  ghost predicate Correct(env: Env, p: Prog, v: Verdict) {
    match v
    case Found(s, w) =>
      && s <= |env.text| && Derived(env, p, s, w) && LeanMatches(env, p, s, w.end) && NoneBefore(env, p, true, s)
      && (WithinFuse(env, p) ==> NoneLonger(env, p, true, s, w.end) && FirstLongest(SearchAt(env, p, s).ways, Some(w)))
    case NoMatch => WithinFuse(env, p) && NoneBefore(env, p, true, |env.text| + 1)
    case NoSpace => !WithinFuse(env, p)
  }

  /** regexec is leftmost and, within the fuse, longest among the lean matches. */
  lemma {:induction false} SearchCorrect(env: Env, p: Prog, s: nat, steps: nat)
    requires s <= |env.text| && steps <= MAX_STEPS
    requires steps + VisitsFrom(env, p, s) == VisitsFrom(env, p, 0)
    requires NoneBefore(env, p, true, s)
    ensures Correct(env, p, Search(env, p, s, steps))
    decreases |env.text| - s
  {
    var o := SearchAt(env, p, s);
    var ws := if steps + o.visits <= MAX_STEPS then o.ways else o.ways[..Cut(o.at, MAX_STEPS - steps)];
    var best := KeepAll(None, ws);
    KeepAllLongest(None, ws);
    if best.Some? {
      WaysDerived(env, p, s, best.value);
    }
    LongestAt(env, p, s);
    if steps + o.visits <= MAX_STEPS && o.ways == [] && s < |env.text| {
      SearchCorrect(env, p, s + 1, steps + o.visits);
    }
  }

  /** Exactly when regexec gives the leftmost longest match of the tree: when that match has a lean derivation. */
  lemma LeftmostLongestIffLean(env: Env, p: Prog, s: nat, e: nat)
    requires WithinFuse(env, p) && LeftmostLongest(env, p, false, s, e)
    ensures var v := Search(env, p, 0, 0);
            (v.Found? && v.start == s && v.way.end == e) <==> LeanMatches(env, p, s, e)
  {
    SearchCorrect(env, p, 0, 0);
    var v := Search(env, p, 0, 0);
    if LeanMatches(env, p, s, e) {
      assert Ends(env, p, true, s, e) && MatchesAt(env, p, true, s);
      assert v.Found? && v.start <= s;
      LeanMatchesMatch(env, p, v.start, v.way.end);
      assert Ends(env, p, false, v.start, v.way.end) && MatchesAt(env, p, false, v.start);
    }
  }

  /** A match is missed altogether exactly when none has a lean derivation. */
  lemma MissedIffNoneLean(env: Env, p: Prog)
    requires WithinFuse(env, p)
    ensures Search(env, p, 0, 0) == NoMatch <==> NoneBefore(env, p, true, |env.text| + 1)
  {
    SearchCorrect(env, p, 0, 0);
    var v := Search(env, p, 0, 0);
    if v.Found? {
      assert Ends(env, p, true, v.start, v.way.end) && MatchesAt(env, p, true, v.start);
    }
  }

  lemma SafeAt(env: Env, p: Prog, s: nat)
    requires s <= |env.text| && RefsSafe(p.root) && MatchesAt(env, p, false, s)
    ensures MatchesAt(env, p, true, s)
  {
    var e: nat :| Ends(env, p, false, s, e);
    SafeMatchesAreLean(env, p, s, e);
    assert Ends(env, p, true, s, e);
  }

  lemma SafeNoneBefore(env: Env, p: Prog, s: nat)
    requires s <= |env.text| + 1 && RefsSafe(p.root) && NoneBefore(env, p, true, s)
    ensures NoneBefore(env, p, false, s)
  {
    forall i | 0 <= i < s ensures !MatchesAt(env, p, false, i) {
      if MatchesAt(env, p, false, i) { SafeAt(env, p, i); }
    }
  }

  lemma SafeNoneLonger(env: Env, p: Prog, s: nat, e: nat)
    requires s <= |env.text| && RefsSafe(p.root) && NoneLonger(env, p, true, s, e)
    ensures NoneLonger(env, p, false, s, e)
  {
    forall j: nat | Ends(env, p, false, s, j) ensures j <= e {
      SafeMatchesAreLean(env, p, s, j);
      assert Ends(env, p, true, s, j);
    }
  }

  /** Leftmost and, within the fuse, longest among all matches of the tree. */
  ghost predicate Best(env: Env, p: Prog, v: Verdict) {
    match v
    case Found(s, w) =>
      && s <= |env.text| && Matches(env, p, s, w.end) && NoneBefore(env, p, false, s)
      && (WithinFuse(env, p) ==> NoneLonger(env, p, false, s, w.end))
    case NoMatch => NoneBefore(env, p, false, |env.text| + 1)
    case NoSpace => !WithinFuse(env, p)
  }

  /** A condition that can be checked before the call: no back reference depends on an empty turn. */
  lemma SafeIsBest(env: Env, p: Prog)
    requires RefsSafe(p.root)
    ensures Best(env, p, Search(env, p, 0, 0))
  {
    SearchCorrect(env, p, 0, 0);
    match Search(env, p, 0, 0)
    case Found(s, w) =>
      LeanMatchesMatch(env, p, s, w.end);
      SafeNoneBefore(env, p, s);
      if WithinFuse(env, p) { SafeNoneLonger(env, p, s, w.end); }
    case NoMatch => SafeNoneBefore(env, p, |env.text| + 1);
    case NoSpace =>
  }

  /** Before each starting point: no group is set, nothing is found. */
  method Forget(st: State, start: nat)
    requires st.Valid() && start <= |st.env.text|
    modifies st`best, st.so, st.eo
    ensures st.Valid() && st.Captures() == Start(st.ng, start) && st.best == -1
  {
    forall i | 0 <= i <= st.ng { st.so[i] := -1; }
    forall i | 0 <= i <= st.ng { st.eo[i] := -1; }
    st.so[0] := start;
    st.best := -1;
    assert st.so[..] == Start(st.ng, start).so;
    assert st.eo[..] == Start(st.ng, start).eo;
  }

  /** The loop of regexec over the starting points. */
  method Scan(p: Prog, st: State) returns (code: int, start: nat)
    requires st.Valid() && st.ng == p.ngroups && st.steps == 0 && WellFormed(p)
    modifies st`best, st`steps, st`tooMany, st.so, st.eo, st.bestSo, st.bestEo
    ensures st.Valid()
    ensures match Search(st.env, p, 0, 0)
            case Found(s, w) => code == FOUND && start == s && st.Best() == Some(w)
            case NoMatch => code == NO_MATCH
            case NoSpace => code == NO_SPACE
  {
    code := NO_MATCH;
    start := 0;
    while true
      invariant st.Valid() && !st.tooMany && start <= |st.env.text|
      invariant Search(st.env, p, start, st.steps) == Search(st.env, p, 0, 0)
      decreases |st.env.text| - start
    {
      Forget(st, start);
      ghost var o := SearchAt(st.env, p, start);
      var _ := st.Try(p.root, start, Done);
      KeepAllLongest(None, o.ways);
      if st.best >= 0 {
        return FOUND, start;
      }
      if st.tooMany {
        return NO_SPACE, start;
      }
      if start >= |st.env.text| {
        return NO_MATCH, start;
      }
      start := start + 1;
    }
  }

  /** pm[..nmatch] are the match and the groups of `w`. */
  ghost predicate Spans(pm: seq<Span>, w: Way) {
    forall i :: 0 <= i < |pm| ==> pm[i] == Reported(w.caps, i)
  }

  /** Every reported group lies inside the match and was matched by its body. */
  ghost predicate GroupsReported(env: Env, p: Prog, s: nat, e: nat, pm: seq<Span>) {
    forall g: nat :: 1 <= g < |pm| && pm[g] != UNSET ==>
      0 <= s <= pm[g].so <= pm[g].eo <= e <= |env.text| && Matched(env, p.root, g, pm[g].so, pm[g].eo)
  }

  /** The arguments after `re` make the fixed part of the search. */
  function Call(p: Prog, text: seq<Byte>, notBol: bool, notEol: bool): Env {
    Env(text, p.icase, p.newline, notBol, notEol)
  }

  method Regexec(re: Option<Prog>, text: seq<Byte>, nmatch: nat, pm: array?<Span>, notBol: bool, notEol: bool)
    returns (code: int)
    requires re.Some? ==> WellFormed(re.value)
    requires pm != null ==> nmatch <= pm.Length
    modifies pm
    ensures re.None? ==> code == BAD_PATTERN
    ensures re.Some? ==>
      var env := Call(re.value, text, notBol, notEol);
      var v := Search(env, re.value, 0, 0);
      && Correct(env, re.value, v) && (RefsSafe(re.value.root) ==> Best(env, re.value, v))
      && code == (match v case Found(_, _) => FOUND case NoMatch => NO_MATCH case NoSpace => NO_SPACE)
      && (code == FOUND && !re.value.nosub && pm != null ==>
            && Spans(pm[..nmatch], v.way)
            && (nmatch > 0 ==> pm[0] == Span(v.start, v.way.end))
            && GroupsReported(env, re.value, v.start, v.way.end, pm[..nmatch]))
    ensures pm != null && (code != FOUND || re.value.nosub) ==> pm[..] == old(pm[..])
    ensures pm != null ==> pm[nmatch..] == old(pm[nmatch..])
  {
    if re.None? { return BAD_PATTERN; }
    var p := re.value;
    var env := Call(p, text, notBol, notEol);
    var st := new State(env, p.ngroups);
    var start;
    code, start := Scan(p, st);
    SearchCorrect(env, p, 0, 0);
    if RefsSafe(p.root) { SafeIsBest(env, p); }
    if code == FOUND && !p.nosub && pm != null {
      Report(st, nmatch, pm);
      SpansSay(env, p, start, st.Best().value, pm[..nmatch]);
    }
  }

  /** The last loop of regexec. */
  method Report(st: State, nmatch: nat, pm: array<Span>)
    requires st.Valid() && st.Best().Some? && nmatch <= pm.Length
    modifies pm
    ensures Spans(pm[..nmatch], st.Best().value) && pm[nmatch..] == old(pm[nmatch..])
  {
    for i := 0 to nmatch
      invariant forall j :: 0 <= j < i ==> pm[j] == Reported(st.Best().value.caps, j)
      invariant pm[nmatch..] == old(pm[nmatch..])
    {
      if i <= st.ng && st.bestSo[i] >= 0 && st.bestEo[i] >= 0 {
        pm[i] := Span(st.bestSo[i], st.bestEo[i]);
      } else {
        pm[i] := UNSET;
      }
    }
  }

  lemma SpansSay(env: Env, p: Prog, s: nat, w: Way, pm: seq<Span>)
    requires s <= |env.text| && WellFormed(p) && Derived(env, p, s, w) && Spans(pm, w)
    ensures |pm| > 0 ==> pm[0] == Span(s, w.end)
    ensures GroupsReported(env, p, s, w.end, pm)
  {
    GroupsOfWay(env, p, s, w);
    forall g: nat | 1 <= g < |pm| && pm[g] != UNSET
      ensures s <= pm[g].so <= pm[g].eo <= w.end && Matched(env, p.root, g, pm[g].so, pm[g].eo)
    {
      assert IsSet(w.caps, g);
    }
  }
}
