/**
  fnmatch without FNM_PATHNAME: a pattern is a list of tokens, and a name
  matches exactly when it splits into pieces that the tokens accept one by
  one, under the rule for a leading period.
  */
module Fnmatch {
  import opened Common

  /** A character. Strings end where the sequence ends; the '\0' of C is not part of them. */
  type Char = x: int | 0 < x < 256 witness 1

  datatype Flags = Flags(noEscape: bool, period: bool, caseFold: bool)

  const STAR: Char := 42
  const QUESTION: Char := 63
  const OPEN: Char := 91
  const CLOSE: Char := 93
  const BACKSLASH: Char := 92
  const BANG: Char := 33
  const CARET: Char := 94
  const DASH: Char := 45
  const COLON: Char := 58
  const DOT: Char := 46

  /** fnm_minuscola */
  function Fold(c: Char, fold: bool): Char {
    if fold && 65 <= c <= 90 then c + 32 else c
  }

  datatype Range = Range(lo: Char, hi: Char)

  datatype Token = Lit(c: Char) | Any | Set(negated: bool, ranges: seq<Range>) | Star

  // ----- the pattern as tokens -----

  /** The first place of ":]" from `i` on, as strstr finds it. */
  function ClassEnd(p: seq<Char>, i: nat): (r: Option<nat>)
    ensures r.Some? ==> i <= r.value && r.value + 1 < |p|
    decreases |p| - i
  {
    if i + 1 >= |p| then None else if p[i] == COLON && p[i + 1] == CLOSE then Some(i) else ClassEnd(p, i + 1)
  }

  /** A backslash that quotes the next character is passed over. */
  function Unquote(p: seq<Char>, i: nat, noEscape: bool): (k: nat)
    requires i < |p|
    ensures i <= k < |p|
  {
    if p[i] == BACKSLASH && !noEscape && i + 1 < |p| then i + 1 else i
  }

  datatype OneRange = OneRange(range: Range, next: nat)

  /** A character of a set, or a range of them. */
  function ReadRange(p: seq<Char>, i: nat, noEscape: bool): (r: OneRange)
    requires i < |p|
    ensures i < r.next <= |p|
  {
    var a := Unquote(p, i, noEscape);
    if a + 2 < |p| && p[a + 1] == DASH && p[a + 2] != CLOSE then
      var b := Unquote(p, a + 2, noEscape);
      OneRange(Range(p[a], p[b]), b + 1)
    else OneRange(Range(p[a], p[a]), a + 1)
  }

  datatype Scan = Scan(ranges: seq<Range>, next: nat)

  /** The ranges of a set from `i` on, and the place after its ']'; None if it is not closed. */
  function ScanSet(p: seq<Char>, i: nat, first: bool, noEscape: bool): (r: Option<Scan>)
    ensures r.Some? ==> i < r.value.next <= |p|
    decreases |p| - i
  {
    if i >= |p| then None
    else if p[i] == CLOSE && !first then Some(Scan([], i + 1))
    else if p[i] == OPEN && i + 1 < |p| && p[i + 1] == COLON then
      var e := ClassEnd(p, i + 2);
      if e.None? then None else ScanSet(p, e.value + 2, false, noEscape)
    else
      var x := ReadRange(p, i, noEscape);
      Prepend(x.range, ScanSet(p, x.next, false, noEscape))
  }

  function Prepend(x: Range, r: Option<Scan>): Option<Scan> {
    if r.None? then None else Some(Scan([x] + r.value.ranges, r.value.next))
  }

  datatype Read = Read(token: Token, next: nat)

  predicate Negates(c: Char) {
    c == BANG || c == CARET
  }

  /** The set after a '[' at `i`, or None if that '[' stands for itself. */
  function ReadSet(p: seq<Char>, i: nat, noEscape: bool): (r: Option<Read>)
    requires i < |p|
    ensures r.Some? ==> r.value.token.Set? && i < r.value.next <= |p|
  {
    var negated := i + 1 < |p| && Negates(p[i + 1]);
    var s := ScanSet(p, if negated then i + 2 else i + 1, true, noEscape);
    if s.None? then None else Some(Read(Set(negated, s.value.ranges), s.value.next))
  }

  function ReadToken(p: seq<Char>, i: nat, noEscape: bool): (r: Read)
    requires i < |p|
    ensures i < r.next <= |p|
  {
    if p[i] == QUESTION then Read(Any, i + 1)
    else if p[i] == STAR then Read(Star, i + 1)
    else if p[i] == OPEN then
      var s := ReadSet(p, i, noEscape);
      if s.None? then Read(Lit(OPEN), i + 1) else s.value
    else Read(Lit(p[Unquote(p, i, noEscape)]), Unquote(p, i, noEscape) + 1)
  }

  function Tokens(p: seq<Char>, i: nat, noEscape: bool): seq<Token>
    requires i <= |p|
    decreases |p| - i
  {
    if i == |p| then [] else var r := ReadToken(p, i, noEscape); [r.token] + Tokens(p, r.next, noEscape)
  }

  // ----- what a token accepts -----

  predicate InRange(c: Char, x: Range, fold: bool) {
    Fold(x.lo, fold) <= Fold(c, fold) <= Fold(x.hi, fold)
  }

  predicate InSome(c: Char, xs: seq<Range>, fold: bool) {
    exists k :: 0 <= k < |xs| && InRange(c, xs[k], fold)
  }

  predicate Accepts(t: Token, c: Char, fold: bool) {
    match t
    case Lit(x) => Fold(x, fold) == Fold(c, fold)
    case Any => true
    case Set(negated, xs) => InSome(c, xs, fold) != negated
    case Star => false
  }

  /** A piece of the name under one token. */
  predicate Takes(t: Token, piece: seq<Char>, fold: bool) {
    t.Star? || (|piece| == 1 && Accepts(t, piece[0], fold))
  }

  function Joined(pieces: seq<seq<Char>>): seq<Char> {
    if pieces == [] then [] else pieces[0] + Joined(pieces[1..])
  }

  /** The name is cut into one piece for each token. */
  ghost predicate Cuts(ts: seq<Token>, s: seq<Char>, pieces: seq<seq<Char>>, fold: bool) {
    |pieces| == |ts| && Joined(pieces) == s && forall k :: 0 <= k < |ts| ==> Takes(ts[k], pieces[k], fold)
  }

  ghost predicate Splits(ts: seq<Token>, s: seq<Char>, fold: bool) {
    exists pieces :: Cuts(ts, s, pieces, fold)
  }

  /** A period at the start must be matched by a period in the pattern. */
  predicate LeadOk(ts: seq<Token>, s: seq<Char>, period: bool) {
    period && s != [] && s[0] == DOT ==> ts != [] && ts[0].Lit?
  }

  // ----- how a split is found -----

  lemma SplitsNone(s: seq<Char>, fold: bool)
    ensures Splits([], s, fold) <==> s == []
  {
    assert s == [] ==> Cuts([], s, [], fold);
  }

  lemma SplitsOne(t: Token, ts: seq<Token>, s: seq<Char>, fold: bool)
    requires !t.Star?
    ensures Splits([t] + ts, s, fold) <==> s != [] && Accepts(t, s[0], fold) && Splits(ts, s[1..], fold)
  {
    var all := [t] + ts;
    if s != [] && Accepts(t, s[0], fold) && Splits(ts, s[1..], fold) {
      var q :| Cuts(ts, s[1..], q, fold);
      var pieces := [[s[0]]] + q;
      assert pieces[1..] == q;
      assert s == [s[0]] + s[1..];
      forall k | 0 <= k < |all| ensures Takes(all[k], pieces[k], fold) {
        if k > 0 { assert all[k] == ts[k - 1] && pieces[k] == q[k - 1]; }
      }
      assert Cuts(all, s, pieces, fold);
    }
    if Splits(all, s, fold) {
      var pieces :| Cuts(all, s, pieces, fold);
      var q := pieces[1..];
      assert Takes(all[0], pieces[0], fold);
      assert s == pieces[0] + Joined(q);
      assert s[1..] == Joined(q);
      forall k | 0 <= k < |ts| ensures Takes(ts[k], q[k], fold) {
        assert Takes(all[k + 1], pieces[k + 1], fold);
      }
      assert Cuts(ts, s[1..], q, fold);
    }
  }

  lemma SplitsStar(ts: seq<Token>, s: seq<Char>, fold: bool)
    ensures Splits([Star] + ts, s, fold) <==> exists k :: 0 <= k <= |s| && Splits(ts, s[k..], fold)
  {
    var all := [Star] + ts;
    forall k | 0 <= k <= |s| && Splits(ts, s[k..], fold) ensures Splits(all, s, fold) {
      var q :| Cuts(ts, s[k..], q, fold);
      var pieces := [s[..k]] + q;
      assert pieces[1..] == q;
      assert s == s[..k] + s[k..];
      forall j | 0 <= j < |all| ensures Takes(all[j], pieces[j], fold) {
        if j > 0 { assert all[j] == ts[j - 1] && pieces[j] == q[j - 1]; }
      }
      assert Cuts(all, s, pieces, fold);
    }
    if Splits(all, s, fold) {
      var pieces :| Cuts(all, s, pieces, fold);
      var q, k := pieces[1..], |pieces[0]|;
      assert s == pieces[0] + Joined(q);
      assert s[k..] == Joined(q);
      forall j | 0 <= j < |ts| ensures Takes(ts[j], q[j], fold) {
        assert Takes(all[j + 1], pieces[j + 1], fold);
      }
      assert Cuts(ts, s[k..], q, fold);
    }
  }

  /** Stars in a row are one star. */
  lemma StarStar(ts: seq<Token>, s: seq<Char>, fold: bool)
    ensures Splits([Star] + ([Star] + ts), s, fold) <==> Splits([Star] + ts, s, fold)
  {
    SplitsStar([Star] + ts, s, fold);
    SplitsStar(ts, s, fold);
    forall k | 0 <= k <= |s| ensures Splits([Star] + ts, s[k..], fold) <==> exists j :: 0 <= j <= |s[k..]| && Splits(ts, s[k..][j..], fold) {
      SplitsStar(ts, s[k..], fold);
    }
    if Splits([Star] + ts, s, fold) {
      assert s[0..] == s;
      assert Splits([Star] + ts, s[0..], fold);
    }
    forall k, j | 0 <= k <= |s| && 0 <= j <= |s[k..]| && Splits(ts, s[k..][j..], fold) ensures Splits([Star] + ts, s, fold) {
      assert s[k..][j..] == s[k + j..];
    }
  }

  // ----- the matcher -----

  /** strstr(p + i, ":]") */
  method FindClassEnd(p: seq<Char>, i: nat) returns (r: Option<nat>)
    ensures r == ClassEnd(p, i)
  {
    var k := i;
    while k + 1 < |p|
      invariant k >= i && ClassEnd(p, i) == ClassEnd(p, k)
      decreases |p| - k
    {
      if p[k] == COLON && p[k + 1] == CLOSE {
        return Some(k);
      }
      k := k + 1;
    }
    r := None;
  }

  function After(seen: seq<Range>, r: Option<Scan>): Option<Scan> {
    if r.None? then None else Some(Scan(seen + r.value.ranges, r.value.next))
  }

  lemma AfterPrepend(seen: seq<Range>, x: Range, r: Option<Scan>)
    ensures After(seen, Prepend(x, r)) == After(seen + [x], r)
  {
    if r.Some? { assert seen + ([x] + r.value.ranges) == seen + [x] + r.value.ranges; }
  }

  lemma InSomeMore(c: Char, xs: seq<Range>, x: Range, fold: bool)
    ensures InSome(c, xs + [x], fold) <==> InSome(c, xs, fold) || InRange(c, x, fold)
  {
    if InSome(c, xs, fold) {
      var k :| 0 <= k < |xs| && InRange(c, xs[k], fold);
      assert InRange(c, (xs + [x])[k], fold);
    }
    if InRange(c, x, fold) { assert InRange(c, (xs + [x])[|xs|], fold); }
  }

  /** The part of fnm_insieme that reads `a` or `a-b`. */
  method NextRange(p: seq<Char>, i: nat, noEscape: bool) returns (x: OneRange)
    requires i < |p|
    ensures x == ReadRange(p, i, noEscape)
  {
    var k := Unquote(p, i, noEscape);
    var a := p[k];
    var b := a;
    if k + 2 < |p| && p[k + 1] == DASH && p[k + 2] != CLOSE {
      k := Unquote(p, k + 2, noEscape);
      b := p[k];
    }
    x := OneRange(Range(a, b), k + 1);
  }

  /** The loop of fnm_insieme: whether `c` is in some range, and where the set ends. */
  method ScanFor(p: seq<Char>, i: nat, c: Char, f: Flags) returns (r: Option<(bool, nat)>)
    ensures r == match ScanSet(p, i, true, f.noEscape)
                 case None => None
                 case Some(x) => Some((InSome(c, x.ranges, f.caseFold), x.next))
  {
    ghost var all := ScanSet(p, i, true, f.noEscape);
    ghost var seen: seq<Range> := [];
    var k, taken, first := i, false, true;
    assert all.Some? ==> [] + all.value.ranges == all.value.ranges;
    while k < |p| && (p[k] != CLOSE || first)
      invariant all == After(seen, ScanSet(p, k, first, f.noEscape)) && taken == InSome(c, seen, f.caseFold)
      decreases |p| - k
    {
      first := false;
      if p[k] == OPEN && k + 1 < |p| && p[k + 1] == COLON {
        var e := FindClassEnd(p, k + 2);
        if e.None? {
          return None;
        }
        k := e.value + 2;
      } else {
        var x := NextRange(p, k, f.noEscape);
        k := x.next;
        AfterPrepend(seen, x.range, ScanSet(p, k, false, f.noEscape));
        InSomeMore(c, seen, x.range, f.caseFold);
        seen := seen + [x.range];
        taken := taken || InRange(c, x.range, f.caseFold);
      }
    }
    if k >= |p| {
      return None;
    }
    assert seen + [] == seen;
    r := Some((taken, k + 1));
  }

  /** fnm_insieme on the set after the '[' at `i`: whether it accepts `c` and where it ends, or None if it is not closed. */
  method MatchSet(p: seq<Char>, i: nat, c: Char, f: Flags) returns (r: Option<(bool, nat)>)
    requires i < |p|
    ensures r == match ReadSet(p, i, f.noEscape)
                 case None => None
                 case Some(s) => Some((Accepts(s.token, c, f.caseFold), s.next))
  {
    var negated := i + 1 < |p| && Negates(p[i + 1]);
    var x := ScanFor(p, if negated then i + 2 else i + 1, c, f);
    r := if x.None? then None else Some((x.value.0 != negated, x.value.1));
  }

  /** Whether the rest of the pattern matches the rest of the name. */
  ghost predicate Fits(p: seq<Char>, i: nat, s: seq<Char>, j: nat, f: Flags)
    requires i <= |p| && j <= |s|
  {
    Splits(Tokens(p, i, f.noEscape), s[j..], f.caseFold) && (j == 0 ==> LeadOk(Tokens(p, i, f.noEscape), s, f.period))
  }

  predicate Leading(s: seq<Char>, j: nat, f: Flags) {
    f.period && j == 0 && s != [] && s[0] == DOT
  }

  lemma StepFits(p: seq<Char>, i: nat, s: seq<Char>, j: nat, f: Flags)
    requires i < |p| && j <= |s| && !ReadToken(p, i, f.noEscape).token.Star?
    ensures var t := ReadToken(p, i, f.noEscape);
            Fits(p, i, s, j, f) <==>
            j < |s| && Accepts(t.token, s[j], f.caseFold) && (Leading(s, j, f) ==> t.token.Lit?) && Fits(p, t.next, s, j + 1, f)
  {
    var t := ReadToken(p, i, f.noEscape);
    SplitsOne(t.token, Tokens(p, t.next, f.noEscape), s[j..], f.caseFold);
    if j < |s| { assert s[j..][1..] == s[j + 1..]; }
  }

  /** After a star the rule for periods is off. */
  lemma FitsAnywhere(p: seq<Char>, i: nat, s: seq<Char>, k: nat, f: Flags)
    requires i <= |p| && k <= |s|
    ensures Fits(p, i, s, k, f.(period := false)) <==> Splits(Tokens(p, i, f.noEscape), s[k..], f.caseFold)
  {
  }

  /** fnm_da. Both indices only grow and never pass the end. */
  method MatchFrom(p: seq<Char>, i0: nat, s: seq<Char>, j0: nat, f: Flags) returns (ok: bool)
    requires i0 <= |p| && j0 <= |s|
    ensures ok <==> Fits(p, i0, s, j0, f)
    decreases |p| - i0, 1
  {
    var i, j := i0, j0;
    while i < |p|
      invariant i0 <= i <= |p| && j0 <= j <= |s| && (Fits(p, i0, s, j0, f) <==> Fits(p, i, s, j, f))
      decreases |p| - i
    {
      var leading := f.period && j == 0 && j < |s| && s[j] == DOT;
      if p[i] == STAR {
        ok := MatchStar(p, i, s, j, leading, f);
        return;
      }
      StepFits(p, i, s, j, f);
      if p[i] == QUESTION {
        if j == |s| || leading {
          return false;
        }
        i := i + 1;
      } else if p[i] == OPEN {
        if j == |s| || leading {
          return false;
        }
        var r := MatchSet(p, i, s[j], f);
        if r.None? {
          if s[j] != OPEN {
            return false;
          }
          i := i + 1;
        } else {
          if !r.value.0 {
            return false;
          }
          i := r.value.1;
        }
      } else {
        i := Unquote(p, i, f.noEscape);
        if j == |s| || Fold(p[i], f.caseFold) != Fold(s[j], f.caseFold) {
          return false;
        }
        i := i + 1;
      }
      j := j + 1;
    }
    SplitsNone(s[j..], f.caseFold);
    ok := j == |s|;
  }

  /** The case '*' of fnm_da: the stars in a row, then the rest of the pattern anywhere. */
  method MatchStar(p: seq<Char>, i0: nat, s: seq<Char>, j: nat, leading: bool, f: Flags) returns (ok: bool)
    requires i0 < |p| && j <= |s| && p[i0] == STAR && leading == Leading(s, j, f)
    ensures ok <==> Fits(p, i0, s, j, f)
    decreases |p| - i0, 0
  {
    var i := i0 + 1;
    while i < |p| && p[i] == STAR
      invariant i0 < i <= |p| && Stars(p, i0, i, s[j..], f)
      decreases |p| - i
    {
      StarsMore(p, i0, i, s[j..], f);
      i := i + 1;
    }
    if leading {
      return false;
    }
    StarsEnd(p, i0, i, s[j..], f);
    if i == |p| {
      return true;
    }
    ok := MatchAnywhere(p, i, s, j, f);
  }

  /** The stars from `i0` on are as good as the last one, before `i`. */
  ghost predicate Stars(p: seq<Char>, i0: nat, i: nat, s: seq<Char>, f: Flags)
    requires i0 <= |p| && i <= |p|
  {
    Splits(Tokens(p, i0, f.noEscape), s, f.caseFold) <==> Splits([Star] + Tokens(p, i, f.noEscape), s, f.caseFold)
  }

  lemma StarsMore(p: seq<Char>, i0: nat, i: nat, s: seq<Char>, f: Flags)
    requires i0 < i < |p| && p[i] == STAR && Stars(p, i0, i, s, f)
    ensures Stars(p, i0, i + 1, s, f)
  {
    assert Tokens(p, i, f.noEscape) == [Star] + Tokens(p, i + 1, f.noEscape);
    StarStar(Tokens(p, i + 1, f.noEscape), s, f.caseFold);
  }

  lemma StarsEnd(p: seq<Char>, i0: nat, i: nat, s: seq<Char>, f: Flags)
    requires i0 < i <= |p| && Stars(p, i0, i, s, f)
    ensures Splits(Tokens(p, i0, f.noEscape), s, f.caseFold)
       <==> exists m :: 0 <= m <= |s| && Splits(Tokens(p, i, f.noEscape), s[m..], f.caseFold)
    ensures i == |p| ==> Splits(Tokens(p, i0, f.noEscape), s, f.caseFold)
  {
    SplitsStar(Tokens(p, i, f.noEscape), s, f.caseFold);
    if i == |p| { SplitsNone(s[|s|..], f.caseFold); }
  }

  /** The rest of the pattern from every place of the name, without the rule for periods. */
  method MatchAnywhere(p: seq<Char>, i: nat, s: seq<Char>, j: nat, f: Flags) returns (ok: bool)
    requires i <= |p| && j <= |s|
    ensures ok <==> exists m :: 0 <= m <= |s[j..]| && Splits(Tokens(p, i, f.noEscape), s[j..][m..], f.caseFold)
    decreases |p| - i, 2
  {
    ghost var ts := Tokens(p, i, f.noEscape);
    var k := 0;
    while true
      invariant 0 <= k <= |s| - j
      invariant forall m :: 0 <= m < k ==> !Splits(ts, s[j..][m..], f.caseFold)
      decreases |s| - k
    {
      FitsAnywhere(p, i, s, j + k, f);
      assert s[j..][k..] == s[j + k..];
      ok := MatchFrom(p, i, s, j + k, f.(period := false));
      if ok || j + k == |s| {
        break;
      }
      k := k + 1;
    }
  }

  /** fnmatch: 0, that is true, exactly when the name splits as the pattern says, under the rule for a leading period. */
  method Match(p: seq<Char>, s: seq<Char>, f: Flags) returns (ok: bool)
    ensures ok <==> Splits(Tokens(p, 0, f.noEscape), s, f.caseFold) && LeadOk(Tokens(p, 0, f.noEscape), s, f.period)
  {
    ok := MatchFrom(p, 0, s, 0, f);
    assert s[0..] == s;
  }
}
