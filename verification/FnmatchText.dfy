/**
  From the text of a pattern to what it matches: patterns by their parts, how
  the parts are written, and what they take, character by character. fnmatch
  on the text of a pattern matches exactly the names that its parts take.
  */
module FnmatchText {
  import opened Common
  import opened Fnmatch

  /** A character, perhaps after a backslash. */
  datatype Sign = Sign(c: Char, quoted: bool)

  datatype Item = One(x: Sign) | Span(lo: Sign, hi: Sign) | Class(name: seq<Char>)

  /** `Lone` is a '[' that is not closed; `mark` is the '!' or '^' of a negated set. */
  datatype Part = Exact(x: Sign) | Lone | Each | Many | Bracket(mark: Option<Char>, items: seq<Item>)

  // ----- how it is written -----

  function SignText(x: Sign): seq<Char> {
    if x.quoted then [BACKSLASH, x.c] else [x.c]
  }

  function ItemText(x: Item): seq<Char> {
    match x
    case One(a) => SignText(a)
    case Span(lo, hi) => SignText(lo) + ([DASH] + SignText(hi))
    case Class(name) => [OPEN, COLON] + (name + [COLON, CLOSE])
  }

  /** The items and the ']'. */
  function ItemsText(xs: seq<Item>): seq<Char> {
    if xs == [] then [CLOSE] else ItemText(xs[0]) + ItemsText(xs[1..])
  }

  function PartText(x: Part): seq<Char> {
    match x
    case Exact(a) => SignText(a)
    case Lone => [OPEN]
    case Each => [QUESTION]
    case Many => [STAR]
    case Bracket(mark, xs) => [OPEN] + ((if mark.Some? then [mark.value] else []) + ItemsText(xs))
  }

  function Text(xs: seq<Part>): seq<Char> {
    if xs == [] then [] else PartText(xs[0]) + Text(xs[1..])
  }

  // ----- what it takes -----

  /** With FNM_CASEFOLD an ASCII capital counts as its small letter. */
  function Small(c: Char, fold: bool): int {
    if fold && 'A' as int <= c <= 'Z' as int then c - 'A' as int + 'a' as int else c
  }

  /** A class such as [:alpha:] holds nothing. */
  predicate Holds(x: Item, c: Char, fold: bool) {
    match x
    case One(a) => Small(a.c, fold) == Small(c, fold)
    case Span(lo, hi) => Small(lo.c, fold) <= Small(c, fold) <= Small(hi.c, fold)
    case Class(_) => false
  }

  ghost predicate SomeHolds(xs: seq<Item>, c: Char, fold: bool) {
    exists k :: 0 <= k < |xs| && Holds(xs[k], c, fold)
  }

  /** One character under a part that is not '*'. */
  ghost predicate TakesOne(x: Part, c: Char, fold: bool) {
    match x
    case Exact(a) => Small(a.c, fold) == Small(c, fold)
    case Lone => c == '[' as int
    case Each => true
    case Many => false
    case Bracket(mark, xs) => if mark.Some? then !SomeHolds(xs, c, fold) else SomeHolds(xs, c, fold)
  }

  /** '*' takes any number of characters, every other part one. */
  ghost predicate Says(xs: seq<Part>, s: seq<Char>, fold: bool)
    decreases xs
  {
    if xs == [] then s == []
    else if xs[0].Many? then exists k :: 0 <= k <= |s| && Says(xs[1..], s[k..], fold)
    else s != [] && TakesOne(xs[0], s[0], fold) && Says(xs[1..], s[1..], fold)
  }

  /** With FNM_PERIOD a period at the start of the name is taken only by a character of the pattern. */
  predicate PeriodOk(xs: seq<Part>, s: seq<Char>, period: bool) {
    period && s != [] && s[0] == '.' as int ==> xs != [] && xs[0].Exact?
  }

  // ----- which parts can be written -----

  /** A backslash quotes, unless FNM_NOESCAPE is set; `special` are the characters that are not themselves here. */
  predicate SignOk(x: Sign, noEscape: bool, special: set<Char>) {
    if x.quoted then !noEscape else (x.c == BACKSLASH ==> noEscape) && x.c !in special
  }

  /** What follows an item does not make it the start of a range. */
  predicate NoRange(rest: seq<Char>) {
    !(|rest| > 1 && rest[0] == DASH && rest[1] != CLOSE)
  }

  predicate ItemOk(x: Item, first: bool, noEscape: bool, rest: seq<Char>) {
    match x
    case One(a) =>
      && SignOk(a, noEscape, if first then {} else {CLOSE}) && NoRange(rest)
      && !(a == Sign(OPEN, false) && rest != [] && rest[0] == COLON)
    case Span(lo, hi) => SignOk(lo, noEscape, if first then {} else {CLOSE}) && SignOk(hi, noEscape, {CLOSE})
    case Class(name) => forall i :: 0 <= i < |name| && name[i] == COLON ==> (name + [COLON])[i + 1] != CLOSE
  }

  predicate ItemsOk(xs: seq<Item>, first: bool, noEscape: bool) {
    xs == [] || (ItemOk(xs[0], first, noEscape, ItemsText(xs[1..])) && ItemsOk(xs[1..], false, noEscape))
  }

  predicate PartOk(x: Part, noEscape: bool) {
    match x
    case Exact(a) => SignOk(a, noEscape, {STAR, QUESTION, OPEN})
    case Bracket(mark, xs) =>
      && xs != [] && ItemsOk(xs, true, noEscape)
      && if mark.Some? then mark.value == BANG || mark.value == CARET else ItemsText(xs)[0] !in {BANG, CARET}
    case _ => true
  }

  predicate PartsOk(xs: seq<Part>, noEscape: bool) {
    xs == [] || (PartOk(xs[0], noEscape) && (xs[0].Lone? ==> CLOSE !in Text(xs[1..])) && PartsOk(xs[1..], noEscape))
  }

  // ----- places -----

  predicate AtChar(p: seq<Char>, i: nat, t: seq<Char>, e: nat, k: int) {
    e == i + |t| && e <= |p| && (0 <= k < |t| ==> p[i + k] == t[k])
  }

  /** The text stands in the pattern from `i` to `e`. */
  ghost predicate At(p: seq<Char>, i: nat, t: seq<Char>, e: nat) {
    forall k {:trigger AtChar(p, i, t, e, k)} :: AtChar(p, i, t, e, k)
  }

  lemma Split(p: seq<Char>, i: nat, a: seq<Char>, b: seq<Char>, e: nat) returns (m: nat)
    requires At(p, i, a + b, e)
    ensures At(p, i, a, m) && At(p, m, b, e)
  {
    assert AtChar(p, i, a + b, e, 0);
    m := i + |a|;
    forall k ensures AtChar(p, i, a, m, k) {
      assert AtChar(p, i, a + b, e, k);
    }
    forall k ensures AtChar(p, m, b, e, k) {
      var j := |a| + k;
      assert AtChar(p, i, a + b, e, j);
    }
  }

  lemma CharAt(p: seq<Char>, i: nat, t: seq<Char>, e: nat, k: nat)
    requires At(p, i, t, e) && k < |t|
    ensures i + k < |p| && p[i + k] == t[k] && e == i + |t| && e <= |p|
  {
    assert AtChar(p, i, t, e, k);
  }

  // ----- what is written is read -----

  function RangesOf(xs: seq<Item>): seq<Range> {
    if xs == [] then []
    else
      (match xs[0]
       case One(a) => [Range(a.c, a.c)]
       case Span(lo, hi) => [Range(lo.c, hi.c)]
       case Class(_) => [])
      + RangesOf(xs[1..])
  }

  function TokenOf(x: Part): Token {
    match x
    case Exact(a) => Lit(a.c)
    case Lone => Lit(OPEN)
    case Each => Token.Any
    case Many => Token.Star
    case Bracket(mark, xs) => Set(mark.Some?, RangesOf(xs))
  }

  function TokensOf(xs: seq<Part>): seq<Token> {
    if xs == [] then [] else [TokenOf(xs[0])] + TokensOf(xs[1..])
  }

  lemma SignRead(p: seq<Char>, i: nat, x: Sign, e: nat, noEscape: bool, special: set<Char>)
    requires At(p, i, SignText(x), e) && SignOk(x, noEscape, special)
    ensures i < e <= |p| && Unquote(p, i, noEscape) == e - 1 && p[e - 1] == x.c
    ensures if x.quoted then p[i] == BACKSLASH else p[i] == x.c && e == i + 1
  {
    CharAt(p, i, SignText(x), e, 0);
    if x.quoted { CharAt(p, i, SignText(x), e, 1); }
  }

  lemma OneRead(p: seq<Char>, i: nat, x: Sign, m: nat, e: nat, first: bool, noEscape: bool, rest: seq<Char>)
    requires At(p, i, SignText(x), m) && At(p, m, rest, e) && rest != [] && ItemOk(One(x), first, noEscape, rest)
    requires rest[0] == DASH ==> |rest| > 1
    ensures i < |p| && ReadRange(p, i, noEscape) == OneRange(Range(x.c, x.c), m) && (p[i] == CLOSE ==> first)
    ensures !(p[i] == OPEN && i + 1 < |p| && p[i + 1] == COLON)
  {
    SignRead(p, i, x, m, noEscape, if first then {} else {CLOSE});
    CharAt(p, m, rest, e, 0);
    if |rest| > 1 { CharAt(p, m, rest, e, 1); }
  }

  lemma SpanRead(p: seq<Char>, i: nat, lo: Sign, hi: Sign, e: nat, first: bool, noEscape: bool)
    requires At(p, i, SignText(lo) + ([DASH] + SignText(hi)), e) && ItemOk(Span(lo, hi), first, noEscape, [])
    ensures i < |p| && ReadRange(p, i, noEscape) == OneRange(Range(lo.c, hi.c), e) && (p[i] == CLOSE ==> first)
    ensures !(p[i] == OPEN && i + 1 < |p| && p[i + 1] == COLON)
  {
    var a := Split(p, i, SignText(lo), [DASH] + SignText(hi), e);
    var b := Split(p, a, [DASH], SignText(hi), e);
    SignRead(p, i, lo, a, noEscape, if first then {} else {CLOSE});
    CharAt(p, a, [DASH], b, 0);
    SignRead(p, b, hi, e, noEscape, {CLOSE});
  }

  lemma {:induction false} ClassEndAt(p: seq<Char>, i: nat, name: seq<Char>, e: nat, k: nat)
    requires At(p, i, name + [COLON, CLOSE], e) && k <= |name|
    requires forall j :: 0 <= j < |name| && name[j] == COLON ==> (name + [COLON])[j + 1] != CLOSE
    ensures ClassEnd(p, i + k) == Some(i + |name|)
    decreases |name| - k
  {
    var t := name + [COLON, CLOSE];
    CharAt(p, i, t, e, k);
    CharAt(p, i, t, e, k + 1);
    if k < |name| { ClassEndAt(p, i, name, e, k + 1); }
  }

  lemma ClassRead(p: seq<Char>, i: nat, name: seq<Char>, e: nat)
    requires At(p, i, [OPEN, COLON] + (name + [COLON, CLOSE]), e) && ItemOk(Class(name), true, true, [])
    ensures i + 1 < |p| && p[i] == OPEN && p[i + 1] == COLON && ClassEnd(p, i + 2) == Some(e - 2) && e >= 2
  {
    var m := Split(p, i, [OPEN, COLON], name + [COLON, CLOSE], e);
    CharAt(p, i, [OPEN, COLON], m, 0);
    CharAt(p, i, [OPEN, COLON], m, 1);
    CharAt(p, m, name + [COLON, CLOSE], e, 0);
    ClassEndAt(p, m, name, e, 0);
  }

  lemma RestText(xs: seq<Item>)
    ensures ItemsText(xs) != [] && (ItemsText(xs)[0] == DASH ==> |ItemsText(xs)| > 1)
  {
    if xs != [] { RestText(xs[1..]); }
  }

  lemma ScanOne(p: seq<Char>, i: nat, first: bool, noEscape: bool, x: Range, m: nat, r: Option<Scan>)
    requires i < |p| && (p[i] == CLOSE ==> first) && !(p[i] == OPEN && i + 1 < |p| && p[i + 1] == COLON)
    requires ReadRange(p, i, noEscape) == OneRange(x, m) && ScanSet(p, m, false, noEscape) == r
    ensures ScanSet(p, i, first, noEscape) == Prepend(x, r)
  {
  }

  lemma ScanClass(p: seq<Char>, i: nat, first: bool, noEscape: bool, m: nat, r: Option<Scan>)
    requires i + 1 < |p| && p[i] == OPEN && p[i + 1] == COLON && m >= 2 && ClassEnd(p, i + 2) == Some(m - 2)
    requires ScanSet(p, m, false, noEscape) == r
    ensures ScanSet(p, i, first, noEscape) == r
  {
  }

  lemma {:induction false} ItemsRead(p: seq<Char>, i: nat, xs: seq<Item>, e: nat, first: bool, noEscape: bool)
    requires At(p, i, ItemsText(xs), e) && ItemsOk(xs, first, noEscape) && (xs == [] ==> !first)
    ensures ScanSet(p, i, first, noEscape) == Some(Scan(RangesOf(xs), e))
    decreases xs
  {
    if xs == [] {
      CharAt(p, i, [CLOSE], e, 0);
    } else {
      var rest := xs[1..];
      RestText(rest);
      var m := Split(p, i, ItemText(xs[0]), ItemsText(rest), e);
      ItemsRead(p, m, rest, e, false, noEscape);
      var r := Some(Scan(RangesOf(rest), e));
      match xs[0] {
        case One(x) =>
          OneRead(p, i, x, m, e, first, noEscape, ItemsText(rest));
          ScanOne(p, i, first, noEscape, Range(x.c, x.c), m, r);
        case Span(lo, hi) =>
          SpanRead(p, i, lo, hi, m, first, noEscape);
          ScanOne(p, i, first, noEscape, Range(lo.c, hi.c), m, r);
        case Class(name) =>
          ClassRead(p, i, name, m);
          ScanClass(p, i, first, noEscape, m, r);
          assert [] + RangesOf(rest) == RangesOf(rest);
      }
    }
  }

  lemma PartRead(p: seq<Char>, i: nat, x: Part, e: nat, noEscape: bool)
    requires At(p, i, PartText(x), e) && PartOk(x, noEscape) && (x.Lone? ==> Open(p, e))
    ensures i < |p| && ReadToken(p, i, noEscape) == Read(TokenOf(x), e)
  {
    match x {
      case Lone =>
        CharAt(p, i, [OPEN], e, 0);
        LoneRead(p, i, noEscape);
      case Exact(a) => SignRead(p, i, a, e, noEscape, {STAR, QUESTION, OPEN});
      case Each => CharAt(p, i, [QUESTION], e, 0);
      case Many => CharAt(p, i, [STAR], e, 0);
      case Bracket(mark, xs) => BracketRead(p, i, x, e, noEscape);
    }
  }

  lemma SetRead(p: seq<Char>, i: nat, negated: bool, k: nat, noEscape: bool, r: Scan)
    requires i + 1 < |p| && negated == Negates(p[i + 1]) && k == (if negated then i + 2 else i + 1)
    requires ScanSet(p, k, true, noEscape) == Some(r)
    ensures ReadSet(p, i, noEscape) == Some(Read(Set(negated, r.ranges), r.next))
  {
  }

  lemma MarkedRead(p: seq<Char>, m: nat, mark: Char, xs: seq<Item>, e: nat, noEscape: bool)
    requires m > 0 && p != [] && At(p, m, [mark] + ItemsText(xs), e) && xs != [] && ItemsOk(xs, true, noEscape) && Negates(mark)
    ensures m < |p| && ReadSet(p, m - 1, noEscape) == Some(Read(Set(true, RangesOf(xs)), e))
  {
    var k := Split(p, m, [mark], ItemsText(xs), e);
    CharAt(p, m, [mark], k, 0);
    ItemsRead(p, k, xs, e, true, noEscape);
    SetRead(p, m - 1, true, k, noEscape, Scan(RangesOf(xs), e));
  }

  lemma UnmarkedRead(p: seq<Char>, m: nat, xs: seq<Item>, e: nat, noEscape: bool)
    requires m > 0 && At(p, m, ItemsText(xs), e) && xs != [] && ItemsOk(xs, true, noEscape)
    requires ItemsText(xs) != [] && !Negates(ItemsText(xs)[0])
    ensures m < |p| && ReadSet(p, m - 1, noEscape) == Some(Read(Set(false, RangesOf(xs)), e))
  {
    CharAt(p, m, ItemsText(xs), e, 0);
    ItemsRead(p, m, xs, e, true, noEscape);
    SetRead(p, m - 1, false, m, noEscape, Scan(RangesOf(xs), e));
  }

  lemma OpenRead(p: seq<Char>, i: nat, inner: seq<Char>, e: nat)
    requires At(p, i, [OPEN] + inner, e)
    ensures i < |p| && p[i] == OPEN && At(p, i + 1, inner, e)
  {
    var m := Split(p, i, [OPEN], inner, e);
    CharAt(p, i, [OPEN], m, 0);
  }

  lemma BracketRead(p: seq<Char>, i: nat, x: Part, e: nat, noEscape: bool)
    requires x.Bracket? && At(p, i, PartText(x), e) && PartOk(x, noEscape)
    ensures i < |p| && p[i] == OPEN && ReadSet(p, i, noEscape) == Some(Read(TokenOf(x), e))
  {
    RestText(x.items);
    if x.mark.Some? {
      OpenRead(p, i, [x.mark.value] + ItemsText(x.items), e);
      MarkedRead(p, i + 1, x.mark.value, x.items, e, noEscape);
    } else {
      assert [] + ItemsText(x.items) == ItemsText(x.items);
      OpenRead(p, i, ItemsText(x.items), e);
      UnmarkedRead(p, i + 1, x.items, e, noEscape);
    }
  }

  /** No ']' comes any more. */
  predicate Open(p: seq<Char>, i: nat) {
    forall k :: i <= k < |p| ==> p[k] != CLOSE
  }

  lemma {:induction false} NoClassEnd(p: seq<Char>, i: nat)
    requires Open(p, i)
    ensures ClassEnd(p, i).None?
    decreases |p| - i
  {
    if i + 1 < |p| { NoClassEnd(p, i + 1); }
  }

  lemma {:induction false} NoSet(p: seq<Char>, i: nat, first: bool, noEscape: bool)
    requires Open(p, i)
    ensures ScanSet(p, i, first, noEscape).None?
    decreases |p| - i
  {
    if i < |p| {
      if p[i] == OPEN && i + 1 < |p| && p[i + 1] == COLON {
        NoClassEnd(p, i + 2);
      } else {
        NoSet(p, ReadRange(p, i, noEscape).next, false, noEscape);
      }
    }
  }

  /** A '[' that is never closed stands for itself. */
  lemma LoneRead(p: seq<Char>, i: nat, noEscape: bool)
    requires i < |p| && p[i] == OPEN && Open(p, i)
    ensures ReadToken(p, i, noEscape) == Read(Lit(OPEN), i + 1)
  {
    NoSet(p, i + 1, true, noEscape);
    if i + 1 < |p| && Negates(p[i + 1]) { NoSet(p, i + 2, true, noEscape); }
  }

  lemma StaysOpen(p: seq<Char>, i: nat, t: seq<Char>)
    requires At(p, i, t, |p|) && CLOSE !in t
    ensures Open(p, i)
  {
    forall k | i <= k < |p| ensures p[k] != CLOSE {
      var j := k - i;
      assert AtChar(p, i, t, |p|, j);
      assert p[k] == t[j];
    }
  }

  lemma TokensFirst(p: seq<Char>, i: nat, noEscape: bool, t: Token, m: nat)
    requires i < |p| && ReadToken(p, i, noEscape) == Read(t, m)
    ensures Tokens(p, i, noEscape) == [t] + Tokens(p, m, noEscape)
  {
  }

  lemma {:induction false} TextRead(p: seq<Char>, i: nat, xs: seq<Part>, noEscape: bool)
    requires At(p, i, Text(xs), |p|) && PartsOk(xs, noEscape)
    ensures i <= |p| && Tokens(p, i, noEscape) == TokensOf(xs)
    decreases xs
  {
    assert AtChar(p, i, Text(xs), |p|, 0);
    if xs != [] {
      var m := Split(p, i, PartText(xs[0]), Text(xs[1..]), |p|);
      if xs[0].Lone? { StaysOpen(p, m, Text(xs[1..])); }
      PartRead(p, i, xs[0], m, noEscape);
      TextRead(p, m, xs[1..], noEscape);
      TokensFirst(p, i, noEscape, TokenOf(xs[0]), m);
    }
  }

  // ----- the tokens take the same -----

  lemma {:induction false} RangesHold(xs: seq<Item>, c: Char, fold: bool)
    ensures InSome(c, RangesOf(xs), fold) <==> SomeHolds(xs, c, fold)
    decreases xs
  {
    if xs != [] {
      var rest := xs[1..];
      RangesHold(rest, c, fold);
      var head := match xs[0] case One(a) => [Range(a.c, a.c)] case Span(lo, hi) => [Range(lo.c, hi.c)] case Class(_) => [];
      InSomeAppend(c, head, RangesOf(rest), fold);
      assert InSome(c, head, fold) <==> Holds(xs[0], c, fold) by {
        if head != [] { assert InRange(c, head[0], fold) <==> Holds(xs[0], c, fold); }
      }
      SomeHoldsFirst(xs, c, fold);
    }
  }

  lemma SomeHoldsFirst(xs: seq<Item>, c: Char, fold: bool)
    requires xs != []
    ensures SomeHolds(xs, c, fold) <==> Holds(xs[0], c, fold) || SomeHolds(xs[1..], c, fold)
  {
    var rest := xs[1..];
    if k :| 0 <= k < |xs| && Holds(xs[k], c, fold) {
      if k > 0 { assert rest[k - 1] == xs[k]; }
    }
    if k :| 0 <= k < |rest| && Holds(rest[k], c, fold) { assert xs[k + 1] == rest[k]; }
  }

  lemma InSomeAppend(c: Char, a: seq<Range>, b: seq<Range>, fold: bool)
    ensures InSome(c, a + b, fold) <==> InSome(c, a, fold) || InSome(c, b, fold)
  {
    var ab := a + b;
    if k :| 0 <= k < |ab| && InRange(c, ab[k], fold) {
      if k < |a| { assert a[k] == ab[k]; } else { assert b[k - |a|] == ab[k]; }
    }
    if k :| 0 <= k < |a| && InRange(c, a[k], fold) { assert ab[k] == a[k]; }
    if k :| 0 <= k < |b| && InRange(c, b[k], fold) { assert ab[|a| + k] == b[k]; }
  }

  lemma TokenTakes(x: Part, c: Char, fold: bool)
    ensures Accepts(TokenOf(x), c, fold) <==> TakesOne(x, c, fold)
  {
    if x.Bracket? { RangesHold(x.items, c, fold); }
  }

  lemma {:induction false} TokensSay(xs: seq<Part>, s: seq<Char>, fold: bool)
    ensures Splits(TokensOf(xs), s, fold) <==> Says(xs, s, fold)
    decreases xs
  {
    if xs == [] {
      SplitsNone(s, fold);
    } else if xs[0].Many? {
      SplitsStar(TokensOf(xs[1..]), s, fold);
      forall k | 0 <= k <= |s| ensures Splits(TokensOf(xs[1..]), s[k..], fold) <==> Says(xs[1..], s[k..], fold) {
        TokensSay(xs[1..], s[k..], fold);
      }
    } else {
      SplitsOne(TokenOf(xs[0]), TokensOf(xs[1..]), s, fold);
      if s != [] {
        TokenTakes(xs[0], s[0], fold);
        TokensSay(xs[1..], s[1..], fold);
      }
    }
  }

  /**
    What fnmatch decides, on the text of a pattern, for every pattern of such
    parts, every name and every flag but FNM_PATHNAME: that the parts take the
    name and that the rule for a leading period is kept.
    */
  lemma TextMeans(xs: seq<Part>, s: seq<Char>, f: Flags)
    requires PartsOk(xs, f.noEscape)
    ensures var ts := Tokens(Text(xs), 0, f.noEscape);
            Splits(ts, s, f.caseFold) && LeadOk(ts, s, f.period) <==> Says(xs, s, f.caseFold) && PeriodOk(xs, s, f.period)
  {
    var p := Text(xs);
    forall k ensures AtChar(p, 0, p, |p|, k) {
    }
    TextRead(p, 0, xs, f.noEscape);
    TokensSay(xs, s, f.caseFold);
  }
}
