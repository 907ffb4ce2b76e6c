/**
  dlsym on a handle: a breadth-first search of the module and what it depends
  on. `value` gives what each module defines the symbol as, 0 if it does not.
  */
module DlSearch {

  import opened DlStore
  import opened DlLoad

  /** Every dependency of a loaded module is loaded. */
  predicate Supplied(t: map<Name, Module>) {
    forall m, i :: m in t && 0 <= i < |t[m].deps| ==> t[m].deps[i] in t
  }

  /** What the modules `ms` depend on directly. */
  function Next(t: map<Name, Module>, ms: set<Name>): set<Name> {
    set m, i | m in ms && m in t && 0 <= i < |t[m].deps| :: t[m].deps[i]
  }

  /** The modules at most `k` dependencies away from `start`. */
  function Ball(t: map<Name, Module>, start: Name, k: nat): set<Name> {
    if k == 0 then {start} else Ball(t, start, k - 1) + Next(t, Ball(t, start, k - 1))
  }

  ghost predicate Within(t: map<Name, Module>, start: Name, m: Name, k: nat) {
    m in Ball(t, start, k)
  }

  ghost predicate Reachable(t: map<Name, Module>, start: Name, m: Name) {
    exists k: nat :: Within(t, start, m, k)
  }

  /** Strictly nearer than `k`, nobody defines the symbol. */
  ghost predicate NoneNearer(t: map<Name, Module>, start: Name, k: nat, value: Name -> nat) {
    k > 0 ==> forall m :: m in Ball(t, start, k - 1) ==> value(m) == 0
  }

  function Elems(q: seq<Name>): set<Name> {
    set m | m in q
  }

  /** A ball that does not grow any more is all there is. */
  lemma {:induction false} BallStops(t: map<Name, Module>, start: Name, k: nat, j: nat)
    requires Next(t, Ball(t, start, k)) <= Ball(t, start, k)
    ensures Ball(t, start, k + j) == Ball(t, start, k)
    decreases j
  {
    if j > 0 { BallStops(t, start, k, j - 1); }
  }

  lemma {:induction false} BallGrows(t: map<Name, Module>, start: Name, k: nat, j: nat)
    requires k <= j
    ensures Ball(t, start, k) <= Ball(t, start, j)
    decreases j
  {
    if k < j { BallGrows(t, start, k, j - 1); }
  }

  lemma AllReached(t: map<Name, Module>, start: Name, k: nat, m: Name)
    requires Next(t, Ball(t, start, k)) <= Ball(t, start, k) && Reachable(t, start, m)
    ensures m in Ball(t, start, k)
  {
    var j: nat :| Within(t, start, m, j);
    if j <= k { BallGrows(t, start, j, k); } else { BallStops(t, start, k, j - k); }
  }

  lemma NextUnion(t: map<Name, Module>, ms: set<Name>, x: Name)
    requires x in t
    ensures Next(t, ms + {x}) == Next(t, ms) + Elems(t[x].deps)
  {
    forall d | d in Next(t, ms) + Elems(t[x].deps) ensures d in Next(t, ms + {x}) {
      if d in Elems(t[x].deps) {
        var i :| 0 <= i < |t[x].deps| && t[x].deps[i] == d;
      }
    }
  }

  /**
    The queue in mid-search: up to `hi` it is the ball of radius `k`, up to
    `lo` the one before, and after `hi` comes what the modules up to `a` add.
    */
  ghost predicate Front(t: map<Name, Module>, start: Name, q: seq<Name>, a: nat, k: nat, lo: nat, hi: nat) {
    && Distinct(q) && lo <= a <= hi <= |q|
    && Elems(q[..hi]) == Ball(t, start, k)
    && Elems(q) == Ball(t, start, k) + Next(t, Elems(q[..a]))
    && (k > 0 ==> Elems(q[..lo]) == Ball(t, start, k - 1))
    && Elems(q) <= t.Keys
  }

  lemma ElemsOne(q: seq<Name>, a: nat)
    requires Distinct(q) && a < |q|
    ensures q[a] !in Elems(q[..a]) && Elems(q[..a + 1]) == Elems(q[..a]) + {q[a]}
  {
    assert q[..a + 1] == q[..a] + [q[a]];
  }

  lemma {:induction false} DistinctSize(q: seq<Name>)
    requires Distinct(q)
    ensures |Elems(q)| == |q|
    decreases q
  {
    if q == [] {
      assert Elems(q) == {};
    } else {
      DistinctSize(q[1..]);
      assert Elems(q) == Elems(q[1..]) + {q[0]} && q[0] !in Elems(q[1..]);
    }
  }

  lemma {:induction false} Fewer(a: set<Name>, b: set<Name>)
    requires a <= b
    ensures |a| <= |b|
    decreases a
  {
    if a != {} {
      var m :| m in a;
      Fewer(a - {m}, b - {m});
    }
  }

  lemma SuppliedDeps(t: map<Name, Module>, x: Name)
    requires x in t && Supplied(t)
    ensures Elems(t[x].deps) <= t.Keys
  {
    forall d | d in t[x].deps ensures d in t {
      var i :| 0 <= i < |t[x].deps| && t[x].deps[i] == d;
    }
  }

  lemma FrontStart(t: map<Name, Module>, start: Name)
    requires start in t
    ensures Front(t, start, [start], 0, 0, 0, 1)
  {
    assert [start][..1] == [start] && [start][..0] == [];
    assert Next(t, Elems([start][..0])) == {};
  }

  lemma FrontNext(t: map<Name, Module>, start: Name, q: seq<Name>, k: nat, lo: nat, hi: nat)
    requires Front(t, start, q, hi, k, lo, hi)
    ensures Front(t, start, q, hi, k + 1, hi, |q|)
  {
    assert q[..|q|] == q;
    assert Elems(q) == Ball(t, start, k + 1);
    forall d | d in Next(t, Elems(q[..hi])) ensures d in Elems(q) {
    }
  }

  lemma FrontStep(t: map<Name, Module>, start: Name, q: seq<Name>, a: nat, k: nat, lo: nat, hi: nat, r: seq<Name>)
    requires Front(t, start, q, a, k, lo, hi) && a < hi && q[a] in t && Elems(t[q[a]].deps) <= t.Keys
    requires Distinct(r) && q <= r && Elems(r) == Elems(q) + Elems(t[q[a]].deps)
    ensures Front(t, start, r, a + 1, k, lo, hi)
  {
    var x := q[a];
    ElemsOne(q, a);
    NextUnion(t, Elems(q[..a]), x);
    PrefixSame(q, r, hi);
    PrefixSame(q, r, lo);
    PrefixSame(q, r, a + 1);
    UnionMore(Ball(t, start, k), Next(t, Elems(q[..a])), Elems(t[x].deps));
  }

  lemma PrefixSame(q: seq<Name>, r: seq<Name>, i: nat)
    requires q <= r && i <= |q|
    ensures r[..i] == q[..i]
  {
  }

  lemma UnionMore(a: set<Name>, b: set<Name>, c: set<Name>)
    ensures (a + b) + c == a + (b + c)
  {
  }

  lemma FrontFits(t: map<Name, Module>, start: Name, q: seq<Name>, a: nat, k: nat, lo: nat, hi: nat)
    requires Front(t, start, q, a, k, lo, hi)
    ensures |q| <= |t.Keys| && forall i :: 0 <= i < |q| ==> q[i] in t
  {
    DistinctSize(q);
    Fewer(Elems(q), t.Keys);
    forall i | 0 <= i < |q| ensures q[i] in t {
      assert q[i] in Elems(q);
    }
  }

  lemma FrontReached(t: map<Name, Module>, start: Name, q: seq<Name>, a: nat, k: nat, lo: nat, hi: nat, m: Name)
    requires Front(t, start, q, a, k, lo, hi) && m in q
    ensures Reachable(t, start, m)
  {
    assert m in Elems(q);
    if m !in Ball(t, start, k) {
      assert m in Next(t, Elems(q[..a]));
      var x, i :| x in Elems(q[..a]) && x in t && 0 <= i < |t[x].deps| && t[x].deps[i] == m;
      var j :| 0 <= j < a && q[j] == x;
      assert q[..hi][j] == x;
      assert x in Elems(q[..hi]);
      assert t[x].deps[i] in Next(t, Ball(t, start, k));
      assert Within(t, start, m, k + 1);
    } else {
      assert Within(t, start, m, k);
    }
  }

  lemma FrontDone(t: map<Name, Module>, start: Name, q: seq<Name>, k: nat, lo: nat, hi: nat, m: Name)
    requires Front(t, start, q, |q|, k, lo, hi) && Reachable(t, start, m)
    ensures m in q
  {
    assert q[..|q|] == q;
    AllReached(t, start, k, m);
  }

  /** No module within reach defines the symbol. */
  ghost predicate Undefined(t: map<Name, Module>, start: Name, value: Name -> nat) {
    forall m :: Reachable(t, start, m) ==> value(m) == 0
  }

  /** `p` is what a module defines that no other is nearer than. */
  ghost predicate Nearest(t: map<Name, Module>, start: Name, value: Name -> nat, p: nat) {
    exists k: nat, m :: Within(t, start, m, k) && value(m) == p && NoneNearer(t, start, k, value)
  }

  ghost predicate AllReachable(t: map<Name, Module>, start: Name, q: seq<Name>) {
    forall m :: m in q ==> Reachable(t, start, m)
  }

  /** Some radius fits the queue with its first `a` modules looked at. */
  ghost predicate Searching(t: map<Name, Module>, start: Name, q: seq<Name>, a: nat) {
    exists k: nat, lo: nat, hi: nat :: Front(t, start, q, a, k, lo, hi)
  }

  lemma SearchingReachable(t: map<Name, Module>, start: Name, q: seq<Name>, a: nat, b: nat)
    requires Searching(t, start, q, a) && b <= |q|
    ensures AllReachable(t, start, q[..b]) && Distinct(q[..b])
  {
    var k: nat, lo: nat, hi: nat :| Front(t, start, q, a, k, lo, hi);
    forall m | m in q[..b] ensures Reachable(t, start, m) {
      FrontReached(t, start, q, a, k, lo, hi, m);
    }
  }

  lemma SearchingFits(t: map<Name, Module>, start: Name, q: seq<Name>, a: nat)
    requires Searching(t, start, q, a)
    ensures |q| <= |t.Keys| && forall i :: 0 <= i < |q| ==> q[i] in t
  {
    var k: nat, lo: nat, hi: nat :| Front(t, start, q, a, k, lo, hi);
    FrontFits(t, start, q, a, k, lo, hi);
  }

  /** The radius with the next module inside. */
  lemma SearchingInside(t: map<Name, Module>, start: Name, q: seq<Name>, a: nat) returns (k: nat, lo: nat, hi: nat)
    requires Searching(t, start, q, a) && a < |q|
    ensures Front(t, start, q, a, k, lo, hi) && a < hi
  {
    k, lo, hi :| Front(t, start, q, a, k, lo, hi);
    if a == hi {
      FrontNext(t, start, q, k, lo, hi);
      k, lo, hi := k + 1, hi, |q|;
    }
  }

  lemma SearchingStep(t: map<Name, Module>, start: Name, q: seq<Name>, a: nat, r: seq<Name>)
    requires Searching(t, start, q, a) && a < |q| && q[a] in t && Supplied(t)
    requires Distinct(r) && q <= r && Elems(r) == Elems(q) + Elems(t[q[a]].deps)
    ensures Searching(t, start, r, a + 1)
  {
    var k, lo, hi := SearchingInside(t, start, q, a);
    SuppliedDeps(t, q[a]);
    FrontStep(t, start, q, a, k, lo, hi, r);
  }

  lemma SearchingFound(t: map<Name, Module>, start: Name, q: seq<Name>, a: nat, value: Name -> nat)
    requires Searching(t, start, q, a) && a < |q| && value(q[a]) != 0 && forall i :: 0 <= i < a ==> value(q[i]) == 0
    ensures Nearest(t, start, value, value(q[a])) && !Undefined(t, start, value)
  {
    var k, lo, hi := SearchingInside(t, start, q, a);
    assert q[a] in Elems(q[..hi]);
    if k > 0 {
      forall m | m in Ball(t, start, k - 1) ensures value(m) == 0 {
        assert m in Elems(q[..lo]);
        assert m in q[..a];
      }
    }
    assert NoneNearer(t, start, k, value);
    assert Within(t, start, q[a], k);
  }

  lemma SearchingDone(t: map<Name, Module>, start: Name, q: seq<Name>, value: Name -> nat)
    requires Searching(t, start, q, |q|) && forall i :: 0 <= i < |q| ==> value(q[i]) == 0
    ensures Undefined(t, start, value) && forall m :: Reachable(t, start, m) ==> m in q
  {
    var k: nat, lo: nat, hi: nat :| Front(t, start, q, |q|, k, lo, hi);
    forall m | Reachable(t, start, m) ensures m in q {
      FrontDone(t, start, q, k, lo, hi, m);
    }
  }

  /** One step of the queue: what the module at `a` depends on and is not there yet goes to its end. */
  method Extend(t: map<Name, Module>, ghost start: Name, q: seq<Name>, a: nat) returns (r: seq<Name>)
    requires Searching(t, start, q, a) && a < |q| && q[a] in t && Supplied(t)
    ensures Searching(t, start, r, a + 1) && q <= r
  {
    assert Distinct(q) by { SearchingReachable(t, start, q, a, |q|); assert q[..|q|] == q; }
    r := Append(q, t[q[a]].deps);
    SearchingStep(t, start, q, a, r);
  }

  /** The dependencies that are not in the queue yet, each once, at its end. */
  method Append(q: seq<Name>, deps: seq<Name>) returns (r: seq<Name>)
    requires Distinct(q)
    ensures Distinct(r) && q <= r && Elems(r) == Elems(q) + Elems(deps)
  {
    r := q;
    var i := 0;
    while i < |deps|
      invariant 0 <= i <= |deps| && Distinct(r) && q <= r && Elems(r) == Elems(q) + Elems(deps[..i])
    {
      var j := 0;
      while j < |r| && r[j] != deps[i]
        invariant 0 <= j <= |r| && deps[i] !in r[..j]
      {
        j := j + 1;
      }
      assert deps[..i + 1] == deps[..i] + [deps[i]];
      if j == |r| {
        assert r[..j] == r;
        DistinctAppend(r, [deps[i]]);
        assert Elems(r + [deps[i]]) == Elems(r) + {deps[i]};
        r := r + [deps[i]];
      }
      i := i + 1;
    }
    assert deps[..i] == deps;
  }

  /** What dlsym gives: the symbol exactly when some module within reach defines it, from a nearest one, after visiting
      each module at most once and, if there is no such module, all of them. */
  ghost predicate Answers(t: map<Name, Module>, start: Name, value: Name -> nat, p: nat, visited: seq<Name>) {
    && Distinct(visited) && AllReachable(t, start, visited)
    && (p == 0 <==> Undefined(t, start, value))
    && (p == 0 ==> forall m :: Reachable(t, start, m) ==> m in visited)
    && (p != 0 ==> Nearest(t, start, value, p))
  }

  lemma FoundAnswers(t: map<Name, Module>, start: Name, q: seq<Name>, a: nat, value: Name -> nat)
    requires Searching(t, start, q, a) && a < |q| && value(q[a]) != 0 && forall i :: 0 <= i < a ==> value(q[i]) == 0
    ensures Answers(t, start, value, value(q[a]), q[..a + 1])
  {
    SearchingFound(t, start, q, a, value);
    SearchingReachable(t, start, q, a, a + 1);
  }

  lemma DoneAnswers(t: map<Name, Module>, start: Name, q: seq<Name>, value: Name -> nat)
    requires Searching(t, start, q, |q|) && forall i :: 0 <= i < |q| ==> value(q[i]) == 0
    ensures Answers(t, start, value, 0, q)
  {
    assert q[..|q|] == q;
    SearchingReachable(t, start, q, |q|, |q|);
    SearchingDone(t, start, q, value);
  }

  /** dl_nel_grafo */
  method Search(t: map<Name, Module>, start: Name, value: Name -> nat) returns (p: nat, visited: seq<Name>)
    requires start in t && Supplied(t)
    ensures Answers(t, start, value, p, visited)
  {
    var q, a := [start], 0;
    FrontStart(t, start);
    while a < |q|
      invariant a <= |q| && Searching(t, start, q, a)
      invariant forall i :: 0 <= i < a ==> value(q[i]) == 0
      decreases |t.Keys| - a
    {
      SearchingFits(t, start, q, a);
      p := value(q[a]);
      if p != 0 {
        visited := q[..a + 1];
        FoundAnswers(t, start, q, a, value);
        return;
      }
      q := Extend(t, start, q, a);
      a := a + 1;
    }
    p := 0;
    visited := q;
    DoneAnswers(t, start, q, value);
  }
}
