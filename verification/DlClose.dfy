/**
  dlclose: it gives back one reference, and lets go exactly the modules that
  nothing refers to any more, each once and before what it depends on.
  */
module DlClose {
  import opened DlStore
  import opened DlCount

  ghost predicate Ranked(s: Store, rank: Name -> nat) {
    forall m, i :: m in s.table && s.table[m].count > 0 && 0 <= i < |s.table[m].deps| ==> rank(s.table[m].deps[i]) < rank(m)
  }

  /** Closing only takes: no new module, no new count. */
  ghost predicate Shrunk(s: Store, r: Store) {
    && r.table.Keys <= s.table.Keys
    && forall m :: m in r.table ==> r.table[m].deps == s.table[m].deps && r.table[m].count <= s.table[m].count
  }

  lemma DropBalanced(s: Store, n: Name, held: multiset<Name>)
    requires n in s.table && s.table[n].count > 1 && held[n] > 0 && Balanced(s, held)
    ensures Balanced(SetCount(s, n, s.table[n].count - 1), held - multiset{n})
  {
    var r := SetCount(s, n, s.table[n].count - 1);
    forall d ensures Count(r, d) == (held - multiset{n})[d] + RefsTo(r.table, d) {
      UpdateRefs(s, n, r.table[n], d);
    }
  }

  /** Letting go the last reference to `n` turns what it depends on into references to give back. */
  lemma ReleaseBalanced(s: Store, n: Name, held: multiset<Name>, rank: Name -> nat)
    requires n in s.table && s.table[n].count == 1 && held[n] > 0 && Balanced(s, held) && Ranked(s, rank)
    ensures Balanced(SetCount(s, n, 0), held - multiset{n} + multiset(s.table[n].deps))
    ensures held[n] == 1 && RefsTo(s.table, n) == 0
  {
    var r := SetCount(s, n, 0);
    assert Count(s, n) == 1;
    assert n !in s.table[n].deps;
    forall d ensures Count(r, d) == (held - multiset{n} + multiset(s.table[n].deps))[d] + RefsTo(r.table, d) {
      UpdateRefs(s, n, r.table[n], d);
    }
  }

  lemma FreeBalanced(s: Store, n: Name, held: multiset<Name>)
    requires Count(s, n) == 0 && Balanced(s, held)
    ensures Balanced(Free(s, n), held)
  {
    var r := Free(s, n);
    forall d ensures Count(r, d) == held[d] + RefsTo(r.table, d) {
      RefsSplit(s.table, n, d);
      RefsRemove(s.table, n, d);
    }
  }

  lemma {:induction false} CloseBalanced(s: Store, n: Name, held: multiset<Name>, rank: Name -> nat, fuel: nat)
    requires Balanced(s, held) && held[n] > 0 && Ranked(s, rank) && rank(n) < fuel
    ensures Close(s, n, fuel).Some?
    ensures Balanced(Close(s, n, fuel).value, held - multiset{n}) && Shrunk(s, Close(s, n, fuel).value)
    decreases fuel, 0
  {
    assert Count(s, n) == held[n] + RefsTo(s.table, n);
    if s.table[n].count > 1 {
      DropBalanced(s, n, held);
    } else {
      var s1 := SetCount(s, n, 0);
      var s2 := s1.(log := s1.log + [Ended(n)]);
      var deps := s.table[n].deps;
      var held1 := held - multiset{n} + multiset(deps);
      ReleaseBalanced(s, n, held, rank);
      assert Balanced(s2, held1);
      CloseAllBalanced(s2, deps, held1, rank, fuel - 1);
      var r := CloseAll(s2, deps, fuel - 1).value;
      assert held1 - multiset(deps) == held - multiset{n};
      assert Count(r, n) == (held - multiset{n})[n] + RefsTo(r.table, n);
      FreeBalanced(r, n, held - multiset{n});
    }
  }

  lemma {:induction false} CloseAllBalanced(s: Store, deps: seq<Name>, held: multiset<Name>, rank: Name -> nat, fuel: nat)
    requires Balanced(s, held) && multiset(deps) <= held && Ranked(s, rank)
    requires forall i :: 0 <= i < |deps| ==> rank(deps[i]) < fuel
    ensures CloseAll(s, deps, fuel).Some?
    ensures Balanced(CloseAll(s, deps, fuel).value, held - multiset(deps)) && Shrunk(s, CloseAll(s, deps, fuel).value)
    decreases fuel, 1, |deps|
  {
    if deps == [] {
      assert held - multiset(deps) == held;
    } else {
      var n := deps[0];
      assert deps == [n] + deps[1..];
      assert multiset(deps) == multiset{n} + multiset(deps[1..]);
      CloseBalanced(s, n, held, rank, fuel);
      var t := Close(s, n, fuel).value;
      CloseAllBalanced(t, deps[1..], held - multiset{n}, rank, fuel);
      assert held - multiset{n} - multiset(deps[1..]) == held - multiset(deps);
    }
  }

  // ----- the bound on the recursion -----

  /** A close that ends does not depend on it. */
  lemma {:induction false} MoreFuel(s: Store, n: Name, fuel: nat, more: nat)
    requires Close(s, n, fuel).Some? && fuel <= more
    ensures Close(s, n, more) == Close(s, n, fuel)
    decreases fuel, 0
  {
    if n in s.table && s.table[n].count <= 1 {
      var s1 := SetCount(s, n, s.table[n].count - 1);
      MoreFuelAll(s1.(log := s1.log + [Ended(n)]), s1.table[n].deps, fuel - 1, more - 1);
    }
  }

  lemma {:induction false} MoreFuelAll(s: Store, deps: seq<Name>, fuel: nat, more: nat)
    requires CloseAll(s, deps, fuel).Some? && fuel <= more
    ensures CloseAll(s, deps, more) == CloseAll(s, deps, fuel)
    decreases fuel, 1, |deps|
  {
    if deps != [] {
      MoreFuel(s, deps[0], fuel, more);
      MoreFuelAll(Close(s, deps[0], fuel).value, deps[1..], fuel, more);
    }
  }

  // ----- which modules are let go, and in what order -----

  function Added(s: Store, r: Store): seq<Event> {
    if |s.log| <= |r.log| then r.log[|s.log|..] else []
  }

  predicate Counted(s: Store, n: Name) {
    n in s.table && s.table[n].count > 0
  }

  /** Before the event at `j`, every module that depended on `e` has ended. */
  ghost predicate DependentsEnded(s: Store, l: seq<Event>, e: Name, j: nat) {
    forall d :: Counted(s, d) && e in s.table[d].deps ==> EndedBefore(l, d, j)
  }

  ghost predicate EndedBefore(l: seq<Event>, d: Name, j: nat) {
    exists i :: 0 <= i < j && i < |l| && l[i] == Ended(d)
  }

  /** Exactly the modules that go end; one that is being let go already stays for now. */
  ghost predicate EndsExactly(s: Store, r: Store) {
    && (forall n :: Counted(s, n) && n !in r.table ==> Ended(n) in Added(s, r))
    && (forall n :: Ended(n) in Added(s, r) ==> Counted(s, n) && n !in r.table)
    && (forall n :: n in s.table && !Counted(s, n) ==> n in r.table && !Counted(r, n))
    && (forall n :: Counted(s, n) && n in r.table ==> Counted(r, n))
    && Shrunk(s, r)
  }

  ghost predicate EndsOnce(l: seq<Event>) {
    forall i, j :: 0 <= i < j < |l| && l[i].Ended? ==> l[i] != l[j]
  }

  ghost predicate EndsOrdered(s: Store, l: seq<Event>) {
    forall j :: 0 <= j < |l| && l[j].Ended? ==> DependentsEnded(s, l, l[j].n, j)
  }

  /** What is let go ends, once, after all that depended on it. */
  ghost predicate EndsInOrder(s: Store, r: Store) {
    exists l :: LetsGo(s, r, l)
  }

  /** The same, by the events `l` that are added. */
  ghost predicate LetsGo(s: Store, r: Store, l: seq<Event>) {
    r.log == s.log + l && l == Added(s, r) && EndsExactly(s, r) && EndsOnce(l) && EndsOrdered(s, l)
  }

  lemma AddedIs(s: Store, r: Store, l: seq<Event>)
    requires r.log == s.log + l
    ensures s.log <= r.log && Added(s, r) == l
  {
  }

  lemma OnceTwice(s: Store, t: Store, r: Store)
    requires EndsExactly(s, t) && EndsExactly(t, r) && EndsOnce(Added(s, t)) && EndsOnce(Added(t, r))
    ensures EndsOnce(Added(s, t) + Added(t, r))
  {
    var a, b := Added(s, t), Added(t, r);
    var l: seq<Event> := a + b;
    forall i, j | 0 <= i < j < |l| && l[i].Ended? ensures l[i] != l[j] {
      if i < |a| <= j {
        assert Ended(a[i].n) in a && b[j - |a|] in b;
      }
    }
  }

  lemma OrderedTwice(s: Store, t: Store, r: Store)
    requires EndsExactly(s, t) && EndsOrdered(s, Added(s, t)) && EndsOrdered(t, Added(t, r))
    ensures EndsOrdered(s, Added(s, t) + Added(t, r))
  {
    var a, b := Added(s, t), Added(t, r);
    var l: seq<Event> := a + b;
    forall j | 0 <= j < |l| && l[j].Ended? ensures DependentsEnded(s, l, l[j].n, j) {
      var e := l[j].n;
      forall d | Counted(s, d) && e in s.table[d].deps ensures EndedBefore(l, d, j) {
        if j < |a| {
          assert DependentsEnded(s, a, e, j);
          var i :| 0 <= i < j && i < |a| && a[i] == Ended(d);
          assert l[i] == Ended(d);
        } else if d !in t.table {
          var i :| 0 <= i < |a| && a[i] == Ended(d);
          assert l[i] == Ended(d);
        } else {
          assert DependentsEnded(t, b, e, j - |a|);
          var i :| 0 <= i < j - |a| && i < |b| && b[i] == Ended(d);
          assert l[|a| + i] == Ended(d);
        }
      }
    }
  }

  lemma ExactlyTwice(s: Store, t: Store, r: Store)
    requires EndsExactly(s, t) && EndsExactly(t, r) && Added(s, r) == Added(s, t) + Added(t, r)
    ensures EndsExactly(s, r)
  {
    forall n | Counted(s, n) && n !in r.table ensures Ended(n) in Added(s, r) {
      if n in t.table { assert Counted(t, n); }
    }
    forall n | Ended(n) in Added(s, r) ensures Counted(s, n) && n !in r.table {
      if Ended(n) in Added(s, t) { assert n !in t.table; } else { assert Counted(t, n); }
    }
    forall n | n in s.table && !Counted(s, n) ensures n in r.table && !Counted(r, n) {
      assert n in t.table && !Counted(t, n);
    }
    forall n | Counted(s, n) && n in r.table ensures Counted(r, n) {
      assert n in t.table && Counted(t, n);
    }
  }

  lemma InOrderTwice(s: Store, t: Store, r: Store)
    requires EndsInOrder(s, t) && EndsInOrder(t, r)
    ensures EndsInOrder(s, r)
  {
    var a :| LetsGo(s, t, a);
    var b :| LetsGo(t, r, b);
    assert r.log == s.log + (a + b);
    AddedIs(s, r, a + b);
    ExactlyTwice(s, t, r);
    OnceTwice(s, t, r);
    OrderedTwice(s, t, r);
    assert LetsGo(s, r, a + b);
  }

  lemma NoDependents(t: map<Name, Module>, n: Name, d: Name)
    requires RefsTo(t, n) == 0 && d in t && t[d].count > 0
    ensures n !in t[d].deps
  {
    RefsSplit(t, d, n);
  }

  function Ending(s: Store, n: Name): Store
    requires n in s.table
  {
    SetCount(s, n, 0).(log := s.log + [Ended(n)])
  }

  lemma AddedRelease(s: Store, n: Name, t: Store)
    requires n in s.table && Ending(s, n).log <= t.log
    ensures s.log <= Free(t, n).log
    ensures Added(s, Free(t, n)) == [Ended(n)] + Added(Ending(s, n), t) + [Unmapped(n)]
    ensures forall e :: Ended(e) in Added(s, Free(t, n)) <==> e == n || Ended(e) in Added(Ending(s, n), t)
  {
    assert Added(s, Free(t, n)) == [Ended(n)] + Added(Ending(s, n), t) + [Unmapped(n)];
  }

  lemma ExactlyRelease(s: Store, n: Name, t: Store)
    requires n in s.table && s.table[n].count == 1 && Ending(s, n).log <= t.log && EndsExactly(Ending(s, n), t)
    ensures EndsExactly(s, Free(t, n))
  {
    var s1, r := Ending(s, n), Free(t, n);
    AddedRelease(s, n, t);
    forall m ensures Counted(s1, m) <==> m != n && Counted(s, m) {
    }
    forall m ensures m in r.table <==> m != n && m in t.table {
    }
    assert n in s1.table && !Counted(s1, n) && n in t.table;
    forall m | Ended(m) in Added(s, r) ensures Counted(s, m) && m !in r.table {
      if m != n { assert Ended(m) in Added(s1, t); }
    }
    forall m | m in s.table && !Counted(s, m) ensures m in r.table && !Counted(r, m) {
      assert m in s1.table && !Counted(s1, m);
    }
    forall m | Counted(s, m) && m in r.table ensures Counted(r, m) {
      assert Counted(s1, m) && m in t.table;
    }
    forall m | Counted(s, m) && m !in r.table ensures Ended(m) in Added(s, r) {
      if m != n { assert Counted(s1, m) && m !in t.table; }
    }
  }

  lemma OnceRelease(n: Name, b: seq<Event>)
    requires EndsOnce(b) && Ended(n) !in b
    ensures EndsOnce([Ended(n)] + b + [Unmapped(n)])
  {
  }

  lemma OrderedRelease(s: Store, n: Name, b: seq<Event>)
    requires n in s.table && RefsTo(s.table, n) == 0 && EndsOrdered(Ending(s, n), b)
    ensures EndsOrdered(s, [Ended(n)] + b + [Unmapped(n)])
  {
    var l := [Ended(n)] + b + [Unmapped(n)];
    forall j | 0 <= j < |l| && l[j].Ended? ensures DependentsEnded(s, l, l[j].n, j) {
      forall d | Counted(s, d) && l[j].n in s.table[d].deps ensures EndedBefore(l, d, j) {
        if j == 0 {
          NoDependents(s.table, n, d);
        } else if d == n {
          assert l[0] == Ended(d);
        } else {
          assert l[j] == b[j - 1] && DependentsEnded(Ending(s, n), b, l[j].n, j - 1);
          assert Counted(Ending(s, n), d) && EndedBefore(b, d, j - 1);
          var i :| 0 <= i < j - 1 && i < |b| && b[i] == Ended(d);
          assert l[i + 1] == Ended(d);
        }
      }
    }
  }

  /** A module whose last reference goes ends first; then what it held is closed, then it is unmapped. */
  lemma InOrderRelease(s: Store, n: Name, t: Store)
    requires n in s.table && s.table[n].count == 1 && RefsTo(s.table, n) == 0 && EndsInOrder(Ending(s, n), t)
    ensures EndsInOrder(s, Free(t, n))
  {
    var b :| LetsGo(Ending(s, n), t, b);
    LetsGoRelease(s, n, t, b, [Ended(n)] + b + [Unmapped(n)]);
  }

  lemma LetsGoRelease(s: Store, n: Name, t: Store, b: seq<Event>, l: seq<Event>)
    requires n in s.table && s.table[n].count == 1 && RefsTo(s.table, n) == 0 && LetsGo(Ending(s, n), t, b)
    requires l == [Ended(n)] + b + [Unmapped(n)]
    ensures LetsGo(s, Free(t, n), l)
  {
    assert Free(t, n).log == s.log + l && l == Added(s, Free(t, n)) by { AddedRelease(s, n, t); }
    assert EndsExactly(s, Free(t, n)) by { ExactlyRelease(s, n, t); }
    assert EndsOnce(l) by {
      assert !Counted(Ending(s, n), n);
      OnceRelease(n, b);
    }
    assert EndsOrdered(s, l) by { OrderedRelease(s, n, b); }
  }

  lemma InOrderDrop(s: Store, n: Name)
    requires n in s.table && s.table[n].count > 1
    ensures EndsInOrder(s, SetCount(s, n, s.table[n].count - 1))
  {
    assert LetsGo(s, SetCount(s, n, s.table[n].count - 1), []);
  }

  lemma EndingBalanced(s: Store, n: Name, held: multiset<Name>, rank: Name -> nat)
    requires n in s.table && s.table[n].count == 1 && held[n] > 0 && Balanced(s, held) && Ranked(s, rank)
    ensures Balanced(Ending(s, n), held - multiset{n} + multiset(s.table[n].deps)) && Ranked(Ending(s, n), rank)
    ensures RefsTo(s.table, n) == 0
  {
    ReleaseBalanced(s, n, held, rank);
    assert Ending(s, n).table == SetCount(s, n, 0).table;
  }

  lemma CloseReleases(s: Store, n: Name, fuel: nat)
    requires fuel > 0 && n in s.table && s.table[n].count == 1 && RefsTo(s.table, n) == 0
    requires CloseAll(Ending(s, n), s.table[n].deps, fuel - 1).Some?
    requires EndsInOrder(Ending(s, n), CloseAll(Ending(s, n), s.table[n].deps, fuel - 1).value)
    ensures Close(s, n, fuel).Some? && EndsInOrder(s, Close(s, n, fuel).value)
  {
    InOrderRelease(s, n, CloseAll(Ending(s, n), s.table[n].deps, fuel - 1).value);
  }

  lemma {:induction false} CloseInOrder(s: Store, n: Name, held: multiset<Name>, rank: Name -> nat, fuel: nat)
    requires Balanced(s, held) && held[n] > 0 && Ranked(s, rank) && rank(n) < fuel
    ensures Close(s, n, fuel).Some? && EndsInOrder(s, Close(s, n, fuel).value)
    decreases fuel, 0, 1
  {
    assert Count(s, n) == held[n] + RefsTo(s.table, n);
    if s.table[n].count > 1 {
      InOrderDrop(s, n);
    } else {
      CloseLastInOrder(s, n, held, rank, fuel);
    }
  }

  lemma {:induction false} CloseLastInOrder(s: Store, n: Name, held: multiset<Name>, rank: Name -> nat, fuel: nat)
    requires Balanced(s, held) && held[n] > 0 && Ranked(s, rank) && rank(n) < fuel && n in s.table && s.table[n].count == 1
    ensures Close(s, n, fuel).Some? && EndsInOrder(s, Close(s, n, fuel).value)
    decreases fuel, 0, 0
  {
    var deps := s.table[n].deps;
    EndingBalanced(s, n, held, rank);
    CloseAllInOrder(Ending(s, n), deps, held - multiset{n} + multiset(deps), rank, fuel - 1);
    CloseReleases(s, n, fuel);
  }

  lemma {:induction false} CloseAllInOrder(s: Store, deps: seq<Name>, held: multiset<Name>, rank: Name -> nat, fuel: nat)
    requires Balanced(s, held) && multiset(deps) <= held && Ranked(s, rank)
    requires forall i :: 0 <= i < |deps| ==> rank(deps[i]) < fuel
    ensures CloseAll(s, deps, fuel).Some? && EndsInOrder(s, CloseAll(s, deps, fuel).value)
    decreases fuel, 1, |deps|
  {
    if deps == [] {
      assert LetsGo(s, s, []);
    } else {
      var n := deps[0];
      assert deps == [n] + deps[1..];
      assert multiset(deps) == multiset{n} + multiset(deps[1..]);
      CloseBalanced(s, n, held, rank, fuel);
      CloseInOrder(s, n, held, rank, fuel);
      var t := Close(s, n, fuel).value;
      CloseAllInOrder(t, deps[1..], held - multiset{n}, rank, fuel);
      InOrderTwice(s, t, CloseAll(t, deps[1..], fuel).value);
    }
  }
}
