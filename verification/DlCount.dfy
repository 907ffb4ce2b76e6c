/**
  The reference counts: on dependencies without a cycle, the count of a module
  is the number of references held to it, by callers and by loaded modules
  that depend on it.
  */
module DlCount {

  import opened DlStore
  import opened DlLoad

  // ----- the references that loaded modules hold -----

  /** A module holds its dependencies from the end of its own load until it is let go: while it is counted. */
  function Holds(m: Module, d: Name): nat {
    if m.count > 0 then multiset(m.deps)[d] else 0
  }

  ghost function Pick(ns: set<Name>): (n: Name)
    requires ns != {}
    ensures n in ns
  {
    var n :| n in ns; n
  }

  /** How many references to `d` the modules `ns` hold. */
  ghost function Refs(ns: set<Name>, t: map<Name, Module>, d: Name): nat
    requires ns <= t.Keys
    decreases ns
  {
    if ns == {} then 0 else Holds(t[Pick(ns)], d) + Refs(ns - {Pick(ns)}, t, d)
  }

  lemma {:induction false} RefsWithout(ns: set<Name>, t: map<Name, Module>, d: Name, n: Name)
    requires ns <= t.Keys && n in ns
    ensures Refs(ns, t, d) == Holds(t[n], d) + Refs(ns - {n}, t, d)
    decreases ns
  {
    var p := Pick(ns);
    if p != n {
      RefsWithout(ns - {p}, t, d, n);
      RefsWithout(ns - {n}, t, d, p);
      assert (ns - {p}) - {n} == (ns - {n}) - {p};
    }
  }

  lemma {:induction false} RefsSame(ns: set<Name>, t: map<Name, Module>, u: map<Name, Module>, d: Name)
    requires ns <= t.Keys && ns <= u.Keys && forall n :: n in ns ==> Holds(t[n], d) == Holds(u[n], d)
    ensures Refs(ns, t, d) == Refs(ns, u, d)
    decreases ns
  {
    if ns != {} {
      RefsSame(ns - {Pick(ns)}, t, u, d);
    }
  }

  /** The references of everything loaded but `n`. */
  ghost function Others(t: map<Name, Module>, n: Name, d: Name): nat {
    Refs(t.Keys - {n}, t, d)
  }

  ghost function RefsTo(t: map<Name, Module>, d: Name): nat {
    Refs(t.Keys, t, d)
  }

  lemma RefsSplit(t: map<Name, Module>, n: Name, d: Name)
    ensures RefsTo(t, d) == Others(t, n, d) + if n in t then Holds(t[n], d) else 0
  {
    if n in t {
      RefsWithout(t.Keys, t, d, n);
    } else {
      assert t.Keys - {n} == t.Keys;
    }
  }

  lemma RefsUpdate(t: map<Name, Module>, n: Name, m: Module, d: Name)
    ensures RefsTo(t[n := m], d) == Others(t, n, d) + Holds(m, d)
  {
    RefsSplit(t[n := m], n, d);
    assert t[n := m].Keys - {n} == t.Keys - {n};
    RefsSame(t.Keys - {n}, t[n := m], t, d);
  }

  lemma RefsRemove(t: map<Name, Module>, n: Name, d: Name)
    ensures RefsTo(t - {n}, d) == Others(t, n, d)
  {
    assert (t - {n}).Keys == t.Keys - {n};
    RefsSame(t.Keys - {n}, t - {n}, t, d);
  }

  lemma {:induction false} RefsHas(ns: set<Name>, t: map<Name, Module>, d: Name) returns (n: Name)
    requires ns <= t.Keys && Refs(ns, t, d) > 0
    ensures n in ns && t[n].count > 0 && d in t[n].deps
    decreases ns
  {
    if Holds(t[Pick(ns)], d) > 0 {
      n := Pick(ns);
    } else {
      n := RefsHas(ns - {Pick(ns)}, t, d);
    }
  }

  // ----- the balance -----

  function Count(s: Store, n: Name): int {
    if n in s.table then s.table[n].count else 0
  }

  /** Every count is the number of references: those in `held`, and those of loaded modules. */
  ghost predicate Balanced(s: Store, held: multiset<Name>) {
    forall n :: Count(s, n) == held[n] + RefsTo(s.table, n)
  }

  lemma UpdateRefs(s: Store, n: Name, m: Module, d: Name)
    requires n in s.table
    ensures RefsTo(s.table[n := m], d) == RefsTo(s.table, d) - Holds(s.table[n], d) + Holds(m, d)
  {
    RefsSplit(s.table, n, d);
    RefsUpdate(s.table, n, m, d);
  }

  /** Between operations every module is complete and counted. */
  ghost predicate Complete(w: World, s: Store) {
    && s.queue == []
    && forall m :: m in s.table ==> s.table[m].count > 0 && m in w.files && s.table[m].deps == w.files[m].needed
  }

  // ----- loading keeps the balance -----

  /** The modules being read, not counted yet, are above `bound`. */
  ghost predicate ReadingAbove(s: Store, rank: Name -> nat, bound: nat) {
    forall m :: m in s.table && s.table[m].count <= 0 ==> rank(m) >= bound
  }

  /** No count above `bound` changes, and no module is left uncounted. */
  ghost predicate AboveKept(s: Store, r: Store, rank: Name -> nat, bound: nat) {
    && (forall m :: m in s.table && m in r.table && rank(m) >= bound ==> r.table[m].count == s.table[m].count)
    && (forall m :: m in r.table && r.table[m].count <= 0 ==> m in s.table && s.table[m].count <= 0)
  }

  lemma TakeBalanced(s: Store, n: Name, held: multiset<Name>)
    requires n in s.table && s.table[n].count > 0 && Balanced(s, held)
    ensures Balanced(SetCount(s, n, s.table[n].count + 1), held + multiset{n})
  {
    var r := SetCount(s, n, s.table[n].count + 1);
    forall d ensures Count(r, d) == (held + multiset{n})[d] + RefsTo(r.table, d) {
      UpdateRefs(s, n, r.table[n], d);
    }
  }

  lemma EnterBalanced(s: Store, n: Name, held: multiset<Name>)
    requires n !in s.table && Balanced(s, held)
    ensures Balanced(Enter(s, n), held)
  {
    var r := Enter(s, n);
    forall d ensures Count(r, d) == held[d] + RefsTo(r.table, d) {
      RefsUpdate(s.table, n, Module([], 0), d);
      RefsSplit(s.table, n, d);
    }
  }

  lemma AddDepBalanced(s: Store, n: Name, e: Name, held: multiset<Name>)
    requires n in s.table && s.table[n].count == 0 && Balanced(s, held)
    ensures Balanced(AddDep(s, n, e), held)
  {
    var r := AddDep(s, n, e);
    forall d ensures Count(r, d) == held[d] + RefsTo(r.table, d) {
      UpdateRefs(s, n, r.table[n], d);
    }
  }

  lemma QueueBalanced(s: Store, n: Name, held: multiset<Name>)
    requires n in s.table && s.table[n].count == 0 && Balanced(s, held + multiset(s.table[n].deps))
    ensures Balanced(Queue(s, n), held + multiset{n})
  {
    var r := Queue(s, n);
    forall d ensures Count(r, d) == (held + multiset{n})[d] + RefsTo(r.table, d) {
      UpdateRefs(s, n, r.table[n], d);
      assert Count(s, n) == (held + multiset(s.table[n].deps))[n] + RefsTo(s.table, n);
    }
  }

  lemma AboveTwice(s: Store, t: Store, s1: Store, r: Store, rank: Name -> nat, low: nat, high: nat)
    requires AboveKept(s, t, rank, low) && AboveKept(s1, r, rank, high) && low <= high
    requires s.table.Keys <= t.table.Keys == s1.table.Keys <= r.table.Keys
    requires forall m :: m in t.table ==> s1.table[m].count == t.table[m].count
    ensures AboveKept(s, r, rank, high)
  {
  }

  lemma EnterAbove(s: Store, n: Name, r: Store, rank: Name -> nat)
    requires n !in s.table && n in r.table && AboveKept(Enter(s, n), r, rank, rank(n))
    ensures AboveKept(s, Queue(r, n), rank, rank(n) + 1)
  {
  }

  lemma {:induction false} LoadAbove(w: World, rank: Name -> nat, s: Store, n: Name)
    requires RankOk(w, rank) && Load(w, s, n).ok
    ensures AboveKept(s, Load(w, s, n).s, rank, rank(n) + 1)
    decreases w.files.Keys - s.table.Keys, 0
  {
    if n !in s.table {
      var s1 := Enter(s, n);
      LoadAllAbove(w, rank, s1, n, w.files[n].needed);
      EnterAbove(s, n, LoadAll(w, s1, n, w.files[n].needed).s, rank);
    }
  }

  lemma {:induction false} LoadAllAbove(w: World, rank: Name -> nat, s: Store, me: Name, needed: seq<Name>)
    requires RankOk(w, rank) && me in s.table && LoadAll(w, s, me, needed).ok
    requires forall i :: 0 <= i < |needed| ==> rank(needed[i]) < rank(me)
    ensures AboveKept(s, LoadAll(w, s, me, needed).s, rank, rank(me))
    decreases w.files.Keys - s.table.Keys, 1, |needed|
  {
    if needed != [] {
      var t := Load(w, s, needed[0]).s;
      var s1 := AddDep(t, me, needed[0]);
      assert w.files.Keys - t.table.Keys <= w.files.Keys - s.table.Keys;
      LoadAbove(w, rank, s, needed[0]);
      LoadAllAbove(w, rank, s1, me, needed[1..]);
      AboveTwice(s, t, s1, LoadAll(w, s1, me, needed[1..]).s, rank, rank(needed[0]) + 1, rank(me));
    }
  }

  lemma {:induction false} LoadBalanced(w: World, rank: Name -> nat, s: Store, n: Name, held: multiset<Name>)
    requires RankOk(w, rank) && Balanced(s, held) && ReadingAbove(s, rank, rank(n) + 1) && Load(w, s, n).ok
    ensures Balanced(Load(w, s, n).s, held + multiset{n})
    decreases w.files.Keys - s.table.Keys, 0
  {
    if n in s.table {
      TakeBalanced(s, n, held);
    } else {
      var s1 := Enter(s, n);
      var needed := w.files[n].needed;
      var r := LoadAll(w, s1, n, needed).s;
      EnterBalanced(s, n, held);
      LoadAllBalanced(w, rank, s1, n, needed, held);
      assert r.table[n].count == 0 by { LoadAllAbove(w, rank, s1, n, needed); }
      assert r.table[n].deps == needed by { LoadAllGrows(w, s1, n, needed); }
      QueueBalanced(r, n, held);
    }
  }

  lemma {:induction false} LoadAllBalanced(w: World, rank: Name -> nat, s: Store, me: Name, needed: seq<Name>, held: multiset<Name>)
    requires RankOk(w, rank) && Balanced(s, held) && me in s.table && s.table[me].count == 0
    requires ReadingAbove(s, rank, rank(me)) && LoadAll(w, s, me, needed).ok
    requires forall i :: 0 <= i < |needed| ==> rank(needed[i]) < rank(me)
    ensures Balanced(LoadAll(w, s, me, needed).s, held + multiset(needed))
    decreases w.files.Keys - s.table.Keys, 1, |needed|
  {
    if needed == [] {
      assert held + multiset(needed) == held;
    } else {
      var n := needed[0];
      var t := Load(w, s, n).s;
      var s1 := AddDep(t, me, n);
      assert w.files.Keys - t.table.Keys <= w.files.Keys - s.table.Keys;
      LoadBalanced(w, rank, s, n, held);
      LoadAbove(w, rank, s, n);
      AddDepBalanced(t, me, n, held + multiset{n});
      LoadAllBalanced(w, rank, s1, me, needed[1..], held + multiset{n});
      assert needed == [n] + needed[1..];
      assert held + multiset{n} + multiset(needed[1..]) == held + multiset(needed);
    }
  }
}
