/**
  What one load does, on every dependency graph: each new module is queued
  exactly once, the new modules are the least set that the request needs, and
  the load succeeds exactly when that set can be had.
  */
module DlLoad {
  import opened Common
  import opened DlStore

  function New(s: Store, r: Store): seq<Name> {
    if |s.queue| <= |r.queue| then r.queue[|s.queue|..] else []
  }

  ghost predicate Distinct(q: seq<Name>) {
    forall i, j :: 0 <= i < j < |q| ==> q[i] != q[j]
  }

  /** What was there stays, with its dependencies; only the module `me`, still being read, may gain some. */
  ghost predicate OldKept(s: Store, r: Store, me: Option<Name>) {
    && s.table.Keys <= r.table.Keys
    && forall n :: n in s.table && Some(n) != me ==> r.table[n].deps == s.table[n].deps
  }

  /** The queue grows by modules that were not in the table, each once, with all their dependencies. */
  ghost predicate NewQueued(w: World, s: Store, r: Store) {
    var added := New(s, r);
    && s.queue <= r.queue
    && Distinct(added)
    && (forall n :: n in r.table <==> n in s.table || n in added)
    && (forall n :: n in added ==> n !in s.table && n in w.files && n in r.table && r.table[n].deps == w.files[n].needed)
  }

  ghost predicate Grown(w: World, s: Store, r: Store, me: Option<Name>) {
    OldKept(s, r, me) && NewQueued(w, s, r)
  }

  lemma NewTwice(s: Store, t: Store, r: Store)
    requires s.queue <= t.queue <= r.queue
    ensures New(s, r) == New(s, t) + New(t, r)
  {
  }

  lemma DistinctAppend(a: seq<Name>, b: seq<Name>)
    requires Distinct(a) && Distinct(b) && forall n :: n in a ==> n !in b
    ensures Distinct(a + b)
  {
    forall i, j | 0 <= i < j < |a + b| ensures (a + b)[i] != (a + b)[j] {
      if i < |a| <= j {
        assert a[i] in a && b[j - |a|] in b;
      }
    }
  }

  lemma GrownTwice(w: World, s: Store, t: Store, r: Store, me: Option<Name>)
    requires Grown(w, s, t, None) && Grown(w, t, r, me) && (me.Some? ==> me.value in s.table)
    ensures Grown(w, s, r, me) && New(s, r) == New(s, t) + New(t, r)
  {
    NewTwice(s, t, r);
    DistinctAppend(New(s, t), New(t, r));
    forall n ensures n in New(s, r) <==> n in New(s, t) || n in New(t, r) {
    }
    forall n | n in New(s, t) ensures me != Some(n) ==> r.table[n].deps == t.table[n].deps {
    }
  }

  lemma EnterQueued(w: World, s: Store, n: Name, r: Store)
    requires n !in s.table && n in w.files && Grown(w, Enter(s, n), r, Some(n)) && r.table[n].deps == w.files[n].needed
    ensures Grown(w, s, Queue(r, n), None) && New(s, Queue(r, n)) == New(Enter(s, n), r) + [n]
  {
    var q := New(Enter(s, n), r);
    assert New(s, Queue(r, n)) == q + [n];
    DistinctAppend(q, [n]);
    forall m ensures m in q + [n] <==> m in q || m == n {
    }
  }

  lemma EnterFreed(w: World, s: Store, n: Name, r: Store)
    requires n !in s.table && Grown(w, Enter(s, n), r, Some(n))
    ensures Grown(w, s, Free(r, n), None)
  {
    assert New(s, Free(r, n)) == New(Enter(s, n), r);
  }

  lemma {:induction false} LoadGrows(w: World, s: Store, n: Name)
    ensures Grown(w, s, Load(w, s, n).s, None)
    decreases w.files.Keys - s.table.Keys, 0
  {
    if n !in s.table && n in w.files {
      var r := LoadAll(w, Enter(s, n), n, w.files[n].needed);
      LoadAllGrows(w, Enter(s, n), n, w.files[n].needed);
      if r.ok { EnterQueued(w, s, n, r.s); } else { EnterFreed(w, s, n, r.s); }
    }
  }

  lemma {:induction false} LoadAllGrows(w: World, s: Store, me: Name, needed: seq<Name>)
    requires me in s.table
    ensures Grown(w, s, LoadAll(w, s, me, needed).s, Some(me))
    ensures LoadAll(w, s, me, needed).ok ==> LoadAll(w, s, me, needed).s.table[me].deps == s.table[me].deps + needed
    decreases w.files.Keys - s.table.Keys, 1, |needed|
  {
    if needed == [] {
      NothingGrown(w, s, Some(me));
    } else {
      var r := Load(w, s, needed[0]);
      LoadGrows(w, s, needed[0]);
      if r.ok {
        var s1 := AddDep(r.s, me, needed[0]);
        assert w.files.Keys - r.s.table.Keys <= w.files.Keys - s.table.Keys;
        LoadAllGrows(w, s1, me, needed[1..]);
        AddDepGrown(w, s, r.s, me, needed[0], LoadAll(w, s1, me, needed[1..]).s);
        DepsGrown(s, r.s, me, needed);
      } else {
        assert Grown(w, s, r.s, Some(me));
      }
    }
  }

  lemma NothingGrown(w: World, s: Store, me: Option<Name>)
    ensures Grown(w, s, s, me)
  {
    assert New(s, s) == [];
  }

  lemma DepsGrown(s: Store, t: Store, me: Name, needed: seq<Name>)
    requires me in s.table && OldKept(s, t, None) && needed != []
    ensures AddDep(t, me, needed[0]).table[me].deps + needed[1..] == s.table[me].deps + needed
  {
    assert needed == [needed[0]] + needed[1..];
  }

  lemma AddDepGrown(w: World, s: Store, t: Store, me: Name, d: Name, r: Store)
    requires me in s.table && Grown(w, s, t, None) && Grown(w, AddDep(t, me, d), r, Some(me))
    ensures Grown(w, s, r, Some(me)) && New(s, r) == New(s, t) + New(AddDep(t, me, d), r)
  {
    assert New(AddDep(t, me, d), r) == New(t, r);
    assert Grown(w, t, r, Some(me));
    GrownTwice(w, s, t, r, Some(me));
  }

  lemma LoadAllSplit(w: World, s: Store, me: Name, needed: seq<Name>)
    requires me in s.table && needed != [] && Load(w, s, needed[0]).ok
    ensures var t := Load(w, s, needed[0]).s;
            New(s, LoadAll(w, s, me, needed).s) == New(s, t) + New(AddDep(t, me, needed[0]), LoadAll(w, s, me, needed).s)
  {
    var t := Load(w, s, needed[0]).s;
    LoadGrows(w, s, needed[0]);
    LoadAllGrows(w, AddDep(t, me, needed[0]), me, needed[1..]);
    AddDepGrown(w, s, t, me, needed[0], LoadAll(w, s, me, needed).s);
  }

  // ----- which modules, and when it succeeds -----

  /** A set that a load can complete: each name is loaded already, or its file is there and what it needs is in the set. */
  ghost predicate Closed(w: World, live: set<Name>, c: set<Name>) {
    forall n :: n in c ==> n in live || (n in w.files && forall i :: 0 <= i < |w.files[n].needed| ==> w.files[n].needed[i] in c)
  }

  ghost predicate NeededIn(w: World, n: Name, c: set<Name>) {
    n in w.files && forall i :: 0 <= i < |w.files[n].needed| ==> w.files[n].needed[i] in c
  }

  ghost predicate NewSupplied(w: World, s: Store, r: Store) {
    forall n :: n in New(s, r) ==> NeededIn(w, n, r.table.Keys)
  }

  lemma EnterSupplied(w: World, s: Store, n: Name, r: Store)
    requires n in r.table && s.queue <= r.queue && NewSupplied(w, Enter(s, n), r) && NeededIn(w, n, r.table.Keys)
    ensures NewSupplied(w, s, Queue(r, n))
  {
    assert New(s, Queue(r, n)) == New(Enter(s, n), r) + [n];
    assert Queue(r, n).table.Keys == r.table.Keys;
  }

  lemma {:induction false} LoadSupplies(w: World, s: Store, n: Name)
    requires Load(w, s, n).ok
    ensures NewSupplied(w, s, Load(w, s, n).s)
    decreases w.files.Keys - s.table.Keys, 0
  {
    if n !in s.table {
      var s1 := Enter(s, n);
      var needed := w.files[n].needed;
      var r := LoadAll(w, s1, n, needed).s;
      LoadAllGrows(w, s1, n, needed);
      LoadAllSupplies(w, s1, n, needed);
      EnterSupplied(w, s, n, r);
    }
  }

  lemma SuppliedTwice(w: World, s: Store, t: Store, s1: Store, r: Store)
    requires NewSupplied(w, s, t) && NewSupplied(w, s1, r) && t.table.Keys <= r.table.Keys
    requires New(s, r) == New(s, t) + New(s1, r)
    ensures NewSupplied(w, s, r)
  {
    forall n | n in New(s, r) ensures NeededIn(w, n, r.table.Keys) {
      if n in New(s, t) {
        assert NeededIn(w, n, t.table.Keys);
      }
    }
  }

  lemma {:induction false} LoadAllSupplies(w: World, s: Store, me: Name, needed: seq<Name>)
    requires me in s.table && LoadAll(w, s, me, needed).ok
    ensures NewSupplied(w, s, LoadAll(w, s, me, needed).s)
    ensures forall i :: 0 <= i < |needed| ==> needed[i] in LoadAll(w, s, me, needed).s.table
    decreases w.files.Keys - s.table.Keys, 1, |needed|
  {
    if needed != [] {
      var t := Load(w, s, needed[0]).s;
      var s1 := AddDep(t, me, needed[0]);
      var r := LoadAll(w, s1, me, needed[1..]).s;
      assert w.files.Keys - t.table.Keys <= w.files.Keys - s.table.Keys;
      LoadAllSplit(w, s, me, needed);
      LoadSupplies(w, s, needed[0]);
      LoadAllSupplies(w, s1, me, needed[1..]);
      SuppliedTwice(w, s, t, s1, r);
      forall i | 0 <= i < |needed| ensures needed[i] in r.table {
        if i > 0 { assert needed[i] == needed[1..][i - 1]; }
      }
    }
  }

  lemma {:induction false} LoadWithin(w: World, s: Store, n: Name, c: set<Name>)
    requires Closed(w, s.table.Keys, c) && n in c
    ensures Load(w, s, n).ok
    ensures forall m :: m in New(s, Load(w, s, n).s) ==> m in c
    decreases w.files.Keys - s.table.Keys, 0
  {
    if n !in s.table {
      var s1 := Enter(s, n);
      var needed := w.files[n].needed;
      LoadAllGrows(w, s1, n, needed);
      LoadAllWithin(w, s1, n, needed, c);
      EnterQueued(w, s, n, LoadAll(w, s1, n, needed).s);
    }
  }

  lemma {:induction false} LoadAllWithin(w: World, s: Store, me: Name, needed: seq<Name>, c: set<Name>)
    requires me in s.table && Closed(w, s.table.Keys, c) && forall i :: 0 <= i < |needed| ==> needed[i] in c
    ensures LoadAll(w, s, me, needed).ok
    ensures forall m :: m in New(s, LoadAll(w, s, me, needed).s) ==> m in c
    decreases w.files.Keys - s.table.Keys, 1, |needed|
  {
    if needed != [] {
      var t := Load(w, s, needed[0]).s;
      var s1 := AddDep(t, me, needed[0]);
      assert w.files.Keys - t.table.Keys <= w.files.Keys - s.table.Keys;
      LoadWithin(w, s, needed[0], c);
      LoadAllWithin(w, s1, me, needed[1..], c);
      LoadAllSplit(w, s, me, needed);
    }
  }

  /** A load succeeds exactly when some set of names that contains the request can be completed. */
  lemma LoadSucceeds(w: World, s: Store, n: Name)
    ensures Load(w, s, n).ok <==> exists c :: Closed(w, s.table.Keys, c) && n in c
  {
    var r := Load(w, s, n);
    if r.ok {
      LoadGrows(w, s, n);
      LoadSupplies(w, s, n);
      var c := r.s.table.Keys;
      forall m | m in c
        ensures m in s.table || (m in w.files && forall i :: 0 <= i < |w.files[m].needed| ==> w.files[m].needed[i] in c)
      {
        if m !in s.table { assert NeededIn(w, m, c); }
      }
      assert Closed(w, s.table.Keys, c) && n in c;
    }
    forall c | Closed(w, s.table.Keys, c) && n in c ensures r.ok {
      LoadWithin(w, s, n, c);
    }
  }

  // ----- what files need -----

  /** References to `v` from the files of `q`. */
  function RefsFrom(w: World, q: seq<Name>, v: Name): nat {
    if q == [] then 0
    else (if q[0] in w.files then multiset(w.files[q[0]].needed)[v] else 0) + RefsFrom(w, q[1..], v)
  }

  lemma {:induction false} RefsFromAppend(w: World, q: seq<Name>, n: Name, v: Name)
    requires n in w.files
    ensures RefsFrom(w, q + [n], v) == RefsFrom(w, q, v) + multiset(w.files[n].needed)[v]
    decreases q
  {
    if q == [] {
      assert q + [n] == [n];
      assert RefsFrom(w, [n][1..], v) == 0;
    } else {
      assert (q + [n])[1..] == q[1..] + [n];
      RefsFromAppend(w, q[1..], n, v);
    }
  }

  lemma {:induction false} RefsFromSplit(w: World, a: seq<Name>, b: seq<Name>, v: Name)
    ensures RefsFrom(w, a + b, v) == RefsFrom(w, a, v) + RefsFrom(w, b, v)
    decreases a
  {
    if a == [] {
      assert a + b == b;
    } else {
      assert (a + b)[1..] == a[1..] + b;
      RefsFromSplit(w, a[1..], b, v);
    }
  }

  lemma {:induction false} RefsFromCovers(w: World, q: seq<Name>, k: nat, v: Name)
    requires k < |q| && q[k] in w.files && v in w.files[q[k]].needed
    ensures RefsFrom(w, q, v) > 0
    decreases q
  {
    if k > 0 { RefsFromCovers(w, q[1..], k - 1, v); }
  }

  // ----- the order, when no library needs itself -----

  /** Whatever a new module needs was there before, or is earlier in the queue. */
  ghost predicate Ordered(w: World, s: Store, r: Store) {
    forall i :: 0 <= i < |New(s, r)| ==> Preceded(w, s.table.Keys, New(s, r), i)
  }

  ghost predicate Preceded(w: World, live: set<Name>, q: seq<Name>, i: nat)
    requires i < |q|
  {
    q[i] in w.files && forall j :: 0 <= j < |w.files[q[i]].needed| ==> w.files[q[i]].needed[j] in live || w.files[q[i]].needed[j] in q[..i]
  }

  ghost predicate Below(rank: Name -> nat, s: Store, r: Store, bound: nat) {
    forall m :: m in New(s, r) ==> rank(m) < bound
  }

  lemma OrderedTwice(w: World, s: Store, t: Store, s1: Store, r: Store)
    requires Grown(w, s, t, None) && s1.table.Keys == t.table.Keys
    requires New(s, r) == New(s, t) + New(s1, r)
    requires Ordered(w, s, t) && Ordered(w, s1, r)
    ensures Ordered(w, s, r)
  {
    var a, b := New(s, t), New(s1, r);
    forall i | 0 <= i < |a + b| ensures Preceded(w, s.table.Keys, a + b, i) {
      if i < |a| {
        assert Preceded(w, s.table.Keys, a, i);
        assert (a + b)[..i] == a[..i];
      } else {
        assert Preceded(w, s1.table.Keys, b, i - |a|);
        assert (a + b)[..i] == a + b[..i - |a|];
      }
    }
  }

  lemma EnterOrdered(w: World, rank: Name -> nat, s: Store, n: Name, r: Store)
    requires RankOk(w, rank) && n !in s.table && n in w.files && Grown(w, Enter(s, n), r, Some(n))
    requires Ordered(w, Enter(s, n), r) && Below(rank, Enter(s, n), r, rank(n)) && NeededIn(w, n, r.table.Keys)
    requires New(s, Queue(r, n)) == New(Enter(s, n), r) + [n]
    ensures Ordered(w, s, Queue(r, n))
  {
    var q := New(Enter(s, n), r);
    forall i | 0 <= i < |q + [n]| ensures Preceded(w, s.table.Keys, q + [n], i) {
      if i < |q| {
        assert Preceded(w, Enter(s, n).table.Keys, q, i);
        assert (q + [n])[..i] == q[..i];
        assert q[i] in q;
      } else {
        assert (q + [n])[..i] == q;
        forall j | 0 <= j < |w.files[n].needed| ensures w.files[n].needed[j] in s.table || w.files[n].needed[j] in q {
          assert w.files[n].needed[j] in r.table && rank(w.files[n].needed[j]) < rank(n);
        }
      }
    }
  }

  /** On acyclic dependencies a load queues dependencies first. */
  lemma {:induction false} LoadOrdered(w: World, rank: Name -> nat, s: Store, n: Name)
    requires RankOk(w, rank) && Load(w, s, n).ok
    ensures Ordered(w, s, Load(w, s, n).s) && Below(rank, s, Load(w, s, n).s, rank(n) + 1)
    decreases w.files.Keys - s.table.Keys, 0
  {
    if n !in s.table {
      var s1 := Enter(s, n);
      var needed := w.files[n].needed;
      var r := LoadAll(w, s1, n, needed).s;
      LoadAllGrows(w, s1, n, needed);
      LoadAllSupplies(w, s1, n, needed);
      LoadAllOrdered(w, rank, s1, n, needed, rank(n));
      EnterQueued(w, s, n, r);
      EnterOrdered(w, rank, s, n, r);
    }
  }

  lemma {:induction false} LoadAllOrdered(w: World, rank: Name -> nat, s: Store, me: Name, needed: seq<Name>, bound: nat)
    requires RankOk(w, rank) && me in s.table && LoadAll(w, s, me, needed).ok
    requires forall i :: 0 <= i < |needed| ==> rank(needed[i]) < bound
    ensures Ordered(w, s, LoadAll(w, s, me, needed).s) && Below(rank, s, LoadAll(w, s, me, needed).s, bound)
    decreases w.files.Keys - s.table.Keys, 1, |needed|
  {
    if needed != [] {
      var t := Load(w, s, needed[0]).s;
      var s1 := AddDep(t, me, needed[0]);
      var r := LoadAll(w, s1, me, needed[1..]).s;
      assert w.files.Keys - t.table.Keys <= w.files.Keys - s.table.Keys;
      LoadGrows(w, s, needed[0]);
      LoadOrdered(w, rank, s, needed[0]);
      LoadAllOrdered(w, rank, s1, me, needed[1..], bound);
      LoadAllSplit(w, s, me, needed);
      OrderedTwice(w, s, t, s1, r);
    }
  }
}
