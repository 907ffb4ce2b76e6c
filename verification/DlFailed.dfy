/**
  What a failed open costs. The modules it brought in are freed, but the
  references it took to modules that were loaded before are not given back.
  */
module DlFailed {
  import opened DlStore
  import opened DlLoad
  import opened DlOpen

  /** The names that dl_carica finds loaded during a load, in order; each has its count raised. */
  function Asked(w: World, s: Store, n: Name): seq<Name>
    decreases w.files.Keys - s.table.Keys, 0
  {
    if n in s.table then [n]
    else if n !in w.files then []
    else AskedAll(w, Enter(s, n), n, w.files[n].needed)
  }

  function AskedAll(w: World, s: Store, me: Name, needed: seq<Name>): seq<Name>
    requires me in s.table
    decreases w.files.Keys - s.table.Keys, 1, |needed|
  {
    if needed == [] then []
    else
      var r := Load(w, s, needed[0]);
      if !r.ok then Asked(w, s, needed[0])
      else
        assert w.files.Keys - r.s.table.Keys <= w.files.Keys - s.table.Keys;
        Asked(w, s, needed[0]) + AskedAll(w, AddDep(r.s, me, needed[0]), me, needed[1..])
  }

  /** Those of `q` that are in `ns`. */
  function Those(q: seq<Name>, ns: set<Name>): multiset<Name> {
    if q == [] then multiset{} else (if q[0] in ns then multiset{q[0]} else multiset{}) + Those(q[1..], ns)
  }

  lemma {:induction false} ThoseCount(q: seq<Name>, ns: set<Name>, m: Name)
    ensures Those(q, ns)[m] == if m in ns then multiset(q)[m] else 0
    decreases q
  {
    if q != [] {
      ThoseCount(q[1..], ns, m);
      assert q == [q[0]] + q[1..];
    }
  }

  /** What a failed open of `n` leaves behind: references to modules that were loaded before. */
  function Lost(w: World, s: Store, n: Name): multiset<Name> {
    Those(Asked(w, s, n), s.table.Keys)
  }

  lemma LostOnlyLoaded(w: World, s: Store, n: Name, m: Name)
    requires m !in s.table
    ensures Lost(w, s, n)[m] == 0
  {
    ThoseCount(Asked(w, s, n), s.table.Keys, m);
  }

  // ----- the counts of what was loaded before -----

  lemma {:induction false} LoadTakes(w: World, s: Store, n: Name, m: Name)
    requires m in s.table
    ensures m in Load(w, s, n).s.table
    ensures Load(w, s, n).s.table[m].count == s.table[m].count + multiset(Asked(w, s, n))[m]
    decreases w.files.Keys - s.table.Keys, 0
  {
    if n !in s.table && n in w.files {
      var s1 := Enter(s, n);
      assert n in w.files.Keys - s.table.Keys && n !in w.files.Keys - s1.table.Keys;
      LoadAllTakes(w, s1, n, w.files[n].needed, m);
    }
  }

  lemma {:induction false} LoadAllTakes(w: World, s: Store, me: Name, needed: seq<Name>, m: Name)
    requires me in s.table && m in s.table
    ensures m in LoadAll(w, s, me, needed).s.table
    ensures LoadAll(w, s, me, needed).s.table[m].count == s.table[m].count + multiset(AskedAll(w, s, me, needed))[m]
    decreases w.files.Keys - s.table.Keys, 1, |needed|
  {
    if needed != [] {
      var r := Load(w, s, needed[0]);
      LoadTakes(w, s, needed[0], m);
      if r.ok {
        assert w.files.Keys - r.s.table.Keys <= w.files.Keys - s.table.Keys;
        LoadAllTakes(w, AddDep(r.s, me, needed[0]), me, needed[1..], m);
      }
    }
  }

  /** On every dependency graph and for every way to fail: exactly how far each count is raised. */
  lemma FailedCount(w: World, s: Store, n: Name, m: Name)
    requires !Open(w, s, n).ok && m in s.table
    ensures m in Open(w, s, n).s.table
    ensures Open(w, s, n).s.table[m].count == s.table[m].count + Lost(w, s, n)[m]
  {
    OpenFailed(w, s, n);
    LoadTakes(w, s, n, m);
    ThoseCount(Asked(w, s, n), s.table.Keys, m);
  }

  /** The load meets no module that was loaded before. */
  predicate MeetsNone(w: World, s: Store, n: Name) {
    forall m :: m in Asked(w, s, n) ==> m !in s.table
  }

  /** A failed open leaves the table as it was if and only if it met no module that was loaded before. */
  lemma NothingLostIff(w: World, s: Store, n: Name)
    requires !Open(w, s, n).ok
    ensures Open(w, s, n).s.table == s.table <==> MeetsNone(w, s, n)
  {
    var r, q := Open(w, s, n).s, Asked(w, s, n);
    OpenFailed(w, s, n);
    if MeetsNone(w, s, n) {
      forall m | m in s.table ensures r.table[m] == s.table[m] {
        FailedCount(w, s, n, m);
        ThoseCount(q, s.table.Keys, m);
        assert m !in q;
      }
      assert r.table == s.table;
    } else {
      var m :| m in q && m in s.table;
      FailedCount(w, s, n, m);
      ThoseCount(q, s.table.Keys, m);
      assert m in multiset(q);
      assert r.table[m].count > s.table[m].count;
    }
  }

  // ----- when the load succeeded -----

  lemma {:induction false} AskedByNew(w: World, s: Store, n: Name, m: Name)
    requires m in s.table && Load(w, s, n).ok
    ensures multiset(Asked(w, s, n))[m] == RefsFrom(w, New(s, Load(w, s, n).s), m) + if n == m then 1 else 0
    decreases w.files.Keys - s.table.Keys, 0
  {
    if n in s.table {
      assert New(s, Load(w, s, n).s) == [];
    } else {
      var s1 := Enter(s, n);
      var needed := w.files[n].needed;
      var r := LoadAll(w, s1, n, needed).s;
      LoadAllGrows(w, s1, n, needed);
      AllAskedByNew(w, s1, n, needed, m);
      EnterQueued(w, s, n, r);
      RefsFromAppend(w, New(s1, r), n, m);
    }
  }

  lemma {:induction false} AllAskedByNew(w: World, s: Store, me: Name, needed: seq<Name>, m: Name)
    requires me in s.table && m in s.table && LoadAll(w, s, me, needed).ok
    ensures multiset(AskedAll(w, s, me, needed))[m] == RefsFrom(w, New(s, LoadAll(w, s, me, needed).s), m) + multiset(needed)[m]
    decreases w.files.Keys - s.table.Keys, 1, |needed|
  {
    if needed == [] {
      assert New(s, s) == [];
    } else {
      var n := needed[0];
      var t := Load(w, s, n).s;
      var s1 := AddDep(t, me, n);
      assert w.files.Keys - t.table.Keys <= w.files.Keys - s.table.Keys;
      AskedByNew(w, s, n, m);
      AllAskedByNew(w, s1, me, needed[1..], m);
      LoadAllSplit(w, s, me, needed);
      RefsFromSplit(w, New(s, t), New(s1, LoadAll(w, s1, me, needed[1..]).s), m);
      assert needed == [n] + needed[1..];
    }
  }

  /** If only a relocation failed, what is lost are the references of the new modules to the old ones. */
  lemma RelocationLoses(w: World, s: Store, n: Name, m: Name)
    requires Load(w, s, n).ok && !Open(w, s, n).ok && m in s.table
    ensures m in Open(w, s, n).s.table
    ensures Open(w, s, n).s.table[m].count == s.table[m].count + RefsFrom(w, New(s, Load(w, s, n).s), m)
  {
    FailedCount(w, s, n, m);
    ThoseCount(Asked(w, s, n), s.table.Keys, m);
    AskedByNew(w, s, n, m);
  }
}
