/**
  Dependencies with a cycle. The end of a load sets the count of a module to
  1 and forgets the references taken while it was being read, so the counts
  are exact if and only if the modules loaded have no cycle; and a close that
  meets a cycle whose counts are used up never returns.
  */
module DlCycles {
  import opened Common
  import opened DlStore
  import opened DlLoad
  import opened DlCount

  // ----- the counts after a load, on every graph -----

  /** A queued module counts the references held to it, and those of modules queued after it. */
  ghost predicate CountsAt(w: World, s: Store, held: multiset<Name>, k: nat)
    requires k < |s.queue|
  {
    var v := s.queue[k];
    v in s.table && s.table[v].count > 0 && s.table[v].count == held[v] + RefsFrom(w, s.queue[k + 1..], v)
  }

  ghost predicate QueueCounts(w: World, s: Store, held: multiset<Name>) {
    && (forall v :: v in held ==> v in s.table)
    && forall k {:trigger CountsAt(w, s, held, k)} :: 0 <= k < |s.queue| ==> CountsAt(w, s, held, k)
  }

  lemma TakeCounts(w: World, s: Store, n: Name, held: multiset<Name>)
    requires n in s.table && QueueCounts(w, s, held)
    ensures QueueCounts(w, SetCount(s, n, s.table[n].count + 1), held + multiset{n})
  {
    var r := SetCount(s, n, s.table[n].count + 1);
    forall k | 0 <= k < |r.queue| ensures CountsAt(w, r, held + multiset{n}, k) {
      assert CountsAt(w, s, held, k);
    }
  }

  lemma SameCounts(w: World, s: Store, r: Store, held: multiset<Name>)
    requires QueueCounts(w, s, held) && r.queue == s.queue && s.table.Keys <= r.table.Keys
    requires forall m :: m in s.table ==> r.table[m].count == s.table[m].count
    ensures QueueCounts(w, r, held)
  {
    forall k | 0 <= k < |r.queue| ensures CountsAt(w, r, held, k) {
      assert CountsAt(w, s, held, k);
    }
  }

  lemma QueueOne(w: World, s: Store, n: Name, held: multiset<Name>)
    requires n in s.table && n !in s.queue && n in w.files && held[n] == 0
    requires QueueCounts(w, s, held + multiset(w.files[n].needed)) && forall v :: v in held ==> v in s.table
    ensures QueueCounts(w, Queue(s, n), held + multiset{n})
  {
    var r := Queue(s, n);
    forall k | 0 <= k < |r.queue| ensures CountsAt(w, r, held + multiset{n}, k) {
      if k < |s.queue| {
        var v := s.queue[k];
        assert CountsAt(w, s, held + multiset(w.files[n].needed), k);
        assert r.queue[k] == v && v != n;
        assert r.queue[k + 1..] == s.queue[k + 1..] + [n];
        RefsFromAppend(w, s.queue[k + 1..], n, v);
      } else {
        assert r.queue[k + 1..] == [];
      }
    }
  }

  lemma EnterCounts(w: World, s: Store, n: Name, held: multiset<Name>)
    requires n !in s.table && QueueCounts(w, s, held)
    ensures QueueCounts(w, Enter(s, n), held) && held[n] == 0 && n !in s.queue
  {
    SameCounts(w, s, Enter(s, n), held);
    forall k | 0 <= k < |s.queue| ensures s.queue[k] in s.table {
      assert CountsAt(w, s, held, k);
    }
  }

  lemma NotQueued(w: World, s: Store, n: Name)
    requires n !in s.table && n in w.files && n !in s.queue
    ensures n !in LoadAll(w, Enter(s, n), n, w.files[n].needed).s.queue
  {
    var r := LoadAll(w, Enter(s, n), n, w.files[n].needed).s;
    LoadAllGrows(w, Enter(s, n), n, w.files[n].needed);
    assert r.queue == s.queue + New(Enter(s, n), r);
  }

  lemma {:induction false} LoadQueueCounts(w: World, s: Store, n: Name, held: multiset<Name>)
    requires QueueCounts(w, s, held) && Distinct(s.queue) && Load(w, s, n).ok
    ensures QueueCounts(w, Load(w, s, n).s, held + multiset{n}) && Distinct(Load(w, s, n).s.queue)
    decreases w.files.Keys - s.table.Keys, 0
  {
    if n in s.table {
      TakeCounts(w, s, n, held);
    } else {
      var s1 := Enter(s, n);
      var needed := w.files[n].needed;
      var r := LoadAll(w, s1, n, needed).s;
      EnterCounts(w, s, n, held);
      LoadAllQueueCounts(w, s1, n, needed, held);
      NotQueued(w, s, n);
      QueueOne(w, r, n, held);
      DistinctAppend(r.queue, [n]);
    }
  }

  lemma {:induction false} LoadAllQueueCounts(w: World, s: Store, me: Name, needed: seq<Name>, held: multiset<Name>)
    requires me in s.table && QueueCounts(w, s, held) && Distinct(s.queue) && me !in s.queue && LoadAll(w, s, me, needed).ok
    ensures QueueCounts(w, LoadAll(w, s, me, needed).s, held + multiset(needed)) && Distinct(LoadAll(w, s, me, needed).s.queue)
    decreases w.files.Keys - s.table.Keys, 1, |needed|
  {
    if needed == [] {
      assert held + multiset(needed) == held;
    } else {
      var n := needed[0];
      var t := Load(w, s, n).s;
      var s1 := AddDep(t, me, n);
      assert w.files.Keys - t.table.Keys <= w.files.Keys - s.table.Keys;
      LoadQueueCounts(w, s, n, held);
      assert me !in t.queue by {
        LoadGrows(w, s, n);
        assert t.queue == s.queue + New(s, t);
      }
      SameCounts(w, t, s1, held + multiset{n});
      LoadAllQueueCounts(w, s1, me, needed[1..], held + multiset{n});
      assert needed == [n] + needed[1..];
      assert held + multiset{n} + multiset(needed[1..]) == held + multiset(needed);
    }
  }

  // ----- exact counts mean no cycle -----

  ghost predicate NoCycleIn(w: World, ns: set<Name>) {
    exists rank: Name -> nat :: RankIn(w, ns, rank)
  }

  ghost predicate RankIn(w: World, ns: set<Name>, rank: Name -> nat) {
    forall n, i :: n in ns && n in w.files && 0 <= i < |w.files[n].needed| ==> rank(w.files[n].needed[i]) < rank(n)
  }

  /** The files a load can touch are enough. */
  function Only(w: World, c: set<Name>): World {
    World(map n | n in w.files && n in c :: w.files[n], w.exports)
  }

  lemma {:induction false} LoadOnly(w: World, s: Store, n: Name, live: set<Name>, c: set<Name>)
    requires Closed(w, live, c) && live <= s.table.Keys && n in c
    ensures Load(Only(w, c - live), s, n) == Load(w, s, n)
    decreases w.files.Keys - s.table.Keys, 0
  {
    if n !in s.table {
      var s1 := Enter(s, n);
      assert n in w.files.Keys - s.table.Keys && n !in w.files.Keys - s1.table.Keys;
      LoadAllOnly(w, s1, n, w.files[n].needed, live, c);
    }
  }

  lemma {:induction false} LoadAllOnly(w: World, s: Store, me: Name, needed: seq<Name>, live: set<Name>, c: set<Name>)
    requires me in s.table && Closed(w, live, c) && live <= s.table.Keys && forall i :: 0 <= i < |needed| ==> needed[i] in c
    ensures LoadAll(Only(w, c - live), s, me, needed) == LoadAll(w, s, me, needed)
    decreases w.files.Keys - s.table.Keys, 1, |needed|
  {
    if needed != [] {
      LoadOnly(w, s, needed[0], live, c);
      var r := Load(w, s, needed[0]);
      if r.ok {
        assert w.files.Keys - r.s.table.Keys <= w.files.Keys - s.table.Keys;
        LoadAllOnly(w, AddDep(r.s, me, needed[0]), me, needed[1..], live, c);
      }
    }
  }

  const NOTHING: Store := Store(map[], [], [])

  /** The queue is exactly what is new, and all of it is complete. */
  ghost predicate NewIsQueue(w: World, s: Store, r: Store) {
    && Distinct(r.queue) && (forall m :: m in r.table <==> m in s.table || m in r.queue)
    && (forall m :: m in r.queue ==> m !in s.table && m in w.files && r.table[m].deps == w.files[m].needed)
    && (forall m :: m in s.table ==> r.table[m].deps == s.table[m].deps)
  }

  ghost predicate NeedsLoaded(s: Store, m: Name) {
    m in s.table ==> forall v :: v in s.table[m].deps ==> v in s.table
  }

  ghost predicate SelfContained(s: Store) {
    forall m {:trigger NeedsLoaded(s, m)} :: NeedsLoaded(s, m)
  }

  /** What is held is loaded, and what is loaded needs only what is loaded. */
  lemma HeldLoaded(w: World, s: Store, held: multiset<Name>)
    requires Complete(w, s) && Balanced(s, held)
    ensures forall v :: v in held ==> v in s.table
    ensures SelfContained(s)
  {
    forall v | v in held ensures v in s.table {
      assert Count(s, v) == held[v] + RefsTo(s.table, v);
    }
    forall m ensures NeedsLoaded(s, m) {
      forall v | m in s.table && v in s.table[m].deps ensures v in s.table {
        RefsSplit(s.table, m, v);
        assert Count(s, v) == held[v] + RefsTo(s.table, v);
      }
    }
  }

  lemma AfterLoad(w: World, s: Store, n: Name, held: multiset<Name>)
    requires Complete(w, s) && Balanced(s, held) && Load(w, s, n).ok
    ensures var r := Load(w, s, n).s; NewIsQueue(w, s, r) && QueueCounts(w, r, held + multiset{n})
  {
    HeldLoaded(w, s, held);
    LoadGrows(w, s, n);
    assert New(s, Load(w, s, n).s) == Load(w, s, n).s.queue;
    LoadQueueCounts(w, s, n, held);
  }

  /** What a load brings in, with what was there, is a set it can complete. */
  lemma LoadedClosed(w: World, s: Store, n: Name)
    requires Load(w, s, n).ok
    ensures Closed(w, s.table.Keys, Load(w, s, n).s.table.Keys)
  {
    var c := Load(w, s, n).s.table.Keys;
    LoadGrows(w, s, n);
    LoadSupplies(w, s, n);
    forall m | m in c
      ensures m in s.table || (m in w.files && forall i :: 0 <= i < |w.files[m].needed| ==> w.files[m].needed[i] in c)
    {
      if m !in s.table { assert NeededIn(w, m, c); }
    }
  }

  /** Summed over the table or over the queue, the references are the same. */
  lemma {:induction false} RefsAreQueued(w: World, t: map<Name, Module>, q: seq<Name>, ns: set<Name>, v: Name)
    requires Distinct(q) && (forall m :: m in ns <==> m in q) && ns <= t.Keys
    requires forall m :: m in ns ==> t[m].count > 0 && m in w.files && t[m].deps == w.files[m].needed
    ensures Refs(ns, t, v) == RefsFrom(w, q, v)
    decreases q
  {
    if q == [] {
      assert ns == {};
    } else {
      assert q[0] in ns;
      RefsWithout(ns, t, v, q[0]);
      forall m ensures m in ns - {q[0]} <==> m in q[1..] {
        if m in ns - {q[0]} {
          var k :| 0 <= k < |q| && q[k] == m;
          assert q[1..][k - 1] == m;
        }
      }
      RefsAreQueued(w, t, q[1..], ns - {q[0]}, v);
    }
  }

  /** Modules that hold nothing of `v` do not matter. */
  lemma {:induction false} RefsDrop(ns: set<Name>, more: set<Name>, t: map<Name, Module>, v: Name)
    requires ns + more <= t.Keys && ns !! more && forall m :: m in more ==> Holds(t[m], v) == 0
    ensures Refs(ns + more, t, v) == Refs(ns, t, v)
    decreases more
  {
    if more == {} {
      assert ns + more == ns;
    } else {
      var m := Pick(more);
      RefsWithout(ns + more, t, v, m);
      assert ns + more - {m} == ns + (more - {m});
      RefsDrop(ns, more - {m}, t, v);
    }
  }

  lemma QueuedCounted(w: World, r: Store, held: multiset<Name>, m: Name)
    requires QueueCounts(w, r, held) && m in r.queue
    ensures m in r.table && r.table[m].count > 0
  {
    var k :| 0 <= k < |r.queue| && r.queue[k] == m;
    assert CountsAt(w, r, held, k);
  }

  lemma RefsToQueued(w: World, s: Store, r: Store, held: multiset<Name>, k: nat)
    requires NewIsQueue(w, s, r) && QueueCounts(w, r, held) && k < |r.queue|
    requires SelfContained(s)
    ensures RefsTo(r.table, r.queue[k])
         == RefsFrom(w, r.queue[..k + 1], r.queue[k]) + RefsFrom(w, r.queue[k + 1..], r.queue[k])
  {
    var q, v := r.queue, r.queue[k];
    RefsAreNew(w, s, r, held, v);
    assert q == q[..k + 1] + q[k + 1..];
    RefsFromSplit(w, q[..k + 1], q[k + 1..], v);
  }

  /** Only new modules refer to a new module. */
  lemma RefsAreNew(w: World, s: Store, r: Store, held: multiset<Name>, v: Name)
    requires NewIsQueue(w, s, r) && QueueCounts(w, r, held) && v in r.queue && SelfContained(s)
    ensures RefsTo(r.table, v) == RefsFrom(w, r.queue, v)
  {
    var added := set m | m in r.queue;
    forall m | m in r.queue ensures r.table[m].count > 0 {
      QueuedCounted(w, r, held, m);
    }
    forall m | m in s.table.Keys ensures Holds(r.table[m], v) == 0 {
      assert NeedsLoaded(s, m);
    }
    assert r.table.Keys == added + s.table.Keys;
    RefsDrop(added, s.table.Keys, r.table, v);
    RefsAreQueued(w, r.table, r.queue, added, v);
  }

  /** If the counts are exact, a new module needs only modules queued before it. */
  lemma ExactOrdered(w: World, s: Store, r: Store, held: multiset<Name>, j: nat, k: nat)
    requires NewIsQueue(w, s, r) && QueueCounts(w, r, held) && Balanced(r, held) && j <= k < |r.queue|
    requires SelfContained(s)
    ensures r.queue[j] in w.files && r.queue[k] !in w.files[r.queue[j]].needed
  {
    var q, v := r.queue, r.queue[k];
    assert q[j] in r.queue;
    assert Count(r, v) == held[v] + RefsTo(r.table, v);
    assert CountsAt(w, r, held, k);
    RefsToQueued(w, s, r, held, k);
    if v in w.files[q[j]].needed {
      RefsFromCovers(w, q[..k + 1], j, v);
    }
  }

  function Position(q: seq<Name>, m: Name): nat {
    if q == [] || q[0] == m then 0 else 1 + Position(q[1..], m)
  }

  lemma {:induction false} PositionOf(q: seq<Name>, k: nat)
    requires Distinct(q) && k < |q|
    ensures Position(q, q[k]) == k
    decreases q
  {
    if k > 0 {
      assert q[1..][k - 1] == q[k];
      PositionOf(q[1..], k - 1);
    }
  }

  /** The place of a new module in the queue, from 1 on; 0 for others. */
  function PlaceIn(q: seq<Name>, m: Name): nat {
    if m in q then Position(q, m) + 1 else 0
  }

  lemma ExactBelow(w: World, s: Store, r: Store, held: multiset<Name>, m: Name, v: Name)
    requires NewIsQueue(w, s, r) && QueueCounts(w, r, held) && Balanced(r, held) && m in r.queue && v in w.files[m].needed
    requires SelfContained(s)
    ensures PlaceIn(r.queue, v) < PlaceIn(r.queue, m)
  {
    if v in r.queue {
      var j :| 0 <= j < |r.queue| && r.queue[j] == m;
      var k :| 0 <= k < |r.queue| && r.queue[k] == v;
      PositionOf(r.queue, j);
      PositionOf(r.queue, k);
      if j <= k { ExactOrdered(w, s, r, held, j, k); }
    }
  }

  /** The modules that a load brings in. */
  function Fresh(w: World, s: Store, n: Name): set<Name> {
    Load(w, s, n).s.table.Keys - s.table.Keys
  }

  lemma ExactRanked(w: World, s: Store, n: Name, held: multiset<Name>)
    requires Complete(w, s) && Balanced(s, held) && Load(w, s, n).ok
    requires Balanced(Load(w, s, n).s, held + multiset{n})
    ensures NoCycleIn(w, Fresh(w, s, n))
  {
    var r := Load(w, s, n).s;
    AfterLoad(w, s, n, held);
    HeldLoaded(w, s, held);
    QueueRanks(w, s, r, held + multiset{n}, Fresh(w, s, n));
  }

  lemma QueueRanks(w: World, s: Store, r: Store, held: multiset<Name>, ns: set<Name>)
    requires NewIsQueue(w, s, r) && QueueCounts(w, r, held) && Balanced(r, held) && SelfContained(s)
    requires forall m :: m in ns ==> m in r.queue
    ensures NoCycleIn(w, ns)
  {
    var rank: Name -> nat := m => PlaceIn(r.queue, m);
    forall m, i | m in ns && m in w.files && 0 <= i < |w.files[m].needed| ensures rank(w.files[m].needed[i]) < rank(m) {
      ExactBelow(w, s, r, held, m, w.files[m].needed[i]);
    }
    assert RankIn(w, ns, rank);
  }

  lemma RankedExact(w: World, s: Store, n: Name, held: multiset<Name>)
    requires Complete(w, s) && Balanced(s, held) && Load(w, s, n).ok && NoCycleIn(w, Fresh(w, s, n))
    ensures Balanced(Load(w, s, n).s, held + multiset{n})
  {
    var c, live := Load(w, s, n).s.table.Keys, s.table.Keys;
    var rank: Name -> nat :| RankIn(w, Fresh(w, s, n), rank);
    LoadedClosed(w, s, n);
    LoadOnly(w, s, n, live, c);
    assert RankOk(Only(w, c - live), rank);
    LoadBalanced(Only(w, c - live), rank, s, n, held);
  }

  /** On a table whose counts are exact, a load leaves them exact if and only if what it brings in has no cycle. */
  lemma ExactIffNoCycle(w: World, s: Store, n: Name, held: multiset<Name>)
    requires Complete(w, s) && Balanced(s, held) && Load(w, s, n).ok
    ensures Balanced(Load(w, s, n).s, held + multiset{n}) <==> NoCycleIn(w, Fresh(w, s, n))
  {
    if Balanced(Load(w, s, n).s, held + multiset{n}) { ExactRanked(w, s, n, held); }
    if NoCycleIn(w, Fresh(w, s, n)) { RankedExact(w, s, n, held); }
  }

  // ----- a close that never returns -----

  ghost predicate NeedsOne(deps: seq<Name>, c: set<Name>) {
    exists i :: 0 <= i < |deps| && deps[i] in c
  }

  /** A module that the next close uses up, and that needs one of `c`. */
  ghost predicate Spent(s: Store, c: set<Name>, n: Name) {
    n in s.table && s.table[n].count <= 1 && NeedsOne(s.table[n].deps, c)
  }

  /** Modules that need each other and are all spent. */
  ghost predicate Trap(s: Store, c: set<Name>) {
    forall n {:trigger Spent(s, c, n)} :: n in c ==> Spent(s, c, n)
  }

  lemma TrapKept(s: Store, r: Store, c: set<Name>)
    requires Trap(s, c)
    requires forall n :: n in s.table && n in c ==> n in r.table && r.table[n].deps == s.table[n].deps && r.table[n].count <= s.table[n].count
    ensures Trap(r, c)
  {
    forall n | n in c ensures Spent(r, c, n) {
      assert Spent(s, c, n);
    }
  }

  lemma {:induction false} CloseTrapped(s: Store, c: set<Name>, n: Name, fuel: nat)
    requires Trap(s, c)
    ensures n in c ==> Close(s, n, fuel) == None
    ensures Close(s, n, fuel).Some? ==> Trap(Close(s, n, fuel).value, c)
    decreases fuel, 0
  {
    assert n in c ==> Spent(s, c, n);
    if fuel > 0 && n in s.table {
      var s1 := SetCount(s, n, s.table[n].count - 1);
      TrapKept(s, s1, c);
      if s1.table[n].count <= 0 {
        var s2 := s1.(log := s1.log + [Ended(n)]);
        TrapKept(s1, s2, c);
        CloseAllTrapped(s2, c, s1.table[n].deps, fuel - 1);
        var r := CloseAll(s2, s1.table[n].deps, fuel - 1);
        if r.Some? { TrapKept(r.value, Free(r.value, n), c); }
      }
    }
  }

  lemma {:induction false} CloseAllTrapped(s: Store, c: set<Name>, deps: seq<Name>, fuel: nat)
    requires Trap(s, c)
    ensures NeedsOne(deps, c) ==> CloseAll(s, deps, fuel) == None
    ensures CloseAll(s, deps, fuel).Some? ==> Trap(CloseAll(s, deps, fuel).value, c)
    decreases fuel, 1, |deps|
  {
    if deps != [] {
      CloseTrapped(s, c, deps[0], fuel);
      var r := Close(s, deps[0], fuel);
      if r.Some? {
        CloseAllTrapped(r.value, c, deps[1..], fuel);
        if NeedsOne(deps, c) {
          var i :| 0 <= i < |deps| && deps[i] in c;
          assert deps[1..][i - 1] in c;
        }
      }
    }
  }

  // ----- how deep a close that ends goes -----

  /** The modules being let go, the outermost first: each is still loaded, used up, and needs the next. */
  ghost predicate Path(s: Store, path: seq<Name>) {
    forall i {:trigger OnPath(s, path, i)} :: 0 <= i < |path| ==> OnPath(s, path, i)
  }

  ghost predicate OnPath(s: Store, path: seq<Name>, i: nat)
    requires i < |path|
  {
    path[i] in s.table && s.table[path[i]].count <= 0 && (i + 1 < |path| ==> path[i + 1] in s.table[path[i]].deps)
  }

  /** What the innermost of them needs. */
  ghost predicate NextOn(s: Store, path: seq<Name>, n: Name) {
    path != [] ==> path[|path| - 1] in s.table && n in s.table[path[|path| - 1]].deps
  }

  /** Nothing on the path is changed but for lower counts. */
  ghost predicate PathKept(s: Store, r: Store, path: seq<Name>) {
    forall m :: m in path && m in s.table ==>
      m in r.table && r.table[m].deps == s.table[m].deps && r.table[m].count <= s.table[m].count
  }

  lemma PathStays(s: Store, r: Store, path: seq<Name>)
    requires Path(s, path) && PathKept(s, r, path)
    ensures Path(r, path) && forall n :: NextOn(s, path, n) ==> NextOn(r, path, n)
  {
    forall i | 0 <= i < |path| ensures OnPath(r, path, i) { assert OnPath(s, path, i); }
  }

  /** A close that comes back to a module on its path never ends. */
  lemma NotOnPath(s: Store, path: seq<Name>, n: Name, fuel: nat)
    requires Path(s, path) && NextOn(s, path, n) && Close(s, n, fuel).Some?
    ensures n !in path
  {
    if k :| 0 <= k < |path| && path[k] == n {
      var c := set m | m in path[k..];
      forall m | m in c ensures Spent(s, c, m) {
        var i :| 0 <= i < |path[k..]| && path[k..][i] == m;
        assert OnPath(s, path, k + i);
        var next := if k + i + 1 < |path| then path[k + i + 1] else n;
        assert next in c by {
          if k + i + 1 < |path| { assert path[k..][i + 1] == next; } else { assert path[k..][0] == next; }
        }
        var d :| 0 <= d < |s.table[m].deps| && s.table[m].deps[d] == next;
        assert s.table[m].deps[d] in c;
      }
      assert path[k..][0] == n;
      CloseTrapped(s, c, n, fuel);
    }
  }

  lemma PathGrows(s: Store, path: seq<Name>, n: Name, r: Store)
    requires Path(s, path) && NextOn(s, path, n) && n !in path && n in s.table && s.table[n].count <= 1
    requires r.table == s.table[n := s.table[n].(count := s.table[n].count - 1)]
    ensures Path(r, path + [n]) && (Distinct(path) ==> Distinct(path + [n]))
  {
    var p := path + [n];
    forall i | 0 <= i < |p| ensures OnPath(r, p, i) {
      if i < |path| { assert OnPath(s, path, i); }
    }
    if Distinct(path) { DistinctAppend(path, [n]); }
  }

  lemma {:induction false} FitsIn(q: seq<Name>, ns: set<Name>)
    requires Distinct(q) && forall m :: m in q ==> m in ns
    ensures |q| <= |ns|
    decreases q
  {
    if q != [] {
      FitsIn(q[1..], ns - {q[0]});
    }
  }

  /** `path` runs inside `all`; `left` levels are left. */
  ghost predicate Room(s: Store, path: seq<Name>, all: set<Name>, left: int) {
    Path(s, path) && Distinct(path) && s.table.Keys <= all && left == |all| - |path| + 1
  }

  lemma RoomLeft(s: Store, path: seq<Name>, all: set<Name>, left: int)
    requires Room(s, path, all, left)
    ensures left >= 1
  {
    forall m | m in path ensures m in all {
      var i :| 0 <= i < |path| && path[i] == m;
      assert OnPath(s, path, i);
    }
    FitsIn(path, all);
  }

  lemma {:induction false} CloseFits(s: Store, n: Name, path: seq<Name>, all: set<Name>, left: nat, fuel: nat)
    requires Room(s, path, all, left) && NextOn(s, path, n) && Close(s, n, fuel).Some?
    ensures Close(s, n, left) == Close(s, n, fuel) && Close(s, n, fuel).value.table.Keys <= s.table.Keys
    ensures PathKept(s, Close(s, n, fuel).value, path)
    decreases fuel, 0
  {
    RoomLeft(s, path, all, left);
    NotOnPath(s, path, n, fuel);
    if n in s.table && s.table[n].count <= 1 {
      var s1 := SetCount(s, n, s.table[n].count - 1);
      var s2 := s1.(log := s1.log + [Ended(n)]);
      PathGrows(s, path, n, s2);
      RoomLeft(s2, path + [n], all, left - 1);
      CloseAllFits(s2, s1.table[n].deps, path + [n], all, left - 1, fuel - 1);
    }
  }

  lemma {:induction false} CloseAllFits(s: Store, deps: seq<Name>, path: seq<Name>, all: set<Name>, left: nat, fuel: nat)
    requires Room(s, path, all, left) && (forall i :: 0 <= i < |deps| ==> NextOn(s, path, deps[i])) && CloseAll(s, deps, fuel).Some?
    ensures CloseAll(s, deps, left) == CloseAll(s, deps, fuel) && CloseAll(s, deps, fuel).value.table.Keys <= s.table.Keys
    ensures PathKept(s, CloseAll(s, deps, fuel).value, path)
    decreases fuel, 1, |deps|
  {
    if deps != [] {
      var t := Close(s, deps[0], fuel).value;
      CloseFits(s, deps[0], path, all, left, fuel);
      PathStays(s, t, path);
      forall i | 0 <= i < |deps[1..]| ensures NextOn(t, path, deps[1..][i]) { assert NextOn(s, path, deps[i + 1]); }
      CloseAllFits(t, deps[1..], path, all, left, fuel);
    }
  }

  /** On every graph: a close that ends goes at most one level deeper than there are modules. */
  lemma EndsWithinTable(s: Store, n: Name, fuel: nat)
    requires Close(s, n, fuel).Some?
    ensures Close(s, n, |s.table| + 1) == Close(s, n, fuel)
  {
    assert |s.table| == |s.table.Keys|;
    CloseFits(s, n, [], s.table.Keys, |s.table| + 1, fuel);
  }

  /** Two libraries that need each other: loaded once, counted once each, and closing never comes to an end. */
  lemma TwoInACycle(a: Name, b: Name, fuel: nat)
    requires a != b
    ensures var w := World(map[a := File([b], {}, {}), b := File([a], {}, {})], {});
            var r := Load(w, NOTHING, a);
            && r.ok && r.s.queue == [b, a] && Count(r.s, a) == 1 && !Balanced(r.s, multiset{a})
            && Close(r.s, a, fuel) == None
  {
    var w := World(map[a := File([b], {}, {}), b := File([a], {}, {})], {});
    var s1 := Enter(NOTHING, a);
    var s2 := Enter(s1, b);
    var s3 := AddDep(SetCount(s2, a, 1), b, a);
    assert Load(w, s2, a) == Loaded(true, SetCount(s2, a, 1));
    assert [a][1..] == [] && [b][1..] == [];
    assert LoadAll(w, s2, b, [a]) == Loaded(true, s3);
    assert Load(w, s1, b) == Loaded(true, Queue(s3, b));
    var s4 := AddDep(Queue(s3, b), a, b);
    assert LoadAll(w, s1, a, [b]) == Loaded(true, s4);
    var r := Queue(s4, a);
    assert Load(w, NOTHING, a) == Loaded(true, r);
    assert r.table[a] == Module([b], 1) && r.table[b] == Module([a], 1);
    if Balanced(r, multiset{a}) {
      assert Count(r, a) == multiset{a}[a] + RefsTo(r.table, a);
      RefsSplit(r.table, b, a);
    }
    assert r.table[a].deps[0] in {a, b} && r.table[b].deps[0] in {a, b};
    assert Spent(r, {a, b}, a) && Spent(r, {a, b}, b);
    CloseTrapped(r, {a, b}, a, fuel);
  }
}
