/**
  Every sequence of dlopen and dlclose: what the counts say, and which modules
  are loaded.
  */
module DlRuns {
  import opened Common
  import opened DlStore
  import opened DlLoad
  import opened DlOpen
  import opened DlCount
  import opened DlClose
  import opened DlFailed
  import opened DlSearch

  datatype Op = Opening(n: Name) | Closing(n: Name)

  /** The store, the handles callers have not closed yet, and the references that failed opens took and nobody has. */
  datatype Config = Config(s: Store, opens: multiset<Name>, leaks: multiset<Name>)

  const EMPTY: Config := Config(Store(map[], [], []), multiset{}, multiset{})

  /** None for a close of a handle that nobody holds, or one that recurses deeper than `fuel`. */
  function Step(w: World, c: Config, op: Op, fuel: nat): Option<Config> {
    match op
    case Opening(n) =>
      var r := Open(w, c.s, n);
      Some(if r.ok then Config(r.s, c.opens + multiset{n}, c.leaks)
           else Config(r.s, c.opens, c.leaks + Lost(w, c.s, n)))
    case Closing(n) =>
      if n !in c.opens then None
      else
        var r := Close(c.s, n, fuel);
        if r.None? then None else Some(Config(r.value, c.opens - multiset{n}, c.leaks))
  }

  function Run(w: World, c: Config, ops: seq<Op>, fuel: nat): Option<Config>
    decreases ops
  {
    if ops == [] then Some(c)
    else
      var r := Step(w, c, ops[0], fuel);
      if r.None? then None else Run(w, r.value, ops[1..], fuel)
  }

  /** Every count is the number of references: open handles, leaks, and loaded modules. */
  ghost predicate Sound(w: World, c: Config) {
    Complete(w, c.s) && Balanced(c.s, c.opens + c.leaks)
  }

  // ----- a successful open -----

  lemma OpenSound(w: World, rank: Name -> nat, c: Config, n: Name)
    requires RankOk(w, rank) && Sound(w, c) && Open(w, c.s, n).ok
    ensures Sound(w, Config(Open(w, c.s, n).s, c.opens + multiset{n}, c.leaks))
  {
    OpenDone(w, c.s, n);
    var l := Load(w, c.s, n).s;
    LoadBalanced(w, rank, c.s, n, c.opens + c.leaks);
    assert c.opens + c.leaks + multiset{n} == c.opens + multiset{n} + c.leaks;
    assert Balanced(Open(w, c.s, n).s, c.opens + multiset{n} + c.leaks);
    LoadAbove(w, rank, c.s, n);
    LoadGrows(w, c.s, n);
  }

  // ----- a failed open -----

  lemma FailSound(w: World, c: Config, n: Name)
    requires Sound(w, c) && !Open(w, c.s, n).ok
    ensures Sound(w, Config(Open(w, c.s, n).s, c.opens, c.leaks + Lost(w, c.s, n)))
  {
    var r, lost := Open(w, c.s, n).s, Lost(w, c.s, n);
    OpenFailed(w, c.s, n);
    forall m | m in c.s.table ensures r.table[m].count > 0 && r.table[m].deps == c.s.table[m].deps {
      FailedCount(w, c.s, n, m);
    }
    forall d ensures Count(r, d) == (c.opens + (c.leaks + lost))[d] + RefsTo(r.table, d) {
      RefsSame(c.s.table.Keys, c.s.table, r.table, d);
      assert Count(c.s, d) == (c.opens + c.leaks)[d] + RefsTo(c.s.table, d);
      if d in c.s.table { FailedCount(w, c.s, n, d); } else { LostOnlyLoaded(w, c.s, n, d); }
    }
  }

  // ----- a close -----

  lemma {:induction false} CloseKeepsQueue(s: Store, n: Name, fuel: nat)
    requires Close(s, n, fuel).Some?
    ensures Close(s, n, fuel).value.queue == s.queue
    decreases fuel, 0
  {
    if n in s.table && s.table[n].count <= 1 {
      var s1 := SetCount(s, n, s.table[n].count - 1);
      CloseAllKeepsQueue(s1.(log := s1.log + [Ended(n)]), s1.table[n].deps, fuel - 1);
    }
  }

  lemma {:induction false} CloseAllKeepsQueue(s: Store, deps: seq<Name>, fuel: nat)
    requires CloseAll(s, deps, fuel).Some?
    ensures CloseAll(s, deps, fuel).value.queue == s.queue
    decreases fuel, 1, |deps|
  {
    if deps != [] {
      CloseKeepsQueue(s, deps[0], fuel);
      CloseAllKeepsQueue(Close(s, deps[0], fuel).value, deps[1..], fuel);
    }
  }

  lemma CompleteRanked(w: World, rank: Name -> nat, s: Store)
    requires RankOk(w, rank) && Complete(w, s)
    ensures Ranked(s, rank)
  {
  }

  /** On acyclic dependencies a close ends, whatever was opened and closed before. */
  lemma CloseEnds(w: World, rank: Name -> nat, c: Config, n: Name)
    requires RankOk(w, rank) && Sound(w, c) && n in c.opens
    ensures forall fuel: nat :: fuel > rank(n) ==> Close(c.s, n, fuel).Some?
  {
    CompleteRanked(w, rank, c.s);
    forall fuel: nat | fuel > rank(n) ensures Close(c.s, n, fuel).Some? {
      CloseBalanced(c.s, n, c.opens + c.leaks, rank, fuel);
    }
  }

  /** What is left after a close is as complete as before. */
  lemma CompleteKept(w: World, s: Store, r: Store)
    requires Complete(w, s) && EndsInOrder(s, r) && r.queue == s.queue
    ensures Complete(w, r)
  {
    var l :| LetsGo(s, r, l);
    forall m | m in r.table ensures r.table[m].count > 0 && m in w.files && r.table[m].deps == w.files[m].needed {
      assert Counted(s, m) && Counted(r, m);
    }
  }

  lemma CloseSound(w: World, rank: Name -> nat, c: Config, n: Name, fuel: nat)
    requires RankOk(w, rank) && Sound(w, c) && n in c.opens && Close(c.s, n, fuel).Some?
    ensures Sound(w, Config(Close(c.s, n, fuel).value, c.opens - multiset{n}, c.leaks))
    ensures EndsInOrder(c.s, Close(c.s, n, fuel).value)
  {
    var more := fuel + rank(n) + 1;
    MoreFuel(c.s, n, fuel, more);
    CompleteRanked(w, rank, c.s);
    CloseBalanced(c.s, n, c.opens + c.leaks, rank, more);
    CloseInOrder(c.s, n, c.opens + c.leaks, rank, more);
    CloseKeepsQueue(c.s, n, fuel);
    CompleteKept(w, c.s, Close(c.s, n, fuel).value);
    assert c.opens + c.leaks - multiset{n} == c.opens - multiset{n} + c.leaks;
  }

  // ----- every run -----

  lemma StepSound(w: World, rank: Name -> nat, c: Config, op: Op, fuel: nat)
    requires RankOk(w, rank) && Sound(w, c) && Step(w, c, op, fuel).Some?
    ensures Sound(w, Step(w, c, op, fuel).value)
  {
    match op {
      case Opening(n) =>
        if Open(w, c.s, n).ok { OpenSound(w, rank, c, n); } else { FailSound(w, c, n); }
      case Closing(n) =>
        CloseSound(w, rank, c, n, fuel);
    }
  }

  lemma {:induction false} RunSound(w: World, rank: Name -> nat, c: Config, ops: seq<Op>, fuel: nat)
    requires RankOk(w, rank) && Sound(w, c) && Run(w, c, ops, fuel).Some?
    ensures Sound(w, Run(w, c, ops, fuel).value)
    decreases ops
  {
    if ops != [] {
      StepSound(w, rank, c, ops[0], fuel);
      RunSound(w, rank, Step(w, c, ops[0], fuel).value, ops[1..], fuel);
    }
  }

  /**
    After any sequence of opens and closes on acyclic dependencies, every
    count is the open handles, plus what failed opens leaked, plus the
    dependents.
    */
  lemma CountsAreReferences(w: World, ops: seq<Op>, fuel: nat, n: Name)
    requires Acyclic(w) && Run(w, EMPTY, ops, fuel).Some?
    ensures var c := Run(w, EMPTY, ops, fuel).value;
            Count(c.s, n) == c.opens[n] + c.leaks[n] + RefsTo(c.s.table, n)
  {
    var rank: Name -> nat :| RankOk(w, rank);
    RunSound(w, rank, EMPTY, ops, fuel);
  }

  // ----- what is loaded -----

  /** Closed under dependencies, with everything held in it. */
  ghost predicate Reaches(w: World, held: multiset<Name>, c: set<Name>) {
    && (forall n :: n in held ==> n in c)
    && (forall n :: n in c ==> NeededIn(w, n, c))
  }

  lemma {:induction false} Highest(ns: set<Name>, rank: Name -> nat) returns (n: Name)
    requires ns != {}
    ensures n in ns && forall m :: m in ns ==> rank(m) <= rank(n)
    decreases ns
  {
    n := Pick(ns);
    if ns != {n} {
      var m := Highest(ns - {n}, rank);
      if rank(m) > rank(n) { n := m; }
    }
  }

  lemma LoadedReaches(w: World, c: Config)
    requires Sound(w, c)
    ensures Reaches(w, c.opens + c.leaks, c.s.table.Keys)
  {
    var held := c.opens + c.leaks;
    forall n | n in held ensures n in c.s.table {
      assert Count(c.s, n) == held[n] + RefsTo(c.s.table, n);
    }
    forall n | n in c.s.table ensures NeededIn(w, n, c.s.table.Keys) {
      forall i | 0 <= i < |w.files[n].needed| ensures w.files[n].needed[i] in c.s.table {
        var d := w.files[n].needed[i];
        RefsSplit(c.s.table, n, d);
        assert Count(c.s, d) == held[d] + RefsTo(c.s.table, d);
      }
    }
  }

  lemma LoadedLeast(w: World, rank: Name -> nat, c: Config, ns: set<Name>)
    requires RankOk(w, rank) && Sound(w, c) && Reaches(w, c.opens + c.leaks, ns)
    ensures c.s.table.Keys <= ns
  {
    if x :| x in c.s.table && x !in ns {
      assert x in c.s.table.Keys - ns;
      var n := Highest(c.s.table.Keys - ns, rank);
      assert Count(c.s, n) == (c.opens + c.leaks)[n] + RefsTo(c.s.table, n);
      var d := RefsHas(c.s.table.Keys, c.s.table, n);
    }
  }

  /** The loaded modules are exactly those that the open handles and the leaks reach. */
  lemma LoadedAreReached(w: World, ops: seq<Op>, fuel: nat)
    requires Acyclic(w) && Run(w, EMPTY, ops, fuel).Some?
    ensures var c := Run(w, EMPTY, ops, fuel).value;
            && Reaches(w, c.opens + c.leaks, c.s.table.Keys)
            && forall ns :: Reaches(w, c.opens + c.leaks, ns) ==> c.s.table.Keys <= ns
  {
    var rank: Name -> nat :| RankOk(w, rank);
    RunSound(w, rank, EMPTY, ops, fuel);
    var c := Run(w, EMPTY, ops, fuel).value;
    LoadedReaches(w, c);
    forall ns | Reaches(w, c.opens + c.leaks, ns) ensures c.s.table.Keys <= ns {
      LoadedLeast(w, rank, c, ns);
    }
  }

  /** What dlsym needs of the table: every dependency of a loaded module is loaded. */
  lemma RunSupplied(w: World, ops: seq<Op>, fuel: nat)
    requires Acyclic(w) && Run(w, EMPTY, ops, fuel).Some?
    ensures Supplied(Run(w, EMPTY, ops, fuel).value.s.table)
  {
    var rank: Name -> nat :| RankOk(w, rank);
    RunSound(w, rank, EMPTY, ops, fuel);
    var c := Run(w, EMPTY, ops, fuel).value;
    LoadedReaches(w, c);
    forall m, i | m in c.s.table && 0 <= i < |c.s.table[m].deps| ensures c.s.table[m].deps[i] in c.s.table {
      assert NeededIn(w, m, c.s.table.Keys);
    }
  }

  // ----- a reference that is lost -----

  /** The first open of a file that needs nothing. */
  lemma OpenAlone(w: World, b: Name)
    requires b in w.files && w.files[b].needed == [] && w.files[b].uses == {}
    ensures var r := Open(w, EMPTY.s, b); r.ok && r.s.table == map[b := Module([], 1)] && r.s.queue == []
  {
    var l := Queue(Enter(EMPTY.s, b), b);
    assert Load(w, EMPTY.s, b) == Loaded(true, l);
    assert l.table == map[b := Module([], 1)];
    LoadSucceeds(w, EMPTY.s, b);
    OpenSucceeds(w, EMPTY.s, b);
    OpenDone(w, EMPTY.s, b);
  }

  /** An open that finds `b` loaded and then a symbol missing. */
  lemma OpenMissing(w: World, s: Store, a: Name, b: Name, x: Symbol)
    requires a != b && s.table == map[b := Module([], 1)] && w.exports == {} && w.files.Keys == {a, b}
    requires w.files[a] == File([b], {}, {x}) && w.files[b].defines == {}
    ensures !Open(w, s, a).ok && Open(w, s, a).s.table == map[b := Module([], 2)] && Lost(w, s, a) == multiset{b}
  {
    var s1 := Enter(s, a);
    assert [b][1..] == [];
    assert Asked(w, s1, b) == [b] && AskedAll(w, AddDep(Load(w, s1, b).s, a, b), a, []) == [];
    assert Asked(w, s, a) == [b] + [] == [b];
    assert Lost(w, s, a) == multiset{b} by {
      assert Those([], s.table.Keys) == multiset{};
      assert Those([b], s.table.Keys) == multiset{b} + multiset{} == multiset{b};
    }
    var l := Load(w, s, a);
    assert LoadAll(w, s1, a, [b]) == Loaded(true, AddDep(SetCount(s1, b, 2), a, b));
    assert l.ok && New(s, l.s) == [a];
    OpenSucceeds(w, s, a);
    assert !SymbolsFound(w, l.s.table.Keys, New(s, l.s)) by { assert New(s, l.s)[0] in w.files && x in w.files[a].uses; }
    OpenFailed(w, s, a);
    FailedCount(w, s, a, b);
  }

  /**
    b needs nothing; a needs b and a symbol nobody defines. b is opened, the
    open of a fails, b is closed: no handle is open, and b stays loaded.
    */
  lemma LostReference(a: Name, b: Name, x: Symbol, fuel: nat)
    requires a != b && fuel > 0
    ensures var w := World(map[a := File([b], {}, {x}), b := File([], {}, {})], {});
            var c := Run(w, EMPTY, [Opening(b), Opening(a), Closing(b)], fuel);
            c.Some? && c.value.opens == multiset{} && c.value.leaks == multiset{b} && b in c.value.s.table
  {
    var w := World(map[a := File([b], {}, {x}), b := File([], {}, {})], {});
    var c1 := Config(Open(w, EMPTY.s, b).s, multiset{b}, multiset{});
    OpenAlone(w, b);
    assert Step(w, EMPTY, Opening(b), fuel) == Some(c1) by { assert multiset{} + multiset{b} == multiset{b}; }
    var c2 := Config(Open(w, c1.s, a).s, multiset{b}, multiset{b});
    OpenMissing(w, c1.s, a, b, x);
    assert Step(w, c1, Opening(a), fuel) == Some(c2) by { assert multiset{} + multiset{b} == multiset{b}; }
    var c3 := Config(SetCount(c2.s, b, 1), multiset{}, multiset{b});
    assert Step(w, c2, Closing(b), fuel) == Some(c3) by { assert multiset{b} - multiset{b} == multiset{}; }
    ThreeSteps(w, EMPTY, c1, c2, c3, Opening(b), Opening(a), Closing(b), fuel);
  }

  lemma ThreeSteps(w: World, c0: Config, c1: Config, c2: Config, c3: Config, x: Op, y: Op, z: Op, fuel: nat)
    requires Step(w, c0, x, fuel) == Some(c1) && Step(w, c1, y, fuel) == Some(c2) && Step(w, c2, z, fuel) == Some(c3)
    ensures Run(w, c0, [x, y, z], fuel) == Some(c3)
  {
    assert [x, y, z][1..] == [y, z] && [y, z][1..] == [z] && [z][1..] == [];
    assert Run(w, c3, [], fuel) == Some(c3);
    assert Run(w, c2, [z], fuel) == Some(c3);
    assert Run(w, c1, [y, z], fuel) == Some(c3);
  }
}
