/**
  The constructors and destructors of a module over whole runs: they
  alternate, a constructor first, and a module is loaded exactly between the
  two.
  */
module DlLives {
  import opened DlStore
  import opened DlLoad
  import opened DlOpen
  import opened DlCount
  import opened DlClose
  import opened DlRuns

  /** Whether the constructors of `n` ran last, after the events `l`. */
  function Alive(l: seq<Event>, n: Name): bool {
    if l == [] then false
    else
      var e := l[|l| - 1];
      if e == Started(n) then true else if e == Ended(n) then false else Alive(l[..|l| - 1], n)
  }

  /** No constructors run twice without the destructors between, nor the other way round. */
  ghost predicate Alternates(l: seq<Event>, n: Name) {
    forall i :: 0 <= i < |l| ==> (l[i] == Started(n) ==> !Alive(l[..i], n)) && (l[i] == Ended(n) ==> Alive(l[..i], n))
  }

  lemma OneMore(l: seq<Event>, e: Event, n: Name)
    requires Alternates(l, n) && (e == Started(n) ==> !Alive(l, n)) && (e == Ended(n) ==> Alive(l, n))
    ensures Alternates(l + [e], n)
    ensures Alive(l + [e], n) == if e == Started(n) then true else if e == Ended(n) then false else Alive(l, n)
  {
    var m := l + [e];
    assert m[..|l|] == l;
    forall i | 0 <= i < |m| ensures (m[i] == Started(n) ==> !Alive(m[..i], n)) && (m[i] == Ended(n) ==> Alive(m[..i], n)) {
      assert m[..i] == l[..i];
    }
  }

  predicate Quiet(e: Event, n: Name) {
    e != Started(n) && e != Ended(n)
  }

  /** Events of other modules change nothing. */
  lemma {:induction false} QuietKeeps(l: seq<Event>, more: seq<Event>, n: Name)
    requires Alternates(l, n) && forall i :: 0 <= i < |more| ==> Quiet(more[i], n)
    ensures Alternates(l + more, n) && Alive(l + more, n) == Alive(l, n)
    decreases more
  {
    if more == [] {
      assert l + more == l;
    } else {
      var m, e := more[..|more| - 1], more[|more| - 1];
      QuietKeeps(l, m, n);
      OneMore(l + m, e, n);
      assert l + more == (l + m) + [e];
    }
  }

  /** One event of `n` among others. */
  lemma OneOfMany(l: seq<Event>, a: seq<Event>, e: Event, b: seq<Event>, n: Name)
    requires Alternates(l, n) && ((e == Started(n) && !Alive(l, n)) || (e == Ended(n) && Alive(l, n)))
    requires forall i :: 0 <= i < |a| ==> Quiet(a[i], n)
    requires forall i :: 0 <= i < |b| ==> Quiet(b[i], n)
    ensures Alternates(l + (a + [e] + b), n) && Alive(l + (a + [e] + b), n) == (e == Started(n))
  {
    QuietKeeps(l, a, n);
    OneMore(l + a, e, n);
    QuietKeeps(l + a + [e], b, n);
    assert l + (a + [e] + b) == l + a + [e] + b;
  }

  ghost predicate QuietBut(l: seq<Event>, n: Name, i: nat) {
    forall j :: 0 <= j < |l| && j != i ==> Quiet(l[j], n)
  }

  /** If `e`, of `n`, is there, it is the only event of `n`. */
  ghost predicate Only(l: seq<Event>, e: Event, n: Name) {
    forall i :: 0 <= i < |l| ==> Quiet(l[i], n) || (l[i] == e && QuietBut(l, n, i))
  }

  lemma OnlyKeeps(l: seq<Event>, more: seq<Event>, e: Event, n: Name)
    requires Alternates(l, n) && Only(more, e, n)
    requires e in more ==> (e == Started(n) && !Alive(l, n)) || (e == Ended(n) && Alive(l, n))
    ensures Alternates(l + more, n) && Alive(l + more, n) == if e in more then e == Started(n) else Alive(l, n)
  {
    if i :| 0 <= i < |more| && more[i] == e {
      assert !Quiet(e, n) && QuietBut(more, n, i);
      SplitAt(l, more, i, n);
    } else {
      QuietKeeps(l, more, n);
    }
  }

  lemma SplitAt(l: seq<Event>, more: seq<Event>, i: nat, n: Name)
    requires Alternates(l, n) && i < |more| && QuietBut(more, n, i)
    requires (more[i] == Started(n) && !Alive(l, n)) || (more[i] == Ended(n) && Alive(l, n))
    ensures Alternates(l + more, n) && Alive(l + more, n) == (more[i] == Started(n))
  {
    var a, b := more[..i], more[i + 1..];
    assert more == a + [more[i]] + b;
    forall j | 0 <= j < |b| ensures Quiet(b[j], n) { assert b[j] == more[i + 1 + j]; }
    OneOfMany(l, a, more[i], b, n);
  }

  /** After any run, for every module. */
  ghost predicate Lives(s: Store) {
    forall n :: LivesOne(s, n)
  }

  ghost predicate LivesOne(s: Store, n: Name) {
    Alternates(s.log, n) && (Alive(s.log, n) <==> n in s.table)
  }

  // ----- a successful open -----

  lemma StartedOnly(batch: seq<Name>, n: Name)
    requires Distinct(batch)
    ensures Only(StartedAll(batch), Started(n), n) && (Started(n) in StartedAll(batch) <==> n in batch)
  {
    var l := StartedAll(batch);
    if n in batch {
      var i :| 0 <= i < |batch| && batch[i] == n;
      assert l[i] == Started(n);
    }
    forall i | 0 <= i < |l| && !Quiet(l[i], n)
      ensures l[i] == Started(n) && QuietBut(l, n, i)
    {
      assert batch[i] == n;
    }
  }

  lemma OpenLives(w: World, s: Store, n: Name, m: Name)
    requires LivesOne(s, m) && Open(w, s, n).ok
    ensures LivesOne(Open(w, s, n).s, m)
  {
    var r := Open(w, s, n).s;
    var l := Load(w, s, n).s;
    var batch := New(s, l);
    OpenDone(w, s, n);
    LoadGrows(w, s, n);
    QuietKeeps(s.log, RelocatedAll(batch), m);
    StartedOnly(batch, m);
    OnlyKeeps(s.log + RelocatedAll(batch), StartedAll(batch), Started(m), m);
  }

  // ----- a failed open -----

  lemma FailLives(w: World, s: Store, n: Name, m: Name)
    requires LivesOne(s, m) && !Open(w, s, n).ok
    ensures LivesOne(Open(w, s, n).s, m)
  {
    var r := Open(w, s, n).s;
    OpenFailed(w, s, n);
    var more := r.log[|s.log|..];
    assert r.log == s.log + more;
    QuietKeeps(s.log, more, m);
  }

  // ----- a close -----

  /** A close starts nothing. */
  ghost predicate StartsNothing(s: Store, r: Store) {
    s.log <= r.log && forall i :: |s.log| <= i < |r.log| ==> !r.log[i].Started?
  }

  lemma {:induction false} CloseStartsNothing(s: Store, n: Name, fuel: nat)
    requires Close(s, n, fuel).Some?
    ensures StartsNothing(s, Close(s, n, fuel).value)
    decreases fuel, 0
  {
    if n in s.table && s.table[n].count <= 1 {
      var s1 := SetCount(s, n, s.table[n].count - 1);
      CloseAllStartNothing(s1.(log := s1.log + [Ended(n)]), s1.table[n].deps, fuel - 1);
    }
  }

  lemma {:induction false} CloseAllStartNothing(s: Store, deps: seq<Name>, fuel: nat)
    requires CloseAll(s, deps, fuel).Some?
    ensures StartsNothing(s, CloseAll(s, deps, fuel).value)
    decreases fuel, 1, |deps|
  {
    if deps != [] {
      CloseStartsNothing(s, deps[0], fuel);
      CloseAllStartNothing(Close(s, deps[0], fuel).value, deps[1..], fuel);
    }
  }

  lemma EndedOnly(l: seq<Event>, n: Name)
    requires EndsOnce(l) && forall i :: 0 <= i < |l| ==> !l[i].Started?
    ensures Only(l, Ended(n), n)
  {
    forall i | 0 <= i < |l| && !Quiet(l[i], n)
      ensures l[i] == Ended(n) && QuietBut(l, n, i)
    {
      forall j | 0 <= j < |l| && j != i ensures Quiet(l[j], n) {
        if i < j { assert l[i] != l[j]; } else { assert l[j].Ended? ==> l[j] != l[i]; }
      }
    }
  }

  lemma CloseLives(w: World, s: Store, r: Store, n: Name)
    requires Complete(w, s) && LivesOne(s, n) && EndsInOrder(s, r) && StartsNothing(s, r)
    ensures LivesOne(r, n)
  {
    var l: seq<Event> :| LetsGo(s, r, l);
    forall i | 0 <= i < |l| ensures !l[i].Started? { assert l[i] == r.log[|s.log| + i]; }
    EndedOnly(l, n);
    assert n in s.table ==> Counted(s, n);
    assert Ended(n) in l <==> n in s.table && n !in r.table;
    OnlyKeeps(s.log, l, Ended(n), n);
  }

  // ----- every run -----

  lemma StepLives(w: World, rank: Name -> nat, c: Config, op: Op, fuel: nat)
    requires RankOk(w, rank) && Sound(w, c) && Step(w, c, op, fuel).Some? && Lives(c.s)
    ensures Lives(Step(w, c, op, fuel).value.s)
  {
    var r := Step(w, c, op, fuel).value.s;
    match op {
      case Opening(n) =>
        forall m ensures LivesOne(r, m) {
          if Open(w, c.s, n).ok { OpenLives(w, c.s, n, m); } else { FailLives(w, c.s, n, m); }
        }
      case Closing(n) =>
        CloseSound(w, rank, c, n, fuel);
        CloseStartsNothing(c.s, n, fuel);
        forall m ensures LivesOne(r, m) { CloseLives(w, c.s, r, m); }
    }
  }

  lemma {:induction false} RunLives(w: World, rank: Name -> nat, c: Config, ops: seq<Op>, fuel: nat)
    requires RankOk(w, rank) && Sound(w, c) && Run(w, c, ops, fuel).Some? && Lives(c.s)
    ensures Lives(Run(w, c, ops, fuel).value.s)
    decreases ops
  {
    if ops != [] {
      StepLives(w, rank, c, ops[0], fuel);
      StepSound(w, rank, c, ops[0], fuel);
      RunLives(w, rank, Step(w, c, ops[0], fuel).value, ops[1..], fuel);
    }
  }

  /**
    After any sequence of opens and closes on acyclic dependencies, the
    constructors and the destructors of each module have alternated, and the
    constructors ran last exactly if it is loaded.
    */
  lemma EndedOncePerStart(w: World, ops: seq<Op>, fuel: nat, n: Name)
    requires Acyclic(w) && Run(w, EMPTY, ops, fuel).Some?
    ensures var s := Run(w, EMPTY, ops, fuel).value.s; Alternates(s.log, n) && (Alive(s.log, n) <==> n in s.table)
  {
    var rank: Name -> nat :| RankOk(w, rank);
    assert forall m :: LivesOne(EMPTY.s, m);
    RunLives(w, rank, EMPTY, ops, fuel);
    assert LivesOne(Run(w, EMPTY, ops, fuel).value.s, n);
  }
}
