/**
  dlopen: a load, then every relocation of the batch, then every constructor;
  or nothing at all.
  */
module DlOpen {
  import opened Common
  import opened DlStore
  import opened DlLoad

  /** The ELF part of dlopen. */
  function Open(w: World, s: Store, n: Name): Loaded {
    LoadGrows(w, s, n);
    var r := Load(w, s, n);
    if !r.ok then Loaded(false, Abandon(r.s, |s.queue|)) else Finish(w, r.s, |s.queue|)
  }

  ghost predicate AllResolve(w: World, loaded: set<Name>, batch: seq<Name>) {
    forall i :: 0 <= i < |batch| ==> Resolves(w, loaded, batch[i])
  }

  function RelocatedAll(batch: seq<Name>): seq<Event> {
    seq(|batch|, i requires 0 <= i < |batch| => Relocated(batch[i]))
  }

  function StartedAll(batch: seq<Name>): seq<Event> {
    seq(|batch|, i requires 0 <= i < |batch| => Started(batch[i]))
  }

  lemma {:induction false} RelocateAll(w: World, s: Store, batch: seq<Name>)
    ensures Relocate(w, s, batch).ok <==> AllResolve(w, s.table.Keys, batch)
    ensures Relocate(w, s, batch).ok ==> Relocate(w, s, batch).s == s.(log := s.log + RelocatedAll(batch))
    decreases batch
  {
    if batch == [] {
      assert s.log + RelocatedAll(batch) == s.log;
    } else if Resolves(w, s.table.Keys, batch[0]) {
      var s1 := s.(log := s.log + [Relocated(batch[0])]);
      RelocateAll(w, s1, batch[1..]);
      assert s.log + RelocatedAll(batch) == s1.log + RelocatedAll(batch[1..]);
      assert AllResolve(w, s.table.Keys, batch) <==> AllResolve(w, s.table.Keys, batch[1..]) by {
        forall i | 0 <= i < |batch| && AllResolve(w, s.table.Keys, batch[1..]) ensures Resolves(w, s.table.Keys, batch[i]) {
          if i > 0 { assert Resolves(w, s.table.Keys, batch[1..][i - 1]); }
        }
        forall i | 0 <= i < |batch[1..]| && AllResolve(w, s.table.Keys, batch) ensures Resolves(w, s.table.Keys, batch[1..][i]) {
          assert Resolves(w, s.table.Keys, batch[i + 1]);
        }
      }
    }
  }

  lemma {:induction false} StartAll(s: Store, batch: seq<Name>)
    ensures Start(s, batch) == s.(log := s.log + StartedAll(batch))
    decreases batch
  {
    if batch == [] {
      assert s.log + StartedAll(batch) == s.log;
    } else {
      var s1 := s.(log := s.log + [Started(batch[0])]);
      StartAll(s1, batch[1..]);
      assert s.log + StartedAll(batch) == s1.log + StartedAll(batch[1..]);
    }
  }

  /** No code of a library ran: nothing but relocations and unmappings was added to the log. */
  ghost predicate NothingRan(a: seq<Event>, b: seq<Event>) {
    a <= b && forall i :: |a| <= i < |b| ==> b[i].Relocated? || b[i].Unmapped?
  }

  lemma {:induction false} RelocateRunsNothing(w: World, s: Store, batch: seq<Name>)
    ensures var r := Relocate(w, s, batch).s; NothingRan(s.log, r.log) && r.table == s.table && r.queue == s.queue
    decreases batch
  {
    if batch != [] && Resolves(w, s.table.Keys, batch[0]) {
      RelocateRunsNothing(w, s.(log := s.log + [Relocated(batch[0])]), batch[1..]);
    }
  }

  lemma {:induction false} FreeAllFrees(s: Store, batch: seq<Name>)
    ensures var r := FreeAll(s, batch);
            NothingRan(s.log, r.log) && r.queue == s.queue && r.table == s.table - set n | n in batch
    decreases |batch|
  {
    if batch != [] {
      var n := batch[|batch| - 1];
      FreeAllFrees(Free(s, n), batch[..|batch| - 1]);
      assert batch == batch[..|batch| - 1] + [n];
    }
  }

  lemma {:induction false} LoadRunsNothing(w: World, s: Store, n: Name)
    ensures NothingRan(s.log, Load(w, s, n).s.log) && (Load(w, s, n).ok ==> Load(w, s, n).s.log == s.log)
    decreases w.files.Keys - s.table.Keys, 0
  {
    if n !in s.table && n in w.files {
      assert n in w.files.Keys - s.table.Keys && n !in w.files.Keys - Enter(s, n).table.Keys;
      LoadAllRunsNothing(w, Enter(s, n), n, w.files[n].needed);
    }
  }

  lemma {:induction false} LoadAllRunsNothing(w: World, s: Store, me: Name, needed: seq<Name>)
    requires me in s.table
    ensures var r := LoadAll(w, s, me, needed); NothingRan(s.log, r.s.log) && (r.ok ==> r.s.log == s.log)
    decreases w.files.Keys - s.table.Keys, 1, |needed|
  {
    if needed != [] {
      var r := Load(w, s, needed[0]);
      LoadRunsNothing(w, s, needed[0]);
      if r.ok {
        assert w.files.Keys - r.s.table.Keys <= w.files.Keys - s.table.Keys;
        LoadAllRunsNothing(w, AddDep(r.s, me, needed[0]), me, needed[1..]);
      }
    }
  }

  /** When it succeeds, every relocation of the new modules precedes every constructor, both in queue order. */
  lemma OpenDone(w: World, s: Store, n: Name)
    requires Open(w, s, n).ok
    ensures var l := Load(w, s, n); var r := Open(w, s, n).s;
            && l.ok && r.table == l.s.table && r.queue == s.queue
            && r.log == s.log + RelocatedAll(New(s, l.s)) + StartedAll(New(s, l.s))
  {
    var l := Load(w, s, n).s;
    LoadGrows(w, s, n);
    LoadRunsNothing(w, s, n);
    RelocateAll(w, l.(queue := l.queue[..|s.queue|]), New(s, l));
    StartAll(Relocate(w, l.(queue := l.queue[..|s.queue|]), New(s, l)).s, New(s, l));
  }

  /** Every symbol that a new module uses is exported by the program or the libc, or defined by some loaded module. */
  ghost predicate SymbolsFound(w: World, loaded: set<Name>, added: seq<Name>) {
    forall i, x :: 0 <= i < |added| && added[i] in w.files && x in w.files[added[i]].uses ==>
      x in w.exports || exists m :: m in loaded && m in w.files && x in w.files[m].defines
  }

  lemma ResolveMeans(w: World, loaded: set<Name>, added: seq<Name>)
    requires forall i :: 0 <= i < |added| ==> added[i] in w.files
    ensures AllResolve(w, loaded, added) <==> SymbolsFound(w, loaded, added)
  {
    if AllResolve(w, loaded, added) {
      forall i, x | 0 <= i < |added| && added[i] in w.files && x in w.files[added[i]].uses
        ensures x in w.exports || exists m :: m in loaded && m in w.files && x in w.files[m].defines {
        assert Resolves(w, loaded, added[i]);
      }
    }
  }

  /** It succeeds exactly when the files are there and every new module finds its symbols among all that is then loaded. */
  lemma OpenSucceeds(w: World, s: Store, n: Name)
    ensures Open(w, s, n).ok <==>
            && (exists c :: Closed(w, s.table.Keys, c) && n in c)
            && SymbolsFound(w, Load(w, s, n).s.table.Keys, New(s, Load(w, s, n).s))
  {
    var l := Load(w, s, n).s;
    LoadGrows(w, s, n);
    LoadSucceeds(w, s, n);
    RelocateAll(w, l.(queue := l.queue[..|s.queue|]), New(s, l));
    ResolveMeans(w, l.table.Keys, New(s, l));
  }

  /** When it fails, no constructor ran and what was loaded before is what is loaded. */
  lemma OpenFailed(w: World, s: Store, n: Name)
    requires !Open(w, s, n).ok
    ensures var r := Open(w, s, n).s;
            && NothingRan(s.log, r.log) && r.queue == s.queue && r.table.Keys == s.table.Keys
            && forall m :: m in s.table ==> r.table[m] == Load(w, s, n).s.table[m] && r.table[m].deps == s.table[m].deps
  {
    var l := Load(w, s, n).s;
    LoadGrows(w, s, n);
    LoadRunsNothing(w, s, n);
    var batch := New(s, l);
    FailedFrees(w, s, l, Load(w, s, n).ok);
    NewRemoved(w, s, l);
  }

  /** What dlopen does to the store of a load when it fails. */
  lemma FailedFrees(w: World, s: Store, l: Store, ok: bool)
    requires s.queue <= l.queue && (ok ==> !Finish(w, l, |s.queue|).ok)
    ensures var r := if ok then Finish(w, l, |s.queue|).s else Abandon(l, |s.queue|);
            NothingRan(l.log, r.log) && r.queue == s.queue && r.table == l.table - set m | m in New(s, l)
  {
    var batch := New(s, l);
    if ok {
      var l1 := l.(queue := l.queue[..|s.queue|]);
      RelocateRunsNothing(w, l1, batch);
      FreeAllFrees(Relocate(w, l1, batch).s, batch);
    } else {
      FreeAllFrees(l, batch);
    }
  }

  /** Without the new modules the table has the old ones, with their dependencies. */
  lemma NewRemoved(w: World, s: Store, l: Store)
    requires Grown(w, s, l, None)
    ensures var t := l.table - set m | m in New(s, l);
            && t.Keys == s.table.Keys
            && forall m :: m in s.table ==> t[m] == l.table[m] && t[m].deps == s.table[m].deps
  {
    var added := set m | m in New(s, l);
    forall m ensures m in (l.table - added).Keys <==> m in s.table.Keys {
    }
  }
}
