/**
  The loader as it works: one object whose table, queue and log the
  operations change in place. Each is proved to compute its function.
  */
module DlLoader {
  import opened Common
  import opened DlStore
  import opened DlLoad
  import opened DlOpen

  class Loader {
    const w: World
    var table: map<Name, Module>
    var queue: seq<Name>
    var log: seq<Event>

    constructor (w: World)
      ensures this.w == w && Now() == Store(map[], [], [])
    {
      this.w := w;
      table, queue, log := map[], [], [];
    }

    function Now(): Store
      reads this
    {
      Store(table, queue, log)
    }

    /** dl_libera */
    method FreeModule(n: Name)
      modifies this
      ensures Now() == Free(old(Now()), n)
    {
      table := table - {n};
      log := log + [Unmapped(n)];
    }

    /** dl_carica and dl_da_file */
    method LoadModule(n: Name) returns (ok: bool)
      modifies this
      ensures Loaded(ok, Now()) == Load(w, old(Now()), n)
      decreases w.files.Keys - table.Keys
    {
      if n in table {
        table := table[n := table[n].(count := table[n].count + 1)];
        return true;
      }
      if n !in w.files {
        return false;
      }
      ghost var s := Now();
      table := table[n := Module([], 0)];
      assert n in w.files.Keys - s.table.Keys && n !in w.files.Keys - table.Keys;
      var needed := w.files[n].needed;
      var i := 0;
      while i < |needed|
        invariant 0 <= i <= |needed| && n in table && Enter(s, n).table.Keys <= table.Keys
        invariant LoadAll(w, Enter(s, n), n, needed) == LoadAll(w, Now(), n, needed[i..])
      {
        assert w.files.Keys - table.Keys < w.files.Keys - s.table.Keys;
        ok := LoadModule(needed[i]);
        if !ok {
          FreeModule(n);
          return;
        }
        table := table[n := table[n].(deps := table[n].deps + [needed[i]])];
        assert needed[i..][1..] == needed[i + 1..];
        i := i + 1;
      }
      table := table[n := table[n].(count := 1)];
      queue := queue + [n];
      ok := true;
    }

    /** dl_lascia_coda */
    method AbandonQueue(from: nat)
      requires from <= |queue|
      modifies this
      ensures Now() == Abandon(old(Now()), from)
    {
      ghost var s := Now();
      var i := |queue|;
      assert queue[from..i] == queue[from..];
      while i > from
        invariant from <= i <= |queue| && queue == s.queue
        invariant FreeAll(s, s.queue[from..]) == FreeAll(Now(), queue[from..i])
      {
        i := i - 1;
        assert queue[from..i + 1] == queue[from..i] + [queue[i]];
        FreeModule(queue[i]);
      }
      FreeAllKeepsQueue(s, s.queue[from..]);
      queue := queue[..from];
    }

    /** dl_finisci */
    method FinishQueue(from: nat) returns (ok: bool)
      requires from <= |queue|
      modifies this
      ensures Loaded(ok, Now()) == Finish(w, old(Now()), from)
    {
      var v := queue[from..];
      queue := queue[..from];
      ghost var s := Now();
      var i := 0;
      while i < |v|
        invariant 0 <= i <= |v| && table == s.table && queue == s.queue
        invariant Relocate(w, s, v) == Relocate(w, Now(), v[i..])
      {
        if !Resolves(w, table.Keys, v[i]) {
          ghost var t := Now();
          var k := |v|;
          assert v[..k] == v;
          while k > 0
            invariant 0 <= k <= |v|
            invariant FreeAll(t, v) == FreeAll(Now(), v[..k])
          {
            k := k - 1;
            assert v[..k + 1] == v[..k] + [v[k]];
            FreeModule(v[k]);
          }
          return false;
        }
        log := log + [Relocated(v[i])];
        assert v[i..][1..] == v[i + 1..];
        i := i + 1;
      }
      ghost var t := Now();
      i := 0;
      while i < |v|
        invariant 0 <= i <= |v|
        invariant Start(t, v) == Start(Now(), v[i..])
      {
        log := log + [Started(v[i])];
        assert v[i..][1..] == v[i + 1..];
        i := i + 1;
      }
      ok := true;
    }

    /** The ELF part of dlopen. */
    method OpenModule(n: Name) returns (ok: bool)
      modifies this
      ensures Loaded(ok, Now()) == Open(w, old(Now()), n)
    {
      var from := |queue|;
      LoadGrows(w, Now(), n);
      ok := LoadModule(n);
      if !ok {
        AbandonQueue(from);
      } else {
        ok := FinishQueue(from);
      }
    }

    /** dl_chiudi, on a stack with room for `fuel` calls; it need not end (see DlCycles.CloseTrapped). */
    method CloseModule(n: Name, fuel: nat) returns (ended: bool)
      modifies this
      ensures ended <==> Close(old(Now()), n, fuel).Some?
      ensures ended ==> Some(Now()) == Close(old(Now()), n, fuel)
      decreases fuel
    {
      if fuel == 0 {
        return false;
      }
      if n !in table {
        return true;
      }
      table := table[n := table[n].(count := table[n].count - 1)];
      if table[n].count > 0 {
        return true;
      }
      log := log + [Ended(n)];
      ghost var s := Now();
      var deps := table[n].deps;
      var i := 0;
      while i < |deps|
        invariant 0 <= i <= |deps|
        invariant CloseAll(s, deps, fuel - 1) == CloseAll(Now(), deps[i..], fuel - 1)
      {
        ended := CloseModule(deps[i], fuel - 1);
        if !ended {
          return;
        }
        assert deps[i..][1..] == deps[i + 1..];
        i := i + 1;
      }
      FreeModule(n);
      ended := true;
    }
  }

  lemma {:induction false} FreeAllKeepsQueue(s: Store, batch: seq<Name>)
    ensures FreeAll(s, batch).queue == s.queue
    decreases |batch|
  {
    if batch != [] { FreeAllKeepsQueue(Free(s, batch[|batch| - 1]), batch[..|batch| - 1]); }
  }
}
