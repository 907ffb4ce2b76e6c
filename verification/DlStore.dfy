/**
  The loader of shared objects: what is loaded, what waits to be started, and
  the operations of dlopen and dlclose on it, as functions.

  The file system is a finite map from library names to what the dynamic
  section of the file says. A loaded module is named by its library: a name is
  looked up among the loaded modules before any file is opened, so at most one
  module has it.
  */
module DlStore {
  import opened Common

  datatype Name = Name(text: string)
  datatype Symbol = Symbol(text: string)

  /** DT_NEEDED in order, the symbols the file defines, and those its relocations must find. */
  datatype File = File(needed: seq<Name>, defines: set<Symbol>, uses: set<Symbol>)

  /** The files, and what the program and the libc export. */
  datatype World = World(files: map<Name, File>, exports: set<Symbol>)

  /** `dip` and `conta` of DlModulo. */
  datatype Module = Module(deps: seq<Name>, count: int)

  datatype Event = Relocated(n: Name) | Started(n: Name) | Ended(n: Name) | Unmapped(n: Name)

  /** g_dlm_tab, g_dl_da_avviare, and what happened to modules so far. */
  datatype Store = Store(table: map<Name, Module>, queue: seq<Name>, log: seq<Event>)

  datatype Loaded = Loaded(ok: bool, s: Store)

  /** dl_libera */
  function Free(s: Store, n: Name): Store {
    s.(table := s.table - {n}, log := s.log + [Unmapped(n)])
  }

  function SetCount(s: Store, n: Name, count: int): Store
    requires n in s.table
  {
    s.(table := s.table[n := s.table[n].(count := count)])
  }

  /** dl_dip_metti */
  function AddDep(s: Store, n: Name, d: Name): Store
    requires n in s.table
  {
    s.(table := s.table[n := s.table[n].(deps := s.table[n].deps + [d])])
  }

  /** The module enters the table before its dependencies are looked at. */
  function Enter(s: Store, n: Name): Store {
    s.(table := s.table[n := Module([], 0)])
  }

  /** The end of dl_da_file: counted once and queued. */
  function Queue(s: Store, n: Name): Store
    requires n in s.table
  {
    SetCount(s, n, 1).(queue := s.queue + [n])
  }

  /** dl_carica and, for a name that is not loaded yet, dl_da_file. */
  function Load(w: World, s: Store, n: Name): (r: Loaded)
    ensures s.table.Keys <= r.s.table.Keys
    ensures r.ok ==> n in r.s.table
    decreases w.files.Keys - s.table.Keys, 0
  {
    if n in s.table then Loaded(true, SetCount(s, n, s.table[n].count + 1))
    else if n !in w.files then Loaded(false, s)
    else
      var r := LoadAll(w, Enter(s, n), n, w.files[n].needed);
      if r.ok then Loaded(true, Queue(r.s, n)) else Loaded(false, Free(r.s, n))
  }

  /** The loop of dl_da_file over DT_NEEDED. */
  function LoadAll(w: World, s: Store, me: Name, needed: seq<Name>): (r: Loaded)
    requires me in s.table
    ensures s.table.Keys <= r.s.table.Keys
    decreases w.files.Keys - s.table.Keys, 1, |needed|
  {
    if needed == [] then Loaded(true, s)
    else
      var r := Load(w, s, needed[0]);
      if !r.ok then r
      else
        assert w.files.Keys - r.s.table.Keys <= w.files.Keys - s.table.Keys;
        LoadAll(w, AddDep(r.s, me, needed[0]), me, needed[1..])
  }

  /** dl_libera on the last of the batch first. */
  function FreeAll(s: Store, batch: seq<Name>): Store
    decreases |batch|
  {
    if batch == [] then s else FreeAll(Free(s, batch[|batch| - 1]), batch[..|batch| - 1])
  }

  /** dl_riloca finds every symbol: in the exported tables, or in some loaded module. */
  predicate Resolves(w: World, loaded: set<Name>, n: Name) {
    n in w.files && forall x :: x in w.files[n].uses ==> x in w.exports || Defined(w, loaded, x)
  }

  predicate Defined(w: World, loaded: set<Name>, x: Symbol) {
    exists m :: m in loaded && m in w.files && x in w.files[m].defines
  }

  function Relocate(w: World, s: Store, batch: seq<Name>): Loaded
    decreases batch
  {
    if batch == [] then Loaded(true, s)
    else if !Resolves(w, s.table.Keys, batch[0]) then Loaded(false, s)
    else Relocate(w, s.(log := s.log + [Relocated(batch[0])]), batch[1..])
  }

  function Start(s: Store, batch: seq<Name>): Store
    decreases batch
  {
    if batch == [] then s else Start(s.(log := s.log + [Started(batch[0])]), batch[1..])
  }

  /** dl_finisci on the modules queued from `from` on. */
  function Finish(w: World, s: Store, from: nat): Loaded
    requires from <= |s.queue|
  {
    var batch := s.queue[from..];
    var r := Relocate(w, s.(queue := s.queue[..from]), batch);
    if r.ok then Loaded(true, Start(r.s, batch)) else Loaded(false, FreeAll(r.s, batch))
  }

  /** dl_lascia_coda */
  function Abandon(s: Store, from: nat): Store
    requires from <= |s.queue|
  {
    FreeAll(s, s.queue[from..]).(queue := s.queue[..from])
  }

  /**
    dl_chiudi. The recursion follows the dependencies of a module that is let
    go; `fuel` bounds its depth, and None is a recursion deeper than that.
    */
  function Close(s: Store, n: Name, fuel: nat): Option<Store>
    decreases fuel, 0
  {
    if fuel == 0 then None
    else if n !in s.table then Some(s)
    else
      var s1 := SetCount(s, n, s.table[n].count - 1);
      if s1.table[n].count > 0 then Some(s1)
      else
        var r := CloseAll(s1.(log := s1.log + [Ended(n)]), s1.table[n].deps, fuel - 1);
        if r.None? then None else Some(Free(r.value, n))
  }

  function CloseAll(s: Store, deps: seq<Name>, fuel: nat): Option<Store>
    decreases fuel, 1, |deps|
  {
    if deps == [] then Some(s)
    else
      var r := Close(s, deps[0], fuel);
      if r.None? then None else CloseAll(r.value, deps[1..], fuel)
  }

  // ----- dependencies without a cycle -----

  ghost predicate RankOk(w: World, rank: Name -> nat) {
    forall n, i :: n in w.files && 0 <= i < |w.files[n].needed| ==> rank(w.files[n].needed[i]) < rank(n)
  }

  ghost predicate Acyclic(w: World) {
    exists rank: Name -> nat :: RankOk(w, rank)
  }
}
