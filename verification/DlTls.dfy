/**
  Thread-local blocks of libraries: __tls_get_addr and dl_tls_lascia as a
  state machine. A lookup reads the slot list without the lock, one slot a
  step; a new block is published under the lock, field by field, the thread
  pointer last; a thread that ends clears its own slots without the lock. Any
  number of threads interleave, thread pointers and heap addresses may be
  used again, and modules may be added; none is unloaded.
  */
module DlTls {
  import opened Common

  type Thread = t: nat | t > 0 witness 1      // the thread pointer; 0 marks a free slot
  type Block = nat                            // a heap address, 0 for none

  const PIECE := 64                           // DL_TLS_PEZZO

  datatype Slot = Slot(tp: nat, id: nat, block: Block)

  datatype Pc =
    | Idle
    | Scan(id: nat, k: nat)                   // the search without the lock
    | Missing(id: nat)                        // not found: is there such a module?
    | Alloc(id: nat)
    | Locking(id: nat, b: Block)
    | FindFree(id: nat, b: Block, k: nat)     // the lock is held from here on
    | WriteId(id: nat, b: Block, k: nat)
    | WriteBlock(id: nat, b: Block, k: nat)
    | Publish(id: nat, b: Block, k: nat)
    | Unlocking(id: nat, b: Block)
    | Leave(k: nat)                           // dl_tls_lascia at slot k
    | Freed(k: nat)                           // its block is freed, the pointer to it is still there
    | Clear(k: nat)                           // the pointer is cleared, tp is next
    | Dead

  datatype Local = Local(pc: Pc, epoch: nat)

  /** What a lookup gave; `epoch` tells apart threads that had the same thread pointer. */
  datatype Answer = Answer(t: Thread, epoch: nat, id: nat, block: Block)

  datatype State = State(slots: seq<Slot>, lock: Option<Thread>, heap: set<Block>, modules: set<nat>,
                         threads: map<Thread, Local>, answers: set<Answer>)

  datatype Action =
    | Begin(t: Thread, id: nat) | Step(t: Thread) | Malloc(t: Thread, b: Block)
    | Exit(t: Thread) | Spawn(t: Thread) | AddModule(t: Thread, id: nat)

  function Start(): State {
    State(seq(PIECE, _ => Slot(0, 0, 0)), None, {}, {}, map[], {})
  }

  predicate Enabled(s: State, a: Action) {
    match a
    case Spawn(t) => t !in s.threads || s.threads[t].pc == Dead
    case AddModule(_, _) => true
    case Begin(t, _) => t in s.threads && s.threads[t].pc == Idle
    case Exit(t) => t in s.threads && s.threads[t].pc == Idle
    case Malloc(t, b) => t in s.threads && s.threads[t].pc.Alloc? && b != 0 && b !in s.heap
    case Step(t) =>
      && t in s.threads
      && var pc := s.threads[t].pc;
         !pc.Idle? && !pc.Dead? && !pc.Alloc? && (pc.Locking? ==> s.lock == None)
  }

  function Goto(s: State, t: Thread, pc: Pc): State
    requires t in s.threads
  {
    s.(threads := s.threads[t := s.threads[t].(pc := pc)])
  }

  function Give(s: State, t: Thread, id: nat, b: Block): State
    requires t in s.threads
  {
    Goto(s, t, Idle).(answers := s.answers + {Answer(t, s.threads[t].epoch, id, b)})
  }

  function Free(): Slot {
    Slot(0, 0, 0)
  }

  function Do(s: State, a: Action): State
    requires Enabled(s, a)
  {
    match a
    case Spawn(t) =>
      s.(threads := s.threads[t := Local(Idle, if t in s.threads then s.threads[t].epoch + 1 else 0)])
    case AddModule(_, id) => s.(modules := s.modules + {id})
    case Begin(t, id) => Goto(s, t, Scan(id, 0))
    case Exit(t) => Goto(s, t, Leave(0))
    case Malloc(t, b) => Goto(s, t, Locking(s.threads[t].pc.id, b)).(heap := s.heap + {b})
    case Step(t) => Move(s, t)
  }

  function Move(s: State, t: Thread): State
    requires Enabled(s, Step(t))
  {
    var pc := s.threads[t].pc;
    match pc
    case Scan(id, k) =>
      if k < |s.slots| then
        if s.slots[k].tp == t && s.slots[k].id == id then Give(s, t, id, s.slots[k].block)
        else Goto(s, t, Scan(id, k + 1))
      else Goto(s, t, Missing(id))
    case Missing(id) => Goto(s, t, if id in s.modules then Alloc(id) else Idle)
    case Locking(id, b) => Goto(s, t, FindFree(id, b, 0)).(lock := Some(t))
    case FindFree(id, b, k) =>
      if k < |s.slots| then Goto(s, t, if s.slots[k].tp == 0 then WriteId(id, b, k) else FindFree(id, b, k + 1))
      else Goto(s, t, WriteId(id, b, |s.slots|)).(slots := s.slots + seq(PIECE, _ => Free()))
    case WriteId(id, b, k) =>
      if k < |s.slots| then Goto(s, t, WriteBlock(id, b, k)).(slots := s.slots[k := s.slots[k].(id := id)]) else s
    case WriteBlock(id, b, k) =>
      if k < |s.slots| then Goto(s, t, Publish(id, b, k)).(slots := s.slots[k := s.slots[k].(block := b)]) else s
    case Publish(id, b, k) =>
      if k < |s.slots| then Goto(s, t, Unlocking(id, b)).(slots := s.slots[k := s.slots[k].(tp := t)]) else s
    case Unlocking(id, b) => Give(s, t, id, b).(lock := None)
    case Leave(k) =>
      if k < |s.slots| then
        if s.slots[k].tp == t then
          Goto(s, t, Freed(k)).(heap := s.heap - {s.slots[k].block})
        else Goto(s, t, Leave(k + 1))
      else Goto(s, t, Dead)
    case Freed(k) =>
      if k < |s.slots| then Goto(s, t, Clear(k)).(slots := s.slots[k := s.slots[k].(block := 0)]) else s
    case Clear(k) =>
      if k < |s.slots| then Goto(s, t, Leave(k + 1)).(slots := s.slots[k := s.slots[k].(tp := 0)]) else s
    case Idle => s
    case Alloc(_) => s
    case Dead => s
  }

  // ----- what every step keeps -----

  predicate HoldsLock(pc: Pc) {
    pc.FindFree? || pc.WriteId? || pc.WriteBlock? || pc.Publish? || pc.Unlocking?
  }

  predicate Leaving(pc: Pc) {
    pc.Leave? || pc.Freed? || pc.Clear? || pc.Dead?
  }

  /** The block a thread has made and not published yet. */
  function Private(pc: Pc): Block {
    match pc
    case Locking(_, b) => b
    case FindFree(_, b, _) => b
    case WriteId(_, b, _) => b
    case WriteBlock(_, b, _) => b
    case Publish(_, b, _) => b
    case _ => 0
  }

  ghost predicate LockOk(s: State) {
    && (s.lock.Some? ==> s.lock.value in s.threads)
    && forall t :: t in s.threads ==> (HoldsLock(s.threads[t].pc) <==> s.lock == Some(t))
  }

  /** A published slot whose block has not been freed. */
  ghost predicate Live(s: State, i: nat)
    requires i < |s.slots|
  {
    var x := s.slots[i];
    x.tp != 0 && x.block != 0 && !(x.tp in s.threads && s.threads[x.tp].pc == Freed(i))
  }

  /** A published slot belongs to a thread that lives, and its block is on the heap until that thread frees it. */
  ghost predicate SlotOk(s: State, i: nat)
    requires i < |s.slots|
  {
    var x := s.slots[i];
    x.tp != 0 ==>
      && x.tp in s.threads && s.threads[x.tp].pc != Dead
      && (x.block == 0 ==> s.threads[x.tp].pc == Clear(i))
      && (Live(s, i) ==> x.block in s.heap)
  }

  ghost predicate SlotsOk(s: State) {
    forall i :: 0 <= i < |s.slots| ==> SlotOk(s, i)
  }

  /** One slot for a thread and a module. */
  ghost predicate Unique(slots: seq<Slot>) {
    forall i, j :: 0 <= i < j < |slots| && slots[i].tp == slots[j].tp != 0 ==> slots[i].id != slots[j].id
  }

  ghost predicate BlocksApart(s: State) {
    forall i, j :: 0 <= i < j < |s.slots| && Live(s, i) && Live(s, j) ==> s.slots[i].block != s.slots[j].block
  }

  /** A block not published yet is nobody else's. */
  ghost predicate PrivateOk(s: State, t: Thread)
    requires t in s.threads
  {
    var b := Private(s.threads[t].pc);
    b != 0 ==>
      && b in s.heap
      && (forall i :: 0 <= i < |s.slots| && Live(s, i) ==> s.slots[i].block != b)
      && (forall u :: u in s.threads && u != t ==> Private(s.threads[u].pc) != b)
  }

  ghost predicate AllPrivate(s: State) {
    forall t :: t in s.threads ==> PrivateOk(s, t)
  }

  ghost predicate Has(slots: seq<Slot>, t: Thread, id: nat, b: Block) {
    exists i :: 0 <= i < |slots| && slots[i] == Slot(t, id, b)
  }

  ghost predicate NoOwn(slots: seq<Slot>, t: Thread, id: nat, k: nat) {
    forall i :: 0 <= i < k && i < |slots| ==> !(slots[i].tp == t && slots[i].id == id)
  }

  ghost predicate NoTp(slots: seq<Slot>, t: Thread, k: nat) {
    forall i :: 0 <= i < k && i < |slots| ==> slots[i].tp != t
  }

  /** What a thread knows of the slots at each point. */
  ghost predicate Placed(slots: seq<Slot>, t: Thread, pc: Pc) {
    match pc
    case Idle => true
    case Scan(id, k) => NoOwn(slots, t, id, k) && k <= |slots|
    case Missing(id) => NoOwn(slots, t, id, |slots|)
    case Alloc(id) => NoOwn(slots, t, id, |slots|)
    case Locking(id, b) => NoOwn(slots, t, id, |slots|) && b != 0
    case FindFree(id, b, k) => NoOwn(slots, t, id, |slots|) && b != 0 && k <= |slots|
    case WriteId(id, b, k) => NoOwn(slots, t, id, |slots|) && b != 0 && k < |slots| && slots[k].tp == 0
    case WriteBlock(id, b, k) => NoOwn(slots, t, id, |slots|) && b != 0 && k < |slots| && slots[k].tp == 0 && slots[k].id == id
    case Publish(id, b, k) => NoOwn(slots, t, id, |slots|) && b != 0 && k < |slots| && slots[k] == Slot(0, id, b)
    case Unlocking(id, b) => b != 0 && Has(slots, t, id, b)
    case Leave(k) => NoTp(slots, t, k) && k <= |slots|
    case Freed(k) => NoTp(slots, t, k) && k < |slots| && slots[k].tp == t
    case Clear(k) => NoTp(slots, t, k) && k < |slots| && slots[k].tp == t && slots[k].block == 0
    case Dead => NoTp(slots, t, |slots|)
  }

  ghost predicate AllPlaced(s: State) {
    forall t :: t in s.threads ==> Placed(s.slots, t, s.threads[t].pc)
  }

  /** What a thread that is not leaving was given is still in its slot. */
  ghost predicate Current(s: State, a: Answer) {
    && a.t in s.threads && a.epoch <= s.threads[a.t].epoch && a.block != 0
    && (a.epoch == s.threads[a.t].epoch && !Leaving(s.threads[a.t].pc) ==> Has(s.slots, a.t, a.id, a.block))
  }

  ghost predicate AllCurrent(s: State) {
    forall a :: a in s.answers ==> Current(s, a)
  }

  /** A thread is given one block for a module, always the same. */
  ghost predicate Stable(answers: set<Answer>) {
    forall a, b :: a in answers && b in answers && a.t == b.t && a.epoch == b.epoch && a.id == b.id ==> a.block == b.block
  }

  ghost predicate Inv(s: State) {
    && LockOk(s) && SlotsOk(s) && Unique(s.slots) && BlocksApart(s) && AllPrivate(s)
    && AllPlaced(s) && AllCurrent(s) && Stable(s.answers)
  }

  lemma StartInv()
    ensures Inv(Start())
  {
  }

  lemma KeepLock(s: State, a: Action)
    requires Enabled(s, a) && LockOk(s)
    ensures LockOk(Do(s, a))
  {
  }

  /** The thread is on its way out, at slot k. */
  predicate Leaves(s: State, a: Action) {
    a.Step? && a.t in s.threads && s.threads[a.t].pc.Leave?
  }

  /** A block that is freed is in no other slot. */
  lemma KeepSlotLeaving(s: State, a: Action, i: nat)
    requires Enabled(s, a) && Leaves(s, a) && BlocksApart(s) && i < |s.slots| && SlotOk(s, i)
    requires Placed(s.slots, a.t, s.threads[a.t].pc)
    ensures SlotOk(Do(s, a), i)
  {
    var k := s.threads[a.t].pc.k;
    if k < |s.slots| && s.slots[k].tp == a.t && i != k && Live(s, i) && Live(s, k) {
      assert s.slots[i].block != s.slots[k].block;
    }
  }

  lemma KeepSlotOther(s: State, a: Action, i: nat)
    requires Enabled(s, a) && !Leaves(s, a) && i < |Do(s, a).slots| && (i < |s.slots| ==> SlotOk(s, i))
    requires a.t in s.threads ==> Placed(s.slots, a.t, s.threads[a.t].pc) && PrivateOk(s, a.t)
    ensures SlotOk(Do(s, a), i)
  {
  }

  lemma KeepSlot(s: State, a: Action, i: nat)
    requires Enabled(s, a) && SlotsOk(s) && AllPlaced(s) && AllPrivate(s) && BlocksApart(s) && i < |Do(s, a).slots|
    ensures SlotOk(Do(s, a), i)
  {
    if Leaves(s, a) {
      KeepSlotLeaving(s, a, i);
    } else {
      KeepSlotOther(s, a, i);
    }
  }

  lemma KeepUnique(s: State, a: Action)
    requires Enabled(s, a) && AllPlaced(s) && Unique(s.slots)
    ensures Unique(Do(s, a).slots)
  {
  }

  /** The step that publishes slot `i`. */
  predicate Publishes(s: State, a: Action, i: nat)
    requires Enabled(s, a)
  {
    a.Step? && s.threads[a.t].pc.Publish? && s.threads[a.t].pc.k == i
  }

  /** A slot that is live was live before, with the same block, or is the one just published. */
  lemma LiveBefore(s: State, a: Action, i: nat)
    requires Enabled(s, a) && AllPlaced(s) && i < |Do(s, a).slots| && Live(Do(s, a), i)
    ensures i < |s.slots| && (Publishes(s, a, i) || (Live(s, i) && Do(s, a).slots[i].block == s.slots[i].block))
  {
    assert a.t in s.threads ==> Placed(s.slots, a.t, s.threads[a.t].pc);
  }

  lemma PublishedBlock(s: State, a: Action, i: nat)
    requires Enabled(s, a) && AllPlaced(s) && Publishes(s, a, i)
    ensures i < |Do(s, a).slots| && Do(s, a).slots[i].block == Private(s.threads[a.t].pc) != 0
  {
    assert Placed(s.slots, a.t, s.threads[a.t].pc);
  }

  lemma KeepApart(s: State, a: Action)
    requires Enabled(s, a) && AllPlaced(s) && BlocksApart(s) && AllPrivate(s)
    ensures BlocksApart(Do(s, a))
  {
    var r := Do(s, a);
    forall i, j | 0 <= i < j < |r.slots| && Live(r, i) && Live(r, j) ensures r.slots[i].block != r.slots[j].block {
      LiveBefore(s, a, i);
      LiveBefore(s, a, j);
      if Publishes(s, a, i) || Publishes(s, a, j) {
        PublishedBlock(s, a, if Publishes(s, a, i) then i else j);
        assert PrivateOk(s, a.t);
      }
    }
  }

  lemma OwnPrivate(s: State, a: Action)
    requires Enabled(s, a) && AllPlaced(s) && AllPrivate(s) && SlotsOk(s) && a.t in s.threads
    ensures PrivateOk(Do(s, a), a.t)
  {
    assert Placed(s.slots, a.t, s.threads[a.t].pc) && PrivateOk(s, a.t);
    if a.Malloc? {
      forall u | u in s.threads && u != a.t ensures Private(s.threads[u].pc) != a.b {
        assert PrivateOk(s, u);
      }
      forall i | 0 <= i < |s.slots| && Live(s, i) ensures s.slots[i].block != a.b {
        assert SlotOk(s, i);
      }
    }
  }

  lemma OtherPrivate(s: State, a: Action, u: Thread)
    requires Enabled(s, a) && AllPlaced(s) && AllPrivate(s) && u in s.threads && u != a.t
    ensures PrivateOk(Do(s, a), u)
  {
    var r, b := Do(s, a), Private(s.threads[u].pc);
    assert PrivateOk(s, u);
    if b != 0 {
      OtherPrivateStays(s, a, u);
      forall i | 0 <= i < |r.slots| && Live(r, i) ensures r.slots[i].block != b {
        LiveBefore(s, a, i);
        if Publishes(s, a, i) { PublishedBlock(s, a, i); }
      }
    }
  }

  /** The block of `u` stays on the heap, and nobody else comes to have it. */
  lemma OtherPrivateStays(s: State, a: Action, u: Thread)
    requires Enabled(s, a) && AllPlaced(s) && u in s.threads && PrivateOk(s, u) && u != a.t && Private(s.threads[u].pc) != 0
    ensures var r := Do(s, a); var b := Private(s.threads[u].pc);
            b in r.heap && forall v :: v in r.threads && v != u ==> Private(r.threads[v].pc) != b
  {
    assert a.t in s.threads ==> Placed(s.slots, a.t, s.threads[a.t].pc);
  }

  /** A published slot is changed only by its own thread. */
  lemma OthersSlotsKept(s: State, a: Action, i: nat)
    requires Enabled(s, a) && AllPlaced(s) && i < |s.slots| && s.slots[i].tp != 0 && s.slots[i].tp != a.t
    ensures i < |Do(s, a).slots| && Do(s, a).slots[i] == s.slots[i]
  {
    assert a.t in s.threads ==> Placed(s.slots, a.t, s.threads[a.t].pc);
  }

  /** Not even its own thread changes a published slot before it leaves. */
  lemma OwnSlotsKept(s: State, a: Action, i: nat)
    requires Enabled(s, a) && AllPlaced(s) && i < |s.slots| && s.slots[i].tp == a.t && a.t in s.threads
    requires !Leaving(s.threads[a.t].pc)
    ensures i < |Do(s, a).slots| && Do(s, a).slots[i] == s.slots[i]
  {
    assert Placed(s.slots, a.t, s.threads[a.t].pc);
  }

  lemma HasKept(s: State, a: Action, t: Thread, id: nat, b: Block)
    requires Enabled(s, a) && AllPlaced(s) && Has(s.slots, t, id, b)
    requires t == a.t ==> t in s.threads && !Leaving(s.threads[t].pc)
    ensures Has(Do(s, a).slots, t, id, b)
  {
    var i :| 0 <= i < |s.slots| && s.slots[i] == Slot(t, id, b);
    if t == a.t { OwnSlotsKept(s, a, i); } else { OthersSlotsKept(s, a, i); }
  }

  lemma PublishedHas(s: State, t: Thread)
    requires t in s.threads && s.threads[t].pc.Publish? && Placed(s.slots, t, s.threads[t].pc)
    ensures var pc := s.threads[t].pc; Has(Move(s, t).slots, t, pc.id, pc.b)
  {
    assert Move(s, t).slots[s.threads[t].pc.k] == Slot(t, s.threads[t].pc.id, s.threads[t].pc.b);
  }

  lemma OwnPlaced(s: State, a: Action)
    requires Enabled(s, a) && AllPlaced(s) && a.t in s.threads
    ensures Placed(Do(s, a).slots, a.t, Do(s, a).threads[a.t].pc)
  {
    assert Placed(s.slots, a.t, s.threads[a.t].pc);
    if a.Step? && s.threads[a.t].pc.Publish? {
      PublishedHas(s, a.t);
    }
  }

  lemma OtherPlaced(s: State, a: Action, u: Thread)
    requires Enabled(s, a) && AllPlaced(s) && LockOk(s) && u != a.t && u in s.threads
    ensures Placed(Do(s, a).slots, u, s.threads[u].pc)
  {
    assert Placed(s.slots, u, s.threads[u].pc);
    assert a.t in s.threads ==> Placed(s.slots, a.t, s.threads[a.t].pc);
    var pc := s.threads[u].pc;
    if pc.Unlocking? {
      HasKept(s, a, u, pc.id, pc.b);
    }
  }

  /** A thread that leaves does not come back: the next one has a new epoch. */
  lemma StaysAway(s: State, a: Action, u: Thread)
    requires Enabled(s, a) && u in s.threads
    ensures u in Do(s, a).threads && Do(s, a).threads[u].epoch >= s.threads[u].epoch
    ensures Do(s, a).threads[u].epoch == s.threads[u].epoch && !Leaving(Do(s, a).threads[u].pc) ==> !Leaving(s.threads[u].pc)
  {
  }

  lemma KeepCurrent(s: State, a: Action, x: Answer)
    requires Enabled(s, a) && AllPlaced(s) && Current(s, x)
    ensures Current(Do(s, a), x)
  {
    StaysAway(s, a, x.t);
    if x.epoch == s.threads[x.t].epoch && !Leaving(s.threads[x.t].pc) {
      HasKept(s, a, x.t, x.id, x.block);
    }
  }

  lemma NewCurrent(s: State, a: Action, x: Answer)
    requires Enabled(s, a) && AllPlaced(s) && SlotsOk(s) && x in Do(s, a).answers && x !in s.answers
    ensures Current(Do(s, a), x)
  {
    var pc := s.threads[a.t].pc;
    assert Placed(s.slots, a.t, pc);
    if pc.Scan? {
      assert SlotOk(s, pc.k);
      assert s.slots[pc.k] == Slot(x.t, x.id, x.block);
    }
  }

  lemma NewAgrees(s: State, a: Action, x: Answer, y: Answer)
    requires Enabled(s, a) && AllPlaced(s) && Unique(s.slots) && x in Do(s, a).answers && x !in s.answers
    requires Current(s, y) && y.t == x.t && y.epoch == x.epoch && y.id == x.id
    ensures y.block == x.block
  {
    var pc := s.threads[a.t].pc;
    assert Placed(s.slots, a.t, pc);
    assert Has(s.slots, y.t, y.id, y.block);
    var i :| 0 <= i < |s.slots| && s.slots[i] == Slot(y.t, y.id, y.block);
    var j := i;
    if pc.Scan? {
      j := pc.k;
    } else {
      j :| 0 <= j < |s.slots| && s.slots[j] == Slot(x.t, x.id, x.block);
    }
    assert i == j;
  }

  lemma KeepStable(s: State, a: Action)
    requires Enabled(s, a) && AllPlaced(s) && AllCurrent(s) && Stable(s.answers) && Unique(s.slots)
    ensures Stable(Do(s, a).answers)
  {
    var r := Do(s, a).answers;
    forall x, y | x in r && y in r && x.t == y.t && x.epoch == y.epoch && x.id == y.id
      ensures x.block == y.block
    {
      if x !in s.answers && y in s.answers { NewAgrees(s, a, x, y); }
      if y !in s.answers && x in s.answers { NewAgrees(s, a, y, x); }
    }
  }

  lemma KeepAll(s: State, a: Action)
    requires Enabled(s, a) && LockOk(s) && SlotsOk(s) && BlocksApart(s) && AllPrivate(s) && AllPlaced(s)
    ensures SlotsOk(Do(s, a)) && AllPrivate(Do(s, a)) && AllPlaced(Do(s, a))
  {
    var r := Do(s, a);
    forall i | 0 <= i < |r.slots| ensures SlotOk(r, i) {
      KeepSlot(s, a, i);
    }
    forall u | u in r.threads ensures PrivateOk(r, u) && Placed(r.slots, u, r.threads[u].pc) {
      if u != a.t {
        OtherPrivate(s, a, u);
        OtherPlaced(s, a, u);
      } else if u in s.threads {
        OwnPrivate(s, a);
        OwnPlaced(s, a);
      }
    }
  }

  lemma KeepAllCurrent(s: State, a: Action)
    requires Enabled(s, a) && SlotsOk(s) && AllPlaced(s) && AllCurrent(s)
    ensures AllCurrent(Do(s, a))
  {
    forall x | x in Do(s, a).answers ensures Current(Do(s, a), x) {
      if x in s.answers { KeepCurrent(s, a, x); } else { NewCurrent(s, a, x); }
    }
  }

  lemma KeepInv(s: State, a: Action)
    requires Enabled(s, a) && Inv(s)
    ensures Inv(Do(s, a))
  {
    KeepLock(s, a);
    KeepAll(s, a);
    KeepUnique(s, a);
    KeepApart(s, a);
    KeepAllCurrent(s, a);
    KeepStable(s, a);
  }

  // ----- every run -----

  predicate CanRun(s: State, run: seq<Action>)
    decreases run
  {
    run == [] || (Enabled(s, run[0]) && CanRun(Do(s, run[0]), run[1..]))
  }

  function After(s: State, run: seq<Action>): State
    requires CanRun(s, run)
    decreases run
  {
    if run == [] then s else After(Do(s, run[0]), run[1..])
  }

  lemma {:induction false} RunKeepsInv(s: State, run: seq<Action>)
    requires Inv(s) && CanRun(s, run)
    ensures Inv(After(s, run))
    decreases run
  {
    if run != [] {
      KeepInv(s, run[0]);
      RunKeepsInv(Do(s, run[0]), run[1..]);
    }
  }

  /** The thread that got this answer is still there and is not leaving. */
  predicate Alive(s: State, x: Answer) {
    x.t in s.threads && x.epoch == s.threads[x.t].epoch && !Leaving(s.threads[x.t].pc)
  }

  /** What live threads were given is on the heap, and no two of them, or two modules of one, share a block. */
  ghost predicate Apart(s: State) {
    && (forall x :: x in s.answers && Alive(s, x) ==> x.block in s.heap)
    && (forall x, y :: x in s.answers && y in s.answers && Alive(s, x) && Alive(s, y) && (x.t != y.t || x.id != y.id) ==> x.block != y.block)
  }

  lemma InvApart(s: State)
    requires Inv(s)
    ensures Apart(s)
  {
    forall x | x in s.answers && Alive(s, x) ensures x.block in s.heap {
      assert Current(s, x);
      var i :| 0 <= i < |s.slots| && s.slots[i] == Slot(x.t, x.id, x.block);
      assert SlotOk(s, i);
    }
    forall x, y | x in s.answers && y in s.answers && Alive(s, x) && Alive(s, y) && (x.t != y.t || x.id != y.id)
      ensures x.block != y.block
    {
      assert Current(s, x) && Current(s, y);
      var i :| 0 <= i < |s.slots| && s.slots[i] == Slot(x.t, x.id, x.block);
      var j :| 0 <= j < |s.slots| && s.slots[j] == Slot(y.t, y.id, y.block);
    }
  }

  /** In every run a thread always gets the same block for a module, and blocks of live threads are apart. */
  lemma RunSafe(run: seq<Action>)
    requires CanRun(Start(), run)
    ensures Stable(After(Start(), run).answers) && Apart(After(Start(), run))
  {
    StartInv();
    RunKeepsInv(Start(), run);
    InvApart(After(Start(), run));
  }
}
