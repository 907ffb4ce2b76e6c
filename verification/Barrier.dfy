/**
  pthread_barrier_wait as a state machine: every statement between the lock
  and the unlock is a step of its own, any number of threads interleave, and a
  thread blocked on the condition may wake for no reason.

  A call of pthread_barrier_wait is named by its thread and its number among
  the calls of that thread. The history fields (`members`, `last`, `arrived`,
  `returned`) record what happened; no step reads them. The round counter is
  unbounded.
  */
module Barrier {
  import opened Common

  type Thread = nat
  type Wait = (Thread, nat)

  datatype Pc =
    | Idle
    | Locking                     // pthread_mutex_lock at the start
    | Reading                     // mio = giro
    | Counting                    // ++arrivati == quanti
    | Resetting | Bumping | Broadcasting | LeavingSerial
    | Testing                     // mio == giro
    | Asleep | Awake              // inside pthread_cond_wait: blocked, or waiting for the mutex again
    | Leaving

  datatype Local = Local(pc: Pc, mine: nat, calls: nat)

  datatype Ret = Ret(round: nat, serial: bool)

  datatype State = State(
    // the barrier
    needed: nat, count: nat, round: nat, mutex: Option<Thread>,
    threads: map<Thread, Local>,
    // history
    members: map<nat, set<Wait>>, last: map<nat, Wait>, arrived: set<Wait>, returned: map<Wait, Ret>)

  datatype Action =
    | Call(t: Thread) | Lock(t: Thread) | Read(t: Thread) | Count(t: Thread)
    | Reset(t: Thread) | Bump(t: Thread) | Broadcast(t: Thread)
    | Test(t: Thread) | Wake(t: Thread) | Relock(t: Thread) | Unlock(t: Thread)

  /** pthread_barrier_init: refused for 0 threads, else nobody has arrived in round 0. */
  function Init(needed: nat, all: set<Thread>): Option<State> {
    if needed == 0 then None
    else Some(State(needed, 0, 0, None, map t | t in all :: Local(Idle, 0, 0), map[], map[], {}, map[]))
  }

  /** The waits that arrived in round `k`. */
  function Of(members: map<nat, set<Wait>>, k: nat): set<Wait> {
    if k in members then members[k] else {}
  }

  function Current(s: State, t: Thread): Wait
    requires t in s.threads
  {
    (t, s.threads[t].calls)
  }

  predicate Holds(pc: Pc) {
    pc in {Reading, Counting, Resetting, Bumping, Broadcasting, LeavingSerial, Testing, Leaving}
  }

  predicate Enabled(s: State, a: Action) {
    && a.t in s.threads
    && var pc := s.threads[a.t].pc;
       match a
       case Call(_) => pc == Idle
       case Lock(_) => pc == Locking && s.mutex == None
       case Read(_) => pc == Reading
       case Count(_) => pc == Counting
       case Reset(_) => pc == Resetting
       case Bump(_) => pc == Bumping
       case Broadcast(_) => pc == Broadcasting
       case Test(_) => pc == Testing
       case Wake(_) => pc == Asleep
       case Relock(_) => pc == Awake && s.mutex == None
       case Unlock(_) => pc == Leaving || pc == LeavingSerial
  }

  function Goto(s: State, t: Thread, pc: Pc): State
    requires t in s.threads
  {
    s.(threads := s.threads[t := s.threads[t].(pc := pc)])
  }

  function Do(s: State, a: Action): State
    requires Enabled(s, a)
  {
    var t := a.t;
    var me := s.threads[t];
    match a
    case Call(_) => s.(threads := s.threads[t := me.(pc := Locking, calls := me.calls + 1)])
    case Lock(_) => Goto(s, t, Reading).(mutex := Some(t))
    case Read(_) => s.(threads := s.threads[t := me.(pc := Counting, mine := s.round)])
    case Count(_) =>
      var w := Current(s, t);
      var s1 := s.(count := s.count + 1, arrived := s.arrived + {w},
                   members := s.members[me.mine := Of(s.members, me.mine) + {w}]);
      if s1.count == s.needed then Goto(s1, t, Resetting).(last := s.last[me.mine := w])
      else Goto(s1, t, Testing)
    case Reset(_) => Goto(s, t, Bumping).(count := 0)
    case Bump(_) => Goto(s, t, Broadcasting).(round := s.round + 1)
    case Broadcast(_) =>
      Goto(s.(threads := map u | u in s.threads ::
             if s.threads[u].pc == Asleep then s.threads[u].(pc := Awake) else s.threads[u]), t, LeavingSerial)
    case Test(_) =>
      if me.mine == s.round then Goto(s, t, Asleep).(mutex := None)     // pthread_cond_wait lets the mutex go
      else Goto(s, t, Leaving)
    case Wake(_) => Goto(s, t, Awake)
    case Relock(_) => Goto(s, t, Testing).(mutex := Some(t))
    case Unlock(_) =>
      Goto(s, t, Idle).(mutex := None, returned := s.returned[Current(s, t) := Ret(me.mine, me.pc == LeavingSerial)])
  }

  // ----- what every step keeps -----

  function HolderPc(s: State): Pc {
    if s.mutex.Some? && s.mutex.value in s.threads then s.threads[s.mutex.value].pc else Idle
  }

  /** The mutex excludes: the thread that holds it is the one inside. */
  ghost predicate Exclusive(s: State) {
    && (s.mutex.Some? ==> s.mutex.value in s.threads)
    && forall t :: t in s.threads ==> (Holds(s.threads[t].pc) <==> s.mutex == Some(t))
  }

  /** How many have arrived in which round. */
  ghost predicate Counted(s: State) {
    var h := HolderPc(s);
    && s.needed > 0
    && s.count == (if h == Resetting then s.needed else if h == Bumping then 0 else |Of(s.members, s.round)|)
    && (h == Resetting || h == Bumping ==> |Of(s.members, s.round)| == s.needed)
    && (h != Resetting && h != Bumping ==> |Of(s.members, s.round)| < s.needed)
    && (forall k :: 0 <= k < s.round ==> |Of(s.members, k)| == s.needed)
    && (forall k :: k > s.round ==> Of(s.members, k) == {})
    && |s.arrived| == s.needed * s.round + |Of(s.members, s.round)|
  }

  /** A wait arrives once. */
  ghost predicate Once(s: State) {
    && (forall k: nat, w :: w in Of(s.members, k) ==> w in s.arrived)
    && (forall k: nat, l: nat, w :: w in Of(s.members, k) && w in Of(s.members, l) ==> k == l)
    && (forall w :: w in s.arrived ==> w.0 in s.threads && w.1 <= s.threads[w.0].calls)
    && (forall t :: t in s.threads && s.threads[t].pc in {Locking, Reading, Counting} ==> Current(s, t) !in s.arrived)
  }

  ghost predicate HasLast(s: State, k: nat) {
    k < s.round || (k == s.round && HolderPc(s) in {Resetting, Bumping})
  }

  /** A member of round `k` that was not its last. */
  ghost predicate Follower(members: map<nat, set<Wait>>, last: map<nat, Wait>, w: Wait, k: nat) {
    w in Of(members, k) && (k in last ==> last[k] != w)
  }

  /** The member of round `k` that filled it. */
  ghost predicate Leader(members: map<nat, set<Wait>>, last: map<nat, Wait>, w: Wait, k: nat) {
    w in Of(members, k) && k in last && last[k] == w
  }

  /** What one thread inside a wait knows about its round. */
  ghost predicate Placed(s: State, t: Thread)
    requires t in s.threads
  {
    var me := s.threads[t];
    var w := Current(s, t);
    && (me.pc in {Testing, Awake, Asleep, Leaving} ==> Follower(s.members, s.last, w, me.mine) && me.mine <= s.round)
    && (me.pc in {Resetting, Bumping, Broadcasting, LeavingSerial} ==> Leader(s.members, s.last, w, me.mine))
    && (me.pc in {Counting, Resetting, Bumping} ==> me.mine == s.round)
    && (me.pc in {Broadcasting, LeavingSerial} ==> me.mine + 1 == s.round)
    && (me.pc == Leaving ==> me.mine < s.round)
    && (me.pc == Asleep ==> s.round == if HolderPc(s) == Broadcasting then me.mine + 1 else me.mine)
  }

  /** A round has a last arrival once it is full, and that is a member of it. */
  ghost predicate Leaders(s: State) {
    && (forall k :: k in s.last <==> HasLast(s, k))
    && (forall k :: k in s.last ==> s.last[k] in Of(s.members, k))
  }

  /** Who returned was in a full round, and only the one that filled it got the serial value. */
  ghost predicate Returns(s: State) {
    forall w :: w in s.returned ==>
      var r := s.returned[w];
      && r.round < s.round && w in Of(s.members, r.round)
      && r.round in s.last && (r.serial <==> s.last[r.round] == w)
  }

  predicate Inside(me: Local, k: nat) {
    me.mine == k && me.pc !in {Idle, Locking, Reading, Counting}
  }

  /** Who arrived is still inside, or has returned from that round. */
  ghost predicate Kept(s: State, w: Wait, k: nat) {
    || (w in s.returned && s.returned[w].round == k)
    || (w.0 in s.threads && w.1 == s.threads[w.0].calls && Inside(s.threads[w.0], k))
  }

  ghost predicate NoneLost(s: State) {
    forall k: nat, w :: w in Of(s.members, k) ==> Kept(s, w, k)
  }

  ghost predicate AllPlaced(s: State) {
    forall t :: t in s.threads ==> Placed(s, t)
  }

  ghost predicate Inv(s: State) {
    && Exclusive(s) && Counted(s) && Once(s) && Leaders(s) && Returns(s) && NoneLost(s)
    && AllPlaced(s)
  }

  lemma InitInv(needed: nat, all: set<Thread>)
    requires needed > 0
    ensures Inv(Init(needed, all).value)
  {
  }

  lemma KeepExclusive(s: State, a: Action)
    requires Enabled(s, a) && Exclusive(s)
    ensures Exclusive(Do(s, a))
  {
  }

  lemma KeepCounted(s: State, a: Action)
    requires !a.Count? && !a.Bump? && Enabled(s, a) && Exclusive(s) && Counted(s) && Placed(s, a.t)
    ensures Counted(Do(s, a))
  {
  }

  lemma BumpCounted(s: State, a: Action)
    requires a.Bump? && Enabled(s, a) && Exclusive(s) && Counted(s)
    ensures Counted(Do(s, a))
  {
  }

  lemma KeepOnce(s: State, a: Action)
    requires !a.Count? && Enabled(s, a) && Once(s)
    ensures Once(Do(s, a))
  {
    var s' := Do(s, a);
    CallsGrow(s, a);
    forall t | t in s'.threads && s'.threads[t].pc in {Locking, Reading, Counting} ensures Current(s', t) !in s'.arrived {
      if a.Call? && t == a.t { assert s'.threads[t].calls > s.threads[t].calls; }
    }
  }

  /** No thread goes away, and the number of its calls does not fall. */
  lemma CallsGrow(s: State, a: Action)
    requires Enabled(s, a)
    ensures forall t :: t in s.threads ==> t in Do(s, a).threads && s.threads[t].calls <= Do(s, a).threads[t].calls
  {
  }

  lemma KeepLeaders(s: State, a: Action)
    requires !a.Count? && Enabled(s, a) && Exclusive(s) && Leaders(s) && Placed(s, a.t)
    ensures Leaders(Do(s, a))
  {
  }

  lemma KeepReturns(s: State, a: Action)
    requires !a.Count? && Enabled(s, a) && Returns(s) && Placed(s, a.t) && Leaders(s)
    ensures Returns(Do(s, a))
  {
  }

  lemma KeepNoneLost(s: State, a: Action)
    requires !a.Count? && Enabled(s, a) && NoneLost(s) && Returns(s) && Once(s) && Placed(s, a.t)
    ensures NoneLost(Do(s, a))
  {
  }

  /** Counting adds the wait to the members of the current round and to no other. */
  lemma CountMembers(s: State, a: Action, k: nat)
    requires a.Count? && Enabled(s, a) && Placed(s, a.t)
    ensures Of(Do(s, a).members, k) == Of(s.members, k) + if k == s.round then {Current(s, a.t)} else {}
  {
  }

  lemma CountCounted(s: State, a: Action)
    requires a.Count? && Enabled(s, a) && Exclusive(s) && Counted(s) && Once(s) && Placed(s, a.t)
    ensures Counted(Do(s, a))
  {
    var s', w := Do(s, a), Current(s, a.t);
    CountHolder(s, a);
    CountMembers(s, a, s.round);
    assert w !in s.arrived && w !in Of(s.members, s.round);
    assert |Of(s'.members, s.round)| == |Of(s.members, s.round)| + 1;
    forall k: nat ensures k != s.round ==> Of(s'.members, k) == Of(s.members, k) {
      CountMembers(s, a, k);
    }
  }

  lemma CountHolder(s: State, a: Action)
    requires a.Count? && Enabled(s, a) && Exclusive(s)
    ensures HolderPc(s) == Counting && HolderPc(Do(s, a)) == if s.count + 1 == s.needed then Resetting else Testing
    ensures var s' := Do(s, a); s'.round == s.round && s'.needed == s.needed && s'.count == s.count + 1
  {
  }

  lemma CountOnce(s: State, a: Action)
    requires a.Count? && Enabled(s, a) && Once(s) && Placed(s, a.t)
    ensures Once(Do(s, a))
  {
    var s' := Do(s, a);
    forall k: nat, w | w in Of(s'.members, k)
      ensures w in s'.arrived && (w == Current(s, a.t) ==> k == s.round)
    {
      CountMembers(s, a, k);
    }
    forall k: nat, l: nat, w | w in Of(s'.members, k) && w in Of(s'.members, l)
      ensures k == l
    {
      CountMembers(s, a, k);
      CountMembers(s, a, l);
    }
  }

  lemma CountLeaders(s: State, a: Action)
    requires a.Count? && Enabled(s, a) && Exclusive(s) && Leaders(s) && Placed(s, a.t)
    ensures Leaders(Do(s, a))
  {
    var s' := Do(s, a);
    assert HolderPc(s') == s'.threads[a.t].pc && s'.round == s.round;
    forall k | k in s'.last
      ensures s'.last[k] in Of(s'.members, k)
    {
      CountMembers(s, a, k);
    }
  }

  lemma CountReturns(s: State, a: Action)
    requires a.Count? && Enabled(s, a) && Returns(s) && Placed(s, a.t)
    ensures Returns(Do(s, a))
  {
    forall w | w in s.returned
      ensures w in Of(Do(s, a).members, s.returned[w].round)
    {
      CountMembers(s, a, s.returned[w].round);
    }
  }

  lemma CountNoneLost(s: State, a: Action)
    requires a.Count? && Enabled(s, a) && NoneLost(s) && Placed(s, a.t)
    ensures NoneLost(Do(s, a))
  {
    var s' := Do(s, a);
    forall k: nat, w | w in Of(s'.members, k)
      ensures Kept(s', w, k)
    {
      CountMembers(s, a, k);
    }
  }

  lemma KeepOwnPlace(s: State, a: Action)
    requires Enabled(s, a) && Exclusive(s) && Leaders(s) && Placed(s, a.t)
    ensures a.t in Do(s, a).threads && Placed(Do(s, a), a.t)
  {
  }

  lemma KeepOtherPlace(s: State, a: Action, t: Thread)
    requires Enabled(s, a) && Exclusive(s) && Placed(s, a.t) && t in s.threads && t != a.t && Placed(s, t)
    ensures t in Do(s, a).threads && Placed(Do(s, a), t)
  {
  }

  lemma KeepAllPlaced(s: State, a: Action)
    requires Enabled(s, a) && Exclusive(s) && Leaders(s) && AllPlaced(s)
    ensures AllPlaced(Do(s, a))
  {
    KeepOwnPlace(s, a);
    forall t | t in Do(s, a).threads && t != a.t ensures Placed(Do(s, a), t) {
      KeepOtherPlace(s, a, t);
    }
  }

  lemma KeepHistory(s: State, a: Action)
    requires Enabled(s, a) && Exclusive(s) && Placed(s, a.t)
    requires Counted(s) && Once(s) && Leaders(s) && Returns(s) && NoneLost(s)
    ensures Counted(Do(s, a)) && Once(Do(s, a)) && Leaders(Do(s, a)) && Returns(Do(s, a)) && NoneLost(Do(s, a))
  {
    if a.Count? {
      CountCounted(s, a);
      CountOnce(s, a);
      CountLeaders(s, a);
      CountReturns(s, a);
      CountNoneLost(s, a);
    } else {
      if a.Bump? { BumpCounted(s, a); } else { KeepCounted(s, a); }
      KeepOnce(s, a);
      KeepLeaders(s, a);
      KeepReturns(s, a);
      KeepNoneLost(s, a);
    }
  }

  lemma KeepInv(s: State, a: Action)
    requires Enabled(s, a) && Inv(s)
    ensures Inv(Do(s, a)) && Do(s, a).needed == s.needed
  {
    KeepExclusive(s, a);
    KeepHistory(s, a);
    KeepAllPlaced(s, a);
  }

  // ----- every run -----

  predicate CanRun(s: State, run: seq<Action>)
    decreases run
  {
    run == [] || (Enabled(s, run[0]) && CanRun(Do(s, run[0]), run[1..]))
  }

  function After(s: State, run: seq<Action>): State
    requires CanRun(s, run)
    decreases run
  {
    if run == [] then s else After(Do(s, run[0]), run[1..])
  }

  lemma {:induction false} RunKeepsInv(s: State, run: seq<Action>)
    requires Inv(s) && CanRun(s, run)
    ensures Inv(After(s, run)) && After(s, run).needed == s.needed
    decreases run
  {
    if run != [] {
      KeepInv(s, run[0]);
      RunKeepsInv(Do(s, run[0]), run[1..]);
    }
  }

  /**
    What callers of the barrier see, in every run of any number of threads:
    nobody returns from a round before it has `needed` arrivals, every finished
    round has exactly that many, and a return value is the serial one just for
    the wait that filled its round.
    */
  ghost predicate Safe(s: State) {
    FullRounds(s) && SerialOnce(s) && (s.mutex == None ==> Balanced(s))
  }

  ghost predicate FullRounds(s: State) {
    && (forall k: nat :: |Of(s.members, k)| <= s.needed)
    && forall w :: w in s.returned ==>
         w in Of(s.members, s.returned[w].round) && |Of(s.members, s.returned[w].round)| == s.needed
  }

  ghost predicate SerialOnce(s: State) {
    forall w, v ::
      (&& w in s.returned && v in s.returned && s.returned[w].serial && s.returned[v].serial
       && s.returned[w].round == s.returned[v].round)
      ==> w == v
  }

  /** Every arrival is counted: in a full round, or among those of this one. */
  predicate Balanced(s: State) {
    s.count < s.needed && |s.arrived| == s.needed * s.round + s.count
  }

  ghost predicate AllReturned(s: State, k: nat) {
    forall w :: w in Of(s.members, k) ==> w in s.returned && s.returned[w].round == k
  }

  /** Exactly one wait of the round got the serial value. */
  ghost predicate OneSerial(s: State, k: nat) {
    exists w :: w in Of(s.members, k) && w in s.returned && s.returned[w].serial
      && forall v :: v in Of(s.members, k) && v in s.returned && s.returned[v].serial ==> v == w
  }

  lemma AllFull(s: State)
    requires Counted(s) && Returns(s)
    ensures FullRounds(s)
  {
    forall k: nat ensures |Of(s.members, k)| <= s.needed {
    }
  }

  lemma AllSerialOnce(s: State)
    requires Returns(s)
    ensures SerialOnce(s)
  {
  }

  lemma InvSafe(s: State)
    requires Inv(s)
    ensures Safe(s)
  {
    AllFull(s);
    AllSerialOnce(s);
  }

  /** A full round whose members have all returned had exactly one serial return. */
  lemma RoundDone(s: State, k: nat)
    requires Inv(s) && k < s.round && AllReturned(s, k)
    ensures OneSerial(s, k) && |Of(s.members, k)| == s.needed
  {
    assert HasLast(s, k);
    var w := s.last[k];
    assert w in Of(s.members, k) && w in s.returned && s.returned[w].serial;
  }

  lemma RunSafe(needed: nat, all: set<Thread>, run: seq<Action>)
    requires needed > 0 && CanRun(Init(needed, all).value, run)
    ensures Safe(After(Init(needed, all).value, run))
  {
    InitInv(needed, all);
    RunKeepsInv(Init(needed, all).value, run);
    InvSafe(After(Init(needed, all).value, run));
  }

  // ----- nobody is left asleep -----

  /** The steps a thread takes by itself: not a new call, and not a wake-up nobody asked for. */
  predicate Own(a: Action) {
    !a.Call? && !a.Wake?
  }

  ghost predicate Quiet(s: State) {
    forall a: Action :: Own(a) ==> !Enabled(s, a)
  }

  /** How many steps of its own a thread can still take. */
  function Weight(me: Local, round: nat): nat {
    match me.pc
    case Idle => 0
    case Locking => 11
    case Reading => 10
    case Counting => 9
    case Resetting => 8
    case Bumping => 7
    case Broadcasting => 6
    case LeavingSerial => 2
    case Awake => if me.mine == round then 8 else 4
    case Testing => if me.mine == round then 7 else 3
    case Asleep => 5
    case Leaving => 2
  }

  ghost function Pick(ts: set<Thread>): (t: Thread)
    requires ts != {}
    ensures t in ts
  {
    var t :| t in ts; t
  }

  ghost function Total(ts: set<Thread>, threads: map<Thread, Local>, round: nat): nat
    requires ts <= threads.Keys
  {
    if ts == {} then 0 else Weight(threads[Pick(ts)], round) + Total(ts - {Pick(ts)}, threads, round)
  }

  lemma {:induction false} TotalDrops(ts: set<Thread>, a: map<Thread, Local>, r: nat, b: map<Thread, Local>, q: nat, t: Thread)
    requires ts <= a.Keys && ts <= b.Keys
    requires forall u :: u in ts && u != t ==> Weight(b[u], q) <= Weight(a[u], r)
    requires t in ts ==> Weight(b[t], q) < Weight(a[t], r)
    ensures Total(ts, b, q) <= Total(ts, a, r)
    ensures t in ts ==> Total(ts, b, q) < Total(ts, a, r)
    decreases ts
  {
    if ts != {} {
      TotalDrops(ts - {Pick(ts)}, a, r, b, q, t);
    }
  }

  ghost function Left(s: State): nat {
    Total(s.threads.Keys, s.threads, s.round)
  }

  lemma OwnWeightDrops(s: State, a: Action)
    requires Exclusive(s) && Enabled(s, a) && Own(a) && Placed(s, a.t)
    ensures Do(s, a).threads.Keys == s.threads.Keys
    ensures Weight(Do(s, a).threads[a.t], Do(s, a).round) < Weight(s.threads[a.t], s.round)
  {
    if a.Broadcast? {
      assert Do(s, a).threads[a.t].pc == LeavingSerial;
    } else {
      OneThreadMoves(s, a);
      MoverWeightDrops(s, a);
    }
  }

  /** Every step but the broadcast changes one thread. */
  lemma OneThreadMoves(s: State, a: Action)
    requires Enabled(s, a) && !a.Broadcast?
    ensures a.t in s.threads && Do(s, a).threads == s.threads[a.t := Do(s, a).threads[a.t]]
  {
  }

  lemma MoverWeightDrops(s: State, a: Action)
    requires Exclusive(s) && Enabled(s, a) && Own(a) && Placed(s, a.t) && !a.Broadcast?
    ensures a.t in Do(s, a).threads && Weight(Do(s, a).threads[a.t], Do(s, a).round) < Weight(s.threads[a.t], s.round)
  {
  }

  lemma OtherWeightsKeep(s: State, a: Action, u: Thread)
    requires Exclusive(s) && Enabled(s, a) && Own(a) && Placed(s, a.t) && u in s.threads && Placed(s, u) && u != a.t
    ensures u in Do(s, a).threads
    ensures Weight(Do(s, a).threads[u], Do(s, a).round) <= Weight(s.threads[u], s.round)
  {
  }

  lemma OwnStepDrops(s: State, a: Action)
    requires Exclusive(s) && AllPlaced(s) && Enabled(s, a) && Own(a)
    ensures Left(Do(s, a)) < Left(s)
  {
    var s' := Do(s, a);
    OwnWeightDrops(s, a);
    forall u | u in s.threads && u != a.t
      ensures Weight(s'.threads[u], s'.round) <= Weight(s.threads[u], s.round)
    {
      OtherWeightsKeep(s, a, u);
    }
    TotalDrops(s.threads.Keys, s.threads, s.round, s'.threads, s'.round, a.t);
  }

  /** Without new calls and stray wake-ups a run comes to an end. */
  lemma {:induction false} Settles(s: State, run: seq<Action>)
    requires Inv(s) && CanRun(s, run) && forall i :: 0 <= i < |run| ==> Own(run[i])
    ensures |run| <= Left(s)
    decreases run
  {
    if run != [] {
      assert Own(run[0]);
      OwnStepDrops(s, run[0]);
      KeepInv(s, run[0]);
      Settles(Do(s, run[0]), run[1..]);
    }
  }

  lemma QuietThread(s: State, t: Thread)
    requires Exclusive(s) && Quiet(s) && t in s.threads
    ensures s.threads[t].pc in {Idle, Asleep, Locking, Awake}
    ensures s.threads[t].pc in {Locking, Awake} ==> s.mutex.Some?
  {
    assert !Enabled(s, Lock(t)) && !Enabled(s, Read(t)) && !Enabled(s, Count(t)) && !Enabled(s, Reset(t))
        && !Enabled(s, Bump(t)) && !Enabled(s, Broadcast(t)) && !Enabled(s, Test(t)) && !Enabled(s, Relock(t))
        && !Enabled(s, Unlock(t));
  }

  lemma QuietFree(s: State)
    requires Exclusive(s) && Quiet(s)
    ensures s.mutex == None
  {
    if s.mutex.Some? {
      QuietThread(s, s.mutex.value);
    }
  }

  /**
    When nothing can move, nobody is left behind: the mutex is free, every
    member of every full round has returned, one of them with the serial
    value, and whoever still sleeps waits for a round that lacks arrivals.
    */
  lemma QuietMeans(s: State)
    requires Inv(s) && Quiet(s)
    ensures s.mutex == None && s.count < s.needed
    ensures forall k: nat :: k < s.round ==> AllReturned(s, k) && OneSerial(s, k)
    ensures forall t :: t in s.threads ==>
              s.threads[t].pc == Idle || (s.threads[t].pc == Asleep && s.threads[t].mine == s.round)
  {
    QuietFree(s);
    forall t | t in s.threads
      ensures s.threads[t].pc == Idle || (s.threads[t].pc == Asleep && s.threads[t].mine == s.round)
    {
      QuietThread(s, t);
      assert Placed(s, t);
    }
    forall k: nat | k < s.round ensures AllReturned(s, k) && OneSerial(s, k) {
      forall w | w in Of(s.members, k) ensures w in s.returned && s.returned[w].round == k {
        assert Kept(s, w, k);
      }
      RoundDone(s, k);
    }
  }
}
