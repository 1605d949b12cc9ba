/**
 seminar3/test_mutex.c run by the green-thread library: `main` creates any number of
 threads and joins them; each thread adds to two counters, under the mutex, as often as
 the loop count says. An increment is a load and a store, and the timer may interrupt
 user code anywhere.
 */
module TestMutex {
  import opened Options
  import opened GreenModel
  import opened GreenInvariant
  import opened GreenRuns

  /** Where `main` or a thread running `test` is in its own code. */
  datatype Pc =
    | Spawn(created: nat)
    | Await(awaited: nat)
    | Finished
    | Head
    | LoadOwn
    | StoreOwn
    | LoadShared
    | StoreShared
    | Leave
    | Ended

  /** The program point, the loop counter, and the value last loaded. */
  datatype Local = Local(pc: Pc, i: nat, reg: int)

  datatype Counters = Counters(zero: int, one: int, two: int, shared: int)

  datatype Sys = Sys(s: State, locals: seq<Local>, c: Counters)

  /** `Preempt` is a timer interrupt. */
  datatype Act = Client | Preempt | Continue

  /** Thread t was created with argument t - 1. */
  function Own(c: Counters, t: nat): int {
    if t == 1 then c.zero else if t == 2 then c.one else c.two
  }

  function SetOwn(c: Counters, t: nat, v: int): Counters {
    if t == 1 then c.(zero := v) else if t == 2 then c.(one := v) else c.(two := v)
  }

  function Start(): Sys {
    Sys(Init(1, 0), [Local(Spawn(0), 0, 0)], Counters(0, 0, 0, 0))
  }

  /** The library call that the running thread makes next in its own code, if its next action is one. */
  function Call(y: Sys, n: nat, loop: nat): Option<Op>
    requires y.s.running.Some? && y.s.running.value < |y.locals|
  {
    var l := y.locals[y.s.running.value];
    match l.pc
    case Spawn(k) => if k < n then Some(Create) else None
    case Await(k) => if k < n then Some(Join(k + 1)) else None
    case Head => if l.i < loop then Some(Lock(0)) else Some(Terminate(0))
    case Leave => Some(Unlock(0))
    case _ => None
  }

  /** The effect of that action on the thread's own variables and on the counters. */
  function LocalStep(y: Sys, n: nat, loop: nat): (Local, Counters)
    requires y.s.running.Some? && y.s.running.value < |y.locals|
  {
    var t := y.s.running.value;
    var l := y.locals[t];
    match l.pc
    case Spawn(k) => (l.(pc := if k < n then Spawn(k + 1) else Await(0)), y.c)
    case Await(k) => (l.(pc := if k < n then Await(k + 1) else Finished), y.c)
    case Finished => (l, y.c)
    case Head => (l.(pc := if l.i < loop then LoadOwn else Ended), y.c)
    case LoadOwn => (l.(pc := StoreOwn, reg := Own(y.c, t)), y.c)
    case StoreOwn => (l.(pc := LoadShared), SetOwn(y.c, t, l.reg + 1))
    case LoadShared => (l.(pc := StoreShared, reg := y.c.shared), y.c)
    case StoreShared => (l.(pc := Leave), y.c.(shared := l.reg + 1))
    case Leave => (l.(pc := Head, i := l.i + 1), y.c)
    case Ended => (l, y.c)
  }

  predicate Enabled(y: Sys, a: Act) {
    && y.s.running.Some? && y.s.running.value < |y.s.threads| == |y.locals|
    && (a == Continue <==> y.s.threads[y.s.running.value].at != User)
    && (a == Client ==> y.locals[y.s.running.value].pc != Finished)
  }

  function SchedulerOp(y: Sys, n: nat, loop: nat, a: Act): Option<Op>
    requires Enabled(y, a)
  {
    match a
    case Client => Call(y, n, loop)
    case Preempt => Some(Yield)
    case Continue => Some(Resume)
  }

  predicate Proper(y: Sys, n: nat, loop: nat, a: Act) {
    Enabled(y, a) && (SchedulerOp(y, n, loop, a).Some? ==> Legal(y.s, SchedulerOp(y, n, loop, a).value))
  }

  function Next(y: Sys, n: nat, loop: nat, a: Act): Sys
    requires Proper(y, n, loop, a)
  {
    var op := SchedulerOp(y, n, loop, a);
    var s' := if op.Some? then Step(y.s, op.value) else y.s;
    if a != Client then y.(s := s')
    else
      var (l, c) := LocalStep(y, n, loop);
      var ls := y.locals[y.s.running.value := l];
      Sys(s', if op == Some(Create) then ls + [Local(Head, 0, 0)] else ls, c)
  }

  // ---------------------------------------------------------------- what the threads have added so far

  predicate InSection(pc: Pc) {
    pc == LoadOwn || pc == StoreOwn || pc == LoadShared || pc == StoreShared || pc == Leave
  }

  function OwnDone(l: Local): nat {
    l.i + if l.pc == LoadShared || l.pc == StoreShared || l.pc == Leave then 1 else 0
  }

  function SharedDone(l: Local): nat {
    l.i + if l.pc == Leave then 1 else 0
  }

  /** Which counter thread t adds to. */
  function Group(t: nat): nat { if t <= 2 then t else 3 }

  /** What the threads of one group have added to their own counter. */
  function OwnSum(ls: seq<Local>, group: nat): nat {
    if ls == [] then 0
    else OwnSum(ls[..|ls| - 1], group) + if Group(|ls| - 1) == group then OwnDone(ls[|ls| - 1]) else 0
  }

  function SharedSum(ls: seq<Local>): nat {
    if ls == [] then 0
    else SharedSum(ls[..|ls| - 1]) + if |ls| - 1 > 0 then SharedDone(ls[|ls| - 1]) else 0
  }

  lemma {:induction false} SumsUpdate(ls: seq<Local>, t: nat, l: Local, group: nat)
    requires t < |ls|
    ensures OwnSum(ls[t := l], group) ==
            OwnSum(ls, group) + if Group(t) == group then OwnDone(l) - OwnDone(ls[t]) else 0
    ensures SharedSum(ls[t := l]) == SharedSum(ls) + if t > 0 then SharedDone(l) - SharedDone(ls[t]) else 0
  {
    var m := |ls| - 1;
    if t < m {
      SumsUpdate(ls[..m], t, l, group);
      assert ls[t := l][..m] == ls[..m][t := l];
    } else {
      assert ls[t := l][..m] == ls[..m];
    }
  }

  lemma SumsAppend(ls: seq<Local>, l: Local, group: nat)
    ensures OwnSum(ls + [l], group) == OwnSum(ls, group) + if Group(|ls|) == group then OwnDone(l) else 0
    ensures SharedSum(ls + [l]) == SharedSum(ls) + if |ls| > 0 then SharedDone(l) else 0
  {
    assert (ls + [l])[..|ls|] == ls;
  }

  // ---------------------------------------------------------------- invariant

  /** What `main` has done is what its program point says. */
  ghost predicate MainOk(y: Sys, n: nat) {
    && |y.s.threads| > 0 && |y.locals| == |y.s.threads|
    && var m, me := y.locals[0], y.s.threads[0];
       && me.holds == {} && me.join.None? && (me.at == User || me.at == AfterYield || me.at.AfterJoin?)
       && match m.pc
          case Spawn(k) => k <= n && |y.s.threads| == 1 + k && !me.at.AfterJoin? && NotJoinedAfter(y, 0)
          case Await(k) =>
            && k <= n && |y.s.threads| == 1 + n && NotJoinedAfter(y, k)
            && (me.at.AfterJoin? ==> k > 0 && me.at.target == k)
            && EndedUpTo(y, if me.at.AfterJoin? then k - 1 else k)
          case Finished => |y.s.threads| == 1 + n && !me.at.AfterJoin? && EndedUpTo(y, n)
          case _ => false
  }

  /** No thread after the k-th has been joined. */
  ghost predicate NotJoinedAfter(y: Sys, k: nat) {
    forall t :: k < t < |y.s.threads| ==> y.s.threads[t].join.None?
  }

  ghost predicate EndedUpTo(y: Sys, k: nat) {
    forall t :: 1 <= t <= k && t < |y.s.threads| ==> y.s.threads[t].zombie
  }

  /** A thread inside the section holds the mutex, unless it still waits to get it. */
  predicate WorkerOk(y: Sys, loop: nat, t: nat)
    requires t < |y.s.threads| == |y.locals|
  {
    var l, me := y.locals[t], y.s.threads[t];
    && (l.pc == Head || InSection(l.pc) || l.pc == Ended)
    && (me.at == User || me.at == Fresh || me.at == AfterYield || me.at == AfterLock(0))
    && me.holds == (if InSection(l.pc) && me.at != AfterLock(0) then {0} else {})
    && (me.at == AfterLock(0) ==> l.pc == LoadOwn)
    && (me.zombie <==> l.pc == Ended)
    && l.i <= loop && (InSection(l.pc) ==> l.i < loop) && (l.pc == Ended ==> l.i == loop)
    && (l.pc == StoreOwn ==> l.reg == Own(y.c, t))
    && (l.pc == StoreShared ==> l.reg == y.c.shared)
  }

  ghost predicate WorkersOk(y: Sys, loop: nat) {
    |y.s.threads| == |y.locals| && forall t :: 1 <= t < |y.locals| ==> WorkerOk(y, loop, t)
  }

  /** Each counter is what the threads have added to it. */
  predicate SumsOk(ls: seq<Local>, c: Counters) {
    c.zero == OwnSum(ls, 1) && c.one == OwnSum(ls, 2) && c.two == OwnSum(ls, 3) && c.shared == SharedSum(ls)
  }

  ghost predicate SysInv(y: Sys, n: nat, loop: nat) {
    && Inv(y.s) && y.s.running.Some? && |y.s.mutexes| == 1 && |y.s.queues| == 2
    && MainOk(y, n) && WorkersOk(y, loop) && SumsOk(y.locals, y.c)
  }

  // ---------------------------------------------------------------- somebody is always ready

  /** What the program guarantees of the places threads can wait in. */
  ghost predicate Roles(s: State) {
    && |s.mutexes| == 1 && |s.queues| == 2 && |s.threads| > 0
    && s.threads[0].holds == {} && !Waits(s.threads[0].at, 0) && s.threads[0].join.None?
    && forall t :: 1 <= t < |s.threads| ==>
         !s.threads[t].at.AfterJoin? && (s.threads[t].zombie ==> s.threads[t].holds == {})
  }

  /** A thread in the `join` field of a living thread waits for that thread to end. */
  lemma JoinersWait(s: State)
    requires ThreadsOk(s)
    ensures forall u :: 0 <= u < |s.threads| && !s.threads[u].zombie && s.threads[u].join.Some? ==>
              s.threads[u].join.value < |s.threads| && s.threads[s.threads[u].join.value].at == AfterJoin(u)
  {
    forall u | 0 <= u < |s.threads| && !s.threads[u].zombie && s.threads[u].join.Some?
      ensures s.threads[u].join.value < |s.threads| && s.threads[s.threads[u].join.value].at == AfterJoin(u)
    {
      assert ThreadOk(s, u);
    }
  }

  lemma MutexQueue(s: State)
    requires QueuesOk(s) && |s.mutexes| == 1 && |s.queues| == 2
    ensures forall t :: t in s.queues[1] ==> t < |s.threads| && Waits(s.threads[t].at, 0) && !Owns(s, t, 0)
  {
    forall t | t in s.queues[1] ensures QueueOk(s, 1, t) { }
  }

  /** A waiting thread's mutex has an owner, and the owner is ready when nothing runs. */
  lemma OwnerReady(s: State, t: nat)
    requires Inv(s) && Roles(s) && s.running.None? && t in s.queues[1]
    ensures s.queues[0] != []
  {
    assert MutexOk(s, 0);
    var o := s.mutexes[0].owner.value;
    assert ThreadOk(s, o);
    MutexQueue(s);
    JoinersWait(s);
    Somewhere(s, o);
  }

  /** Following `main` to the thread it waits for, and that thread to the owner of the mutex, ends at a ready thread. */
  lemma SomebodyReady(s: State)
    requires Inv(s) && Roles(s) && s.running.None?
    ensures s.queues[0] != []
  {
    hide Conserved;
    MutexQueue(s);
    JoinersWait(s);
    Somewhere(s, 0);
    if u :| 0 <= u < |s.threads| && !s.threads[u].zombie && s.threads[u].join == Some(0) {
      Somewhere(s, u);
      if u in s.queues[1] { OwnerReady(s, u); }
    }
  }

  lemma RolesHold(y: Sys, n: nat, loop: nat)
    requires SysInv(y, n, loop)
    ensures Roles(y.s)
  {
    forall t | 1 <= t < |y.s.threads|
      ensures !y.s.threads[t].at.AfterJoin? && (y.s.threads[t].zombie ==> y.s.threads[t].holds == {})
    {
      assert WorkerOk(y, loop, t);
    }
  }

  // ---------------------------------------------------------------- each action keeps the invariant

  /** Two threads that are inside the section are one. */
  lemma OneInside(y: Sys, n: nat, loop: nat, t: nat, u: nat)
    requires SysInv(y, n, loop) && 1 <= t < |y.locals| && 1 <= u < |y.locals|
    requires InSection(y.locals[t].pc) && y.s.threads[t].at != AfterLock(0)
    requires InSection(y.locals[u].pc) && y.s.threads[u].at != AfterLock(0)
    ensures t == u
  {
    assert WorkerOk(y, loop, t) && WorkerOk(y, loop, u);
    assert Owns(y.s, t, 0) && Owns(y.s, u, 0);
  }

  lemma PreemptKeeps(y: Sys, n: nat, loop: nat)
    requires SysInv(y, n, loop) && Proper(y, n, loop, Preempt)
    ensures SysInv(Next(y, n, loop, Preempt), n, loop)
  {
    hide Inv, OwnSum, SharedSum;
    var y' := Next(y, n, loop, Preempt);
    StepKeeps(y.s, Yield);
    forall t | 1 <= t < |y'.locals| ensures WorkerOk(y', loop, t) { assert WorkerOk(y, loop, t); }
  }

  lemma ContinueKeeps(y: Sys, n: nat, loop: nat)
    requires SysInv(y, n, loop) && Proper(y, n, loop, Continue)
    ensures SysInv(Next(y, n, loop, Continue), n, loop)
  {
    hide Conserved, OwnSum, SharedSum, ThreadsOk, MutexesOk;
    var r := y.s.running.value;
    var y' := Next(y, n, loop, Continue);
    StepKeeps(y.s, Resume);
    assert Runnable(y.s, r);
    if r > 0 { assert WorkerOk(y, loop, r); }
    forall t | 1 <= t < |y'.locals| ensures WorkerOk(y', loop, t) { assert WorkerOk(y, loop, t); }
  }

  /** What thread `t` is. */
  lemma RoleOf(y: Sys, n: nat, loop: nat, t: nat)
    requires SysInv(y, n, loop) && t < |y.locals|
    ensures t > 0 ==> WorkerOk(y, loop, t)
    ensures var pc := y.locals[t].pc; t == 0 <==> pc.Spawn? || pc.Await? || pc.Finished?
  {
  }

  lemma WorkerAt(y: Sys, loop: nat, t: nat)
    requires WorkersOk(y, loop) && 1 <= t
    ensures t < |y.locals| ==> WorkerOk(y, loop, t)
  {
  }

  /** The sums follow every action of the program. */
  lemma LocalSums(y: Sys, n: nat, loop: nat)
    requires y.s.running.Some? && y.s.running.value < |y.locals| && SumsOk(y.locals, y.c)
    requires var r := y.s.running.value;
             var l := y.locals[r];
             && (r == 0 <==> l.pc.Spawn? || l.pc.Await? || l.pc.Finished?)
             && (l.pc == StoreOwn ==> l.reg == Own(y.c, r)) && (l.pc == StoreShared ==> l.reg == y.c.shared)
    ensures var (l, c) := LocalStep(y, n, loop); SumsOk(y.locals[y.s.running.value := l], c)
  {
    var r := y.s.running.value;
    var l := LocalStep(y, n, loop).0;
    SumsUpdate(y.locals, r, l, 1);
    SumsUpdate(y.locals, r, l, 2);
    SumsUpdate(y.locals, r, l, 3);
  }

  lemma FreshSums(ls: seq<Local>, c: Counters)
    requires SumsOk(ls, c)
    ensures SumsOk(ls + [Local(Head, 0, 0)], c)
  {
    SumsAppend(ls, Local(Head, 0, 0), 1);
    SumsAppend(ls, Local(Head, 0, 0), 2);
    SumsAppend(ls, Local(Head, 0, 0), 3);
  }

  /** The library keeps its invariant, and after a suspension another thread runs. */
  lemma CallKeeps(y: Sys, n: nat, loop: nat)
    requires SysInv(y, n, loop) && Proper(y, n, loop, Client) && Call(y, n, loop).Some?
    ensures var s' := Step(y.s, Call(y, n, loop).value); Inv(s') && s'.running.Some?
  {
    hide Inv;
    var op := Call(y, n, loop).value;
    RoleOf(y, n, loop, y.s.running.value);
    RolesHold(y, n, loop);
    StepKeeps(y.s, op);
    match op
    case Create =>
    case Join(t) => if !y.s.threads[t].zombie { JoinParks(y.s, t); SomebodyReady(ParkJoin(y.s, t)); }
    case Lock(m) => if y.s.mutexes[0].taken { LockParks(y.s); SomebodyReady(Park(y.s, 1, AfterLock(0))); }
    case Unlock(m) =>
    case Terminate(v) => EndParks(y.s); SomebodyReady(Retire(y.s, 0));
  }

  lemma LockParks(s: State)
    requires Inv(s) && Roles(s) && Legal(s, Lock(0)) && s.mutexes[0].taken && s.running.value != 0
    ensures Inv(Park(s, 1, AfterLock(0))) && Roles(Park(s, 1, AfterLock(0)))
  {
    hide Conserved;
    assert MutexOk(s, 0);
    ParkKeeps(s, 1, AfterLock(0));
  }

  lemma JoinParks(s: State, t: nat)
    requires Inv(s) && Roles(s) && Legal(s, Join(t)) && !s.threads[t].zombie && s.running.value == 0 < t
    ensures Inv(ParkJoin(s, t)) && Roles(ParkJoin(s, t))
  {
    ParkJoinKeeps(s, t);
  }

  lemma EndParks(s: State)
    requires Inv(s) && Roles(s) && Legal(s, Terminate(0)) && s.threads[s.running.value].holds == {}
    ensures Inv(Retire(s, 0)) && Roles(Retire(s, 0))
  {
    RetireKeeps(s, 0);
  }

  /** What the actions of the program do to the threads' records. */
  lemma CallEffects(s: State, op: Op)
    requires Legal(s, op) && s.running.value < |s.threads|
    requires op.Create? || op.Join? || op.Lock? || op.Unlock? || op.Terminate?
    ensures |Step(s, op).mutexes| == |s.mutexes| && |Step(s, op).queues| == |s.queues|
    ensures |Step(s, op).threads| == |s.threads| + if op.Create? then 1 else 0
    ensures op.Create? ==> Step(s, op).threads[|s.threads|] == Thread(None, 0, false, Fresh, {})
    ensures forall t :: 0 <= t < |s.threads| && t != s.running.value ==>
              Step(s, op).threads[t] == s.threads[t].(join := Step(s, op).threads[t].join)
    ensures forall t :: 0 <= t < |s.threads| && op != Join(t) ==> Step(s, op).threads[t].join == s.threads[t].join
    ensures var me, me' := s.threads[s.running.value], Step(s, op).threads[s.running.value];
            match op
            case Create => me' == me
            case Join(t) => me'.holds == me.holds && me'.zombie == me.zombie &&
                            me'.at == (if s.threads[t].zombie then User else AfterJoin(t))
            case Lock(m) => me' == if s.mutexes[m].taken then me.(at := AfterLock(m)) else me.(holds := me.holds + {m})
            case Unlock(m) => me' == me.(holds := me.holds - {m})
            case Terminate(v) => me' == me.(retval := v, zombie := true)
            case _ => true
  {
  }

  lemma ClientWorkers(y: Sys, n: nat, loop: nat)
    requires SysInv(y, n, loop) && Proper(y, n, loop, Client)
    ensures WorkersOk(Next(y, n, loop, Client), loop)
  {
    hide Inv, Step, MainOk, SumsOk;
    var r := y.s.running.value;
    RunningRole(y, n, loop);
    var y', op := Next(y, n, loop, Client), Call(y, n, loop);
    if op.Some? { CallEffects(y.s, op.value); }
    forall t | 1 <= t < |y'.locals| ensures WorkerOk(y', loop, t) {
      WorkerAt(y, loop, t);
      if t != r && t < |y.locals| && InSection(y.locals[t].pc) && InSection(y.locals[r].pc) {
        if y.s.threads[t].at != AfterLock(0) { OneInside(y, n, loop, t, r); }
      }
    }
  }

  lemma ClientMain(y: Sys, n: nat, loop: nat)
    requires SysInv(y, n, loop) && Proper(y, n, loop, Client)
    ensures MainOk(Next(y, n, loop, Client), n)
  {
    hide Inv, Step, WorkersOk, SumsOk;
    RunningRole(y, n, loop);
    var op := Call(y, n, loop);
    if op.Some? { CallEffects(y.s, op.value); }
  }

  /** What the running thread is. */
  lemma RunningRole(y: Sys, n: nat, loop: nat)
    requires SysInv(y, n, loop)
    ensures var r := y.s.running.value;
            && r < |y.locals| == |y.s.threads| && !y.s.threads[r].zombie && (r > 0 ==> WorkerOk(y, loop, r))
            && var pc := y.locals[r].pc; pc != Ended && (r == 0 <==> pc.Spawn? || pc.Await? || pc.Finished?)
  {
    RunningAlone(y.s);
    RoleOf(y, n, loop, y.s.running.value);
  }

  lemma ClientKeeps(y: Sys, n: nat, loop: nat)
    requires SysInv(y, n, loop) && Proper(y, n, loop, Client)
    ensures SysInv(Next(y, n, loop, Client), n, loop)
  {
    hide Inv, Step, MainOk, WorkersOk, SumsOk, WorkerOk;
    var (l, c) := LocalStep(y, n, loop);
    RunningRole(y, n, loop);
    ClientWorkers(y, n, loop);
    ClientMain(y, n, loop);
    Registers(y, n, loop);
    LocalSums(y, n, loop);
    FreshSums(y.locals[y.s.running.value := l], c);
    var op := Call(y, n, loop);
    if op.Some? {
      CallKeeps(y, n, loop);
      CallEffects(y.s, op.value);
    }
  }

  lemma Registers(y: Sys, n: nat, loop: nat)
    requires SysInv(y, n, loop)
    ensures var r := y.s.running.value;
            r < |y.locals| && var l := y.locals[r];
            (l.pc == StoreOwn ==> l.reg == Own(y.c, r)) && (l.pc == StoreShared ==> l.reg == y.c.shared)
  {
    RunningRole(y, n, loop);
  }

  lemma ActKeeps(y: Sys, n: nat, loop: nat, a: Act)
    requires SysInv(y, n, loop) && Proper(y, n, loop, a)
    ensures SysInv(Next(y, n, loop, a), n, loop)
  {
    hide SysInv, Next;
    match a
    case Preempt => PreemptKeeps(y, n, loop);
    case Continue => ContinueKeeps(y, n, loop);
    case Client => ClientKeeps(y, n, loop);
  }

  // ---------------------------------------------------------------- runs

  /** The library's own preconditions hold for whatever the program does next, and something can always be done. */
  lemma AlwaysProper(y: Sys, n: nat, loop: nat, a: Act)
    requires SysInv(y, n, loop)
    ensures Enabled(y, a) ==> Proper(y, n, loop, a)
  {
    RunningRole(y, n, loop);
    assert RunningOk(y.s);
  }

  predicate Done(y: Sys) {
    |y.locals| > 0 && y.locals[0].pc == Finished
  }

  /** Until `main` is done the running thread can go on by itself. */
  lemma GoesOn(y: Sys, n: nat, loop: nat) returns (a: Act)
    requires SysInv(y, n, loop) && !Done(y)
    ensures a != Preempt && Proper(y, n, loop, a)
  {
    RunningRole(y, n, loop);
    a := if y.s.threads[y.s.running.value].at == User then Client else Continue;
    AlwaysProper(y, n, loop, a);
  }

  /**
   What a call outside the library's preconditions would do is left open here; `AlwaysProper`
   shows that no run makes one.
   */
  ghost predicate Goes(y: Sys, n: nat, loop: nat, a: Act, y': Sys) {
    Enabled(y, a) && (Proper(y, n, loop, a) ==> y' == Next(y, n, loop, a))
  }

  /** A run under any timing of the interrupts. */
  ghost predicate IsRun(ys: seq<Sys>, acts: seq<Act>, n: nat, loop: nat) {
    && |ys| == |acts| + 1 && ys[0] == Start()
    && forall i, j :: 0 <= i && j == i + 1 && j < |ys| ==> Goes(ys[i], n, loop, acts[i], ys[j])
  }

  lemma StartInv(n: nat, loop: nat)
    ensures SysInv(Start(), n, loop)
  {
    InitInv(1, 0);
    var ls := Start().locals;
    assert ls[..0] == [];
    assert OwnSum(ls, 1) == 0 && OwnSum(ls, 2) == 0 && OwnSum(ls, 3) == 0 && SharedSum(ls) == 0;
  }

  lemma {:induction false} RunKeeps(ys: seq<Sys>, acts: seq<Act>, n: nat, loop: nat, i: nat)
    requires IsRun(ys, acts, n, loop) && i < |ys|
    ensures SysInv(ys[i], n, loop)
  {
    hide SysInv, Next, Proper, Enabled;
    if i == 0 {
      StartInv(n, loop);
    } else {
      RunKeeps(ys, acts, n, loop, i - 1);
      assert ys[i - 1 + 1] == ys[i];
      AlwaysProper(ys[i - 1], n, loop, acts[i - 1]);
      ActKeeps(ys[i - 1], n, loop, acts[i - 1]);
    }
  }

  /**
   The program never gets stuck: in every state of every run some thread is running, and unless
   `main` is done it can take its next action, or finish its library call, without an interrupt.
   */
  lemma NeverStuck(ys: seq<Sys>, acts: seq<Act>, n: nat, loop: nat, i: nat)
    requires IsRun(ys, acts, n, loop) && i < |ys|
    ensures ys[i].s.running.Some?
    ensures Done(ys[i]) || exists a :: a != Preempt && Proper(ys[i], n, loop, a)
  {
    hide Proper;
    RunKeeps(ys, acts, n, loop, i);
    if !Done(ys[i]) { var a := GoesOn(ys[i], n, loop); }
  }

  // ---------------------------------------------------------------- progress

  function Less(a: nat, b: nat): nat { if a > b then a - b else 0 }

  /** How many actions of its own code a thread has ahead of it; `main` answers for the threads to be created. */
  function Work(l: Local, n: nat, loop: nat): nat {
    match l.pc
    case Spawn(k) => Less(n, k) * (6 * loop + 2) + n + 2
    case Await(k) => Less(n, k) + 1
    case Finished => 0
    case Head => 6 * Less(loop, l.i) + 1
    case LoadOwn => 6 * Less(loop, l.i + 1) + 6
    case StoreOwn => 6 * Less(loop, l.i + 1) + 5
    case LoadShared => 6 * Less(loop, l.i + 1) + 4
    case StoreShared => 6 * Less(loop, l.i + 1) + 3
    case Leave => 6 * Less(loop, l.i + 1) + 2
    case Ended => 0
  }

  /** Two for each action ahead, and one for a library call to be finished. */
  function Unit(l: Local, at: Point, n: nat, loop: nat): nat {
    2 * Work(l, n, loop) + if at == User then 0 else 1
  }

  function Ahead(ls: seq<Local>, ts: seq<Thread>, n: nat, loop: nat): nat
    requires |ls| == |ts|
  {
    if ls == [] then 0
    else Ahead(ls[..|ls| - 1], ts[..|ls| - 1], n, loop) + Unit(ls[|ls| - 1], ts[|ls| - 1].at, n, loop)
  }

  /** Only thread `r` has changed. */
  lemma {:induction false} AheadUpdate(ls: seq<Local>, ts: seq<Thread>, ls': seq<Local>, ts': seq<Thread>,
                                       r: nat, n: nat, loop: nat)
    requires r < |ls| == |ts| == |ls'| == |ts'|
    requires forall t :: 0 <= t < |ls| && t != r ==> ls'[t] == ls[t] && ts'[t].at == ts[t].at
    ensures Ahead(ls', ts', n, loop) + Unit(ls[r], ts[r].at, n, loop) ==
            Ahead(ls, ts, n, loop) + Unit(ls'[r], ts'[r].at, n, loop)
  {
    hide Unit;
    var m := |ls| - 1;
    if r < m {
      AheadUpdate(ls[..m], ts[..m], ls'[..m], ts'[..m], r, n, loop);
    } else {
      AheadSame(ls[..m], ts[..m], ls'[..m], ts'[..m], n, loop);
    }
  }

  lemma {:induction false} AheadSame(ls: seq<Local>, ts: seq<Thread>, ls': seq<Local>, ts': seq<Thread>,
                                     n: nat, loop: nat)
    requires |ls| == |ts| == |ls'| == |ts'|
    requires forall t :: 0 <= t < |ls| ==> ls'[t] == ls[t] && ts'[t].at == ts[t].at
    ensures Ahead(ls', ts', n, loop) == Ahead(ls, ts, n, loop)
  {
    hide Unit;
    if ls != [] {
      var m := |ls| - 1;
      AheadSame(ls[..m], ts[..m], ls'[..m], ts'[..m], n, loop);
    }
  }

  /** An action of the program is one less ahead, after `main` has handed over the work of a new thread. */
  lemma LocalWork(y: Sys, n: nat, loop: nat)
    requires y.s.running.Some? && y.s.running.value < |y.locals|
    requires var l := y.locals[y.s.running.value];
             l.pc != Finished && l.pc != Ended && (InSection(l.pc) ==> l.i < loop)
    ensures Work(LocalStep(y, n, loop).0, n, loop) +
              (if Call(y, n, loop) == Some(Create) then Work(Local(Head, 0, 0), n, loop) else 0) + 1 ==
            Work(y.locals[y.s.running.value], n, loop)
  {
    var l := y.locals[y.s.running.value];
    if l.pc.Spawn? && l.pc.created < n {
      var k := l.pc.created;
      assert Less(n, k) * (6 * loop + 2) == Less(n, k + 1) * (6 * loop + 2) + 6 * loop + 2;
    }
  }

  function Remaining(y: Sys, n: nat, loop: nat): nat
    requires |y.locals| == |y.s.threads|
  {
    Ahead(y.locals, y.s.threads, n, loop)
  }

  lemma ContinueProgress(y: Sys, n: nat, loop: nat)
    requires SysInv(y, n, loop) && Proper(y, n, loop, Continue)
    ensures var y' := Next(y, n, loop, Continue);
            |y'.locals| == |y'.s.threads| && Remaining(y', n, loop) + 1 == Remaining(y, n, loop)
  {
    hide Inv, OwnSum, SharedSum, Ahead, Work;
    var r, y' := y.s.running.value, Next(y, n, loop, Continue);
    RunningRole(y, n, loop);
    ResumeEffects(y.s);
    AheadUpdate(y.locals, y.s.threads, y'.locals, y'.s.threads, r, n, loop);
  }

  /** Finishing a call other than `green_cond_wait` changes nothing of the other threads. */
  lemma ResumeEffects(s: State)
    requires Legal(s, Resume) && !s.threads[s.running.value].at.AfterCond?
    ensures var r, s' := s.running.value, Step(s, Resume);
            && |s'.threads| == |s.threads| && s'.threads[r].at == User
            && forall t :: 0 <= t < |s.threads| && t != r ==> s'.threads[t].at == s.threads[t].at
  {
  }

  lemma ClientProgress(y: Sys, n: nat, loop: nat)
    requires SysInv(y, n, loop) && Proper(y, n, loop, Client)
    ensures var y' := Next(y, n, loop, Client);
            |y'.locals| == |y'.s.threads| && Remaining(y', n, loop) + 1 <= Remaining(y, n, loop)
  {
    hide Inv, Step, Ahead, Work, OwnSum, SharedSum;
    var r, y', op := y.s.running.value, Next(y, n, loop, Client), Call(y, n, loop);
    RunningRole(y, n, loop);
    LocalWork(y, n, loop);
    if op.Some? { CallEffects(y.s, op.value); }
    if op == Some(Create) {
      var m := |y.locals|;
      AheadUpdate(y.locals, y.s.threads, y'.locals[..m], y'.s.threads[..m], r, n, loop);
      AheadAppend(y'.locals, y'.s.threads, n, loop);
    } else {
      AheadUpdate(y.locals, y.s.threads, y'.locals, y'.s.threads, r, n, loop);
    }
  }

  lemma AheadAppend(ls: seq<Local>, ts: seq<Thread>, n: nat, loop: nat)
    requires |ls| == |ts| > 0
    ensures var m := |ls| - 1;
            Ahead(ls, ts, n, loop) == Ahead(ls[..m], ts[..m], n, loop) + Unit(ls[m], ts[m].at, n, loop)
  {
  }

  lemma PreemptProgress(y: Sys, n: nat, loop: nat)
    requires SysInv(y, n, loop) && Proper(y, n, loop, Preempt)
    ensures var y' := Next(y, n, loop, Preempt);
            |y'.locals| == |y'.s.threads| && Remaining(y', n, loop) == Remaining(y, n, loop) + 1
  {
    hide Inv, Ahead, Work, OwnSum, SharedSum;
    var r, y' := y.s.running.value, Next(y, n, loop, Preempt);
    RunningRole(y, n, loop);
    AheadUpdate(y.locals, y.s.threads, y'.locals, y'.s.threads, r, n, loop);
  }

  function Interrupts(acts: seq<Act>): nat {
    if acts == [] then 0 else Interrupts(acts[..|acts| - 1]) + if acts[|acts| - 1] == Preempt then 1 else 0
  }

  lemma SameLength(y: Sys, n: nat, loop: nat)
    requires SysInv(y, n, loop)
    ensures |y.locals| == |y.s.threads|
  {
  }

  /** A run ends after so many actions: what is ahead at the start, and two for each interrupt. */
  lemma {:induction false} RunLength(ys: seq<Sys>, acts: seq<Act>, n: nat, loop: nat)
    requires IsRun(ys, acts, n, loop)
    ensures var y := ys[|acts|];
            && |y.locals| == |y.s.threads|
            && |acts| + Remaining(y, n, loop) <= 2 * (n * (6 * loop + 2) + n + 2) + 2 * Interrupts(acts)
  {
    hide SysInv, Next, Proper, Enabled, Remaining;
    var k := |acts| - 1;
    RunKeeps(ys, acts, n, loop, |acts|);
    SameLength(ys[|acts|], n, loop);
    if acts == [] {
      StartRemaining(n, loop);
    } else {
      assert IsRun(ys[..k + 1], acts[..k], n, loop) by { RunPrefix(ys, acts, n, loop); }
      RunLength(ys[..k + 1], acts[..k], n, loop);
      RunKeeps(ys, acts, n, loop, k);
      AlwaysProper(ys[k], n, loop, acts[k]);
      RunNext(ys, acts, n, loop, k);
      match acts[k]
      case Preempt => PreemptProgress(ys[k], n, loop);
      case Continue => ContinueProgress(ys[k], n, loop);
      case Client => ClientProgress(ys[k], n, loop);
    }
  }

  lemma StartRemaining(n: nat, loop: nat)
    ensures |Start().locals| == |Start().s.threads|
    ensures Remaining(Start(), n, loop) == 2 * (n * (6 * loop + 2) + n + 2)
  {
    var y := Start();
    assert y.locals[..0] == [] && y.s.threads[..0] == [];
    assert Ahead([], [], n, loop) == 0;
    assert Remaining(y, n, loop) == Unit(y.locals[0], User, n, loop);
  }

  lemma RunPrefix(ys: seq<Sys>, acts: seq<Act>, n: nat, loop: nat)
    requires IsRun(ys, acts, n, loop) && acts != []
    ensures IsRun(ys[..|acts|], acts[..|acts| - 1], n, loop)
  {
    hide Goes;
    var zs, bs := ys[..|acts|], acts[..|acts| - 1];
    assert zs[0] == ys[0];
    forall i, j | 0 <= i && j == i + 1 && j < |zs| ensures Goes(zs[i], n, loop, bs[i], zs[j]) {
      assert zs[i] == ys[i] && zs[j] == ys[j] && bs[i] == acts[i];
    }
  }

  lemma RunNext(ys: seq<Sys>, acts: seq<Act>, n: nat, loop: nat, k: nat)
    requires IsRun(ys, acts, n, loop) && k < |acts| && Proper(ys[k], n, loop, acts[k])
    ensures ys[k + 1] == Next(ys[k], n, loop, acts[k])
  {
  }

  lemma RunExtends(ys: seq<Sys>, acts: seq<Act>, n: nat, loop: nat, a: Act)
    requires IsRun(ys, acts, n, loop) && Proper(ys[|acts|], n, loop, a)
    ensures IsRun(ys + [Next(ys[|acts|], n, loop, a)], acts + [a], n, loop)
  {
    hide Enabled, Next;
    var zs, bs := ys + [Next(ys[|acts|], n, loop, a)], acts + [a];
    assert zs[0] == ys[0] && zs[|acts|] == ys[|acts|];
    assert Goes(ys[|acts|], n, loop, a, Next(ys[|acts|], n, loop, a));
    hide Goes;
    forall i, j | 0 <= i && j == i + 1 && j < |zs| ensures Goes(zs[i], n, loop, bs[i], zs[j]) {
      if i < |acts| { assert zs[i] == ys[i] && zs[j] == ys[j] && bs[i] == acts[i]; }
    }
  }

  /** From wherever interrupts have led it, the program finishes if it is left alone. */
  lemma {:induction false} Completes(ys: seq<Sys>, acts: seq<Act>, n: nat, loop: nat)
    returns (ys': seq<Sys>, acts': seq<Act>)
    requires IsRun(ys, acts, n, loop)
    ensures IsRun(ys', acts', n, loop) && acts <= acts' && Done(ys'[|acts'|])
    ensures Interrupts(acts') == Interrupts(acts)
    decreases 2 * (n * (6 * loop + 2) + n + 2) + 2 * Interrupts(acts) - |acts|
  {
    hide SysInv, Next, Proper, Enabled, IsRun, Done;
    RunLength(ys, acts, n, loop);
    LastKeeps(ys, acts, n, loop);
    if Done(ys[|acts|]) {
      ys', acts' := ys, acts;
    } else {
      var a := GoesOn(ys[|acts|], n, loop);
      RunExtends(ys, acts, n, loop, a);
      assert (acts + [a])[..|acts|] == acts;
      RunLength(ys + [Next(ys[|acts|], n, loop, a)], acts + [a], n, loop);
      ys', acts' := Completes(ys + [Next(ys[|acts|], n, loop, a)], acts + [a], n, loop);
    }
  }

  lemma LastKeeps(ys: seq<Sys>, acts: seq<Act>, n: nat, loop: nat)
    requires IsRun(ys, acts, n, loop)
    ensures |ys| == |acts| + 1 && SysInv(ys[|acts|], n, loop)
  {
    RunKeeps(ys, acts, n, loop, |acts|);
  }

  /** Threads outside the section have added as much to the shared counter as to their own. */
  lemma {:induction false} SumsAgree(ls: seq<Local>)
    requires forall t :: 1 <= t < |ls| ==> OwnDone(ls[t]) == SharedDone(ls[t])
    ensures OwnSum(ls, 1) + OwnSum(ls, 2) + OwnSum(ls, 3) == SharedSum(ls)
  {
    if ls != [] { SumsAgree(ls[..|ls| - 1]); }
  }

  lemma NobodyHolds(s: State)
    requires HoldsOk(s) && forall t :: !Owns(s, t, 0)
    ensures forall t :: 0 <= t < |s.threads| ==> 0 !in s.threads[t].holds
  {
    forall t | 0 <= t < |s.threads| ensures 0 !in s.threads[t].holds { }
  }

  /** Whenever nobody owns the mutex, the shared counter is the sum of the others. */
  lemma SharedIsSum(ys: seq<Sys>, acts: seq<Act>, n: nat, loop: nat, i: nat)
    requires IsRun(ys, acts, n, loop) && i < |ys|
    requires forall t :: !Owns(ys[i].s, t, 0)
    ensures ys[i].c.shared == ys[i].c.zero + ys[i].c.one + ys[i].c.two
  {
    var y := ys[i];
    RunKeeps(ys, acts, n, loop, i);
    NobodyHolds(y.s);
    forall t | 1 <= t < |y.locals| ensures OwnDone(y.locals[t]) == SharedDone(y.locals[t]) { WorkerAt(y, loop, t); }
    SumsAgree(y.locals);
  }

  lemma {:induction false} SumsDone(ls: seq<Local>, loop: nat)
    requires |ls| > 0 && forall t :: 1 <= t < |ls| ==> ls[t].pc == Ended && ls[t].i == loop
    ensures OwnSum(ls, 1) == if |ls| > 1 then loop else 0
    ensures OwnSum(ls, 2) == if |ls| > 2 then loop else 0
    ensures OwnSum(ls, 3) == if |ls| > 3 then (|ls| - 3) * loop else 0
    ensures SharedSum(ls) == (|ls| - 1) * loop
  {
    var m := |ls| - 1;
    if m > 0 {
      SumsDone(ls[..m], loop);
      assert (m - 1) * loop + loop == m * loop;
      assert m > 3 ==> (m - 3) * loop + loop == (m - 2) * loop;
    } else {
      assert ls[..0] == [];
    }
  }

  /** When `main` is done, no increment has been lost. */
  lemma FinalCounts(ys: seq<Sys>, acts: seq<Act>, n: nat, loop: nat, i: nat)
    requires IsRun(ys, acts, n, loop) && i < |ys| && Done(ys[i])
    ensures var c := ys[i].c;
            && c.shared == n * loop
            && c.zero == (if n > 0 then loop else 0) && c.one == (if n > 1 then loop else 0)
            && c.two == (if n > 2 then (n - 2) * loop else 0)
  {
    var y := ys[i];
    RunKeeps(ys, acts, n, loop, i);
    forall t | 1 <= t < |y.locals| ensures y.locals[t].pc == Ended && y.locals[t].i == loop { WorkerAt(y, loop, t); }
    SumsDone(y.locals, loop);
  }
}
