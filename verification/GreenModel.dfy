/**
 The green threads of seminar3/green.c as a transition system. SIGVTALRM is blocked
 inside every library call, so a call is one step up to its `swapcontext`; the rest
 of the call, after the context is resumed, is another step. A timer interrupt is a
 `green_yield` and may come at any point of user code.
 */
module GreenModel {
  import opened Options

  /** Where a suspended thread goes on; `User` is user code. */
  datatype Point =
    | User
    | Fresh
    | AfterYield
    | AfterJoin(target: nat)
    | AfterLock(mutex: nat)
    | AfterCond(relock: Option<nat>)
    | AfterRelock(mutex: nat)

  /**
   `join`, `retval` (0 for NULL) and `zombie` of a `green_t`, with its saved context and the
   mutexes its calls have locked.
   */
  datatype Thread = Thread(join: Option<nat>, retval: int, zombie: bool, at: Point, holds: set<nat>)

  /** `owner` is not in the source: the thread that was given the mutex last and has not released it. */
  datatype Mutex = Mutex(taken: bool, owner: Option<nat>)

  /** What a `green_join` that has returned stored through its second argument, if anything. */
  datatype Joined = Joined(joiner: nat, target: nat, result: Option<int>)

  /**
   Queue 0 is the ready queue, queue 1 + m the one of mutex m, and the remaining ones belong to
   the condition variables. `running` is absent when a suspension has found the ready queue empty.
   `lost` is not in the source: the threads it has dropped from a queue and refers to nowhere.
   */
  datatype State = State(
    threads: seq<Thread>,
    running: Option<nat>,
    queues: seq<seq<nat>>,
    mutexes: seq<Mutex>,
    joined: seq<Joined>,
    lost: multiset<nat>)

  datatype Op =
    | Create
    | Yield
    | Join(target: nat)
    | Terminate(retval: int)
    | Lock(mutex: nat)
    | Unlock(mutex: nat)
    | Wait(cond: nat, releases: Option<nat>)
    | Signal(cond: nat)
    | Resume

  const MAIN := Thread(None, 0, false, User, {})

  function Init(mutexes: nat, conds: nat): State {
    var free := seq(mutexes, i => Mutex(false, None));
    State([MAIN], Some(0), seq(1 + mutexes + conds, i => []), free, [], multiset{})
  }

  // ---------------------------------------------------------------- parts of a step

  function CondQueue(s: State, c: nat): nat { 1 + |s.mutexes| + c }

  function SetAt(s: State, t: nat, p: Point): State
    requires t < |s.threads|
  {
    s.(threads := s.threads[t := s.threads[t].(at := p)])
  }

  function Enqueue(s: State, k: nat, t: nat): State
    requires k < |s.queues|
  {
    s.(queues := s.queues[k := s.queues[k] + [t]])
  }

  /** Put the running thread on queue `k`. */
  function Park(s: State, k: nat, p: Point): State
    requires s.running.Some? && s.running.value < |s.threads| && k < |s.queues|
  {
    Enqueue(SetAt(s, s.running.value, p), k, s.running.value).(running := None)
  }

  /** Run the first ready thread; if there is none nothing runs any more. */
  function Dispatch(s: State): State
    requires |s.queues| > 0
  {
    if s.queues[0] == [] then s.(running := None)
    else s.(running := Some(s.queues[0][0]), queues := s.queues[0 := s.queues[0][1..]])
  }

  /** Move the first thread of queue `k`, if any, to the ready queue. */
  function Wake(s: State, k: nat): State
    requires 0 < k < |s.queues|
  {
    if s.queues[k] == [] then s
    else Enqueue(s.(queues := s.queues[k := s.queues[k][1..]]), 0, s.queues[k][0])
  }

  function Acquire(s: State, t: nat, m: nat): State
    requires t < |s.threads| && m < |s.mutexes|
  {
    s.(mutexes := s.mutexes[m := Mutex(true, Some(t))],
       threads := s.threads[t := s.threads[t].(holds := s.threads[t].holds + {m})])
  }

  /** Thread `t` gives up mutex `m`: to the oldest waiter if there is one. */
  function Release(s: State, t: nat, m: nat): State
    requires t < |s.threads| && m < |s.mutexes| && 1 + m < |s.queues|
  {
    var q := s.queues[1 + m];
    Wake(s, 1 + m).(
      mutexes := s.mutexes[m := if q == [] then Mutex(false, None) else Mutex(s.mutexes[m].taken, Some(q[0]))],
      threads := s.threads[t := s.threads[t].(holds := s.threads[t].holds - {m})])
  }

  /** What `green_cond_wait` does instead: clear `taken`, wake one waiter, and forget the rest of the queue. */
  function ReleaseWritten(s: State, t: nat, m: nat): State
    requires t < |s.threads| && m < |s.mutexes| && 1 + m < |s.queues|
  {
    var s1 := Wake(s, 1 + m);
    s1.(
      queues := s1.queues[1 + m := []],
      lost := s.lost + multiset(s1.queues[1 + m]),
      mutexes := s.mutexes[m := Mutex(false, None)],
      threads := s.threads[t := s.threads[t].(holds := s.threads[t].holds - {m})])
  }

  /** The end of `green_join`. */
  function Collect(s: State, t: nat, target: nat): State
    requires t < |s.threads| && target < |s.threads|
  {
    var v := s.threads[target].retval;
    SetAt(s, t, User).(joined := s.joined + [Joined(t, target, if v != 0 then Some(v) else None)])
  }

  /** The running thread waits in the `join` field of `target`. */
  function ParkJoin(s: State, target: nat): State
    requires s.running.Some? && s.running.value < |s.threads| && target < |s.threads|
  {
    var s1 := SetAt(s, s.running.value, AfterJoin(target));
    s1.(threads := s1.threads[target := s1.threads[target].(join := s.running)], running := None)
  }

  /** The running thread becomes a zombie; a thread waiting for it becomes ready. */
  function Retire(s: State, v: int): State
    requires s.running.Some? && s.running.value < |s.threads| && |s.queues| > 0
  {
    var t := s.running.value;
    var s1 := if s.threads[t].join.Some? then Enqueue(s, 0, s.threads[t].join.value) else s;
    s1.(threads := s.threads[t := s.threads[t].(retval := v, zombie := true)], running := None)
  }

  // ---------------------------------------------------------------- steps

  /** What a call needs to make sense, and the discipline the library expects of its callers. */
  predicate Legal(s: State, op: Op) {
    && s.running.Some? && s.running.value < |s.threads| && |s.queues| > |s.mutexes|
    && var me := s.threads[s.running.value];
       (op == Resume <==> me.at != User) &&
       match op
       case Create => true
       case Yield => true
       case Join(t) => t < |s.threads| && s.threads[t].join.None?
       case Terminate(v) => s.running.value != 0
       case Lock(m) => m < |s.mutexes| && m !in me.holds
       case Unlock(m) => m < |s.mutexes| && m in me.holds
       case Wait(c, om) =>
         CondQueue(s, c) < |s.queues| && (om.Some? ==> om.value < |s.mutexes| && om.value in me.holds)
       case Signal(c) => CondQueue(s, c) < |s.queues|
       case Resume =>
         match me.at
         case AfterJoin(t) => t < |s.threads|
         case AfterLock(m) => m < |s.mutexes|
         case AfterRelock(m) => m < |s.mutexes|
         case AfterCond(om) => om.Some? ==> om.value < |s.mutexes|
         case _ => true
  }

  function WaitStep(s: State, c: nat, om: Option<nat>, written: bool): State
    requires Legal(s, Wait(c, om))
  {
    var s1 := Park(s, CondQueue(s, c), AfterCond(om));
    Dispatch(
      if om.None? then s1
      else if written then ReleaseWritten(s1, s.running.value, om.value)
      else Release(s1, s.running.value, om.value))
  }

  function AddHold(s: State, t: nat, m: nat): State
    requires t < |s.threads|
  {
    s.(threads := s.threads[t := s.threads[t].(holds := s.threads[t].holds + {m})])
  }

  function ResumeStep(s: State): State
    requires Legal(s, Resume)
  {
    var t := s.running.value;
    match s.threads[t].at
    case AfterJoin(target) => Collect(s, t, target)
    case AfterLock(m) => SetAt(AddHold(s, t, m), t, User)
    case AfterRelock(m) => SetAt(AddHold(s, t, m), t, User)
    case AfterCond(om) =>
      if om.None? then SetAt(s, t, User)
      else if s.mutexes[om.value].taken then Dispatch(Park(s, 1 + om.value, AfterRelock(om.value)))
      else SetAt(Acquire(s, t, om.value), t, User)
    case Fresh => SetAt(s, t, User)
    case AfterYield => SetAt(s, t, User)
    case User => s
  }

  /** One step; here `green_cond_wait` releases as `green_mutex_unlock` does. */
  function Step(s: State, op: Op): State
    requires Legal(s, op)
  {
    var t := s.running.value;
    match op
    case Create => Enqueue(s.(threads := s.threads + [Thread(None, 0, false, Fresh, {})]), 0, |s.threads|)
    case Yield => Dispatch(Park(s, 0, AfterYield))
    case Join(target) => if s.threads[target].zombie then Collect(s, t, target) else Dispatch(ParkJoin(s, target))
    case Terminate(v) => Dispatch(Retire(s, v))
    case Lock(m) => if s.mutexes[m].taken then Dispatch(Park(s, 1 + m, AfterLock(m))) else Acquire(s, t, m)
    case Unlock(m) => Release(s, t, m)
    case Wait(c, om) => WaitStep(s, c, om, false)
    case Signal(c) => Wake(s, CondQueue(s, c))
    case Resume => ResumeStep(s)
  }

  /** One step of the code as written. */
  function StepWritten(s: State, op: Op): State
    requires Legal(s, op)
  {
    match op
    case Wait(c, om) => WaitStep(s, c, om, true)
    case _ => Step(s, op)
  }

  function Exec(s: State, ops: seq<Op>): State
    requires LegalExec(s, ops)
    decreases |ops|, 1
  {
    if ops == [] then s else Step(Exec(s, ops[..|ops| - 1]), ops[|ops| - 1])
  }

  predicate LegalExec(s: State, ops: seq<Op>)
    decreases |ops|, 0
  {
    ops == [] || (LegalExec(s, ops[..|ops| - 1]) && Legal(Exec(s, ops[..|ops| - 1]), ops[|ops| - 1]))
  }

  /** A run of the code as written. */
  function ExecWritten(s: State, ops: seq<Op>): State
    requires LegalWritten(s, ops)
    decreases |ops|, 1
  {
    if ops == [] then s else StepWritten(ExecWritten(s, ops[..|ops| - 1]), ops[|ops| - 1])
  }

  predicate LegalWritten(s: State, ops: seq<Op>)
    decreases |ops|, 0
  {
    ops == [] || (LegalWritten(s, ops[..|ops| - 1]) && Legal(ExecWritten(s, ops[..|ops| - 1]), ops[|ops| - 1]))
  }

  // ---------------------------------------------------------------- conservation

  function Queued(qs: seq<seq<nat>>): multiset<nat> {
    if qs == [] then multiset{} else Queued(qs[..|qs| - 1]) + multiset(qs[|qs| - 1])
  }

  function Slot(t: Thread): multiset<nat> {
    if !t.zombie && t.join.Some? then multiset{t.join.value} else multiset{}
  }

  /** The threads in the `join` fields of threads that have not ended. */
  function Slots(ts: seq<Thread>): multiset<nat> {
    if ts == [] then multiset{} else Slots(ts[..|ts| - 1]) + Slot(ts[|ts| - 1])
  }

  function Alive(ts: seq<Thread>): multiset<nat> {
    if ts == [] then multiset{}
    else Alive(ts[..|ts| - 1]) + (if ts[|ts| - 1].zombie then multiset{} else multiset{|ts| - 1})
  }

  function Running(s: State): multiset<nat> {
    if s.running.Some? then multiset{s.running.value} else multiset{}
  }

  function Places(s: State): multiset<nat> {
    Running(s) + Queued(s.queues) + Slots(s.threads)
  }

  /** Every thread that has not ended is in exactly one place or lost, and no zombie is anywhere. */
  predicate Conserved(s: State) {
    Places(s) + s.lost == Alive(s.threads)
  }

  /** Every thread that has not ended is in exactly one place, and no zombie is in any. */
  predicate OnePlace(s: State) {
    Places(s) == Alive(s.threads)
  }

  lemma AddBoth(a: multiset<nat>, b: multiset<nat>, c: multiset<nat>, d: multiset<nat>, x: multiset<nat>)
    requires a + b == c + d
    ensures (a + x) + b == (c + x) + d
  {
    assert (a + x) + b == (a + b) + x;
    assert (c + x) + d == (c + d) + x;
  }

  lemma {:induction false} QueuedUpdate(qs: seq<seq<nat>>, k: nat, q: seq<nat>)
    requires k < |qs|
    ensures Queued(qs[k := q]) + multiset(qs[k]) == Queued(qs) + multiset(q)
  {
    var n := |qs| - 1;
    if k < n {
      QueuedUpdate(qs[..n], k, q);
      assert qs[k := q][..n] == qs[..n][k := q];
      assert qs[..n][k] == qs[k];
      AddBoth(Queued(qs[..n][k := q]), multiset(qs[k]), Queued(qs[..n]), multiset(q), multiset(qs[n]));
    } else {
      assert qs[k := q][..n] == qs[..n];
    }
  }

  lemma {:induction false} QueuedMember(qs: seq<seq<nat>>, k: nat, x: nat)
    requires k < |qs|
    ensures multiset(qs[k])[x] <= Queued(qs)[x]
  {
    if k < |qs| - 1 { QueuedMember(qs[..|qs| - 1], k, x); }
  }

  lemma {:induction false} QueuedIn(qs: seq<seq<nat>>, x: nat) returns (k: nat)
    requires x in Queued(qs)
    ensures k < |qs| && x in qs[k]
  {
    if x in qs[|qs| - 1] { k := |qs| - 1; } else { k := QueuedIn(qs[..|qs| - 1], x); }
  }

  lemma {:induction false} SlotsUpdate(ts: seq<Thread>, k: nat, t: Thread)
    requires k < |ts|
    ensures Slots(ts[k := t]) + Slot(ts[k]) == Slots(ts) + Slot(t)
  {
    hide Slot;
    var n := |ts| - 1;
    if k < n {
      SlotsUpdate(ts[..n], k, t);
      assert ts[k := t][..n] == ts[..n][k := t];
      assert ts[..n][k] == ts[k];
      AddBoth(Slots(ts[..n][k := t]), Slot(ts[k]), Slots(ts[..n]), Slot(t), Slot(ts[n]));
    } else {
      assert ts[k := t][..n] == ts[..n];
    }
  }

  lemma {:induction false} SlotsMember(ts: seq<Thread>, k: nat, x: nat)
    requires k < |ts|
    ensures Slot(ts[k])[x] <= Slots(ts)[x]
  {
    if k < |ts| - 1 { SlotsMember(ts[..|ts| - 1], k, x); }
  }

  lemma {:induction false} SlotsIn(ts: seq<Thread>, x: nat) returns (k: nat)
    requires x in Slots(ts)
    ensures k < |ts| && !ts[k].zombie && ts[k].join == Some(x)
  {
    if x in Slot(ts[|ts| - 1]) { k := |ts| - 1; } else { k := SlotsIn(ts[..|ts| - 1], x); }
  }

  lemma {:induction false} AliveCount(ts: seq<Thread>, x: nat)
    ensures Alive(ts)[x] == if x < |ts| && !ts[x].zombie then 1 else 0
  {
    if ts != [] { AliveCount(ts[..|ts| - 1], x); }
  }

  lemma AliveUpdate(ts: seq<Thread>, k: nat, t: Thread)
    requires k < |ts| && (ts[k].zombie ==> t.zombie)
    ensures Alive(ts[k := t]) + (if t.zombie && !ts[k].zombie then multiset{k} else multiset{}) == Alive(ts)
  {
    var l := Alive(ts[k := t]) + (if t.zombie && !ts[k].zombie then multiset{k} else multiset{});
    forall x ensures l[x] == Alive(ts)[x] {
      AliveCount(ts, x);
      AliveCount(ts[k := t], x);
    }
  }

  // ---------------------------------------------------------------- the invariant

  predicate Owns(s: State, t: nat, m: nat) {
    m < |s.mutexes| && s.mutexes[m].owner == Some(t)
  }

  predicate Waits(p: Point, m: nat) {
    p == AfterLock(m) || p == AfterRelock(m)
  }

  /** A thread that may run on from where it is suspended: what it waited for has happened. */
  predicate Runnable(s: State, t: nat) {
    t < |s.threads| && !s.threads[t].zombie &&
    match s.threads[t].at
    case User => false
    case AfterJoin(target) => target < |s.threads| && s.threads[target].zombie
    case AfterLock(m) => Owns(s, t, m)
    case AfterRelock(m) => Owns(s, t, m)
    case AfterCond(om) => om.Some? ==> om.value < |s.mutexes| && om.value !in s.threads[t].holds
    case _ => true
  }

  /** What is known of thread `t` in queue `k`. */
  predicate QueueOk(s: State, k: nat, t: nat) {
    t < |s.threads| && !s.threads[t].zombie &&
    if k == 0 then Runnable(s, t)
    else if k <= |s.mutexes| then Waits(s.threads[t].at, k - 1) && !Owns(s, t, k - 1)
    else s.threads[t].at.AfterCond? && Runnable(s, t)
  }

  ghost predicate QueuesOk(s: State) {
    forall k, t :: 0 <= k < |s.queues| && t in s.queues[k] ==> QueueOk(s, k, t)
  }

  ghost predicate RunningOk(s: State) {
    s.running.Some? ==>
      s.running.value < |s.threads| && !s.threads[s.running.value].zombie &&
      (s.threads[s.running.value].at == User || Runnable(s, s.running.value))
  }

  /** What is known of a thread and of the one in its `join` field. */
  predicate ThreadOk(s: State, t: nat)
    requires t < |s.threads|
  {
    var me := s.threads[t];
    && (me.zombie ==> me.at == User)
    && (!me.zombie && me.join.Some? ==>
          && me.join.value < |s.threads| && !s.threads[me.join.value].zombie
          && s.threads[me.join.value].at == AfterJoin(t))
  }

  ghost predicate ThreadsOk(s: State) {
    forall t :: 0 <= t < |s.threads| ==> ThreadOk(s, t)
  }

  /** A mutex is taken exactly while it has an owner, and only a taken one has waiters. */
  predicate MutexOk(s: State, m: nat)
    requires m < |s.mutexes| && 1 + m < |s.queues|
  {
    && (s.mutexes[m].taken <==> s.mutexes[m].owner.Some?)
    && (s.queues[1 + m] != [] ==> s.mutexes[m].taken)
    && (s.mutexes[m].owner.Some? ==>
          var o := s.mutexes[m].owner.value;
          o < |s.threads| && (m in s.threads[o].holds || Waits(s.threads[o].at, m)))
  }

  ghost predicate MutexesOk(s: State) {
    && |s.mutexes| < |s.queues|
    && forall m :: 0 <= m < |s.mutexes| ==> MutexOk(s, m)
  }

  ghost predicate HoldsOk(s: State) {
    forall t, m :: 0 <= t < |s.threads| && m in s.threads[t].holds ==> Owns(s, t, m)
  }

  predicate JoinedOk(s: State, j: Joined) {
    j.target < |s.threads| && s.threads[j.target].zombie &&
    j.result == (if s.threads[j.target].retval != 0 then Some(s.threads[j.target].retval) else None)
  }

  ghost predicate AllJoinedOk(s: State) {
    forall j :: j in s.joined ==> JoinedOk(s, j)
  }

  ghost predicate Inv(s: State) {
    && |s.threads| > 0 && !s.threads[0].zombie
    && Conserved(s) && s.lost == multiset{}
    && QueuesOk(s) && RunningOk(s) && ThreadsOk(s)
    && MutexesOk(s) && HoldsOk(s) && AllJoinedOk(s)
  }
}
