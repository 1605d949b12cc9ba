/** Properties of whole runs of the green-thread library. */
module GreenRuns {
  import opened Options
  import opened GreenModel
  import opened GreenInvariant

  // ---------------------------------------------------------------- conservation

  /** A thread that has neither ended nor been lost is somewhere. */
  lemma Somewhere(s: State, t: nat)
    requires Conserved(s) && t < |s.threads| && !s.threads[t].zombie && t !in s.lost
    ensures s.running == Some(t)
         || (exists k :: 0 <= k < |s.queues| && t in s.queues[k])
         || (exists u :: 0 <= u < |s.threads| && !s.threads[u].zombie && s.threads[u].join == Some(t))
  {
    AliveCount(s.threads, t);
    assert (Places(s) + s.lost)[t] == Alive(s.threads)[t];
    if s.running != Some(t) {
      if t in Queued(s.queues) {
        var k := QueuedIn(s.queues, t);
      } else {
        assert t in Slots(s.threads);
        var u := SlotsIn(s.threads, t);
      }
    }
  }

  /** In every run each living thread is in exactly one place and each zombie in none. */
  lemma RunPlaces(mutexes: nat, conds: nat, ops: seq<Op>, t: nat)
    requires LegalExec(Init(mutexes, conds), ops)
    ensures var s := Exec(Init(mutexes, conds), ops);
            t < |s.threads| ==> Places(s)[t] == if s.threads[t].zombie then 0 else 1
  {
    var s := Exec(Init(mutexes, conds), ops);
    InitInv(mutexes, conds);
    ExecKeeps(Init(mutexes, conds), ops);
    AliveCount(s.threads, t);
  }

  // ---------------------------------------------------------------- mutual exclusion

  /** Thread `t` is past locking `m`: it has returned from the lock call, or will without looking at `m` again. */
  ghost predicate Believes(s: State, t: nat, m: nat) {
    t < |s.threads| && 1 + m < |s.queues| &&
    (m in s.threads[t].holds || (Waits(s.threads[t].at, m) && t !in s.queues[1 + m] && t !in s.lost))
  }

  /** `taken` tells the truth: it is set exactly when some thread is past locking `m`. */
  ghost predicate Honest(s: State, m: nat)
    requires m < |s.mutexes|
  {
    s.mutexes[m].taken <==> exists t :: Believes(s, t, m)
  }

  /** The one thread past locking a mutex is the owner it was handed to. */
  lemma BelieverOwns(s: State, t: nat, m: nat)
    requires Inv(s) && m < |s.mutexes|
    ensures Believes(s, t, m) <==> s.mutexes[m].owner == Some(t)
  {
    hide Conserved;
    assert MutexOk(s, m);
    if Believes(s, t, m) {
      if m in s.threads[t].holds {
        assert Owns(s, t, m);
      } else {
        assert ThreadOk(s, t);
        Somewhere(s, t);
        if k :| 0 <= k < |s.queues| && t in s.queues[k] {
          assert QueueOk(s, k, t);
        } else if u :| 0 <= u < |s.threads| && !s.threads[u].zombie && s.threads[u].join == Some(t) {
          assert ThreadOk(s, u);
        }
      }
    }
    assert t in s.queues[1 + m] ==> QueueOk(s, 1 + m, t);
  }

  /** In every run at most one thread is past locking a mutex, and `taken` says whether there is one. */
  lemma RunExclusion(mutexes: nat, conds: nat, ops: seq<Op>, m: nat, t: nat, u: nat)
    requires LegalExec(Init(mutexes, conds), ops) && m < mutexes
    ensures var s := Exec(Init(mutexes, conds), ops);
            |s.mutexes| == mutexes && Honest(s, m) && (Believes(s, t, m) && Believes(s, u, m) ==> t == u)
  {
    var s := Exec(Init(mutexes, conds), ops);
    InitInv(mutexes, conds);
    WaitersOrder(Init(mutexes, conds), ops, m);
    ExecKeeps(Init(mutexes, conds), ops);
    ExclusionHolds(s, m);
    BelieverOwns(s, t, m);
    BelieverOwns(s, u, m);
  }

  lemma ExclusionHolds(s: State, m: nat)
    requires Inv(s) && m < |s.mutexes|
    ensures Honest(s, m)
  {
    assert MutexOk(s, m);
    if s.mutexes[m].taken {
      BelieverOwns(s, s.mutexes[m].owner.value, m);
    } else {
      forall t ensures !Believes(s, t, m) { BelieverOwns(s, t, m); }
    }
  }

  // ---------------------------------------------------------------- first come, first served

  /** Steps that switch to the first ready thread. */
  predicate Switches(s: State, op: Op)
    requires Legal(s, op)
  {
    match op
    case Yield => true
    case Join(t) => !s.threads[t].zombie
    case Terminate(v) => true
    case Lock(m) => s.mutexes[m].taken
    case Wait(c, om) => true
    case Resume =>
      var p := s.threads[s.running.value].at;
      p.AfterCond? && p.relock.Some? && s.mutexes[p.relock.value].taken
    case _ => false
  }

  /** Steps that give up mutex `m`. */
  predicate Releases(op: Op, m: nat) {
    op == Unlock(m) || (op.Wait? && op.releases == Some(m))
  }

  function SwitchCount(s: State, ops: seq<Op>): nat
    requires LegalExec(s, ops)
  {
    if ops == [] then 0
    else
      var before := ops[..|ops| - 1];
      SwitchCount(s, before) + if Switches(Exec(s, before), ops[|ops| - 1]) then 1 else 0
  }

  function ReleaseCount(ops: seq<Op>, m: nat): nat {
    if ops == [] then 0
    else ReleaseCount(ops[..|ops| - 1], m) + if Releases(ops[|ops| - 1], m) then 1 else 0
  }

  /** A switch takes the head of the ready queue; everything else only appends to it. */
  lemma StepReady(s: State, op: Op)
    requires Legal(s, op)
    ensures var q, s' := s.queues[0], Step(s, op);
            && |s'.queues| == |s.queues|
            && if Switches(s, op)
               then q != [] ==> q[1..] <= s'.queues[0] && s'.running == Some(q[0])
               else q <= s'.queues[0] && s'.running == s.running
  {
    hide WaitStep, ResumeStep, Release;
    match op
    case Wait(c, om) => WaitReady(s, c, om);
    case Resume => ResumeReady(s);
    case Unlock(m) => ReleaseReady(s, s.running.value, m);
    case _ =>
  }

  lemma ReleaseReady(s: State, t: nat, m: nat)
    requires t < |s.threads| && m < |s.mutexes| && 1 + m < |s.queues|
    ensures var s' := Release(s, t, m);
            |s'.queues| == |s.queues| && s.queues[0] <= s'.queues[0] && s'.running == s.running
  {
  }

  lemma WaitReady(s: State, c: nat, om: Option<nat>)
    requires Legal(s, Wait(c, om))
    ensures var q, s' := s.queues[0], WaitStep(s, c, om, false);
            |s'.queues| == |s.queues| && (q != [] ==> q[1..] <= s'.queues[0] && s'.running == Some(q[0]))
  {
    hide Release;
    if om.Some? { ReleaseReady(Park(s, CondQueue(s, c), AfterCond(om)), s.running.value, om.value); }
  }

  lemma ResumeReady(s: State)
    requires Legal(s, Resume)
    ensures var q, s' := s.queues[0], ResumeStep(s);
            && |s'.queues| == |s.queues|
            && if Switches(s, Resume)
               then q != [] ==> q[1..] <= s'.queues[0] && s'.running == Some(q[0])
               else q <= s'.queues[0] && s'.running == s.running
  {
  }

  lemma WaitWaiters(s: State, c: nat, om: Option<nat>, m: nat)
    requires Legal(s, Wait(c, om)) && m < |s.mutexes|
    ensures var q, s' := s.queues[1 + m], WaitStep(s, c, om, false);
            && |s'.mutexes| == |s.mutexes| && |s'.queues| == |s.queues|
            && if om == Some(m) then q != [] ==> q[1..] == s'.queues[1 + m] && s'.mutexes[m].owner == Some(q[0])
               else q == s'.queues[1 + m]
  {
  }

  lemma ResumeWaiters(s: State, m: nat)
    requires Legal(s, Resume) && m < |s.mutexes|
    ensures var s' := ResumeStep(s);
            |s'.mutexes| == |s.mutexes| && |s'.queues| == |s.queues| && s.queues[1 + m] <= s'.queues[1 + m]
  {
  }

  /** A release hands the mutex to the head of its queue; everything else only appends to that queue. */
  lemma StepWaiters(s: State, op: Op, m: nat)
    requires Legal(s, op) && m < |s.mutexes|
    ensures var q, s' := s.queues[1 + m], Step(s, op);
            && |s'.mutexes| == |s.mutexes| && |s'.queues| == |s.queues|
            && if Releases(op, m)
               then q != [] ==> q[1..] <= s'.queues[1 + m] && s'.mutexes[m].owner == Some(q[0])
               else q <= s'.queues[1 + m]
  {
    hide WaitStep, ResumeStep, Release;
    match op
    case Wait(c, om) => WaitWaiters(s, c, om, m);
    case Resume => ResumeWaiters(s, m);
    case Unlock(l) => ReleaseWaiters(s, s.running.value, l, m);
    case _ =>
  }

  lemma ReleaseWaiters(s: State, t: nat, l: nat, m: nat)
    requires t < |s.threads| && l < |s.mutexes| && m < |s.mutexes| < |s.queues|
    ensures var q, s' := s.queues[1 + m], Release(s, t, l);
            && |s'.mutexes| == |s.mutexes| && |s'.queues| == |s.queues|
            && if l == m then q != [] ==> q[1..] == s'.queues[1 + m] && s'.mutexes[m].owner == Some(q[0])
               else q == s'.queues[1 + m]
  {
  }

  /** After `n` switches the ready queue starts with what was behind its first `n` threads. */
  lemma {:induction false} ReadyOrder(s: State, ops: seq<Op>)
    requires LegalExec(s, ops) && |s.queues| > 0
    ensures var n, s' := SwitchCount(s, ops), Exec(s, ops);
            |s'.queues| == |s.queues| && (n <= |s.queues[0]| ==> s.queues[0][n..] <= s'.queues[0])
  {
    hide Step, Legal, Switches;
    if ops != [] {
      var before, op := ops[..|ops| - 1], ops[|ops| - 1];
      ReadyOrder(s, before);
      StepReady(Exec(s, before), op);
    }
  }

  /** The thread at position `k` of the ready queue runs at the (k+1)-th switch. */
  lemma RunsAtSwitch(s: State, ops: seq<Op>, k: nat)
    requires LegalExec(s, ops) && |s.queues| > 0 && k < |s.queues[0]|
    requires ops != [] && Switches(Exec(s, ops[..|ops| - 1]), ops[|ops| - 1]) && SwitchCount(s, ops) == k + 1
    ensures Exec(s, ops).running == Some(s.queues[0][k])
  {
    var before := ops[..|ops| - 1];
    ReadyOrder(s, before);
    StepReady(Exec(s, before), ops[|ops| - 1]);
  }

  /**
   After `n` releases the queue of a mutex starts with what was behind its first `n` waiters:
   no later arrival overtakes.
   */
  lemma {:induction false} WaitersOrder(s: State, ops: seq<Op>, m: nat)
    requires LegalExec(s, ops) && m < |s.mutexes| < |s.queues|
    ensures var n, s' := ReleaseCount(ops, m), Exec(s, ops);
            && |s'.mutexes| == |s.mutexes| < |s'.queues|
            && (n <= |s.queues[1 + m]| ==> s.queues[1 + m][n..] <= s'.queues[1 + m])
  {
    hide Step, Legal;
    if ops != [] {
      var before, op := ops[..|ops| - 1], ops[|ops| - 1];
      WaitersOrder(s, before, m);
      StepWaiters(Exec(s, before), op, m);
    }
  }

  /** A thread that waits behind `k` others becomes the owner at exactly the (k+1)-th later release. */
  lemma OwnsAtRelease(s: State, ops: seq<Op>, m: nat, k: nat)
    requires LegalExec(s, ops) && m < |s.mutexes| < |s.queues| && k < |s.queues[1 + m]|
    requires ops != [] && Releases(ops[|ops| - 1], m) && ReleaseCount(ops, m) == k + 1
    ensures |Exec(s, ops).mutexes| == |s.mutexes|
    ensures Exec(s, ops).mutexes[m].owner == Some(s.queues[1 + m][k])
  {
    var before := ops[..|ops| - 1];
    WaitersOrder(s, before, m);
    StepWaiters(Exec(s, before), ops[|ops| - 1], m);
  }

  /** Until then it is still waiting and does not own the mutex. */
  lemma WaitsUntilRelease(s: State, ops: seq<Op>, m: nat, k: nat)
    requires Inv(s) && LegalExec(s, ops) && m < |s.mutexes| && k < |s.queues[1 + m]|
    requires ReleaseCount(ops, m) <= k
    ensures var s' := Exec(s, ops);
            && |s'.mutexes| == |s.mutexes| < |s'.queues|
            && s.queues[1 + m][k] in s'.queues[1 + m] && s'.mutexes[m].owner != Some(s.queues[1 + m][k])
  {
    hide Conserved, LegalExec, Exec, ReleaseCount;
    var n, s' := ReleaseCount(ops, m), Exec(s, ops);
    WaitersOrder(s, ops, m);
    ExecKeeps(s, ops);
    assert s'.queues[1 + m][k - n] == s.queues[1 + m][n..][k - n] == s.queues[1 + m][k];
    assert QueueOk(s', 1 + m, s.queues[1 + m][k]);
  }

  /** The next step of a thread that is resumed: it is in user code again, or waits for its mutex after a condition. */
  ghost predicate Returns(s: State, s': State) {
    s.running.Some? && s.running.value < |s.threads| == |s'.threads| &&
    var r := s.running.value;
    if s.threads[r].at.AfterCond? && s'.threads[r].at != User then s'.threads[r].at.AfterRelock?
    else s'.running == s.running && s'.queues == s.queues && s'.threads[r].at == User
  }

  /**
   A thread that has been switched to can always go on with its library call. The step ends the
   call, except that a condition wait may have to wait for its mutex, once.
   */
  lemma ResumeLegal(mutexes: nat, conds: nat, ops: seq<Op>)
    requires LegalExec(Init(mutexes, conds), ops)
    ensures var s := Exec(Init(mutexes, conds), ops);
            s.running.None? ||
            (s.running.value < |s.threads| &&
             (if s.threads[s.running.value].at == User then !Legal(s, Resume)
              else Legal(s, Resume) && Returns(s, Step(s, Resume))))
  {
    hide Inv, Legal, Exec, LegalExec, Step, Returns;
    InitInv(mutexes, conds);
    ExecKeeps(Init(mutexes, conds), ops);
    var s := Exec(Init(mutexes, conds), ops);
    if s.running.Some? {
      RunnableLegal(s);
      if s.threads[s.running.value].at != User { ResumeReturns(s); }
    }
  }

  lemma ResumeReturns(s: State)
    requires Legal(s, Resume)
    ensures Returns(s, Step(s, Resume))
  {
  }

  lemma RunnableLegal(s: State)
    requires Inv(s) && s.running.Some?
    ensures s.running.value < |s.threads| && (Legal(s, Resume) <==> s.threads[s.running.value].at != User)
  {
    hide Conserved, QueuesOk, ThreadsOk, HoldsOk, AllJoinedOk, MutexOk;
    assert RunningOk(s);
  }

  function SignalCount(ops: seq<Op>, c: nat): nat {
    if ops == [] then 0
    else SignalCount(ops[..|ops| - 1], c) + if ops[|ops| - 1] == Signal(c) then 1 else 0
  }

  /** A signal makes the head of its queue the last ready thread; everything else only appends to that queue. */
  lemma StepCond(s: State, op: Op, c: nat)
    requires Legal(s, op) && CondQueue(s, c) < |s.queues|
    ensures var q, s' := s.queues[CondQueue(s, c)], Step(s, op);
            && |s'.mutexes| == |s.mutexes| && |s'.queues| == |s.queues|
            && if op == Signal(c)
               then q != [] ==> q[1..] <= s'.queues[CondQueue(s, c)] && s'.queues[0] == s.queues[0] + [q[0]]
               else q <= s'.queues[CondQueue(s, c)]
  {
    hide WaitStep, ResumeStep;
    match op
    case Wait(d, om) => WaitCond(s, d, om, c);
    case Resume => ResumeCond(s, c);
    case _ =>
  }

  lemma WaitCond(s: State, d: nat, om: Option<nat>, c: nat)
    requires Legal(s, Wait(d, om)) && CondQueue(s, c) < |s.queues|
    ensures var s' := WaitStep(s, d, om, false);
            && |s'.mutexes| == |s.mutexes| && |s'.queues| == |s.queues|
            && s.queues[CondQueue(s, c)] <= s'.queues[CondQueue(s, c)]
  {
  }

  lemma ResumeCond(s: State, c: nat)
    requires Legal(s, Resume) && CondQueue(s, c) < |s.queues|
    ensures var s' := ResumeStep(s);
            && |s'.mutexes| == |s.mutexes| && |s'.queues| == |s.queues|
            && s.queues[CondQueue(s, c)] <= s'.queues[CondQueue(s, c)]
  {
  }

  lemma {:induction false} CondOrder(s: State, ops: seq<Op>, c: nat)
    requires LegalExec(s, ops) && CondQueue(s, c) < |s.queues|
    ensures var n, s', k := SignalCount(ops, c), Exec(s, ops), CondQueue(s, c);
            && |s'.mutexes| == |s.mutexes| && |s'.queues| == |s.queues|
            && (n <= |s.queues[k]| ==> s.queues[k][n..] <= s'.queues[k])
  {
    hide Step, Legal;
    if ops != [] {
      var before := ops[..|ops| - 1];
      CondOrder(s, before, c);
      StepCond(Exec(s, before), ops[|ops| - 1], c);
    }
  }

  /** A thread that waits on a condition behind `k` others is made ready by the (k+1)-th later signal. */
  lemma ReadyAtSignal(s: State, ops: seq<Op>, c: nat, k: nat)
    requires LegalExec(s, ops) && CondQueue(s, c) < |s.queues| && k < |s.queues[CondQueue(s, c)]|
    requires ops != [] && ops[|ops| - 1] == Signal(c) && SignalCount(ops, c) == k + 1
    ensures var q, s' := s.queues[CondQueue(s, c)], Exec(s, ops);
            |s'.queues| > 0 && s'.queues[0] != [] && s'.queues[0][|s'.queues[0]| - 1] == q[k]
  {
    hide Step, Legal;
    var before := ops[..|ops| - 1];
    CondOrder(s, before, c);
    StepCond(Exec(s, before), Signal(c), c);
  }

  // ---------------------------------------------------------------- yield rotates

  function Schedule(s: State): seq<nat>
    requires s.running.Some? && |s.queues| > 0
  {
    [s.running.value] + s.queues[0]
  }

  /** Only yields, by the program or by the timer, and resumptions that do not suspend again. */
  predicate YieldRun(s: State, ops: seq<Op>)
    requires LegalExec(s, ops)
  {
    ops == [] ||
    (YieldRun(s, ops[..|ops| - 1]) &&
     match ops[|ops| - 1]
     case Yield => true
     case Resume => !Switches(Exec(s, ops[..|ops| - 1]), Resume)
     case _ => false)
  }

  /** The sequence that starts at position `n` and goes round. */
  function Rotated(q: seq<nat>, n: nat): seq<nat>
    requires n <= |q|
  {
    q[n..] + q[..n]
  }

  lemma RotateOnce(q: seq<nat>, n: nat, m: nat)
    requires n < |q| && m == if n + 1 == |q| then 0 else n + 1
    ensures var r := Rotated(q, n); r[1..] + [r[0]] == Rotated(q, m)
  {
    if n + 1 == |q| {
      assert Rotated(q, 0) == q;
      assert Rotated(q, n) == [q[n]] + q[..n];
    }
  }

  lemma ResumeStays(s: State)
    requires Legal(s, Resume) && !Switches(s, Resume)
    ensures Step(s, Resume).queues == s.queues && Step(s, Resume).running == s.running
  {
  }

  lemma YieldRotates(s: State)
    requires Legal(s, Yield)
    ensures var s' := Step(s, Yield);
            s'.running.Some? && |s'.queues| > 0 && Schedule(s') == Schedule(s)[1..] + [Schedule(s)[0]]
  {
  }

  /** Any number of yields rotates the schedule by that many places. */
  lemma {:induction false} YieldsRotate(s: State, ops: seq<Op>)
    requires s.running.Some? && |s.queues| > 0 && LegalExec(s, ops) && YieldRun(s, ops)
    ensures var n, s' := SwitchCount(s, ops), Exec(s, ops);
            && s'.running.Some? && |s'.queues| > 0
            && Schedule(s') == Rotated(Schedule(s), n % |Schedule(s)|)
  {
    hide Step, Rotated, Legal;
    if ops == [] {
      NotRotated(Schedule(s));
    } else {
      var before, op := ops[..|ops| - 1], ops[|ops| - 1];
      YieldsRotate(s, before);
      var n, s1 := SwitchCount(s, before), Exec(s, before);
      if op == Yield {
        YieldRotates(s1);
        RotateNext(Schedule(s), n);
      } else {
        ResumeStays(s1);
      }
    }
  }

  lemma RotateNext(q: seq<nat>, n: nat)
    requires q != []
    ensures var r := Rotated(q, n % |q|); r[1..] + [r[0]] == Rotated(q, (n + 1) % |q|)
  {
    hide Rotated;
    NextPlace(n, |q|);
    RotateOnce(q, n % |q|, (n + 1) % |q|);
  }

  lemma NotRotated(q: seq<nat>)
    ensures Rotated(q, 0) == q
  {
  }

  lemma NextPlace(n: nat, size: nat)
    requires size > 0
    ensures (n + 1) % size == if n % size + 1 == size then 0 else n % size + 1
  {
    var q, k := n / size, n % size;
    assert q * size + size == (q + 1) * size;
    if k + 1 == size {
      SameQuotient((n + 1) / size, q + 1, (n + 1) % size, 0, size);
    } else {
      SameQuotient((n + 1) / size, q, (n + 1) % size, k + 1, size);
    }
  }

  lemma SameQuotient(p: nat, q: nat, r: nat, k: nat, size: nat)
    requires r < size && k < size && p * size + r == q * size + k
    ensures p == q && r == k
  {
    if p > q { Multiples(p, q, size); } else if p < q { Multiples(q, p, size); }
  }

  lemma Multiples(p: nat, q: nat, size: nat)
    requires p > q
    ensures p * size >= q * size + size
  {
    var d := p - q - 1;
    assert d * size >= 0;
    assert (d + q + 1) * size == d * size + q * size + size;
  }

  /** Whenever their number is a multiple of that of the runnable threads, yields restore the schedule. */
  lemma YieldsRestore(s: State, ops: seq<Op>)
    requires s.running.Some? && |s.queues| > 0 && LegalExec(s, ops) && YieldRun(s, ops)
    requires SwitchCount(s, ops) % |Schedule(s)| == 0
    ensures Exec(s, ops).running == s.running && |Exec(s, ops).queues| > 0 && Exec(s, ops).queues[0] == s.queues[0]
  {
    YieldsRotate(s, ops);
    NotRotated(Schedule(s));
    var q, q' := Schedule(s), Schedule(Exec(s, ops));
    assert q[1..] == s.queues[0] && q'[1..] == Exec(s, ops).queues[0];
    assert q[0] == s.running.value && q'[0] == Exec(s, ops).running.value;
  }

  // ---------------------------------------------------------------- join

  /** A thread that comes back from waiting in `green_join` finds the other thread ended. */
  lemma JoinFindsZombie(mutexes: nat, conds: nat, ops: seq<Op>)
    requires LegalExec(Init(mutexes, conds), ops)
    ensures var s := Exec(Init(mutexes, conds), ops);
            Legal(s, Resume) && s.threads[s.running.value].at.AfterJoin? ==>
              s.threads[s.threads[s.running.value].at.target].zombie
  {
    InitInv(mutexes, conds);
    ExecKeeps(Init(mutexes, conds), ops);
  }

  /** What `green_join` stores through its second argument for a thread that returned `v`. */
  function Stored(v: int): Option<int> { if v != 0 then Some(v) else None }

  /** The thread whose join the step ends: a join of an ended thread, or the rest of one that had to wait. */
  function JoinEnded(s: State, op: Op): Option<nat>
    requires Legal(s, op)
  {
    match op
    case Join(t) => if s.threads[t].zombie then Some(t) else None
    case Resume => if s.threads[s.running.value].at.AfterJoin? then Some(s.threads[s.running.value].at.target) else None
    case _ => None
  }

  /** If the step ends a join it delivers `res`, what the thread has left in `retval`, and otherwise nothing. */
  ghost predicate Delivers(s: State, op: Op, s': State, res: Option<int>)
    requires Legal(s, op)
  {
    var t := JoinEnded(s, op);
    if t.Some? then
      && t.value < |s.threads| && res == Stored(s.threads[t.value].retval)
      && s'.joined == s.joined + [Joined(s.running.value, t.value, res)]
    else s'.joined == s.joined && res == None
  }

  /** Every step of the library, also as written, delivers what it should and nothing else. */
  lemma StepDelivers(s: State, op: Op)
    requires Legal(s, op)
    ensures exists res :: Delivers(s, op, Step(s, op), res)
    ensures exists res :: Delivers(s, op, StepWritten(s, op), res)
  {
    hide Release, ReleaseWritten;
    var t := JoinEnded(s, op);
    var res := if t.Some? then Stored(s.threads[t.value].retval) else None;
    if op.Wait? { WaitJoined(s, op.cond, op.releases); }
    if op.Unlock? { ReleaseJoined(s, s.running.value, op.mutex); }
    assert Delivers(s, op, Step(s, op), res);
    assert Delivers(s, op, StepWritten(s, op), res);
  }

  /** The value delivered is the one recorded with the join. */
  lemma DeliversLast(s: State, op: Op, res: Option<int>)
    requires Legal(s, op)
    requires var js := Step(s, op).joined;
             if JoinEnded(s, op).None? then res == None else js != [] && js[|js| - 1].result == res
    ensures Delivers(s, op, Step(s, op), res)
  {
    hide Step, JoinEnded;
    StepDelivers(s, op);
  }

  lemma ReleaseJoined(s: State, t: nat, m: nat)
    requires t < |s.threads| && m < |s.mutexes| && 1 + m < |s.queues|
    ensures Release(s, t, m).joined == ReleaseWritten(s, t, m).joined == s.joined
    ensures |Release(s, t, m).queues| == |ReleaseWritten(s, t, m).queues| == |s.queues|
  {
  }

  lemma WaitJoined(s: State, c: nat, om: Option<nat>)
    requires Legal(s, Wait(c, om))
    ensures WaitStep(s, c, om, false).joined == WaitStep(s, c, om, true).joined == s.joined
  {
    hide Release, ReleaseWritten;
    if om.Some? { ReleaseJoined(Park(s, CondQueue(s, c), AfterCond(om)), s.running.value, om.value); }
  }

  /** The value with which the function of thread `t` has returned, if it has. */
  function Returned(s: State, ops: seq<Op>, t: nat): Option<int>
    requires LegalExec(s, ops)
  {
    if ops == [] then None
    else
      var before, op := ops[..|ops| - 1], ops[|ops| - 1];
      if op.Terminate? && Exec(s, before).running == Some(t) then Some(op.retval) else Returned(s, before, t)
  }

  lemma RunnerExists(s: State)
    requires Inv(s)
    ensures s.running.Some? ==> s.running.value < |s.threads|
  {
  }

  lemma StepRetval(s: State, op: Op, t: nat)
    requires Inv(s) && Legal(s, op) && t < |Step(s, op).threads|
    ensures var s' := Step(s, op);
            if op.Terminate? && s.running == Some(t) then s'.threads[t].zombie && s'.threads[t].retval == op.retval
            else if t < |s.threads| then
              s'.threads[t].zombie == s.threads[t].zombie && s'.threads[t].retval == s.threads[t].retval
            else !s'.threads[t].zombie
    ensures |s.threads| <= |Step(s, op).threads|
  {
    hide Inv, Release, WaitStep, ResumeStep;
    RunnerExists(s);
    match op
    case Wait(c, om) => WaitRetval(s, c, om, t);
    case Resume => ResumeRetval(s, t);
    case Unlock(m) => ReleaseRetval(s, s.running.value, m, t);
    case _ =>
  }

  /** The value and the status of a thread are the same in both states. */
  predicate SameRetval(s: State, s': State, t: nat) {
    |s.threads| == |s'.threads| &&
    (t < |s.threads| ==> s'.threads[t].zombie == s.threads[t].zombie && s'.threads[t].retval == s.threads[t].retval)
  }

  lemma ReleaseRetval(s: State, r: nat, m: nat, t: nat)
    requires r < |s.threads| && m < |s.mutexes| && 1 + m < |s.queues|
    ensures SameRetval(s, Release(s, r, m), t) && |Release(s, r, m).queues| == |s.queues|
  {
  }

  lemma WaitRetval(s: State, c: nat, om: Option<nat>, t: nat)
    requires Legal(s, Wait(c, om))
    ensures SameRetval(s, WaitStep(s, c, om, false), t)
  {
    hide Release;
    if om.Some? {
      ReleaseRetval(Park(s, CondQueue(s, c), AfterCond(om)), s.running.value, om.value, t);
    }
  }

  lemma ResumeRetval(s: State, t: nat)
    requires Legal(s, Resume)
    ensures SameRetval(s, ResumeStep(s), t)
  {
  }

  lemma {:induction false} RunReturned(mutexes: nat, conds: nat, ops: seq<Op>, t: nat)
    requires LegalExec(Init(mutexes, conds), ops)
    ensures var s, v := Exec(Init(mutexes, conds), ops), Returned(Init(mutexes, conds), ops, t);
            if t < |s.threads| then s.threads[t].zombie == v.Some? && (v.Some? ==> s.threads[t].retval == v.value)
            else v.None?
  {
    hide Inv, Step, Legal;
    var s0 := Init(mutexes, conds);
    InitInv(mutexes, conds);
    if ops != [] {
      var before, op := ops[..|ops| - 1], ops[|ops| - 1];
      RunReturned(mutexes, conds, before, t);
      ExecKeeps(s0, before);
      ExecKeeps(s0, ops);
      var s := Exec(s0, ops);
      if t < |s.threads| {
        StepRetval(Exec(s0, before), op, t);
      } else if |s.threads| > 0 {
        StepRetval(Exec(s0, before), op, 0);
        RunnerExists(Exec(s0, before));
      }
    }
  }

  /** Every `green_join` that has returned got the very value its thread returned, unless that was NULL. */
  lemma JoinDelivers(mutexes: nat, conds: nat, ops: seq<Op>, j: Joined)
    requires LegalExec(Init(mutexes, conds), ops) && j in Exec(Init(mutexes, conds), ops).joined
    ensures var v := Returned(Init(mutexes, conds), ops, j.target);
            v.Some? && j.result == (if v.value != 0 then v else None)
  {
    var s := Exec(Init(mutexes, conds), ops);
    InitInv(mutexes, conds);
    ExecKeeps(Init(mutexes, conds), ops);
    assert JoinedOk(s, j);
    RunReturned(mutexes, conds, ops, j.target);
  }

  /** The joins that have returned in the course of a run, and what the threads they were about had returned. */
  function Joins(s: State, ops: seq<Op>): seq<Joined>
    requires LegalExec(s, ops)
  {
    if ops == [] then []
    else
      var before, op := ops[..|ops| - 1], ops[|ops| - 1];
      var s1 := Exec(s, before);
      var t := JoinEnded(s1, op);
      Joins(s, before) +
      if t.None? then []
      else
        var v := Returned(s, before, t.value);
        [Joined(s1.running.value, t.value, if v.Some? then Stored(v.value) else None)]
  }

  /**
   In every run each join that ends delivers, once and at once, the value its thread has returned:
   the deliveries are, in order, the joins that have returned.
   */
  lemma {:induction false} JoinsDeliver(mutexes: nat, conds: nat, ops: seq<Op>)
    requires LegalExec(Init(mutexes, conds), ops)
    ensures Exec(Init(mutexes, conds), ops).joined == Joins(Init(mutexes, conds), ops)
  {
    hide Inv, Step, Legal, JoinEnded;
    var s0 := Init(mutexes, conds);
    if ops != [] {
      var before, op := ops[..|ops| - 1], ops[|ops| - 1];
      JoinsDeliver(mutexes, conds, before);
      var s1 := Exec(s0, before);
      StepDelivers(s1, op);
      var t := JoinEnded(s1, op);
      if t.Some? {
        InitInv(mutexes, conds);
        ExecKeeps(s0, before);
        EndedReturned(s1, op);
        RunReturned(mutexes, conds, before, t.value);
      }
    }
  }

  /** The thread that a join which ends is about has ended. */
  lemma EndedReturned(s: State, op: Op)
    requires Inv(s) && Legal(s, op) && JoinEnded(s, op).Some?
    ensures JoinEnded(s, op).value < |s.threads| && s.threads[JoinEnded(s, op).value].zombie
  {
    hide Conserved, QueuesOk, ThreadsOk, HoldsOk, AllJoinedOk, MutexesOk;
    assert RunningOk(s);
  }

  // ---------------------------------------------------------------- fork and join without deadlock

  /** The steps of a fork-join program: a thread joins only threads created after itself. */
  predicate ForkJoin(s: State, op: Op)
    requires Legal(s, op)
  {
    match op
    case Create => true
    case Yield => true
    case Join(t) => s.running.value < t
    case Terminate(v) => true
    case Resume => true
    case _ => false
  }

  predicate ForkJoinRun(s: State, ops: seq<Op>)
    requires LegalExec(s, ops)
  {
    ops == [] ||
    (ForkJoinRun(s, ops[..|ops| - 1]) && ForkJoin(Exec(s, ops[..|ops| - 1]), ops[|ops| - 1]))
  }

  /** Nobody waits for anything but the end of a younger thread. */
  ghost predicate Forest(s: State) {
    && |s.queues| > 0
    && (forall k :: 0 < k < |s.queues| ==> s.queues[k] == [])
    && (forall t :: 0 <= t < |s.threads| ==>
          && (!s.threads[t].zombie && s.threads[t].join.Some? ==> s.threads[t].join.value < t)
          && !s.threads[t].at.AfterCond?)
  }

  /** Following who waits for whom from any living thread ends at a ready one, when nothing is running. */
  lemma {:induction false} ChainEndsReady(s: State, t: nat)
    requires Conserved(s) && s.lost == multiset{} && Forest(s) && s.running.None?
    requires t < |s.threads| && !s.threads[t].zombie
    ensures s.queues[0] != []
    decreases |s.threads| - t
  {
    Somewhere(s, t);
    if k :| 0 <= k < |s.queues| && t in s.queues[k] {
      assert k == 0;
    } else {
      var u :| 0 <= u < |s.threads| && !s.threads[u].zombie && s.threads[u].join == Some(t);
      ChainEndsReady(s, u);
    }
  }

  lemma ForkJoinStep(s: State, op: Op)
    requires Inv(s) && Forest(s) && Legal(s, op) && ForkJoin(s, op)
    ensures Step(s, op).running.Some? && Forest(Step(s, op))
  {
    hide Conserved;
    var r := s.running.value;
    match op
    case Create =>
    case Yield =>
    case Join(t) =>
      if !s.threads[t].zombie {
        ParkJoinKeeps(s, t);
        ChainEndsReady(ParkJoin(s, t), 0);
      }
    case Terminate(v) =>
      RetireKeeps(s, v);
      ChainEndsReady(Retire(s, v), 0);
    case Resume =>
      assert Runnable(s, r);
  }

  /** A fork-join program never finds the ready queue empty when it suspends or ends a thread. */
  lemma {:induction false} ForkJoinNeverStuck(mutexes: nat, conds: nat, ops: seq<Op>)
    requires LegalExec(Init(mutexes, conds), ops) && ForkJoinRun(Init(mutexes, conds), ops)
    ensures var s := Exec(Init(mutexes, conds), ops); s.running.Some? && Forest(s)
  {
    var s0 := Init(mutexes, conds);
    InitInv(mutexes, conds);
    if ops != [] {
      var before := ops[..|ops| - 1];
      ForkJoinNeverStuck(mutexes, conds, before);
      ExecKeeps(s0, before);
      ForkJoinStep(Exec(s0, before), ops[|ops| - 1]);
    }
  }
}
