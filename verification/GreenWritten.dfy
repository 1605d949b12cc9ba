/**
 `green_cond_wait` as it is written in seminar3/green.c: when it loses threads, when it leaves
 `taken` wrong, and when it does what the rest of the library expects of it.
 */
module GreenWritten {
  import opened Options
  import opened GreenModel
  import opened GreenInvariant
  import opened GreenRuns

  // ---------------------------------------------------------------- threads are lost

  /** Nobody is lost exactly when each living thread has its one place. */
  lemma OnePlaceExactly(s: State)
    requires Conserved(s)
    ensures OnePlace(s) <==> s.lost == multiset{}
  {
    if OnePlace(s) {
      forall t ensures s.lost[t] == 0 { assert (Places(s) + s.lost)[t] == Places(s)[t]; }
    }
  }

  /** The threads that a step of the code as written drops from a queue. */
  function Dropped(s: State, op: Op): multiset<nat>
    requires Legal(s, op)
  {
    if op.Wait? && op.releases.Some? && s.queues[1 + op.releases.value] != []
    then multiset(s.queues[1 + op.releases.value][1..])
    else multiset{}
  }

  /** Only `green_cond_wait` loses threads: all that wait for the mutex but the first. */
  lemma StepLost(s: State, op: Op)
    requires Legal(s, op)
    ensures StepWritten(s, op).lost == s.lost + Dropped(s, op)
  {
    hide WaitStep, ResumeStep;
    match op
    case Wait(c, om) => WaitLost(s, c, om);
    case Resume => assert ResumeStep(s).lost == s.lost by { ResumeLost(s); }
    case _ =>
  }

  lemma WaitLost(s: State, c: nat, om: Option<nat>)
    requires Legal(s, Wait(c, om))
    ensures WaitStep(s, c, om, true).lost == s.lost + Dropped(s, Wait(c, om))
  {
  }

  lemma ResumeLost(s: State)
    requires Legal(s, Resume)
    ensures ResumeStep(s).lost == s.lost
  {
  }

  /** As written, `green_cond_wait` keeps every thread in one place exactly when at most one waits for the mutex. */
  lemma WrittenWaitConserves(s: State, c: nat, m: nat)
    requires OnePlace(s) && s.lost == multiset{} && Legal(s, Wait(c, Some(m)))
    ensures OnePlace(WaitStep(s, c, Some(m), true)) <==> |s.queues[1 + m]| <= 1
  {
    hide Places, Alive, WaitStep;
    WaitConserves(s, c, Some(m), true);
    WaitLost(s, c, Some(m));
    OnePlaceExactly(WaitStep(s, c, Some(m), true));
    var q := s.queues[1 + m];
    if |q| > 1 { assert q[1] in multiset(q[1..]); }
  }

  /** In every run of the code as written each living thread is in one place or lost, and no zombie is anywhere. */
  lemma {:induction false} WrittenConserves(mutexes: nat, conds: nat, ops: seq<Op>)
    requires LegalWritten(Init(mutexes, conds), ops)
    ensures Conserved(ExecWritten(Init(mutexes, conds), ops))
  {
    hide Conserved, Legal, StepWritten;
    if ops == [] {
      InitConserved(mutexes, conds);
    } else {
      var before := ops[..|ops| - 1];
      WrittenConserves(mutexes, conds, before);
      StepConserves(ExecWritten(Init(mutexes, conds), before), ops[|ops| - 1]);
    }
  }

  /** Each wait of the run that gives up a mutex finds at most one thread waiting for it. */
  predicate FewWaiters(s: State, ops: seq<Op>)
    requires LegalWritten(s, ops)
  {
    ops == [] ||
    var before, op := ops[..|ops| - 1], ops[|ops| - 1];
    FewWaiters(s, before) &&
    (op.Wait? && op.releases.Some? ==> |ExecWritten(s, before).queues[1 + op.releases.value]| <= 1)
  }

  lemma {:induction false} RunLost(s: State, ops: seq<Op>)
    requires LegalWritten(s, ops)
    ensures s.lost <= ExecWritten(s, ops).lost && (ExecWritten(s, ops).lost == s.lost <==> FewWaiters(s, ops))
  {
    hide Legal, StepWritten, Dropped;
    if ops != [] {
      var before, op := ops[..|ops| - 1], ops[|ops| - 1];
      RunLost(s, before);
      var s1 := ExecWritten(s, before);
      StepLost(s1, op);
      DroppedNone(s1, op);
      var a, b, d := s.lost, s1.lost, Dropped(s1, op);
      if b + d == a {
        forall t ensures b[t] == a[t] && d[t] == 0 { assert (b + d)[t] == a[t]; }
        assert b == a && d == multiset{};
      }
    }
  }

  lemma DroppedNone(s: State, op: Op)
    requires Legal(s, op)
    ensures Dropped(s, op) == multiset{} <==>
            (op.Wait? && op.releases.Some? ==> |s.queues[1 + op.releases.value]| <= 1)
  {
    if op.Wait? && op.releases.Some? {
      var q := s.queues[1 + op.releases.value];
      if |q| > 1 { assert q[1] in multiset(q[1..]); }
    }
  }

  /**
   The code as written keeps every thread in exactly one place through a run if and only if
   no `green_cond_wait` of the run gives up a mutex for which more than one thread waits.
   */
  lemma RunOnePlace(mutexes: nat, conds: nat, ops: seq<Op>)
    requires LegalWritten(Init(mutexes, conds), ops)
    ensures OnePlace(ExecWritten(Init(mutexes, conds), ops)) <==> FewWaiters(Init(mutexes, conds), ops)
  {
    hide Conserved, OnePlace;
    WrittenConserves(mutexes, conds, ops);
    RunLost(Init(mutexes, conds), ops);
    OnePlaceExactly(ExecWritten(Init(mutexes, conds), ops));
  }

  /** A thread that is lost never runs again, and nothing ever refers to it. */
  lemma {:induction false} LostForever(s: State, ops: seq<Op>, t: nat)
    requires Conserved(s) && LegalWritten(s, ops) && t in s.lost
    ensures Conserved(ExecWritten(s, ops)) && Places(ExecWritten(s, ops))[t] == 0
  {
    hide Legal, StepWritten, Places;
    var s' := ExecWritten(s, ops);
    RunLost(s, ops);
    if ops != [] {
      var before := ops[..|ops| - 1];
      LostForever(s, before, t);
      StepConserves(ExecWritten(s, before), ops[|ops| - 1]);
    }
    AliveCount(s'.threads, t);
    assert (Places(s') + s'.lost)[t] == Alive(s'.threads)[t];
  }

  /** The calls of a legal run of the code as written are legal one after the other. */
  lemma {:induction false} WrittenPrefix(s: State, ops: seq<Op>, i: nat)
    requires LegalWritten(s, ops) && i < |ops|
    ensures LegalWritten(s, ops[..i]) && Legal(ExecWritten(s, ops[..i]), ops[i])
    ensures LegalWritten(s, ops[..i + 1])
    ensures ExecWritten(s, ops[..i + 1]) == StepWritten(ExecWritten(s, ops[..i]), ops[i])
  {
    hide Legal, StepWritten;
    var before := ops[..|ops| - 1];
    assert ops[..i + 1][..i] == ops[..i];
    if i < |ops| - 1 {
      WrittenPrefix(s, before, i);
      assert before[..i] == ops[..i] && before[..i + 1] == ops[..i + 1];
    } else {
      assert ops[..i + 1] == ops;
    }
  }

  // ---------------------------------------------------------------- order

  /** The threads a step makes ready before it switches: the first waiter for a mutex that is given up. */
  function Readied(s: State, op: Op): seq<nat>
    requires Legal(s, op)
  {
    match op
    case Create => [|s.threads|]
    case Yield => [s.running.value]
    case Terminate(_) => if s.threads[s.running.value].join.Some? then [s.threads[s.running.value].join.value] else []
    case Unlock(m) => if s.queues[1 + m] == [] then [] else [s.queues[1 + m][0]]
    case Wait(_, om) => if om.None? || s.queues[1 + om.value] == [] then [] else [s.queues[1 + om.value][0]]
    case Signal(c) => if s.queues[CondQueue(s, c)] == [] then [] else [s.queues[CondQueue(s, c)][0]]
    case _ => []
  }

  /**
   The ready queue of the code as written: threads are made ready behind all others, and a switch
   runs the first; nothing is running any more if there is none.
   */
  lemma WrittenReady(s: State, op: Op)
    requires Legal(s, op)
    ensures var q, s' := s.queues[0] + Readied(s, op), StepWritten(s, op);
            && |s'.queues| == |s.queues| && |s'.mutexes| == |s.mutexes|
            && if !Switches(s, op) then s'.queues[0] == q && s'.running == s.running
               else if q == [] then s'.queues[0] == [] && s'.running == None
               else s'.queues[0] == q[1..] && s'.running == Some(q[0])
  {
    hide WaitStep, ResumeStep, Release;
    match op
    case Wait(c, om) => WaitReadied(s, c, om);
    case Resume => ResumeReadied(s);
    case Unlock(m) => ReleaseReadied(s, s.running.value, m);
    case _ =>
  }

  lemma ReleaseReadied(s: State, t: nat, m: nat)
    requires t < |s.threads| && m < |s.mutexes| && 1 + m < |s.queues|
    ensures var w, s' := if s.queues[1 + m] == [] then [] else [s.queues[1 + m][0]], Release(s, t, m);
            && |s'.queues| == |s.queues| && |s'.mutexes| == |s.mutexes|
            && s'.queues[0] == s.queues[0] + w && s'.running == s.running
    ensures var w, s' := if s.queues[1 + m] == [] then [] else [s.queues[1 + m][0]], ReleaseWritten(s, t, m);
            && |s'.queues| == |s.queues| && |s'.mutexes| == |s.mutexes|
            && s'.queues[0] == s.queues[0] + w && s'.running == s.running
  {
  }

  lemma WaitReadied(s: State, c: nat, om: Option<nat>)
    requires Legal(s, Wait(c, om))
    ensures var q, s' := s.queues[0] + Readied(s, Wait(c, om)), WaitStep(s, c, om, true);
            && |s'.queues| == |s.queues| && |s'.mutexes| == |s.mutexes|
            && if q == [] then s'.queues[0] == [] && s'.running == None
               else s'.queues[0] == q[1..] && s'.running == Some(q[0])
  {
    hide ReleaseWritten;
    if om.Some? { ReleaseReadied(Park(s, CondQueue(s, c), AfterCond(om)), s.running.value, om.value); }
  }

  lemma ResumeReadied(s: State)
    requires Legal(s, Resume)
    ensures var q, s' := s.queues[0], ResumeStep(s);
            && |s'.queues| == |s.queues| && |s'.mutexes| == |s.mutexes|
            && if !Switches(s, Resume) then s'.queues[0] == q && s'.running == s.running
               else if q == [] then s'.queues[0] == [] && s'.running == None
               else s'.queues[0] == q[1..] && s'.running == Some(q[0])
  {
  }

  /** How many steps of a run of the code as written switch. */
  function WrittenSwitches(s: State, ops: seq<Op>): nat
    requires LegalWritten(s, ops)
  {
    if ops == [] then 0
    else
      var before := ops[..|ops| - 1];
      WrittenSwitches(s, before) + if Switches(ExecWritten(s, before), ops[|ops| - 1]) then 1 else 0
  }

  lemma {:induction false} WrittenReadyOrder(s: State, ops: seq<Op>)
    requires LegalWritten(s, ops) && |s.queues| > 0
    ensures var n, s' := WrittenSwitches(s, ops), ExecWritten(s, ops);
            |s'.queues| == |s.queues| && (n <= |s.queues[0]| ==> s.queues[0][n..] <= s'.queues[0])
  {
    hide StepWritten, Legal, Switches, Readied;
    if ops != [] {
      var before := ops[..|ops| - 1];
      WrittenReadyOrder(s, before);
      WrittenReady(ExecWritten(s, before), ops[|ops| - 1]);
    }
  }

  /** As written too, the thread at position `k` of the ready queue runs at the (k+1)-th switch. */
  lemma WrittenRunsAtSwitch(s: State, ops: seq<Op>, k: nat)
    requires LegalWritten(s, ops) && |s.queues| > 0 && k < |s.queues[0]|
    requires ops != [] && Switches(ExecWritten(s, ops[..|ops| - 1]), ops[|ops| - 1]) && WrittenSwitches(s, ops) == k + 1
    ensures ExecWritten(s, ops).running == Some(s.queues[0][k])
  {
    var before := ops[..|ops| - 1];
    WrittenReadyOrder(s, before);
    WrittenReady(ExecWritten(s, before), ops[|ops| - 1]);
  }

  /** The queue a step puts its caller on, if it does. */
  function LinesUp(s: State, op: Op): Option<nat>
    requires Legal(s, op)
  {
    match op
    case Lock(m) => if s.mutexes[m].taken then Some(1 + m) else None
    case Wait(c, _) => Some(CondQueue(s, c))
    case Resume =>
      var p := s.threads[s.running.value].at;
      if p.AfterCond? && p.relock.Some? && s.mutexes[p.relock.value].taken then Some(1 + p.relock.value) else None
    case _ => None
  }

  /** The queue a step takes the first thread from. */
  function Serves(s: State, op: Op): Option<nat>
    requires Legal(s, op)
  {
    match op
    case Unlock(m) => Some(1 + m)
    case Signal(c) => Some(CondQueue(s, c))
    case _ => None
  }

  /**
   The queues of mutexes and condition variables in the code as written: callers join at the end,
   the first is served, and a condition wait empties the queue of the mutex it gives up.
   */
  lemma WrittenQueues(s: State, op: Op, k: nat)
    requires Legal(s, op) && 0 < k < |s.queues|
    ensures var q, s' := s.queues[k], StepWritten(s, op);
            |s'.queues| == |s.queues| &&
            s'.queues[k] ==
              if Serves(s, op) == Some(k) then (if q == [] then [] else q[1..])
              else if op.Wait? && op.releases.Some? && k == 1 + op.releases.value then []
              else if LinesUp(s, op) == Some(k) then q + [s.running.value]
              else q
  {
    hide WaitStep, ResumeStep, Release;
    match op
    case Wait(c, om) => WaitQueues(s, c, om, k);
    case Resume => ResumeQueues(s, k);
    case Unlock(m) => ReleaseQueues(s, s.running.value, m, k);
    case _ =>
  }

  lemma ReleaseQueues(s: State, t: nat, m: nat, k: nat)
    requires t < |s.threads| && m < |s.mutexes| && 1 + m < |s.queues| && 0 < k < |s.queues|
    ensures var q, s' := s.queues[k], Release(s, t, m);
            |s'.queues| == |s.queues| && s'.queues[k] == if k == 1 + m && q != [] then q[1..] else q
    ensures var q, s' := s.queues[k], ReleaseWritten(s, t, m);
            |s'.queues| == |s.queues| && s'.queues[k] == if k == 1 + m then [] else q
  {
  }

  lemma WaitQueues(s: State, c: nat, om: Option<nat>, k: nat)
    requires Legal(s, Wait(c, om)) && 0 < k < |s.queues|
    ensures var q, s' := s.queues[k], WaitStep(s, c, om, true);
            |s'.queues| == |s.queues| &&
            s'.queues[k] == if om.Some? && k == 1 + om.value then []
                            else if k == CondQueue(s, c) then q + [s.running.value] else q
  {
    hide ReleaseWritten;
    if om.Some? { ReleaseQueues(Park(s, CondQueue(s, c), AfterCond(om)), s.running.value, om.value, k); }
  }

  lemma ResumeQueues(s: State, k: nat)
    requires Legal(s, Resume) && 0 < k < |s.queues|
    ensures var q, s' := s.queues[k], ResumeStep(s);
            |s'.queues| == |s.queues| &&
            s'.queues[k] == if LinesUp(s, Resume) == Some(k) then q + [s.running.value] else q
  {
  }

  /** Where a step leaves its caller: in user code if it ends the call, and else where it waits for what it needs. */
  function CallerAt(s: State, op: Op): Point
    requires Legal(s, op)
  {
    match op
    case Yield => AfterYield
    case Join(t) => if s.threads[t].zombie then User else AfterJoin(t)
    case Lock(m) => if s.mutexes[m].taken then AfterLock(m) else User
    case Wait(_, om) => AfterCond(om)
    case Resume => if LinesUp(s, op).Some? then AfterRelock(LinesUp(s, op).value - 1) else User
    case _ => User
  }

  /** The caller is left there; a join is noted at the thread it is about, and an ended thread keeps its value. */
  lemma WrittenCaller(s: State, op: Op)
    requires Legal(s, op)
    ensures var r, s' := s.running.value, StepWritten(s, op);
            && r < |s'.threads|
            && s'.threads[r].at == CallerAt(s, op)
            && (op.Join? && !s.threads[op.target].zombie ==> s'.threads[op.target].join == s.running)
            && (op.Terminate? ==> s'.threads[r].zombie && s'.threads[r].retval == op.retval)
            && (op.Create? ==> |s'.threads| == |s.threads| + 1 && s'.threads[|s.threads|].at == Fresh)
  {
    hide ReleaseWritten, Release;
    if op.Wait? {
      WaitSelf(s, op.cond, op.releases);
    } else if op.Unlock? {
      ReleaseSelf(s, s.running.value, op.mutex);
    }
  }

  lemma ReleaseSelf(s: State, t: nat, m: nat)
    requires t < |s.threads| && m < |s.mutexes| && 1 + m < |s.queues|
    ensures |Release(s, t, m).threads| == |ReleaseWritten(s, t, m).threads| == |s.threads|
    ensures Release(s, t, m).threads[t] == ReleaseWritten(s, t, m).threads[t] ==
            s.threads[t].(holds := s.threads[t].holds - {m})
    ensures |Release(s, t, m).queues| == |ReleaseWritten(s, t, m).queues| == |s.queues|
  {
  }

  lemma WaitSelf(s: State, c: nat, om: Option<nat>)
    requires Legal(s, Wait(c, om))
    ensures var r, s' := s.running.value, WaitStep(s, c, om, true);
            r < |s'.threads| && s'.threads[r].at == AfterCond(om) && s'.threads[r].zombie == s.threads[r].zombie
  {
    hide ReleaseWritten;
    if om.Some? { ReleaseSelf(Park(s, CondQueue(s, c), AfterCond(om)), s.running.value, om.value); }
  }

  // ---------------------------------------------------------------- taken is wrong

  /** As written, `taken` is right about the mutex afterwards exactly when nobody waits for it. */
  lemma WrittenWaitHonest(s: State, c: nat, m: nat)
    requires Inv(s) && Legal(s, Wait(c, Some(m)))
    ensures var s' := WaitStep(s, c, Some(m), true);
            m < |s'.mutexes| && (Honest(s', m) <==> s.queues[1 + m] == [])
  {
    hide Inv, WaitStep;
    var s' := WaitStep(s, c, Some(m), true);
    WaitEffects(s, c, m);
    if s.queues[1 + m] == [] {
      WrittenWaitIntended(s, c, m);
      WaitKeeps(s, c, Some(m));
      ExclusionHolds(s', m);
    } else {
      HeadBelieves(s, c, m);
    }
  }

  /** The waiter that is woken is past its lock, though `taken` is clear. */
  lemma HeadBelieves(s: State, c: nat, m: nat)
    requires Inv(s) && Legal(s, Wait(c, Some(m))) && s.queues[1 + m] != []
    ensures var s' := WaitStep(s, c, Some(m), true);
            Believes(s', s.queues[1 + m][0], m) && m < |s'.mutexes| && !s'.mutexes[m].taken
  {
    hide Conserved, ThreadsOk, HoldsOk, AllJoinedOk, MutexesOk, WaitStep;
    var x := s.queues[1 + m][0];
    assert x in s.queues[1 + m];
    assert QueueOk(s, 1 + m, x);
    RunningAlone(s);
    QueuedAlone(s, 1 + m, x);
    WaitEffects(s, c, m);
    WaitLost(s, c, Some(m));
    assert s.queues[1 + m] == [x] + s.queues[1 + m][1..];
  }

  /** What `green_cond_wait` as written does to the mutex, its queue, and the other threads. */
  lemma WaitEffects(s: State, c: nat, m: nat)
    requires Legal(s, Wait(c, Some(m)))
    ensures var s' := WaitStep(s, c, Some(m), true);
            && m < |s.mutexes| == |s'.mutexes| < |s.queues| == |s'.queues| && |s'.threads| == |s.threads|
            && s'.queues[1 + m] == [] && !s'.mutexes[m].taken
            && forall t :: 0 <= t < |s.threads| && s.running != Some(t) ==> s'.threads[t] == s.threads[t]
  {
    hide ReleaseWritten;
    ReleaseEffects(Park(s, CondQueue(s, c), AfterCond(Some(m))), s.running.value, m);
  }

  lemma ReleaseEffects(s: State, t: nat, m: nat)
    requires t < |s.threads| && m < |s.mutexes| && 1 + m < |s.queues|
    ensures var s' := ReleaseWritten(s, t, m);
            && |s'.mutexes| == |s.mutexes| && |s'.queues| == |s.queues|
            && s'.queues[1 + m] == [] && !s'.mutexes[m].taken
            && s'.threads == s.threads[t := s.threads[t].(holds := s.threads[t].holds - {m})]
  {
  }

  /** The two versions of `green_cond_wait` do the same exactly when nobody waits for the mutex. */
  lemma WrittenWaitIntended(s: State, c: nat, m: nat)
    requires Inv(s) && Legal(s, Wait(c, Some(m)))
    ensures WaitStep(s, c, Some(m), true) == WaitStep(s, c, Some(m), false) <==> s.queues[1 + m] == []
  {
    hide Conserved;
    var a, b := WaitStep(s, c, Some(m), true), WaitStep(s, c, Some(m), false);
    assert MutexOk(s, m);
    if s.queues[1 + m] == [] {
      assert a.queues == b.queues;
    } else {
      assert !a.mutexes[m].taken && b.mutexes[m].taken;
    }
  }

  /** If the step gives up a mutex by waiting on a condition, nobody waits for the mutex. */
  predicate Uncontended(s: State, op: Op) {
    op.Wait? && op.releases.Some? ==>
      1 + op.releases.value < |s.queues| && s.queues[1 + op.releases.value] == []
  }

  /** Each wait of the run that gives up a mutex finds nobody waiting for it. */
  predicate NoWaiters(s: State, ops: seq<Op>)
    requires LegalWritten(s, ops)
  {
    ops == [] ||
    var before, op := ops[..|ops| - 1], ops[|ops| - 1];
    NoWaiters(s, before) && Uncontended(ExecWritten(s, before), op)
  }

  /** Such a run of the code as written is a run of `Step`, so everything proved of `Exec` holds of it. */
  lemma {:induction false} WrittenRunIsExec(s: State, ops: seq<Op>)
    requires Inv(s) && LegalWritten(s, ops) && NoWaiters(s, ops)
    ensures LegalExec(s, ops) && ExecWritten(s, ops) == Exec(s, ops)
  {
    hide Step, StepWritten, Legal, Inv;
    if ops != [] {
      var before, op := ops[..|ops| - 1], ops[|ops| - 1];
      WrittenRunIsExec(s, before);
      ExecKeeps(s, before);
      WrittenStep(Exec(s, before), op);
    }
  }

  /** With nobody waiting for the mutex, the code as written takes the intended step. */
  lemma WrittenStep(s: State, op: Op)
    requires Inv(s) && Legal(s, op) && Uncontended(s, op)
    ensures StepWritten(s, op) == Step(s, op)
  {
    if op.Wait? && op.releases.Some? { WrittenWaitIntended(s, op.cond, op.releases.value); }
  }

  /** In every state of the run `taken` is right about every mutex. */
  ghost predicate AlwaysHonest(s: State, ops: seq<Op>)
    requires LegalWritten(s, ops)
  {
    && (ops == [] || AlwaysHonest(s, ops[..|ops| - 1]))
    && forall m :: 0 <= m < |ExecWritten(s, ops).mutexes| ==> Honest(ExecWritten(s, ops), m)
  }

  /**
   Through a run of the code as written `taken` always says whether a thread is past locking the
   mutex, if and only if no `green_cond_wait` of the run gives up a mutex that a thread waits for.
   */
  lemma {:induction false} RunHonest(s: State, ops: seq<Op>)
    requires Inv(s) && LegalWritten(s, ops)
    ensures AlwaysHonest(s, ops) <==> NoWaiters(s, ops)
  {
    hide Inv, Legal, StepWritten, Honest, Exec;
    if ops != [] { RunHonest(s, ops[..|ops| - 1]); }
    if NoWaiters(s, ops) {
      WrittenRunIsExec(s, ops);
      ExecKeeps(s, ops);
      var s' := ExecWritten(s, ops);
      forall m | 0 <= m < |s'.mutexes| ensures Honest(s', m) { ExclusionHolds(s', m); }
    } else if NoWaiters(s, ops[..|ops| - 1]) {
      FirstDishonest(s, ops);
    }
  }

  /** The first wait that gives up a mutex with waiters leaves `taken` wrong. */
  lemma FirstDishonest(s: State, ops: seq<Op>)
    requires Inv(s) && LegalWritten(s, ops) && ops != []
    requires NoWaiters(s, ops[..|ops| - 1]) && !NoWaiters(s, ops)
    ensures !AlwaysHonest(s, ops)
  {
    hide Inv, Honest, Exec, LegalExec, WaitStep, Step, StepWritten, Legal;
    var before, op := ops[..|ops| - 1], ops[|ops| - 1];
    WrittenRunIsExec(s, before);
    ExecKeeps(s, before);
    WaitDishonest(ExecWritten(s, before), op);
    assert ExecWritten(s, ops) == StepWritten(ExecWritten(s, before), op);
    assert !Honest(ExecWritten(s, ops), op.releases.value);
  }

  lemma WaitDishonest(s: State, op: Op)
    requires Inv(s) && Legal(s, op) && !Uncontended(s, op)
    ensures var s' := StepWritten(s, op);
            op.releases.value < |s'.mutexes| && !Honest(s', op.releases.value)
  {
    hide Inv, Honest, WaitStep;
    WrittenWaitHonest(s, op.cond, op.releases.value);
  }

  /** What every step of the code as written keeps. */
  lemma WrittenKeeps(s: State, op: Op)
    requires Conserved(s) && Legal(s, op)
    ensures Conserved(StepWritten(s, op))
    ensures Inv(s) && Uncontended(s, op) ==> StepWritten(s, op) == Step(s, op) && Inv(Step(s, op))
  {
    hide Inv, Conserved, Step, StepWritten;
    StepConserves(s, op);
    if Inv(s) && Uncontended(s, op) {
      WrittenStep(s, op);
      StepKeeps(s, op);
    }
  }

  // ---------------------------------------------------------------- runs in which it happens

  /** A state with three threads, one mutex and one condition variable. */
  function Trio(at: (Point, Point, Point), holds: (set<nat>, set<nat>, set<nat>), running: nat,
                queues: seq<seq<nat>>, mutex: Mutex, lost: multiset<nat>): State
  {
    var t := MAIN;
    State([t.(at := at.0, holds := holds.0), t.(at := at.1, holds := holds.1), t.(at := at.2, holds := holds.2)],
          Some(running), queues, [mutex], [], lost)
  }

  /** `op` is legal in `s` and takes the code as written to `s'`. */
  ghost predicate Steps(s: State, op: Op, s': State) {
    Legal(s, op) && StepWritten(s, op) == s'
  }

  const FREE := Mutex(false, None)
  const MAINS := Mutex(true, Some(0))
  const OM: Option<nat> := Some(0)

  // The states of the two runs below: from S2 to S7 both, then B8 to B12, or L8 to L10.
  const S2 := Trio((User, Fresh, Fresh), ({}, {}, {}), 0, [[1, 2], [], []], FREE, multiset{})
  const S3 := Trio((User, Fresh, Fresh), ({0}, {}, {}), 0, [[1, 2], [], []], MAINS, multiset{})
  const S4 := Trio((AfterYield, Fresh, Fresh), ({0}, {}, {}), 1, [[2, 0], [], []], MAINS, multiset{})
  const S5 := Trio((AfterYield, User, Fresh), ({0}, {}, {}), 1, [[2, 0], [], []], MAINS, multiset{})
  const S6 := Trio((AfterYield, AfterLock(0), Fresh), ({0}, {}, {}), 2, [[0], [1], []], MAINS, multiset{})
  const S7 := Trio((AfterYield, AfterLock(0), User), ({0}, {}, {}), 2, [[0], [1], []], MAINS, multiset{})
  const B8 := Trio((AfterYield, AfterLock(0), AfterYield), ({0}, {}, {}), 0, [[2], [1], []], MAINS, multiset{})
  const B9 := Trio((User, AfterLock(0), AfterYield), ({0}, {}, {}), 0, [[2], [1], []], MAINS, multiset{})
  const B10 := Trio((AfterCond(OM), AfterLock(0), AfterYield), ({}, {}, {}), 2, [[1], [], [0]], FREE, multiset{})
  const B11 := Trio((AfterCond(OM), AfterLock(0), User), ({}, {}, {}), 2, [[1], [], [0]], FREE, multiset{})
  const B12 := Trio((AfterCond(OM), AfterLock(0), User), ({}, {}, {0}), 2, [[1], [], [0]],
                    Mutex(true, Some(2)), multiset{})
  const L8 := Trio((AfterYield, AfterLock(0), AfterLock(0)), ({0}, {}, {}), 0, [[], [1, 2], []], MAINS, multiset{})
  const L9 := Trio((User, AfterLock(0), AfterLock(0)), ({0}, {}, {}), 0, [[], [1, 2], []], MAINS, multiset{})
  const L10 := Trio((AfterCond(OM), AfterLock(0), AfterLock(0)), ({}, {}, {}), 1, [[], [], [0]], FREE, multiset{2})

  lemma SameTrio(s: State, t: State)
    requires |s.threads| == |t.threads| == 3 && |s.queues| == |t.queues| == 3 && |s.mutexes| == |t.mutexes| == 1
    requires s.threads[0] == t.threads[0] && s.threads[1] == t.threads[1] && s.threads[2] == t.threads[2]
    requires s.queues[0] == t.queues[0] && s.queues[1] == t.queues[1] && s.queues[2] == t.queues[2]
    requires s.mutexes[0] == t.mutexes[0] && s.running == t.running && s.joined == t.joined && s.lost == t.lost
    ensures s == t
  {
  }

  lemma CreatedTwo()
    ensures var s := Init(1, 1);
            && Legal(s, Create) && Steps(s, Create, StepWritten(s, Create))
            && Steps(StepWritten(s, Create), Create, S2)
  {
    var s1 := StepWritten(Init(1, 1), Create);
    assert s1.threads == [MAIN, MAIN.(at := Fresh)] && s1.queues[0] == [1];
    SameTrio(StepWritten(s1, Create), S2);
  }

  lemma ContendedSteps()
    ensures Steps(S2, Lock(0), S3) && Steps(S3, Yield, S4) && Steps(S4, Resume, S5)
    ensures Steps(S5, Lock(0), S6) && Steps(S6, Resume, S7)
  {
    SameTrio(StepWritten(S2, Lock(0)), S3);
    SameTrio(StepWritten(S3, Yield), S4);
    SameTrio(StepWritten(S4, Resume), S5);
    SameTrio(StepWritten(S5, Lock(0)), S6);
    SameTrio(StepWritten(S6, Resume), S7);
  }

  lemma BrokenSteps()
    ensures Steps(S7, Yield, B8) && Steps(B8, Resume, B9)
    ensures Steps(B10, Resume, B11) && Steps(B11, Lock(0), B12)
  {
    SameTrio(StepWritten(S7, Yield), B8);
    SameTrio(StepWritten(B8, Resume), B9);
    SameTrio(StepWritten(B10, Resume), B11);
    SameTrio(StepWritten(B11, Lock(0)), B12);
  }

  lemma BrokenWait()
    ensures Steps(B9, Wait(0, OM), B10)
  {
    SameTrio(StepWritten(B9, Wait(0, OM)), B10);
  }

  lemma LostSteps()
    ensures Steps(S7, Lock(0), L8) && Steps(L8, Resume, L9) && Steps(L9, Wait(0, OM), L10)
  {
    SameTrio(StepWritten(S7, Lock(0)), L8);
    SameTrio(StepWritten(L8, Resume), L9);
    assert [1, 2][1..] == [2];
    SameTrio(StepWritten(L9, Wait(0, OM)), L10);
  }

  lemma EmptyRun(s: State)
    ensures LegalWritten(s, []) && ExecWritten(s, []) == s
  {
  }

  /** A run of the code as written and one more step. */
  lemma Extended(s0: State, ops: seq<Op>, s: State, op: Op, s': State) returns (longer: seq<Op>)
    requires LegalWritten(s0, ops) && ExecWritten(s0, ops) == s && Steps(s, op, s')
    ensures longer == ops + [op] && LegalWritten(s0, longer) && ExecWritten(s0, longer) == s'
  {
    longer := ops + [op];
    assert longer[..|ops|] == ops;
  }

  /** `main` creates two threads and locks the mutex; the first thread waits for it, the second is running. */
  lemma Contended() returns (ops: seq<Op>)
    ensures ops == [Create, Create, Lock(0), Yield, Resume, Lock(0), Resume]
    ensures LegalWritten(Init(1, 1), ops) && ExecWritten(Init(1, 1), ops) == S7
  {
    hide Legal, StepWritten, LegalWritten, ExecWritten;
    var s := Init(1, 1);
    EmptyRun(s);
    CreatedTwo();
    ContendedSteps();
    ops := Extended(s, [], s, Create, StepWritten(s, Create));
    ops := Extended(s, ops, StepWritten(s, Create), Create, S2);
    ops := Extended(s, ops, S2, Lock(0), S3);
    ops := Extended(s, ops, S3, Yield, S4);
    ops := Extended(s, ops, S4, Resume, S5);
    ops := Extended(s, ops, S5, Lock(0), S6);
    ops := Extended(s, ops, S6, Resume, S7);
  }

  /**
   `green_cond_wait` as written breaks mutual exclusion: `main` waits on a condition while one
   thread waits for the mutex, which is woken as its owner, and another thread takes the mutex too.
   */
  lemma ExclusionBroken()
    ensures var ops := [Create, Create, Lock(0), Yield, Resume, Lock(0), Resume,
                        Yield, Resume, Wait(0, Some(0)), Resume, Lock(0)];
            LegalWritten(Init(1, 1), ops) &&
            var s := ExecWritten(Init(1, 1), ops);
            OnePlace(s) && Believes(s, 1, 0) && Believes(s, 2, 0)
  {
    hide Legal, StepWritten, LegalWritten, ExecWritten, OnePlace;
    BrokenSteps();
    BrokenWait();
    var s := Init(1, 1);
    var ops := Contended();
    ops := Extended(s, ops, S7, Yield, B8);
    ops := Extended(s, ops, B8, Resume, B9);
    ops := Extended(s, ops, B9, Wait(0, OM), B10);
    ops := Extended(s, ops, B10, Resume, B11);
    ops := Extended(s, ops, B11, Lock(0), B12);
    assert ops == [Create, Create, Lock(0), Yield, Resume, Lock(0), Resume,
                   Yield, Resume, Wait(0, OM), Resume, Lock(0)];
    WrittenConserves(1, 1, ops);
    OnePlaceExactly(B12);
  }

  /** With two threads waiting for the mutex, the second is lost: nothing refers to it any more. */
  lemma WaiterLost()
    ensures var ops := [Create, Create, Lock(0), Yield, Resume, Lock(0), Resume,
                        Lock(0), Resume, Wait(0, Some(0))];
            LegalWritten(Init(1, 1), ops) &&
            var s := ExecWritten(Init(1, 1), ops);
            s.lost == multiset{2} && 2 < |s.threads| && !s.threads[2].zombie && Places(s)[2] == 0
  {
    hide Legal, StepWritten, LegalWritten, ExecWritten, Places;
    LostSteps();
    var s := Init(1, 1);
    var ops := Contended();
    ops := Extended(s, ops, S7, Lock(0), L8);
    ops := Extended(s, ops, L8, Resume, L9);
    ops := Extended(s, ops, L9, Wait(0, OM), L10);
    assert ops == [Create, Create, Lock(0), Yield, Resume, Lock(0), Resume, Lock(0), Resume, Wait(0, OM)];
    WrittenConserves(1, 1, ops);
    EmptyRun(L10);
    LostForever(L10, [], 2);
  }
}
