/**
 Mutual exclusion in the code of seminar3/green.c as it is written: which calls make a thread
 pass the lock of a mutex, and exactly which runs never let two threads be past it.
 */
module GreenExclusion {
  import opened Options
  import opened GreenModel
  import opened GreenInvariant
  import opened GreenRuns
  import opened GreenWritten
  import opened LinkedLists

  // ---------------------------------------------------------------- what every state of the code as written has

  /** A thread on the queue of a mutex is suspended at a lock of that mutex. */
  predicate WaiterWaits(s: State, k: nat, t: nat) {
    0 < k <= |s.mutexes| ==> t < |s.threads| && Waits(s.threads[t].at, k - 1)
  }

  ghost predicate WaitersWait(s: State) {
    forall k, t :: 0 <= k < |s.queues| && t in s.queues[k] ==> WaiterWaits(s, k, t)
  }

  /** Only a taken mutex has waiters. */
  ghost predicate WaitersTaken(s: State) {
    forall k :: 0 < k <= |s.mutexes| && k < |s.queues| && s.queues[k] != [] ==> s.mutexes[k - 1].taken
  }

  /** A thread that has given up a mutex to wait on a condition does not hold it. */
  ghost predicate GivenUp(s: State) {
    forall t, m :: 0 <= t < |s.threads| && s.threads[t].at == AfterCond(Some(m)) ==> m !in s.threads[t].holds
  }

  ghost predicate Regular(s: State) {
    |s.mutexes| < |s.queues| && Conserved(s) && WaitersWait(s) && WaitersTaken(s) && GivenUp(s)
  }

  lemma InitRegular(mutexes: nat, conds: nat)
    ensures Regular(Init(mutexes, conds))
  {
    hide Conserved;
    InitConserved(mutexes, conds);
  }

  /** The step finds mutex `m` not taken and takes it. */
  predicate Takes(s: State, op: Op, m: nat)
    requires Legal(s, op)
  {
    Grabs(s, op, m) && m < |s.mutexes| && !s.mutexes[m].taken
  }

  /** The step asks for mutex `m`: a lock, or the end of a condition wait. */
  predicate Grabs(s: State, op: Op, m: nat)
    requires Legal(s, op)
  {
    op == Lock(m) || (op == Resume && s.threads[s.running.value].at == AfterCond(Some(m)))
  }

  /** The threads past locking `m` after a step, in terms of those before it. */
  ghost predicate BelieversFollow(s: State, op: Op, s': State, m: nat, t: nat)
    requires Legal(s, op) && m < |s.mutexes|
  {
    Believes(s', t, m) <==>
      if Releases(op, m) then (Believes(s, t, m) && s.running != Some(t)) || At(s.queues[1 + m], 0) == Some(t)
      else Believes(s, t, m) || (Takes(s, op, m) && s.running == Some(t))
  }

  // ---------------------------------------------------------------- parts of a step

  /** The thread that makes the step. */
  function RunnerOf(s: State, op: Op): (r: nat)
    requires Legal(s, op)
    ensures s.running == Some(r)
  {
    s.running.value
  }

  /** The head of a queue is alive, placed once, and not running. */
  lemma FirstWaiter(s: State, m: nat)
    requires Regular(s) && m < |s.mutexes| && s.queues[1 + m] != []
    ensures var q := s.queues[1 + m];
            && q[0] < |s.threads| && Waits(s.threads[q[0]].at, m)
            && s.running != Some(q[0]) && q[0] !in q[1..] && q[0] !in s.lost
            && forall k :: 0 <= k < |s.queues| && k != 1 + m ==> q[0] !in s.queues[k]
  {
    hide Conserved;
    var q := s.queues[1 + m];
    assert q[0] in q && WaiterWaits(s, 1 + m, q[0]);
    QueuedAlone(s, 1 + m, q[0]);
    assert q == [q[0]] + q[1..];
  }

  /** What the running thread is not. */
  lemma Runner(s: State)
    requires Regular(s) && s.running.Some?
    ensures var r := s.running.value;
            r < |s.threads| && r !in s.lost && forall k :: 0 <= k < |s.queues| ==> r !in s.queues[k]
  {
    hide WaitersWait, WaitersTaken, GivenUp;
    RunningAlone(s);
  }

  /** A release, by `green_mutex_unlock` or by `green_cond_wait`, hands mutex `l` to the first waiter. */
  lemma UnlockBelieves(s: State, l: nat, m: nat, t: nat)
    requires Regular(s) && Legal(s, Unlock(l)) && m < |s.mutexes|
    ensures BelieversFollow(s, Unlock(l), StepWritten(s, Unlock(l)), m, t)
  {
    hide Conserved, WaitersTaken, GivenUp;
    Runner(s);
    if s.queues[1 + l] != [] {
      FirstWaiter(s, l);
      assert s.queues[1 + l] == [s.queues[1 + l][0]] + s.queues[1 + l][1..];
    }
  }

  /** What `green_cond_wait` as written leaves of threads, mutexes and their queues. */
  lemma WaitChanges(s: State, c: nat, om: Option<nat>, m: nat)
    requires Legal(s, Wait(c, om)) && m < |s.mutexes|
    ensures var r, s' := s.running.value, StepWritten(s, Wait(c, om));
            && |s'.threads| == |s.threads| && |s'.mutexes| == |s.mutexes| && |s'.queues| == |s.queues|
            && s'.lost == s.lost + Dropped(s, Wait(c, om))
            && s'.queues[1 + m] == (if om == Some(m) then [] else s.queues[1 + m])
            && s'.mutexes[m].taken == (om != Some(m) && s.mutexes[m].taken)
            && (forall t :: 0 <= t < |s.threads| && t != r ==> s'.threads[t] == s.threads[t])
            && s'.threads[r].at == AfterCond(om)
            && s'.threads[r].holds == (if om.Some? then s.threads[r].holds - {om.value} else s.threads[r].holds)
  {
    hide ReleaseWritten;
    WaitLost(s, c, om);
    if om.Some? {
      var s1 := Park(s, CondQueue(s, c), AfterCond(om));
      ReleaseEffects(s1, s.running.value, om.value);
      ReleaseOther(s1, s.running.value, om.value, m);
    }
  }

  lemma ReleaseOther(s: State, t: nat, l: nat, m: nat)
    requires t < |s.threads| && l < |s.mutexes| && m < |s.mutexes| < |s.queues|
    ensures var s' := ReleaseWritten(s, t, l);
            |s'.mutexes| == |s.mutexes| && |s'.queues| == |s.queues| &&
            (l != m ==> s'.queues[1 + m] == s.queues[1 + m] && s'.mutexes[m] == s.mutexes[m])
  {
  }

  lemma WaitBelieves(s: State, c: nat, om: Option<nat>, m: nat, t: nat)
    requires Regular(s) && Legal(s, Wait(c, om)) && m < |s.mutexes|
    ensures BelieversFollow(s, Wait(c, om), StepWritten(s, Wait(c, om)), m, t)
  {
    hide Conserved, WaitersTaken, GivenUp, StepWritten;
    Runner(s);
    WaitChanges(s, c, om, m);
    DroppedWaits(s, c, om, t);
    if om == Some(m) && s.queues[1 + m] != [] { FirstWaiter(s, m); }
  }

  /** The threads that `green_cond_wait` drops have waited for the mutex behind others. */
  lemma DroppedWaits(s: State, c: nat, om: Option<nat>, t: nat)
    requires Regular(s) && Legal(s, Wait(c, om))
    ensures t in Dropped(s, Wait(c, om)) <==>
              om.Some? && s.queues[1 + om.value] != [] && t in s.queues[1 + om.value] && t != s.queues[1 + om.value][0]
    ensures t in Dropped(s, Wait(c, om)) ==> t < |s.threads| && Waits(s.threads[t].at, om.value)
  {
    hide Conserved, WaitersTaken, GivenUp;
    if om.Some? && s.queues[1 + om.value] != [] {
      var q := s.queues[1 + om.value];
      FirstWaiter(s, om.value);
      assert q == [q[0]] + q[1..];
      assert t in Dropped(s, Wait(c, om)) <==> t in q[1..];
      assert t in q[1..] ==> t in q && WaiterWaits(s, 1 + om.value, t);
    }
  }

  lemma LockBelieves(s: State, l: nat, m: nat, t: nat)
    requires Regular(s) && Legal(s, Lock(l)) && m < |s.mutexes|
    ensures BelieversFollow(s, Lock(l), StepWritten(s, Lock(l)), m, t)
  {
    hide Conserved, WaitersTaken, GivenUp, WaitersWait;
    Runner(s);
  }

  lemma ResumeBelieves(s: State, m: nat, t: nat)
    requires Regular(s) && Legal(s, Resume) && m < |s.mutexes|
    ensures BelieversFollow(s, Resume, StepWritten(s, Resume), m, t)
  {
    hide Conserved, WaitersTaken, WaitersWait;
    Runner(s);
  }

  lemma OtherBelieves(s: State, op: Op, m: nat, t: nat)
    requires Regular(s) && Legal(s, op) && m < |s.mutexes|
    requires op.Create? || op.Yield? || op.Join? || op.Terminate? || op.Signal?
    ensures BelieversFollow(s, op, StepWritten(s, op), m, t)
  {
    hide Conserved, WaitersTaken, WaitersWait, GivenUp, WaitStep, ResumeStep, Release, Acquire;
    Runner(s);
  }

  /**
   Exactly who passes a lock and who leaves it: at a release the first waiter replaces the
   running thread, a thread that takes the mutex joins those past it, and nothing else changes.
   */
  lemma StepBelievers(s: State, op: Op, m: nat, t: nat)
    requires Regular(s) && Legal(s, op) && m < |s.mutexes|
    ensures BelieversFollow(s, op, StepWritten(s, op), m, t)
  {
    hide Regular, BelieversFollow, StepWritten;
    match op
    case Lock(l) => LockBelieves(s, l, m, t);
    case Unlock(l) => UnlockBelieves(s, l, m, t);
    case Wait(c, om) => WaitBelieves(s, c, om, m, t);
    case Resume => ResumeBelieves(s, m, t);
    case Create => OtherBelieves(s, op, m, t);
    case Yield => OtherBelieves(s, op, m, t);
    case Join(_) => OtherBelieves(s, op, m, t);
    case Terminate(_) => OtherBelieves(s, op, m, t);
    case Signal(_) => OtherBelieves(s, op, m, t);
  }

  // ---------------------------------------------------------------- what each step keeps

  lemma WaitRegular(s: State, c: nat, om: Option<nat>)
    requires Regular(s) && Legal(s, Wait(c, om))
    ensures var s' := StepWritten(s, Wait(c, om));
            |s'.mutexes| == |s.mutexes| < |s'.queues| && WaitersWait(s') && WaitersTaken(s') && GivenUp(s')
  {
    hide Conserved, StepWritten;
    Runner(s);
    WaitSizes(s, c, om);
    var s' := StepWritten(s, Wait(c, om));
    forall k, t | 0 <= k < |s'.queues| && t in s'.queues[k] ensures WaiterWaits(s', k, t) {
      if 0 < k <= |s.mutexes| {
        WaitChanges(s, c, om, k - 1);
        assert WaiterWaits(s, k, t);
      }
    }
    forall k | 0 < k <= |s'.mutexes| && s'.queues[k] != [] ensures s'.mutexes[k - 1].taken {
      WaitChanges(s, c, om, k - 1);
    }
  }

  lemma WaitSizes(s: State, c: nat, om: Option<nat>)
    requires Legal(s, Wait(c, om))
    ensures var r, s' := s.running.value, StepWritten(s, Wait(c, om));
            && |s'.mutexes| == |s.mutexes| && |s'.queues| == |s.queues| && |s'.threads| == |s.threads|
            && (forall t :: 0 <= t < |s.threads| && t != r ==> s'.threads[t] == s.threads[t])
            && s'.threads[r].at == AfterCond(om) && (om.Some? ==> om.value !in s'.threads[r].holds)
  {
    hide ReleaseWritten;
    if om.Some? { ReleaseEffects(Park(s, CondQueue(s, c), AfterCond(om)), s.running.value, om.value); }
  }

  lemma ResumeRegular(s: State)
    requires Regular(s) && Legal(s, Resume)
    ensures var s' := StepWritten(s, Resume);
            |s'.mutexes| == |s.mutexes| < |s'.queues| && WaitersWait(s') && WaitersTaken(s') && GivenUp(s')
  {
    hide Conserved;
    Runner(s);
    var s' := StepWritten(s, Resume);
    forall k, t | 0 <= k < |s'.queues| && t in s'.queues[k] ensures WaiterWaits(s', k, t) {
      if t in s.queues[k] { assert WaiterWaits(s, k, t); }
    }
  }

  lemma UnlockRegular(s: State, l: nat)
    requires Regular(s) && Legal(s, Unlock(l))
    ensures var s' := StepWritten(s, Unlock(l));
            |s'.mutexes| == |s.mutexes| < |s'.queues| && WaitersWait(s') && WaitersTaken(s') && GivenUp(s')
  {
    hide Conserved;
    Runner(s);
    var s' := StepWritten(s, Unlock(l));
    forall k, t | 0 <= k < |s'.queues| && t in s'.queues[k] ensures WaiterWaits(s', k, t) {
      if t in s.queues[k] { assert WaiterWaits(s, k, t); }
    }
  }

  lemma LockRegular(s: State, l: nat)
    requires Regular(s) && Legal(s, Lock(l))
    ensures var s' := StepWritten(s, Lock(l));
            |s'.mutexes| == |s.mutexes| < |s'.queues| && WaitersWait(s') && WaitersTaken(s') && GivenUp(s')
  {
    hide Conserved, WaitStep, ResumeStep;
    Runner(s);
    var s' := StepWritten(s, Lock(l));
    forall k, t | 0 <= k < |s'.queues| && t in s'.queues[k] ensures WaiterWaits(s', k, t) {
      if t in s.queues[k] { assert WaiterWaits(s, k, t); }
    }
  }

  lemma OtherRegular(s: State, op: Op)
    requires Regular(s) && Legal(s, op)
    requires op.Create? || op.Yield? || op.Join? || op.Terminate? || op.Signal?
    ensures var s' := StepWritten(s, op);
            |s'.mutexes| == |s.mutexes| < |s'.queues| && WaitersWait(s') && WaitersTaken(s') && GivenUp(s')
  {
    hide Conserved, WaitersWait, WaitersTaken, GivenUp, Legal, StepWritten;
    OtherWaiters(s, op);
    OtherFlags(s, op);
  }

  lemma OtherWaiters(s: State, op: Op)
    requires Regular(s) && Legal(s, op)
    requires op.Create? || op.Yield? || op.Join? || op.Terminate? || op.Signal?
    ensures WaitersWait(StepWritten(s, op))
  {
    hide Conserved, WaitersTaken, GivenUp, WaitStep, ResumeStep;
    Runner(s);
    var s' := StepWritten(s, op);
    forall k, t | 0 <= k < |s'.queues| && t in s'.queues[k] ensures WaiterWaits(s', k, t) {
      if t in s.queues[k] { assert WaiterWaits(s, k, t); }
    }
  }

  lemma OtherFlags(s: State, op: Op)
    requires Regular(s) && Legal(s, op)
    requires op.Create? || op.Yield? || op.Join? || op.Terminate? || op.Signal?
    ensures var s' := StepWritten(s, op);
            |s'.mutexes| == |s.mutexes| < |s'.queues| && WaitersTaken(s') && GivenUp(s')
  {
    hide Conserved, WaitersWait, WaitStep, ResumeStep;
    Runner(s);
  }

  lemma StepRegular(s: State, op: Op)
    requires Regular(s) && Legal(s, op)
    ensures Regular(StepWritten(s, op)) && |StepWritten(s, op).mutexes| == |s.mutexes|
  {
    hide Conserved, WaitersWait, WaitersTaken, GivenUp, StepWritten, Legal;
    StepConserves(s, op);
    match op
    case Wait(c, om) => WaitRegular(s, c, om);
    case Resume => ResumeRegular(s);
    case Unlock(l) => UnlockRegular(s, l);
    case Create => OtherRegular(s, op);
    case Yield => OtherRegular(s, op);
    case Join(_) => OtherRegular(s, op);
    case Terminate(_) => OtherRegular(s, op);
    case Lock(l) => LockRegular(s, l);
    case Signal(_) => OtherRegular(s, op);
  }

  // ---------------------------------------------------------------- exclusion

  /** At most one thread is past locking each mutex. */
  ghost predicate Exclusive(s: State) {
    forall m, t, u :: 0 <= m < |s.mutexes| && Believes(s, t, m) && Believes(s, u, m) ==> t == u
  }

  /** The step takes a mutex that some thread is past locking. */
  ghost predicate Intrudes(s: State, op: Op)
    requires Legal(s, op)
  {
    exists m, t :: 0 <= m < |s.mutexes| && Takes(s, op, m) && Believes(s, t, m)
  }

  /** A thread that takes a mutex was not past locking it. */
  lemma TakerOutside(s: State, op: Op, m: nat)
    requires Regular(s) && Legal(s, op) && Takes(s, op, m)
    ensures !Believes(s, RunnerOf(s, op), m)
  {
    hide Conserved, WaitersWait, WaitersTaken;
  }

  /** A thread that gives up a mutex was past locking it. */
  lemma ReleaserInside(s: State, op: Op, m: nat)
    requires Regular(s) && Legal(s, op) && Releases(op, m)
    ensures Believes(s, RunnerOf(s, op), m) && m < |s.mutexes| && !Takes(s, op, m)
  {
    hide Conserved, WaitersWait, WaitersTaken, GivenUp;
  }

  /** A step keeps mutual exclusion exactly unless it takes a mutex that some thread is past locking. */
  lemma StepExclusive(s: State, op: Op)
    requires Regular(s) && Exclusive(s) && Legal(s, op)
    ensures Exclusive(StepWritten(s, op)) <==> !Intrudes(s, op)
  {
    hide Regular, Legal, StepWritten, Believes, Takes;
    var s' := StepWritten(s, op);
    StepRegular(s, op);
    if Intrudes(s, op) {
      var m, t :| 0 <= m < |s.mutexes| && Takes(s, op, m) && Believes(s, t, m);
      StepBelievers(s, op, m, t);
      StepBelievers(s, op, m, RunnerOf(s, op));
      TakerOutside(s, op, m);
      TakesNotReleases(s, op, m);
      assert Believes(s', t, m) && Believes(s', RunnerOf(s, op), m);
    } else {
      forall m, t, u | 0 <= m < |s'.mutexes| && Believes(s', t, m) && Believes(s', u, m) ensures t == u {
        StepBelievers(s, op, m, t);
        StepBelievers(s, op, m, u);
        if Releases(op, m) { ReleaserInside(s, op, m); }
      }
    }
  }

  lemma TakesNotReleases(s: State, op: Op, m: nat)
    requires Legal(s, op) && Takes(s, op, m)
    ensures !Releases(op, m)
  {
  }

  /** Every state of the run is exclusive. */
  ghost predicate AlwaysExclusive(s: State, ops: seq<Op>)
    requires LegalWritten(s, ops)
  {
    (ops == [] || AlwaysExclusive(s, ops[..|ops| - 1])) && Exclusive(ExecWritten(s, ops))
  }

  ghost predicate NeverIntrudes(s: State, ops: seq<Op>)
    requires LegalWritten(s, ops)
  {
    ops == [] ||
    (NeverIntrudes(s, ops[..|ops| - 1]) && !Intrudes(ExecWritten(s, ops[..|ops| - 1]), ops[|ops| - 1]))
  }

  lemma {:induction false} RunRegular(s: State, ops: seq<Op>)
    requires Regular(s) && LegalWritten(s, ops)
    ensures Regular(ExecWritten(s, ops)) && |ExecWritten(s, ops).mutexes| == |s.mutexes|
  {
    hide Regular, Legal, StepWritten;
    if ops != [] {
      RunRegular(s, ops[..|ops| - 1]);
      StepRegular(ExecWritten(s, ops[..|ops| - 1]), ops[|ops| - 1]);
    }
  }

  /**
   In a run of the code as written no two threads are ever past locking one mutex, if and only
   if no step of the run takes a mutex that some thread is past locking.
   */
  lemma {:induction false} RunExclusive(s: State, ops: seq<Op>)
    requires Regular(s) && Exclusive(s) && LegalWritten(s, ops)
    ensures AlwaysExclusive(s, ops) <==> NeverIntrudes(s, ops)
  {
    hide Regular, Exclusive, Intrudes, Legal, StepWritten;
    if ops != [] {
      var before := ops[..|ops| - 1];
      RunExclusive(s, before);
      RunRegular(s, before);
      if AlwaysExclusive(s, before) {
        LastExclusive(s, before);
        StepExclusive(ExecWritten(s, before), ops[|ops| - 1]);
      }
    }
  }

  lemma LastExclusive(s: State, ops: seq<Op>)
    requires LegalWritten(s, ops) && AlwaysExclusive(s, ops)
    ensures Exclusive(ExecWritten(s, ops))
  {
  }

  // ---------------------------------------------------------------- exclusion in terms of calls

  /** The threads that a contended wait on mutex `m` has woken and that have not given `m` up since. */
  function Woken(s: State, ops: seq<Op>, m: nat): set<nat>
    requires LegalWritten(s, ops)
  {
    if ops == [] then {}
    else
      var before, op := ops[..|ops| - 1], ops[|ops| - 1];
      var s1, w := ExecWritten(s, before), Woken(s, before, m);
      if !Releases(op, m) then w
      else if op.Wait? && 1 + m < |s1.queues| && s1.queues[1 + m] != []
      then w - {RunnerOf(s1, op)} + {s1.queues[1 + m][0]}
      else w - {RunnerOf(s1, op)}
  }

  /** No call of the run asks for a mutex before the threads woken by contended waits on it have given it up. */
  ghost predicate NeverGrabs(s: State, ops: seq<Op>)
    requires LegalWritten(s, ops)
  {
    ops == [] ||
    var before, op := ops[..|ops| - 1], ops[|ops| - 1];
    NeverGrabs(s, before) &&
    forall m :: 0 <= m < |s.mutexes| && Grabs(ExecWritten(s, before), op, m) ==> Woken(s, before, m) == {}
  }

  /** What the woken threads tell of a mutex: they are past it, alone so if it is not taken, and then it is not. */
  ghost predicate Tracks(s: State, w: set<nat>, m: nat) {
    && m < |s.mutexes|
    && (forall t :: t in w ==> Believes(s, t, m))
    && (!s.mutexes[m].taken ==> forall t :: Believes(s, t, m) ==> t in w)
    && (w != {} ==> !s.mutexes[m].taken)
  }

  /** When a step changes `taken`. */
  lemma StepTaken(s: State, op: Op, m: nat)
    requires Regular(s) && Legal(s, op) && m < |s.mutexes|
    ensures var s' := StepWritten(s, op);
            |s'.mutexes| == |s.mutexes| &&
            s'.mutexes[m].taken ==
              if Takes(s, op, m) then true
              else if Releases(op, m) then op.Unlock? && s.queues[1 + m] != []
              else s.mutexes[m].taken
  {
    hide Conserved, WaitersWait, GivenUp, WaitStep;
    if op.Wait? { WaitChanges(s, op.cond, op.releases, m); }
    if op == Unlock(m) && s.queues[1 + m] != [] { assert s.mutexes[m].taken; }
  }

  lemma TracksStep(s: State, op: Op, w: set<nat>, w': set<nat>, m: nat)
    requires Regular(s) && Exclusive(s) && Legal(s, op) && !Intrudes(s, op) && Tracks(s, w, m)
    requires w' == if !Releases(op, m) then w
                   else if op.Wait? && 1 + m < |s.queues| && s.queues[1 + m] != []
                   then w - {RunnerOf(s, op)} + {s.queues[1 + m][0]}
                   else w - {RunnerOf(s, op)}
    ensures Tracks(StepWritten(s, op), w', m)
  {
    hide Regular, Legal, StepWritten, Believes, Takes;
    var s' := StepWritten(s, op);
    StepTaken(s, op, m);
    RegularSizes(s);
    forall t
      ensures !Releases(op, m) && !Takes(s, op, m) ==> (Believes(s', t, m) <==> Believes(s, t, m))
      ensures BelieversFollow(s, op, s', m, t)
    {
      StepBelievers(s, op, m, t);
    }
    if Releases(op, m) {
      ReleaserInside(s, op, m);
      WaitersOf(s, m);
      forall t | Believes(s, t, m) ensures t == RunnerOf(s, op) { }
      assert w <= {RunnerOf(s, op)};
    } else if Takes(s, op, m) {
      forall t ensures t !in w { }
      assert w == {};
    }
  }

  lemma RegularSizes(s: State)
    requires Regular(s)
    ensures |s.mutexes| < |s.queues|
  {
  }

  lemma WaitersOf(s: State, m: nat)
    requires Regular(s) && m < |s.mutexes|
    ensures 1 + m < |s.queues| && (s.queues[1 + m] != [] ==> s.mutexes[m].taken)
  {
  }

  /** Asking for a mutex while woken threads are past it is the same as taking it while any thread is. */
  lemma GrabsIntrudes(s: State, op: Op, w: set<nat>, m: nat)
    requires Legal(s, op) && Tracks(s, w, m)
    ensures Grabs(s, op, m) && w != {} <==> Takes(s, op, m) && exists t :: Believes(s, t, m)
  {
    hide Legal, Believes;
    if w != {} {
      var t :| t in w;
      assert Believes(s, t, m);
    }
  }

  ghost predicate TracksAll(s: State, ops: seq<Op>)
    requires LegalWritten(s, ops)
  {
    forall m :: 0 <= m < |s.mutexes| ==> Tracks(ExecWritten(s, ops), Woken(s, ops, m), m)
  }

  lemma {:induction false} RunTracks(s: State, ops: seq<Op>)
    requires Regular(s) && Exclusive(s) && TracksAll(s, []) && LegalWritten(s, ops)
    ensures NeverIntrudes(s, ops) <==> NeverGrabs(s, ops)
    ensures NeverIntrudes(s, ops) ==> TracksAll(s, ops)
  {
    hide Regular, Exclusive, Intrudes, Legal, StepWritten, Tracks, Grabs;
    if ops != [] {
      var before, op := ops[..|ops| - 1], ops[|ops| - 1];
      var s1 := ExecWritten(s, before);
      RunTracks(s, before);
      RunRegular(s, before);
      RunExclusive(s, before);
      if NeverIntrudes(s, before) {
        LastExclusive(s, before);
        AllGrabs(s, before, op);
        if !Intrudes(s1, op) {
          forall m | 0 <= m < |s.mutexes| ensures Tracks(ExecWritten(s, ops), Woken(s, ops, m), m) {
            TracksStep(s1, op, Woken(s, before, m), Woken(s, ops, m), m);
          }
        }
      }
    }
  }

  lemma AllGrabs(s: State, before: seq<Op>, op: Op)
    requires LegalWritten(s, before) && Legal(ExecWritten(s, before), op) && TracksAll(s, before)
    requires |ExecWritten(s, before).mutexes| == |s.mutexes|
    ensures Intrudes(ExecWritten(s, before), op) <==>
            exists m :: 0 <= m < |s.mutexes| && Grabs(ExecWritten(s, before), op, m) && Woken(s, before, m) != {}
  {
    hide Legal, Grabs, Takes, Tracks, Believes, ExecWritten, LegalWritten, Woken;
    var s1 := ExecWritten(s, before);
    forall m | 0 <= m < |s.mutexes|
      ensures Grabs(s1, op, m) && Woken(s, before, m) != {} <==> Takes(s1, op, m) && exists t :: Believes(s1, t, m)
    {
      GrabsIntrudes(s1, op, Woken(s, before, m), m);
    }
  }

  /** The states of the library's own invariant are places to start from. */
  lemma InvStarts(s: State)
    requires Inv(s)
    ensures Regular(s) && Exclusive(s) && TracksAll(s, [])
  {
    hide Conserved, Believes;
    InvRegular(s);
    forall m, t, u | 0 <= m < |s.mutexes| && Believes(s, t, m) && Believes(s, u, m) ensures t == u {
      BelieverOwns(s, t, m);
      BelieverOwns(s, u, m);
    }
    forall m | 0 <= m < |s.mutexes| ensures Tracks(s, {}, m) { ExclusionHolds(s, m); }
  }

  lemma InvRegular(s: State)
    requires Inv(s)
    ensures Regular(s)
  {
    hide Conserved;
    forall k, t | 0 <= k < |s.queues| && t in s.queues[k] ensures WaiterWaits(s, k, t) { assert QueueOk(s, k, t); }
    forall k | 0 < k <= |s.mutexes| && s.queues[k] != [] ensures s.mutexes[k - 1].taken { assert MutexOk(s, k - 1); }
    forall t, m | 0 <= t < |s.threads| && s.threads[t].at == AfterCond(Some(m)) ensures m !in s.threads[t].holds {
      WaiterGaveUp(s, t, m);
    }
  }

  lemma WaiterGaveUp(s: State, t: nat, m: nat)
    requires Inv(s) && t < |s.threads| && s.threads[t].at == AfterCond(Some(m))
    ensures m !in s.threads[t].holds
  {
    hide Conserved;
    assert ThreadOk(s, t);
    Somewhere(s, t);
    if k :| 0 <= k < |s.queues| && t in s.queues[k] {
      assert QueueOk(s, k, t);
    } else if u :| 0 <= u < |s.threads| && !s.threads[u].zombie && s.threads[u].join == Some(t) {
      assert ThreadOk(s, u);
    }
  }

  /**
   The code as written keeps mutual exclusion through a run, if and only if nobody locks a mutex,
   or takes it back after a condition wait, between a `green_cond_wait` that gives it up while
   others wait for it and the next release by the thread which that call has woken.
   */
  lemma ExclusionExactly(s: State, ops: seq<Op>)
    requires Inv(s) && LegalWritten(s, ops)
    ensures AlwaysExclusive(s, ops) <==> NeverGrabs(s, ops)
    ensures AlwaysExclusive(s, ops) <==> NeverIntrudes(s, ops)
  {
    hide Inv, Regular, Exclusive, TracksAll;
    InvStarts(s);
    RunExclusive(s, ops);
    RunTracks(s, ops);
  }
}
