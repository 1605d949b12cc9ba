/** Every legal step of the green-thread library keeps the invariant. */
module GreenInvariant {
  import opened Options
  import opened GreenModel

  // ---------------------------------------------------------------- one place each

  /** The running thread is alive, in no queue, and in no `join` field that counts. */
  lemma RunningAlone(s: State)
    requires Conserved(s) && s.running.Some?
    ensures var r := s.running.value;
            && r < |s.threads| && !s.threads[r].zombie
            && r !in s.lost && (forall k :: 0 <= k < |s.queues| ==> r !in s.queues[k])
            && (forall u :: 0 <= u < |s.threads| && !s.threads[u].zombie ==> s.threads[u].join != Some(r))
  {
    var r := s.running.value;
    AliveCount(s.threads, r);
    assert (Places(s) + s.lost)[r] == Alive(s.threads)[r];
    forall k | 0 <= k < |s.queues| ensures r !in s.queues[k] { QueuedMember(s.queues, k, r); }
    forall u | 0 <= u < |s.threads| && !s.threads[u].zombie ensures s.threads[u].join != Some(r) {
      SlotsMember(s.threads, u, r);
    }
  }

  /** A queued thread is alive, not running, once in its queue, and in no other queue or counting `join` field. */
  lemma QueuedAlone(s: State, k: nat, x: nat)
    requires Conserved(s) && k < |s.queues| && x in s.queues[k]
    ensures x < |s.threads| && !s.threads[x].zombie && s.running != Some(x) && x !in s.lost
    ensures multiset(s.queues[k])[x] == 1
    ensures forall l :: 0 <= l < |s.queues| && l != k ==> x !in s.queues[l]
    ensures forall u :: 0 <= u < |s.threads| && !s.threads[u].zombie ==> s.threads[u].join != Some(x)
  {
    AliveCount(s.threads, x);
    assert (Places(s) + s.lost)[x] == Alive(s.threads)[x];
    QueuedMember(s.queues, k, x);
    forall l | 0 <= l < |s.queues| && l != k ensures x !in s.queues[l] {
      QueuedUpdate(s.queues, k, []);
      assert (Queued(s.queues[k := []]) + multiset(s.queues[k]))[x] == (Queued(s.queues) + multiset([]))[x];
      QueuedMember(s.queues[k := []], l, x);
    }
    forall u | 0 <= u < |s.threads| && !s.threads[u].zombie ensures s.threads[u].join != Some(x) {
      SlotsMember(s.threads, u, x);
    }
  }

  /** The thread in the `join` field of a live thread is in no queue. */
  lemma JoinerAlone(s: State, u: nat)
    requires Conserved(s) && u < |s.threads| && !s.threads[u].zombie && s.threads[u].join.Some?
    ensures var j := s.threads[u].join.value;
            && j < |s.threads| && !s.threads[j].zombie && s.running != Some(j) && j !in s.lost
            && (forall k :: 0 <= k < |s.queues| ==> j !in s.queues[k])
            && (forall v :: 0 <= v < |s.threads| && v != u && !s.threads[v].zombie ==> s.threads[v].join != Some(j))
  {
    var j := s.threads[u].join.value;
    AliveCount(s.threads, j);
    assert (Places(s) + s.lost)[j] == Alive(s.threads)[j];
    SlotsMember(s.threads, u, j);
    forall k | 0 <= k < |s.queues| ensures j !in s.queues[k] { QueuedMember(s.queues, k, j); }
    forall v | 0 <= v < |s.threads| && v != u && !s.threads[v].zombie ensures s.threads[v].join != Some(j) {
      var gone := s.threads[u].(join := None);
      SlotsUpdate(s.threads, u, gone);
      assert (Slots(s.threads[u := gone]) + Slot(s.threads[u]))[j] == (Slots(s.threads) + Slot(gone))[j];
      SlotsMember(s.threads[u := gone], v, j);
    }
  }

  /** A thread that has ended is in no queue and not lost. */
  lemma ZombieNowhere(s: State, t: nat)
    requires Conserved(s) && t < |s.threads| && s.threads[t].zombie
    ensures t !in s.lost && forall k :: 0 <= k < |s.queues| ==> t !in s.queues[k]
  {
    NobodyAt(s, t);
    forall k | 0 <= k < |s.queues| ensures t !in s.queues[k] { QueuedMember(s.queues, k, t); }
  }

  lemma NobodyAt(s: State, t: nat)
    requires Conserved(s) && (t < |s.threads| ==> s.threads[t].zombie)
    ensures t !in s.lost && Queued(s.queues)[t] == 0
  {
    AliveCount(s.threads, t);
    assert (Places(s) + s.lost)[t] == Alive(s.threads)[t];
  }

  // ---------------------------------------------------------------- moves between places

  lemma EnqueuePlaces(s: State, k: nat, x: nat)
    requires k < |s.queues|
    ensures Queued(Enqueue(s, k, x).queues) == Queued(s.queues) + multiset{x}
  {
    QueuedUpdate(s.queues, k, s.queues[k] + [x]);
    assert multiset(s.queues[k] + [x]) == multiset(s.queues[k]) + multiset{x};
    var a, b := Queued(Enqueue(s, k, x).queues), Queued(s.queues);
    forall y ensures a[y] == (b + multiset{x})[y] {
      assert (a + multiset(s.queues[k]))[y] == (b + multiset(s.queues[k] + [x]))[y];
    }
  }

  lemma DequeuePlaces(qs: seq<seq<nat>>, k: nat)
    requires k < |qs| && qs[k] != []
    ensures Queued(qs) == Queued(qs[k := qs[k][1..]]) + multiset{qs[k][0]}
  {
    QueuedUpdate(qs, k, qs[k][1..]);
    var x := qs[k][0];
    assert qs[k] == [x] + qs[k][1..];
    var a, b := Queued(qs[k := qs[k][1..]]), Queued(qs);
    forall y ensures b[y] == (a + multiset{x})[y] {
      assert (a + multiset(qs[k]))[y] == (b + multiset(qs[k][1..]))[y];
    }
  }

  lemma SetAtPlaces(s: State, t: nat, p: Point)
    requires t < |s.threads|
    ensures Slots(SetAt(s, t, p).threads) == Slots(s.threads)
    ensures Alive(SetAt(s, t, p).threads) == Alive(s.threads)
  {
    SameSlot(s.threads, t, s.threads[t].(at := p));
  }

  lemma SameSlot(ts: seq<Thread>, t: nat, th: Thread)
    requires t < |ts| && th.zombie == ts[t].zombie && th.join == ts[t].join
    ensures Slots(ts[t := th]) == Slots(ts) && Alive(ts[t := th]) == Alive(ts)
  {
    SlotsUpdate(ts, t, th);
    AliveUpdate(ts, t, th);
    Cancel(Slots(ts[t := th]), Slots(ts), Slot(th));
  }

  lemma Cancel(a: multiset<nat>, b: multiset<nat>, x: multiset<nat>)
    requires a + x == b + x
    ensures a == b
  {
    forall y ensures a[y] == b[y] { assert (a + x)[y] == (b + x)[y]; }
  }

  lemma ParkConserves(s: State, k: nat, p: Point)
    requires Conserved(s) && s.running.Some? && s.running.value < |s.threads| && k < |s.queues|
    ensures Conserved(Park(s, k, p))
  {
    var r := s.running.value;
    var s1 := SetAt(s, r, p);
    SetAtPlaces(s, r, p);
    EnqueuePlaces(s1, k, r);
    var s' := Park(s, k, p);
    assert Places(s') == Places(s) by {
      assert Running(s') == multiset{} && Running(s) == multiset{r};
    }
  }

  lemma DispatchConserves(s: State)
    requires Conserved(s) && s.running.None? && |s.queues| > 0
    ensures Conserved(Dispatch(s))
  {
    if s.queues[0] != [] {
      DequeuePlaces(s.queues, 0);
      assert Places(Dispatch(s)) == Places(s);
    }
  }

  lemma WakeConserves(s: State, k: nat)
    requires Conserved(s) && 0 < k < |s.queues|
    ensures Conserved(Wake(s, k))
  {
    if s.queues[k] != [] {
      var s1 := s.(queues := s.queues[k := s.queues[k][1..]]);
      DequeuePlaces(s.queues, k);
      EnqueuePlaces(s1, 0, s.queues[k][0]);
      assert Places(Wake(s, k)) == Places(s);
    }
  }

  lemma ReleaseConserves(s: State, t: nat, m: nat)
    requires Conserved(s) && t < |s.threads| && m < |s.mutexes| && 1 + m < |s.queues|
    ensures Conserved(Release(s, t, m))
  {
    WakeConserves(s, 1 + m);
    SameSlot(s.threads, t, s.threads[t].(holds := s.threads[t].holds - {m}));
    assert Places(Release(s, t, m)) == Places(Wake(s, 1 + m));
  }

  /** A queue that is dropped: its threads are lost. */
  lemma DropConserves(s: State, k: nat)
    requires Conserved(s) && k < |s.queues|
    ensures Conserved(s.(queues := s.queues[k := []], lost := s.lost + multiset(s.queues[k])))
  {
    hide Queued, Slots, Alive;
    var s' := s.(queues := s.queues[k := []], lost := s.lost + multiset(s.queues[k]));
    QueuedUpdate(s.queues, k, []);
    var a, b, q := Queued(s'.queues), Queued(s.queues), multiset(s.queues[k]);
    forall y ensures (Places(s') + s'.lost)[y] == (Places(s) + s.lost)[y] {
      assert (a + q)[y] == (b + multiset([]))[y];
    }
  }

  lemma ReleaseWrittenConserves(s: State, t: nat, m: nat)
    requires Conserved(s) && t < |s.threads| && m < |s.mutexes| && 1 + m < |s.queues|
    ensures Conserved(ReleaseWritten(s, t, m))
  {
    hide Conserved;
    var w := Wake(s, 1 + m);
    WakeConserves(s, 1 + m);
    DropConserves(w, 1 + m);
    var e := w.(queues := w.queues[1 + m := []], lost := w.lost + multiset(w.queues[1 + m]));
    HereConserves(e, t, ReleaseWritten(s, t, m));
  }

  /** Changing what a thread holds, or where it goes on, moves nobody. */
  lemma HereConserves(s: State, t: nat, s': State)
    requires Conserved(s) && t < |s.threads| && t < |s'.threads| && s'.threads == s.threads[t := s'.threads[t]]
    requires s'.threads[t].zombie == s.threads[t].zombie && s'.threads[t].join == s.threads[t].join
    requires s'.queues == s.queues && s'.running == s.running && s'.lost == s.lost
    ensures Conserved(s')
  {
    SameSlot(s.threads, t, s'.threads[t]);
    assert Places(s') == Places(s);
  }

  lemma ParkJoinConserves(s: State, target: nat)
    requires Conserved(s) && s.running.Some? && s.running.value < |s.threads|
    requires target < |s.threads| && !s.threads[target].zombie && s.threads[target].join.None?
    ensures Conserved(ParkJoin(s, target))
  {
    var r := s.running.value;
    var s1 := SetAt(s, r, AfterJoin(target));
    var s' := ParkJoin(s, target);
    var th := s1.threads[target].(join := Some(r));
    SetAtPlaces(s, r, AfterJoin(target));
    SlotsUpdate(s1.threads, target, th);
    AliveUpdate(s1.threads, target, th);
    assert Slot(s1.threads[target]) == multiset{} && Slot(th) == multiset{r};
    assert Slots(s'.threads) == Slots(s.threads) + multiset{r};
    assert Places(s') == Places(s);
  }

  lemma RetireConserves(s: State, v: int)
    requires Conserved(s) && s.running.Some? && s.running.value < |s.threads| && |s.queues| > 0
    requires !s.threads[s.running.value].zombie
    ensures Conserved(Retire(s, v))
  {
    hide Queued, Slots, Alive;
    var r := s.running.value;
    var th := s.threads[r].(retval := v, zombie := true);
    var s' := Retire(s, v);
    SlotsUpdate(s.threads, r, th);
    AliveUpdate(s.threads, r, th);
    if s.threads[r].join.Some? { EnqueuePlaces(s, 0, s.threads[r].join.value); }
    assert Slot(th) == multiset{};
    assert Queued(s'.queues) == Queued(s.queues) + Slot(s.threads[r]);
    assert Slots(s.threads) == Slots(s'.threads) + Slot(s.threads[r]);
    assert Places(s') + multiset{r} == Places(s);
    Cancel(Places(s') + s'.lost, Alive(s'.threads), multiset{r});
  }

  lemma NewThread(ts: seq<Thread>, t: Thread)
    requires !t.zombie && t.join.None?
    ensures Slots(ts + [t]) == Slots(ts) && Alive(ts + [t]) == Alive(ts) + multiset{|ts|}
  {
    assert (ts + [t])[..|ts|] == ts;
  }

  lemma CreateConserves(s: State, s1: State)
    requires Conserved(s) && |s.queues| > 0
    requires s1 == s.(threads := s.threads + [Thread(None, 0, false, Fresh, {})])
    ensures Conserved(Enqueue(s1, 0, |s.threads|))
  {
    hide Queued, Slots, Alive;
    NewThread(s.threads, Thread(None, 0, false, Fresh, {}));
    EnqueuePlaces(s1, 0, |s.threads|);
    assert Places(Enqueue(s1, 0, |s.threads|)) == Places(s) + multiset{|s.threads|};
  }

  lemma WaitConserves(s: State, c: nat, om: Option<nat>, written: bool)
    requires Conserved(s) && Legal(s, Wait(c, om))
    ensures Conserved(WaitStep(s, c, om, written))
  {
    hide Conserved, Release, ReleaseWritten;
    var r, s1 := s.running.value, Park(s, CondQueue(s, c), AfterCond(om));
    ParkConserves(s, CondQueue(s, c), AfterCond(om));
    if om.None? {
      DispatchConserves(s1);
    } else if written {
      ReleaseWrittenConserves(s1, r, om.value);
      ReleaseSizes(s1, r, om.value);
      DispatchConserves(ReleaseWritten(s1, r, om.value));
    } else {
      ReleaseConserves(s1, r, om.value);
      ReleaseSizes(s1, r, om.value);
      DispatchConserves(Release(s1, r, om.value));
    }
  }

  lemma ReleaseSizes(s: State, t: nat, m: nat)
    requires t < |s.threads| && m < |s.mutexes| && 1 + m < |s.queues|
    ensures |Release(s, t, m).queues| == |ReleaseWritten(s, t, m).queues| == |s.queues|
    ensures Release(s, t, m).running == ReleaseWritten(s, t, m).running == s.running
  {
  }

  lemma ResumeConserves(s: State)
    requires Conserved(s) && Legal(s, Resume)
    ensures Conserved(ResumeStep(s))
  {
    hide Conserved;
    var r := s.running.value;
    var p := s.threads[r].at;
    if p.AfterCond? && p.relock.Some? && s.mutexes[p.relock.value].taken {
      var m := p.relock.value;
      ParkConserves(s, 1 + m, AfterRelock(m));
      DispatchConserves(Park(s, 1 + m, AfterRelock(m)));
    } else {
      HereConserves(s, r, ResumeStep(s));
    }
  }

  /** Every legal step of the code as written moves no thread to two places, and loses none silently. */
  lemma StepConserves(s: State, op: Op)
    requires Conserved(s) && Legal(s, op)
    ensures Conserved(StepWritten(s, op))
  {
    hide Conserved, WaitStep, ResumeStep, Release;
    var r := s.running.value;
    match op
    case Create => CreateConserves(s, s.(threads := s.threads + [Thread(None, 0, false, Fresh, {})]));
    case Yield =>
      ParkConserves(s, 0, AfterYield);
      DispatchConserves(Park(s, 0, AfterYield));
    case Join(t) =>
      if s.threads[t].zombie {
        HereConserves(s, r, Collect(s, r, t));
      } else {
        ParkJoinConserves(s, t);
        DispatchConserves(ParkJoin(s, t));
      }
    case Terminate(v) =>
      RunningAlone(s);
      RetireConserves(s, v);
      DispatchConserves(Retire(s, v));
    case Lock(m) =>
      if s.mutexes[m].taken {
        ParkConserves(s, 1 + m, AfterLock(m));
        DispatchConserves(Park(s, 1 + m, AfterLock(m)));
      } else {
        HereConserves(s, r, Acquire(s, r, m));
      }
    case Unlock(m) => ReleaseConserves(s, r, m);
    case Wait(c, om) => WaitConserves(s, c, om, true);
    case Signal(c) => WakeConserves(s, CondQueue(s, c));
    case Resume => ResumeConserves(s);
  }

  // ---------------------------------------------------------------- each move keeps the invariant

  lemma ParkKeeps(s: State, k: nat, p: Point)
    requires Inv(s) && s.running.Some? && k < |s.queues|
    requires s.threads[s.running.value].at.User? || s.threads[s.running.value].at.AfterCond?
    requires QueueOk(Park(s, k, p), k, s.running.value)
    requires 0 < k <= |s.mutexes| ==> s.mutexes[k - 1].taken
    ensures Inv(Park(s, k, p))
  {
    hide Conserved;
    var r := s.running.value;
    var s' := Park(s, k, p);
    RunningAlone(s);
    ParkConserves(s, k, p);
    forall l, t | 0 <= l < |s'.queues| && t in s'.queues[l] ensures QueueOk(s', l, t) {
      if t in s.queues[l] { assert QueueOk(s, l, t); }
    }
    forall t | 0 <= t < |s'.threads| ensures ThreadOk(s', t) { assert ThreadOk(s, t); }
    forall m | 0 <= m < |s'.mutexes| ensures MutexOk(s', m) { assert MutexOk(s, m); }
    forall j | j in s'.joined ensures JoinedOk(s', j) { assert JoinedOk(s, j); }
  }

  lemma DispatchKeeps(s: State)
    requires Inv(s) && s.running.None?
    ensures Inv(Dispatch(s))
  {
    hide Conserved;
    var s' := Dispatch(s);
    DispatchConserves(s);
    if s.queues[0] != [] { assert QueueOk(s, 0, s.queues[0][0]); }
    forall l, t | 0 <= l < |s'.queues| && t in s'.queues[l] ensures QueueOk(s', l, t) {
      assert t in s.queues[l];
      assert QueueOk(s, l, t);
    }
    forall t | 0 <= t < |s'.threads| ensures ThreadOk(s', t) { assert ThreadOk(s, t); }
    forall m | 0 <= m < |s'.mutexes| ensures MutexOk(s', m) { assert MutexOk(s, m); }
    forall j | j in s'.joined ensures JoinedOk(s', j) { assert JoinedOk(s, j); }
  }

  /** `green_cond_signal`. */
  lemma WakeKeeps(s: State, k: nat)
    requires Inv(s) && |s.mutexes| < k < |s.queues|
    ensures Inv(Wake(s, k))
  {
    hide Conserved;
    var s' := Wake(s, k);
    WakeConserves(s, k);
    if s.queues[k] != [] { assert QueueOk(s, k, s.queues[k][0]); }
    forall l, t | 0 <= l < |s'.queues| && t in s'.queues[l] ensures QueueOk(s', l, t) {
      if t in s.queues[l] { assert QueueOk(s, l, t); }
    }
    forall t | 0 <= t < |s'.threads| ensures ThreadOk(s', t) { assert ThreadOk(s, t); }
    forall m | 0 <= m < |s'.mutexes| ensures MutexOk(s', m) { assert MutexOk(s, m); }
    forall j | j in s'.joined ensures JoinedOk(s', j) { assert JoinedOk(s, j); }
  }

  /** `green_mutex_unlock`: the oldest waiter, already at its lock point, becomes the owner. */
  lemma ReleaseKeeps(s: State, t: nat, m: nat)
    requires Inv(s) && s.running == Some(t) && m < |s.mutexes| && m in s.threads[t].holds
    requires s.threads[t].at == User
    ensures Inv(Release(s, t, m))
  {
    hide Conserved;
    var s' := Release(s, t, m);
    RunningAlone(s);
    assert Owns(s, t, m) && MutexOk(s, m);
    ReleaseConserves(s, t, m);
    if s.queues[1 + m] != [] {
      var x := s.queues[1 + m][0];
      assert QueueOk(s, 1 + m, x);
      QueuedAlone(s, 1 + m, x);
      assert s.queues[1 + m] == [x] + s.queues[1 + m][1..];
      assert x !in s.queues[1 + m][1..];
      assert Runnable(s', x);
    }
    forall l, y | 0 <= l < |s'.queues| && y in s'.queues[l] ensures QueueOk(s', l, y) {
      if y in s.queues[l] { assert QueueOk(s, l, y); }
    }
    forall y | 0 <= y < |s'.threads| ensures ThreadOk(s', y) { assert ThreadOk(s, y); }
    forall l | 0 <= l < |s'.mutexes| ensures MutexOk(s', l) {
      assert MutexOk(s, l);
      assert l != m ==> s'.queues[1 + l] == s.queues[1 + l];
    }
    forall y, l | 0 <= y < |s'.threads| && l in s'.threads[y].holds ensures Owns(s', y, l) {
      assert Owns(s, y, l);
    }
    forall j | j in s'.joined ensures JoinedOk(s', j) { assert JoinedOk(s, j); }
  }

  /** The running thread takes a mutex that nobody has. */
  lemma AcquireKeeps(s: State, m: nat)
    requires Inv(s) && s.running.Some? && m < |s.mutexes| && !s.mutexes[m].taken
    requires var p := s.threads[s.running.value].at; p.User? || p == AfterCond(Some(m))
    ensures Inv(SetAt(Acquire(s, s.running.value, m), s.running.value, User))
  {
    hide Conserved;
    var r := s.running.value;
    var s' := SetAt(Acquire(s, r, m), r, User);
    RunningAlone(s);
    HereConserves(s, r, s');
    assert MutexOk(s, m);
    forall l, t | 0 <= l < |s'.queues| && t in s'.queues[l] ensures QueueOk(s', l, t) {
      assert QueueOk(s, l, t);
    }
    forall t | 0 <= t < |s'.threads| ensures ThreadOk(s', t) { assert ThreadOk(s, t); }
    forall l | 0 <= l < |s'.mutexes| ensures MutexOk(s', l) { assert MutexOk(s, l); }
    forall t, l | 0 <= t < |s'.threads| && l in s'.threads[t].holds ensures Owns(s', t, l) {
      if l in s.threads[t].holds { assert Owns(s, t, l); }
    }
    forall j | j in s'.joined ensures JoinedOk(s', j) { assert JoinedOk(s, j); }
  }

  /** A resumed thread that has nothing left to wait for is back in user code; after a lock wait it holds the mutex. */
  lemma ReturnKeeps(s: State, holds: set<nat>)
    requires Inv(s) && s.running.Some?
    requires var p := s.threads[s.running.value].at;
             match p
             case AfterLock(m) => holds == s.threads[s.running.value].holds + {m}
             case AfterRelock(m) => holds == s.threads[s.running.value].holds + {m}
             case _ => holds == s.threads[s.running.value].holds
    ensures var r := s.running.value;
            Inv(SetAt(s.(threads := s.threads[r := s.threads[r].(holds := holds)]), r, User))
  {
    hide Conserved;
    var r := s.running.value;
    var s' := SetAt(s.(threads := s.threads[r := s.threads[r].(holds := holds)]), r, User);
    RunningAlone(s);
    HereConserves(s, r, s');
    forall l, t | 0 <= l < |s'.queues| && t in s'.queues[l] ensures QueueOk(s', l, t) {
      assert QueueOk(s, l, t);
    }
    forall t | 0 <= t < |s'.threads| ensures ThreadOk(s', t) { assert ThreadOk(s, t); }
    forall l | 0 <= l < |s'.mutexes| ensures MutexOk(s', l) { assert MutexOk(s, l); }
    forall t, l | 0 <= t < |s'.threads| && l in s'.threads[t].holds ensures Owns(s', t, l) {
      if l in s.threads[t].holds { assert Owns(s, t, l); }
    }
    forall j | j in s'.joined ensures JoinedOk(s', j) { assert JoinedOk(s, j); }
  }

  lemma CollectKeeps(s: State, target: nat)
    requires Inv(s) && s.running.Some? && target < |s.threads| && s.threads[target].zombie
    requires var p := s.threads[s.running.value].at; p == User || p == AfterJoin(target)
    ensures Inv(Collect(s, s.running.value, target))
  {
    hide Conserved;
    var r := s.running.value;
    var s1 := SetAt(s, r, User);
    ReturnKeeps(s, s.threads[r].holds);
    assert s1 == SetAt(s.(threads := s.threads[r := s.threads[r].(holds := s.threads[r].holds)]), r, User);
    var s' := Collect(s, r, target);
    HereConserves(s1, r, s');
    forall l, t | 0 <= l < |s'.queues| && t in s'.queues[l] ensures QueueOk(s', l, t) {
      assert QueueOk(s1, l, t);
    }
    forall t | 0 <= t < |s'.threads| ensures ThreadOk(s', t) { assert ThreadOk(s1, t); }
    forall l | 0 <= l < |s'.mutexes| ensures MutexOk(s', l) { assert MutexOk(s1, l); }
    forall t, l | 0 <= t < |s'.threads| && l in s'.threads[t].holds ensures Owns(s', t, l) { assert Owns(s1, t, l); }
    forall j | j in s'.joined ensures JoinedOk(s', j) {
      if j in s1.joined { assert JoinedOk(s1, j); }
    }
  }

  lemma ParkJoinKeeps(s: State, target: nat)
    requires Inv(s) && s.running.Some? && s.threads[s.running.value].at == User
    requires target < |s.threads| && !s.threads[target].zombie && s.threads[target].join.None?
    ensures Inv(ParkJoin(s, target))
  {
    hide Conserved;
    var r := s.running.value;
    var s' := ParkJoin(s, target);
    RunningAlone(s);
    ParkJoinConserves(s, target);
    forall l, t | 0 <= l < |s'.queues| && t in s'.queues[l] ensures QueueOk(s', l, t) {
      assert QueueOk(s, l, t);
    }
    forall t | 0 <= t < |s'.threads| ensures ThreadOk(s', t) { assert ThreadOk(s, t); }
    forall l | 0 <= l < |s'.mutexes| ensures MutexOk(s', l) { assert MutexOk(s, l); }
    forall t, l | 0 <= t < |s'.threads| && l in s'.threads[t].holds ensures Owns(s', t, l) { assert Owns(s, t, l); }
    forall j | j in s'.joined ensures JoinedOk(s', j) { assert JoinedOk(s, j); }
  }

  /** `green_thread` after the function has returned: the joiner finds a zombie when it runs again. */
  lemma RetireKeeps(s: State, v: int)
    requires Inv(s) && s.running.Some? && s.running.value != 0 && s.threads[s.running.value].at == User
    ensures Inv(Retire(s, v))
  {
    hide Conserved;
    var r := s.running.value;
    var s' := Retire(s, v);
    RunningAlone(s);
    RetireConserves(s, v);
    assert ThreadOk(s, r);
    forall l, t | 0 <= l < |s'.queues| && t in s'.queues[l] ensures QueueOk(s', l, t) {
      if t in s.queues[l] { assert QueueOk(s, l, t); }
    }
    forall t | 0 <= t < |s'.threads| ensures ThreadOk(s', t) { assert ThreadOk(s, t); }
    forall l | 0 <= l < |s'.mutexes| ensures MutexOk(s', l) { assert MutexOk(s, l); }
    forall t, l | 0 <= t < |s'.threads| && l in s'.threads[t].holds ensures Owns(s', t, l) { assert Owns(s, t, l); }
    forall j | j in s'.joined ensures JoinedOk(s', j) { assert JoinedOk(s, j); }
  }

  lemma CreateKeeps(s: State)
    requires Inv(s) && Legal(s, Create)
    ensures Inv(Step(s, Create))
  {
    hide Conserved;
    var n := |s.threads|;
    var s1 := s.(threads := s.threads + [Thread(None, 0, false, Fresh, {})]);
    var s' := Step(s, Create);
    CreateConserves(s, s1);
    forall l, t | 0 <= l < |s'.queues| && t in s'.queues[l] ensures QueueOk(s', l, t) {
      if t in s.queues[l] { assert QueueOk(s, l, t); }
    }
    forall t | 0 <= t < |s'.threads| ensures ThreadOk(s', t) { if t < n { assert ThreadOk(s, t); } }
    forall l | 0 <= l < |s'.mutexes| ensures MutexOk(s', l) { assert MutexOk(s, l); }
    forall t, l | 0 <= t < |s'.threads| && l in s'.threads[t].holds ensures Owns(s', t, l) { assert Owns(s, t, l); }
    forall j | j in s'.joined ensures JoinedOk(s', j) { assert JoinedOk(s, j); }
  }

  // ---------------------------------------------------------------- steps

  lemma InitConserved(mutexes: nat, conds: nat)
    ensures Conserved(Init(mutexes, conds))
  {
    var s := Init(mutexes, conds);
    EmptyQueues(s.queues);
    assert s.threads == [MAIN] && s.threads[..0] == [];
    assert Slots(s.threads) == Slots([]) + Slot(MAIN) == multiset{};
    assert Places(s) == multiset{0} && Alive(s.threads) == multiset{0};
  }

  lemma InitInv(mutexes: nat, conds: nat)
    ensures Inv(Init(mutexes, conds))
  {
    hide Conserved;
    var s := Init(mutexes, conds);
    InitConserved(mutexes, conds);
    forall m | 0 <= m < |s.mutexes| ensures MutexOk(s, m) { }
  }

  lemma {:induction false} EmptyQueues(qs: seq<seq<nat>>)
    requires forall k :: 0 <= k < |qs| ==> qs[k] == []
    ensures Queued(qs) == multiset{}
  {
    if qs != [] { EmptyQueues(qs[..|qs| - 1]); }
  }

  /** In `green_cond_wait`, giving up the mutex and suspending on the condition may be done in either order. */
  lemma WaitCommutes(s: State, c: nat, om: Option<nat>)
    requires Legal(s, Wait(c, om)) && om.Some?
    ensures WaitStep(s, c, om, false) ==
            Dispatch(Park(Release(s, s.running.value, om.value), CondQueue(s, c), AfterCond(om)))
  {
  }

  lemma WaitKeeps(s: State, c: nat, om: Option<nat>)
    requires Inv(s) && Legal(s, Wait(c, om))
    ensures Inv(WaitStep(s, c, om, false))
  {
    hide Conserved;
    var k := CondQueue(s, c);
    if om.Some? {
      ReleaseKeeps(s, s.running.value, om.value);
      var s1 := Release(s, s.running.value, om.value);
      ParkKeeps(s1, k, AfterCond(om));
      DispatchKeeps(Park(s1, k, AfterCond(om)));
      WaitCommutes(s, c, om);
    } else {
      ParkKeeps(s, k, AfterCond(om));
      DispatchKeeps(Park(s, k, AfterCond(om)));
    }
  }

  lemma ResumeKeeps(s: State)
    requires Inv(s) && Legal(s, Resume)
    ensures Inv(ResumeStep(s))
  {
    hide Conserved;
    var r := s.running.value;
    var me := s.threads[r];
    assert Runnable(s, r);
    match me.at
    case AfterJoin(target) => CollectKeeps(s, target);
    case AfterLock(m) => ReturnKeeps(s, me.holds + {m});
    case AfterRelock(m) => ReturnKeeps(s, me.holds + {m});
    case AfterCond(om) =>
      if om.None? {
        ReturnKeeps(s, me.holds);
        assert s.threads[r := me.(holds := me.holds)] == s.threads;
      } else if s.mutexes[om.value].taken {
        assert MutexOk(s, om.value);
        ParkKeeps(s, 1 + om.value, AfterRelock(om.value));
        DispatchKeeps(Park(s, 1 + om.value, AfterRelock(om.value)));
      } else {
        AcquireKeeps(s, om.value);
      }
    case Fresh =>
      ReturnKeeps(s, me.holds);
      assert s.threads[r := me.(holds := me.holds)] == s.threads;
    case AfterYield =>
      ReturnKeeps(s, me.holds);
      assert s.threads[r := me.(holds := me.holds)] == s.threads;
  }

  /** Every legal step keeps the invariant. */
  lemma StepKeeps(s: State, op: Op)
    requires Inv(s) && Legal(s, op)
    ensures Inv(Step(s, op))
  {
    hide Conserved, QueuesOk, ThreadsOk, HoldsOk, AllJoinedOk;
    var r := s.running.value;
    match op
    case Create => CreateKeeps(s);
    case Yield =>
      ParkKeeps(s, 0, AfterYield);
      DispatchKeeps(Park(s, 0, AfterYield));
    case Join(t) =>
      if s.threads[t].zombie {
        CollectKeeps(s, t);
      } else {
        ParkJoinKeeps(s, t);
        DispatchKeeps(ParkJoin(s, t));
      }
    case Terminate(v) =>
      RetireKeeps(s, v);
      DispatchKeeps(Retire(s, v));
    case Lock(m) =>
      if s.mutexes[m].taken {
        assert MutexOk(s, m);
        ParkKeeps(s, 1 + m, AfterLock(m));
        DispatchKeeps(Park(s, 1 + m, AfterLock(m)));
      } else {
        AcquireKeeps(s, m);
        assert SetAt(Acquire(s, r, m), r, User) == Acquire(s, r, m);
      }
    case Unlock(m) => ReleaseKeeps(s, r, m);
    case Wait(c, om) => WaitKeeps(s, c, om);
    case Signal(c) => WakeKeeps(s, CondQueue(s, c));
    case Resume => ResumeKeeps(s);
  }

  /** The invariant holds in every run. */
  lemma {:induction false} ExecKeeps(s: State, ops: seq<Op>)
    requires Inv(s) && LegalExec(s, ops)
    ensures Inv(Exec(s, ops))
  {
    if ops != [] {
      ExecKeeps(s, ops[..|ops| - 1]);
      StepKeeps(Exec(s, ops[..|ops| - 1]), ops[|ops| - 1]);
    }
  }
}
