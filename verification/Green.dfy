/**
 seminar3/green.c on linked `green_t` records. Each method makes the loads and stores
 of the C function of the same name up to its `swapcontext`, and is proved to take the
 step that GreenModel.dfy specifies on the abstract state. Where the C code would
 dereference the NULL that an empty ready queue yields, `running` is left null.
 */
module Green {
  import opened Options
  import opened GreenModel
  import opened GreenInvariant
  import opened GreenLists
  import opened GreenRuns
  import opened GreenWritten
  import opened LinkedLists

  /** `green_t`; `context` is the point at which a suspended thread goes on. */
  class GreenThread {
    var next: GreenThread?
    var join: GreenThread?
    var retval: int
    var zombie: bool
    var context: Point

    constructor ()
      ensures next == null && join == null && retval == 0 && !zombie && context == User
    {
      next, join, retval, zombie, context := null, null, 0, false, User;
    }
  }

  /** A variable of type `green_t *` that heads a queue. */
  class ListHead {
    var first: GreenThread?
    constructor ()
      ensures first == null
    {
      first := null;
    }
  }

  /** `green_mutex_t`; its queue is headed by a `ListHead` of its own. */
  class GreenMutex {
    var taken: bool
    constructor ()
      ensures !taken
    {
      taken := false;
    }
  }

  class Scheduler {
    var running: GreenThread?
    /** The ready queue, the queues of the mutexes, and those of the condition variables. */
    const lists: seq<ListHead>
    const mutexes: seq<GreenMutex>
    /** All threads, in order of creation. */
    ghost var threads: seq<GreenThread>
    /** The `next` fields and the list heads, as thread numbers. */
    ghost var next: seq<Option<nat>>
    ghost var first: seq<Option<nat>>
    ghost var s: State

    /** The state in which `main` starts, with initialized mutexes and condition variables. */
    constructor (main: GreenThread, lists: seq<ListHead>, mutexes: seq<GreenMutex>)
      requires main.next == null && main.join == null && main.retval == 0 && !main.zombie && main.context == User
      requires |lists| > |mutexes| && forall k :: 0 <= k < |lists| ==> lists[k].first == null
      requires forall m :: 0 <= m < |mutexes| ==> !mutexes[m].taken
      requires forall i, j :: 0 <= i < j < |lists| ==> lists[i] != lists[j]
      requires forall i, j :: 0 <= i < j < |mutexes| ==> mutexes[i] != mutexes[j]
      ensures Valid() && s == Init(|mutexes|, |lists| - 1 - |mutexes|)
      ensures this.lists == lists && this.mutexes == mutexes && threads == [main] && running == main
    {
      this.lists, this.mutexes, running := lists, mutexes, main;
      threads, next, first := [main], [None], seq(|lists|, i => None);
      s := Init(|mutexes|, |lists| - 1 - |mutexes|);
      new;
      hide Conserved;
      InitConserved(|mutexes|, |lists| - 1 - |mutexes|);
    }

    ghost predicate Distinct()
      reads `threads
    {
      && (forall i, j :: 0 <= i < j < |threads| ==> threads[i] != threads[j])
      && (forall i, j :: 0 <= i < j < |lists| ==> lists[i] != lists[j])
      && (forall i, j :: 0 <= i < j < |mutexes| ==> mutexes[i] != mutexes[j])
    }

    ghost function Ref(t: Option<nat>): GreenThread?
      reads `threads
    {
      if t.Some? && t.value < |threads| then threads[t.value] else null
    }

    ghost predicate InRange(t: Option<nat>)
      reads `threads
    {
      t.Some? ==> t.value < |threads|
    }

    /** The pointers of the queues are those of `next` and `first`. */
    ghost predicate Pointers()
      reads `threads, `next, `first, threads`next, lists
    {
      && |next| == |threads| && |first| == |lists|
      && (forall t :: 0 <= t < |threads| ==> InRange(next[t]) && threads[t].next == Ref(next[t]))
      && (forall k :: 0 <= k < |lists| ==> InRange(first[k]) && lists[k].first == Ref(first[k]))
    }

    ghost predicate Records()
      reads `threads, `s, threads`zombie, threads`retval, threads`context, threads`join
    {
      && |threads| == |s.threads|
      && forall t :: 0 <= t < |threads| ==>
           && threads[t].zombie == s.threads[t].zombie && threads[t].retval == s.threads[t].retval
           && threads[t].context == s.threads[t].at
           && InRange(s.threads[t].join) && threads[t].join == Ref(s.threads[t].join)
    }

    ghost predicate Locks()
      reads `s, mutexes
    {
      && |mutexes| == |s.mutexes| < |lists| == |s.queues|
      && forall m :: 0 <= m < |mutexes| ==> mutexes[m].taken == s.mutexes[m].taken
    }

    ghost predicate Rep()
      reads `threads, `next, `first, `s, threads, lists, mutexes
    {
      Rest() && Chains(next, first, s.queues, s.lost)
    }

    ghost predicate Valid()
      reads this, threads, lists, mutexes
    {
      Rep() && Conserved(s) && running == Ref(s.running) && InRange(s.running)
    }

    /** Everything but the queues. */
    ghost predicate Rest()
      reads `threads, `next, `first, `s, threads, lists, mutexes
    {
      Distinct() && Pointers() && Records() && Locks()
    }

    /** The store `thread->next = to`. */
    method SetNext(thread: GreenThread, to: GreenThread?, ghost x: nat, ghost y: Option<nat>)
      requires Rest() && x < |threads| && threads[x] == thread && InRange(y) && to == Ref(y)
      modifies this`next, thread`next
      ensures Rest() && next == old(next)[x := y]
    {
      thread.next := to;
      next := next[x := y];
    }

    /** The store `*list = to`. */
    method SetFirst(list: ListHead, to: GreenThread?, ghost k: nat, ghost y: Option<nat>)
      requires Rest() && k < |lists| && lists[k] == list && InRange(y) && to == Ref(y)
      modifies this`first, list
      ensures Rest() && first == old(first)[k := y]
    {
      list.first := to;
      first := first[k := y];
    }

    /** `dequeue`. */
    method Dequeue(list: ListHead, ghost k: nat) returns (thread: GreenThread?)
      requires Rep() && k < |lists| && lists[k] == list
      modifies this`s, this`next, this`first, threads, lists
      ensures Rep()
      ensures thread == Ref(At(old(s.queues[k]), 0)) && InRange(At(old(s.queues[k]), 0))
      ensures s == if old(s.queues[k]) == [] then old(s)
                   else old(s).(queues := old(s.queues)[k := old(s.queues[k])[1..]])
      ensures old(s.queues[k]) != [] ==> Unqueued(s.queues, old(s.queues[k][0])) && old(s.queues[k][0]) !in s.lost
    {
      hide Chains, Unqueued, Records, Distinct;
      HeadAt(next, first, s.queues, s.lost, k);
      if list.first == null {
        return null;
      }
      ghost var x := first[k].value;
      DequeueChains(next, first, s.queues, s.lost, k);
      thread := list.first;
      SetFirst(list, list.first.next, k, next[x]);
      SetNext(thread, null, x, None);
      SetQueues(s.queues[k := s.queues[k][1..]]);
    }

    ghost method SetQueues(qs: seq<seq<nat>>)
      requires Rest() && |qs| == |s.queues|
      modifies this`s
      ensures Rest() && s == old(s).(queues := qs)
    {
      s := s.(queues := qs);
    }

    /** `enqueue`: the walk ends at a NULL `next`, which is why the new last thread must have one. */
    method Enqueue(list: ListHead, thread: GreenThread, ghost k: nat, ghost x: nat)
      requires Rep() && k < |lists| && lists[k] == list
      requires x < |threads| && threads[x] == thread && Unqueued(s.queues, x) && x !in s.lost
      modifies this`s, this`next, this`first, threads, lists
      ensures Rep()
      ensures s == GreenModel.Enqueue(old(s), k, x)
    {
      hide Chains, Unqueued, Records, Distinct;
      ghost var q := s.queues[k];
      HeadAt(next, first, s.queues, s.lost, k);
      EnqueueChains(next, first, s.queues, s.lost, k, x);
      if list.first == null {
        SetFirst(list, thread, k, Some(x));
      } else {
        var susp := list.first;
        ghost var i := 0;
        ChainAt(next, first, s.queues, s.lost, k, 0);
        while susp.next != null
          invariant i < |q| && q[i] < |threads| && susp == threads[q[i]] && next[q[i]] == At(q, i + 1)
          modifies {}
          decreases |q| - i
        {
          susp := susp.next;
          i := i + 1;
          ChainAt(next, first, s.queues, s.lost, k, i);
        }
        SetNext(susp, thread, q[i], Some(x));
      }
      SetQueues(s.queues[k := q + [x]]);
    }

    // -------------------------------------------------------------- stores to the other fields

    /** What `swapcontext` saves of the thread that is suspended. */
    method SaveContext(thread: GreenThread, p: Point, ghost x: nat)
      requires Rep() && x < |threads| && threads[x] == thread
      modifies this`s, thread`context
      ensures Rep() && |s.threads| == |old(s).threads| > x && s == SetAt(old(s), x, p)
    {
      hide Chains, ListOf;
      thread.context := p;
      s := SetAt(s, x, p);
    }

    /** The store `thread->join = joiner`. */
    method SetJoin(thread: GreenThread, joiner: GreenThread, ghost x: nat, ghost j: nat)
      requires Rep() && x < |threads| && threads[x] == thread && j < |threads| && threads[j] == joiner
      modifies this`s, thread`join
      ensures Rep() && |old(s).threads| > x
      ensures s == old(s).(threads := old(s).threads[x := old(s).threads[x].(join := Some(j))])
    {
      hide Chains, ListOf;
      thread.join := joiner;
      s := s.(threads := s.threads[x := s.threads[x].(join := Some(j))]);
    }

    /** The stores that end a thread. */
    method SetEnded(thread: GreenThread, result: int, ghost x: nat)
      requires Rep() && x < |threads| && threads[x] == thread
      modifies this`s, thread`retval, thread`zombie
      ensures Rep() && |old(s).threads| > x
      ensures s == old(s).(threads := old(s).threads[x := old(s).threads[x].(retval := result, zombie := true)])
    {
      hide Chains, ListOf;
      thread.retval := result;
      thread.zombie := true;
      s := s.(threads := s.threads[x := s.threads[x].(retval := result, zombie := true)]);
    }

    /** The store `mutex->taken = taken`, with the owner and the locks held that go with it. */
    method SetTaken(mutex: GreenMutex, taken: bool, ghost m: nat, ghost mutex': Mutex,
                    ghost x: nat, ghost holds: set<nat>)
      requires Rep() && m < |mutexes| && mutexes[m] == mutex && x < |threads| && mutex'.taken == taken
      modifies this`s, mutex`taken
      ensures Rep() && |old(s).threads| > x && |old(s).mutexes| > m
      ensures s == old(s).(mutexes := old(s).mutexes[m := mutex'],
                           threads := old(s).threads[x := old(s).threads[x].(holds := holds)])
    {
      hide Chains, ListOf, Pointers;
      mutex.taken := taken;
      s := s.(mutexes := s.mutexes[m := mutex'], threads := s.threads[x := s.threads[x].(holds := holds)]);
    }

    /** `next = dequeue(&ready_queue); running = next; swapcontext(...)`. */
    method Switch()
      requires Rep()
      modifies this`s, this`next, this`first, this`running, threads, lists
      ensures Rep() && |old(s).queues| > 0 && s == Dispatch(old(s))
      ensures running == Ref(s.running) && InRange(s.running)
    {
      hide Rest, Chains;
      Sizes();
      var next := Dequeue(lists[0], 0);
      running := next;
      SetRunning(At(old(s).queues[0], 0));
    }

    ghost method SetRunning(t: Option<nat>)
      requires Rest()
      modifies this`s
      ensures Rest() && s == old(s).(running := t)
    {
      s := s.(running := t);
    }

    lemma Sizes()
      requires Rest()
      ensures |mutexes| == |s.mutexes| < |lists| == |s.queues| && |threads| == |s.threads|
    {
    }

    /** The running thread and its number. */
    lemma RunningThread()
      requires Valid() && s.running.Some?
      ensures var r := s.running.value;
              && r < |threads| == |s.threads| && running == threads[r]
              && Unqueued(s.queues, r) && r !in s.lost
      ensures |mutexes| == |s.mutexes| < |lists| == |s.queues|
    {
      RunningAlone(s);
    }

    /** The running thread, a zombie, and a thread waiting in `green_join` have a NULL `next`, as `enqueue` needs. */
    lemma OffQueueNextNull(t: nat)
      requires Valid() && t < |threads|
      requires s.running == Some(t) || threads[t].zombie
            || exists u :: 0 <= u < |threads| && !threads[u].zombie && threads[u].join == threads[t]
      ensures threads[t].next == null
    {
      hide Conserved, Separate, Kept, Linked;
      if s.running == Some(t) {
        RunningAlone(s);
      } else if !threads[t].zombie {
        var u :| 0 <= u < |threads| && !threads[u].zombie && threads[u].join == threads[t];
        JoinerAlone(s, u);
      } else {
        ZombieNowhere(s, t);
      }
      assert Unqueued(s.queues, t);
    }

    // -------------------------------------------------------------- the library

    /** `green_create`. */
    method Create(thread: GreenThread)
      requires Valid() && Legal(s, GreenModel.Create) && thread !in threads
      modifies this, thread, threads, lists
      ensures old(Inv(s)) ==> Inv(s)
      ensures Valid() && s == Step(old(s), GreenModel.Create) && threads == old(threads) + [thread]
      ensures running == old(running)
    {
      hide Inv, Conserved, Rest, Chains, Unqueued;
      ghost var x := |threads|;
      Sizes();
      NobodyAt(s, x);
      InitThread(thread);
      Enqueue(lists[0], thread, 0, x);
      WrittenKeeps(old(s), GreenModel.Create);
    }

    /** The stores to the new record. */
    method InitThread(thread: GreenThread)
      requires Rep() && thread !in threads
      modifies `threads, `next, `s, thread
      ensures Rep() && threads == old(threads) + [thread]
      ensures s == old(s).(threads := old(s).threads + [Thread(None, 0, false, Fresh, {})])
      ensures Unqueued(s.queues, |old(threads)|) && |lists| == |s.queues|
    {
      hide Chains, Unqueued;
      NewChains(next, first, s.queues, s.lost);
      thread.next, thread.join, thread.retval, thread.zombie, thread.context := null, null, 0, false, Fresh;
      AddThread(thread);
    }

    ghost method AddThread(thread: GreenThread)
      requires Rest() && thread !in threads
      requires thread.next == null && thread.join == null
      requires thread.retval == 0 && !thread.zombie && thread.context == Fresh
      modifies `threads, `next, `s
      ensures Rest() && threads == old(threads) + [thread] && next == old(next) + [None]
      ensures s == old(s).(threads := old(s).threads + [Thread(None, 0, false, Fresh, {})])
    {
      threads := threads + [thread];
      next := next + [None];
      s := s.(threads := s.threads + [Thread(None, 0, false, Fresh, {})]);
    }

    /** `green_yield`, and `timer_handler`. */
    method Yield()
      requires Valid() && Legal(s, GreenModel.Yield)
      modifies this, threads, lists
      ensures old(Inv(s)) ==> Inv(s)
      ensures Valid() && s == Step(old(s), GreenModel.Yield) && threads == old(threads)
    {
      hide Inv, Conserved, Chains, Unqueued, Rest;
      RunningThread();
      ghost var r := s.running.value;
      var susp := running;
      Enqueue(lists[0], susp, 0, r);
      SaveContext(susp, AfterYield, r);
      Switch();
      WrittenKeeps(old(s), GreenModel.Yield);
    }

    /** The end of `green_join`: what it stores through its second argument, if anything. */
    method Collect(target: GreenThread, ghost t: nat, ghost r: nat) returns (res: Option<int>)
      requires Rep() && s.running == Some(r) && r < |threads| && running == threads[r]
      requires t < |threads| && threads[t] == target
      modifies `s, running`context
      ensures Rep() && r < |old(s).threads| && t < |old(s).threads| && s == GreenModel.Collect(old(s), r, t)
      ensures s.joined == old(s).joined + [Joined(r, t, res)]
    {
      hide Rest, Chains;
      RecordOf(t);
      res := if target.retval != 0 then Some(target.retval) else None;
      SaveContext(running, User, r);
      AddJoined(Joined(r, t, res));
    }

    lemma RecordOf(t: nat)
      requires Rep() && t < |threads|
      ensures |threads| == |s.threads| && threads[t].retval == s.threads[t].retval
    {
    }

    ghost method AddJoined(j: Joined)
      requires Rep()
      modifies `s
      ensures Rep() && s == old(s).(joined := old(s).joined + [j])
    {
      hide Chains;
      s := s.(joined := s.joined + [j]);
    }

    /** `green_join` up to its suspension, or to its end if the thread has ended already. */
    method Join(target: GreenThread, t: nat) returns (res: Option<int>)
      requires Valid() && Legal(s, GreenModel.Join(t)) && threads[t] == target
      modifies this, threads, lists
      ensures old(Inv(s)) ==> Inv(s)
      ensures Valid() && s == Step(old(s), GreenModel.Join(t)) && threads == old(threads)
      ensures Legal(old(s), GreenModel.Join(t)) && Delivers(old(s), GreenModel.Join(t), s, res)
    {
      hide Inv, Conserved, Chains, Unqueued, Distinct, Pointers, Locks, Delivers;
      RunningThread();
      ghost var r := s.running.value;
      res := None;
      if !target.zombie {
        var susp := running;
        SetJoin(target, susp, t, r);
        SaveContext(susp, AfterJoin(t), r);
        ghost var s1 := s;
        Switch();
        JoinOrder(old(s), t);
      } else {
        res := Collect(target, t, r);
      }
      DeliversLast(old(s), GreenModel.Join(t), res);
      WrittenKeeps(old(s), GreenModel.Join(t));
    }

    /** Saving the context after storing the `join` field comes to the same. */
    lemma JoinOrder(s0: State, t: nat)
      requires s0.running.Some? && s0.running.value < |s0.threads| && t < |s0.threads| && |s0.queues| > 0
      ensures var r := s0.running.value;
              Dispatch(SetAt(s0.(threads := s0.threads[t := s0.threads[t].(join := Some(r))]), r, AfterJoin(t)))
              == Dispatch(ParkJoin(s0, t))
    {
      var r := s0.running.value;
      var a := SetAt(s0.(threads := s0.threads[t := s0.threads[t].(join := Some(r))]), r, AfterJoin(t));
      assert a.threads == ParkJoin(s0, t).threads;
    }

    /** `green_thread` once the thread's function has returned `result`. */
    method Terminate(result: int)
      requires Valid() && Legal(s, GreenModel.Terminate(result))
      modifies this, threads, lists
      ensures old(Inv(s)) ==> Inv(s)
      ensures Valid() && s == Step(old(s), GreenModel.Terminate(result)) && threads == old(threads)
    {
      hide Inv, Conserved, Chains, Unqueued, Distinct, Pointers, Locks;
      RunningThread();
      ghost var r := s.running.value;
      var me := running;
      if me.join != null {
        JoinerUnqueued(s, r);
        Enqueue(lists[0], me.join, 0, s.threads[r].join.value);
      }
      SetEnded(me, result, r);
      Switch();
      WrittenKeeps(old(s), GreenModel.Terminate(result));
    }

    lemma JoinerUnqueued(s0: State, r: nat)
      requires Conserved(s0) && s0.running == Some(r) && r < |s0.threads| && s0.threads[r].join.Some?
      ensures Unqueued(s0.queues, s0.threads[r].join.value) && s0.threads[r].join.value !in s0.lost
    {
      RunningAlone(s0);
      JoinerAlone(s0, r);
    }

    /** `green_mutex_lock` of mutex `m` up to its suspension. */
    method Lock(m: nat)
      requires Valid() && Legal(s, GreenModel.Lock(m))
      modifies this, threads, lists, mutexes
      ensures old(Inv(s)) ==> Inv(s)
      ensures Valid() && s == Step(old(s), GreenModel.Lock(m)) && threads == old(threads)
    {
      hide Inv, Conserved, Chains, Unqueued, Distinct, Pointers, Records;
      RunningThread();
      ghost var r := s.running.value;
      if mutexes[m].taken {
        var susp := running;
        Enqueue(lists[1 + m], susp, 1 + m, r);
        SaveContext(susp, AfterLock(m), r);
        Switch();
      } else {
        SetTaken(mutexes[m], true, m, Mutex(true, Some(r)), r, s.threads[r].holds + {m});
      }
      WrittenKeeps(old(s), GreenModel.Lock(m));
    }

    /** `green_mutex_unlock` of mutex `m`. */
    method Unlock(m: nat)
      requires Valid() && Legal(s, GreenModel.Unlock(m))
      modifies this, threads, lists, mutexes
      ensures old(Inv(s)) ==> Inv(s)
      ensures Valid() && s == Step(old(s), GreenModel.Unlock(m)) && threads == old(threads)
      ensures running == old(running)
    {
      hide Inv, Conserved, Chains, Unqueued, Distinct, Pointers, Records;
      RunningThread();
      GiveUp(m, s.running.value);
      WrittenKeeps(old(s), GreenModel.Unlock(m));
    }

    /** The body of `green_mutex_unlock`. */
    method GiveUp(m: nat, ghost r: nat)
      requires Rep() && m < |mutexes| && r < |threads|
      modifies `s, `next, `first, threads, lists, mutexes
      ensures Rep() && r < |old(s).threads| && m < |old(s).mutexes| && 1 + m < |old(s).queues|
      ensures s == Release(old(s), r, m)
    {
      hide Chains, Unqueued, Distinct, Pointers, Records;
      Sizes();
      FirstOf(1 + m);
      ghost var holds := s.threads[r].holds - {m};
      if lists[1 + m].first != null {
        ghost var x := s.queues[1 + m][0];
        var susp := Dequeue(lists[1 + m], 1 + m);
        Enqueue(lists[0], susp, 0, x);
        SetTaken(mutexes[m], mutexes[m].taken, m, Mutex(s.mutexes[m].taken, Some(x)), r, holds);
      } else {
        SetTaken(mutexes[m], false, m, Mutex(false, None), r, holds);
        SetNull(lists[1 + m], 1 + m);
        assert s.queues == old(s).queues && s.lost == old(s).lost;
      }
    }

    /** A list head is NULL exactly when its queue is empty. */
    lemma FirstOf(k: nat)
      requires Rep() && k < |lists|
      ensures |lists| == |s.queues| && (lists[k].first == null <==> s.queues[k] == [])
      ensures s.queues[k] != [] ==> s.queues[k][0] < |threads|
    {
      HeadAt(next, first, s.queues, s.lost, k);
    }

    /** Clearing the head of a list loses the threads that are still on it. */
    method SetNull(list: ListHead, ghost k: nat)
      requires Rep() && k < |lists| && lists[k] == list && |s.queues| == |lists|
      modifies `first, `s, list
      ensures Rep() && |old(s).queues| > k
      ensures s == old(s).(queues := old(s).queues[k := []], lost := old(s).lost + multiset(old(s).queues[k]))
    {
      hide Chains, Records, Locks;
      DropChains(next, first, s.queues, s.lost, k);
      SetFirst(list, null, k, None);
      SetLost(s.queues[k := []], s.lost + multiset(s.queues[k]));
    }

    ghost method SetLost(qs: seq<seq<nat>>, lost: multiset<nat>)
      requires Rest() && |qs| == |s.queues|
      modifies this`s
      ensures Rest() && s == old(s).(queues := qs, lost := lost)
    {
      s := s.(queues := qs, lost := lost);
    }

    /** `green_cond_signal` of condition `c`. */
    method CondSignal(c: nat)
      requires Valid() && Legal(s, GreenModel.Signal(c))
      modifies this, threads, lists
      ensures old(Inv(s)) ==> Inv(s)
      ensures Valid() && s == Step(old(s), GreenModel.Signal(c)) && threads == old(threads)
      ensures running == old(running)
    {
      hide Inv, Conserved, Chains, Unqueued, Distinct, Pointers, Records;
      var k := 1 + |mutexes| + c;
      Sizes();
      FirstOf(k);
      if lists[k].first != null {
        ghost var x := s.queues[k][0];
        var thread := Dequeue(lists[k], k);
        Enqueue(lists[0], thread, 0, x);
      }
      WrittenKeeps(old(s), GreenModel.Signal(c));
    }

    /**
     `green_cond_wait` as written, on condition `c` and, unless the argument is NULL, a mutex, up to
     its first suspension. With nobody waiting for the mutex this is the intended step.
     */
    method CondWait(c: nat, om: Option<nat>)
      requires Valid() && Legal(s, Wait(c, om))
      modifies this, threads, lists, mutexes
      ensures Legal(old(s), Wait(c, om))
      ensures old(Inv(s)) && Uncontended(old(s), Wait(c, om)) ==> Inv(s) && s == Step(old(s), Wait(c, om))
      ensures Valid() && s == StepWritten(old(s), Wait(c, om)) && threads == old(threads)
    {
      hide Inv, Conserved, Chains, Unqueued, Distinct, Pointers, Records, StepWritten, Step, Dispatch, ReleaseWritten;
      var k := 1 + |mutexes| + c;
      RunningThread();
      WaitParts(s, c, om);
      ghost var r := s.running.value;
      var susp := running;
      Enqueue(lists[k], susp, k, r);
      SaveContext(susp, AfterCond(om), r);
      if om.Some? {
        GiveUpWritten(om.value, r);
      }
      Switch();
      WrittenKeeps(old(s), Wait(c, om));
    }

    /** Saving the context after the thread has been put on the queue comes to the same. */
    lemma WaitParts(s0: State, c: nat, om: Option<nat>)
      requires Legal(s0, Wait(c, om))
      ensures var r := s0.running.value;
              var s1 := SetAt(GreenModel.Enqueue(s0, CondQueue(s0, c), r), r, AfterCond(om));
              && |s1.threads| == |s0.threads| && |s1.queues| == |s0.queues|
              && StepWritten(s0, Wait(c, om)) ==
                   Dispatch(if om.None? then s1 else ReleaseWritten(s1, r, om.value))
    {
    }

    /** The release inside `green_cond_wait`. */
    method GiveUpWritten(m: nat, ghost r: nat)
      requires Rep() && m < |mutexes| && r < |threads| && |s.queues| == |lists| > |mutexes|
      modifies `s, `next, `first, threads, lists, mutexes
      ensures Rep() && r < |old(s).threads| && m < |old(s).mutexes| && 1 + m < |old(s).queues|
      ensures s == ReleaseWritten(old(s), r, m)
    {
      hide Chains, Unqueued, Distinct, Pointers, Records;
      Sizes();
      FirstOf(1 + m);
      ghost var q := s.queues[1 + m];
      SetTaken(mutexes[m], false, m, Mutex(false, None), r, s.threads[r].holds - {m});
      var susp := Dequeue(lists[1 + m], 1 + m);
      if susp != null {
        Enqueue(lists[0], susp, 0, q[0]);
      }
      SetNull(lists[1 + m], 1 + m);
      assert s.queues == ReleaseWritten(old(s), r, m).queues;
    }

    /**
     What the rest of a library call does once its thread has been resumed, up to user code or to
     another suspension; `target` is the thread that a resumed `green_join` is about.
     */
    method Resume(target: GreenThread?) returns (res: Option<int>)
      requires Valid() && Legal(s, GreenModel.Resume)
      requires running.context.AfterJoin? ==> target == Ref(Some(running.context.target))
      modifies this, threads, lists, mutexes
      ensures old(Inv(s)) ==> Inv(s)
      ensures Valid() && s == Step(old(s), GreenModel.Resume) && threads == old(threads)
      ensures Legal(old(s), GreenModel.Resume) && Delivers(old(s), GreenModel.Resume, s, res)
    {
      hide Inv, Conserved, Rep, Step, JoinEnded, Delivers;
      res := GoOn(target);
      DeliversLast(old(s), GreenModel.Resume, res);
      WrittenKeeps(old(s), GreenModel.Resume);
    }

    /** The body of `Resume`, by where the call goes on. */
    method GoOn(target: GreenThread?) returns (res: Option<int>)
      requires Valid() && Legal(s, GreenModel.Resume)
      requires running.context.AfterJoin? ==> target == Ref(Some(running.context.target))
      modifies this, threads, lists, mutexes
      ensures Legal(old(s), GreenModel.Resume)
      ensures Rep() && s == Step(old(s), GreenModel.Resume) && threads == old(threads)
      ensures running == Ref(s.running) && InRange(s.running)
      ensures if JoinEnded(old(s), GreenModel.Resume).None? then res == None
              else s.joined != [] && s.joined[|s.joined| - 1].result == res
    {
      hide Inv, Conserved, Chains, Unqueued, Distinct, Pointers;
      RunningThread();
      ghost var r := s.running.value;
      res := None;
      match running.context {
        case AfterJoin(t) =>
          res := Collect(target, t, r);
        case AfterCond(om) =>
          if om.Some? {
            Relock(om.value, r);
          } else {
            SaveContext(running, User, r);
          }
        case AfterLock(m) =>
          Locked(m, r);
        case AfterRelock(m) =>
          Locked(m, r);
        case Fresh =>
          SaveContext(running, User, r);
        case AfterYield =>
          SaveContext(running, User, r);
      }
    }

    /** The end of a lock that had to wait: the mutex has been handed over with `taken` set. */
    method Locked(m: nat, ghost r: nat)
      requires Valid() && s.running == Some(r) && r < |s.threads| && m < |s.mutexes|
      modifies this, threads, mutexes
      ensures Rep() && threads == old(threads) && running == Ref(s.running) && InRange(s.running)
      ensures r < |old(s).threads| && s == SetAt(AddHold(old(s), r, m), r, User)
    {
      hide Inv, Conserved, Chains, Unqueued, Distinct, Pointers;
      RunningThread();
      SetTaken(mutexes[m], mutexes[m].taken, m, s.mutexes[m], r, s.threads[r].holds + {m});
      SaveContext(running, User, r);
      assert s.mutexes == old(s).mutexes;
    }

    /** The end of `green_cond_wait`: take the mutex back, or wait for it. */
    method Relock(m: nat, ghost r: nat)
      requires Valid() && s.running == Some(r) && r < |s.threads| && m < |s.mutexes|
      modifies this, threads, lists, mutexes
      ensures Rep() && threads == old(threads) && running == Ref(s.running) && InRange(s.running)
      ensures r < |old(s).threads| && m < |old(s).mutexes| < |old(s).queues|
      ensures s == if old(s).mutexes[m].taken then Dispatch(Park(old(s), 1 + m, AfterRelock(m)))
                   else SetAt(Acquire(old(s), r, m), r, User)
    {
      hide Inv, Conserved, Chains, Unqueued, Distinct, Pointers;
      RunningThread();
      if mutexes[m].taken {
        var susp := running;
        Enqueue(lists[1 + m], susp, 1 + m, r);
        SaveContext(susp, AfterRelock(m), r);
        Switch();
      } else {
        SetTaken(mutexes[m], true, m, Mutex(true, Some(r)), r, s.threads[r].holds + {m});
        SaveContext(running, User, r);
      }
    }

    /** One call, or the rest of one; `all` are the records of all threads, in order of creation. */
    method Call(op: Op, all: seq<GreenThread>) returns (all': seq<GreenThread>)
      requires Valid() && Legal(s, op) && all == threads
      modifies this, threads, lists, mutexes
      ensures Valid() && s == StepWritten(old(s), op) && threads == all'
      ensures all <= all' && forall t :: |all| <= t < |all'| ==> fresh(all'[t])
    {
      hide Inv, Conserved, Rep, Legal, Step, WaitStep;
      all' := all;
      match op {
        case Create =>
          var thread := new GreenThread();
          Create(thread);
          all' := all + [thread];
        case Yield =>
          Yield();
        case Join(t) =>
          Target(t);
          var res := Join(all[t], t);
        case Terminate(v) =>
          Terminate(v);
        case Lock(m) =>
          Lock(m);
        case Unlock(m) =>
          Unlock(m);
        case Wait(c, om) =>
          CondWait(c, om);
        case Signal(c) =>
          CondSignal(c);
        case Resume =>
          Current();
          var p := running.context;
          var target: GreenThread? := if p.AfterJoin? && p.target < |all| then all[p.target] else null;
          var res := Resume(target);
      }
    }

    lemma Target(t: nat)
      requires Valid() && Legal(s, GreenModel.Join(t))
      ensures t < |threads|
    {
    }

    lemma Current()
      requires Valid() && Legal(s, GreenModel.Resume)
      ensures running != null
    {
    }
  }

  /** Any legal sequence of calls, made on linked records, ends in the state that `ExecWritten` computes. */
  method Execute(mutexes: nat, conds: nat, ops: seq<Op>) returns (scheduler: Scheduler)
    requires LegalWritten(Init(mutexes, conds), ops)
    ensures fresh(scheduler) && scheduler.Valid() && scheduler.s == ExecWritten(Init(mutexes, conds), ops)
  {
    hide Scheduler.Rep, Conserved, Legal, StepWritten;
    var main := new GreenThread();
    var lists := NewLists(1 + mutexes + conds);
    var locks := NewMutexes(mutexes);
    scheduler := new Scheduler(main, lists, locks);
    var all := [main];
    var i := 0;
    assert ops[..0] == [];
    while i < |ops|
      invariant i <= |ops| && fresh(scheduler) && scheduler.lists == lists && scheduler.mutexes == locks
      invariant forall k :: 0 <= k < |all| ==> fresh(all[k])
      invariant forall k :: 0 <= k < |lists| ==> fresh(lists[k])
      invariant forall m :: 0 <= m < |locks| ==> fresh(locks[m])
      invariant scheduler.Valid() && scheduler.threads == all
      invariant LegalWritten(Init(mutexes, conds), ops[..i])
      invariant scheduler.s == ExecWritten(Init(mutexes, conds), ops[..i])
    {
      WrittenPrefix(Init(mutexes, conds), ops, i);
      all := scheduler.Call(ops[i], all);
      i := i + 1;
    }
    assert ops[..i] == ops;
  }

  method NewLists(n: nat) returns (lists: seq<ListHead>)
    ensures |lists| == n && forall k :: 0 <= k < n ==> fresh(lists[k]) && lists[k].first == null
    ensures forall i, j :: 0 <= i < j < n ==> lists[i] != lists[j]
  {
    lists := [];
    while |lists| < n
      invariant |lists| <= n && forall k :: 0 <= k < |lists| ==> fresh(lists[k]) && lists[k].first == null
      invariant forall i, j :: 0 <= i < j < |lists| ==> lists[i] != lists[j]
    {
      var list := new ListHead();
      lists := lists + [list];
    }
  }

  method NewMutexes(n: nat) returns (mutexes: seq<GreenMutex>)
    ensures |mutexes| == n && forall m :: 0 <= m < n ==> fresh(mutexes[m]) && !mutexes[m].taken
    ensures forall i, j :: 0 <= i < j < n ==> mutexes[i] != mutexes[j]
  {
    mutexes := [];
    while |mutexes| < n
      invariant |mutexes| <= n && forall m :: 0 <= m < |mutexes| ==> fresh(mutexes[m]) && !mutexes[m].taken
      invariant forall i, j :: 0 <= i < j < |mutexes| ==> mutexes[i] != mutexes[j]
    {
      var mutex := new GreenMutex();
      mutexes := mutexes + [mutex];
    }
  }
}
