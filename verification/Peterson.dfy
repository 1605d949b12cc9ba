/**
 locks-assignment/peterson.c: two threads that add to a counter under Peterson's lock.
 Each read and each write of a shared variable is a step of its own, and the steps of
 the two threads interleave in any order (sequential consistency is assumed).
 */
module Peterson {
  /** The next access of a thread to a shared variable; `Test` is the loop test of `increment`. */
  datatype Pc =
    | Test
    | SetRequest
    | SetTurn
    | ReadRequest
    | ReadTurn
    | Load
    | Store
    | Clear
    | Done

  datatype Thread = Thread(pc: Pc, i: nat, reg: int)

  /** Thread 0 and thread 1; `turn` names a thread. */
  type Id = x: nat | x < 2

  datatype Sys = Sys(threads: seq<Thread>, request: seq<bool>, turn: Id, count: int)

  function Other(id: Id): Id { 1 - id }

  function Start(): Sys {
    Sys([Thread(Test, 0, 0), Thread(Test, 0, 0)], [false, false], 0, 0)
  }

  predicate Shape(s: Sys) {
    |s.threads| == 2 && |s.request| == 2
  }

  function Set(s: Sys, id: Id, t: Thread): (s': Sys)
    requires Shape(s)
    ensures Shape(s')
  {
    s.(threads := s.threads[id := t])
  }

  /** One step of thread `id`. */
  function Step(s: Sys, id: Id, inc: int): (s': Sys)
    requires Shape(s)
    ensures Shape(s')
  {
    var t := s.threads[id];
    match t.pc
    case Test => Set(s, id, t.(pc := if t.i < inc then SetRequest else Done))
    case SetRequest => Set(s.(request := s.request[id := true]), id, t.(pc := SetTurn))
    case SetTurn => Set(s.(turn := Other(id)), id, t.(pc := ReadRequest))
    case ReadRequest => Set(s, id, t.(pc := if s.request[Other(id)] then ReadTurn else Load))
    case ReadTurn => Set(s, id, t.(pc := if s.turn == Other(id) then ReadRequest else Load))
    case Load => Set(s, id, t.(pc := Store, reg := s.count))
    case Store => Set(s.(count := t.reg + 1), id, t.(pc := Clear))
    case Clear => Set(s.(request := s.request[id := false]), id, t.(pc := Test, i := t.i + 1))
    case Done => s
  }

  /** The state after the threads have taken the steps that `schedule` says. */
  function Run(s: Sys, schedule: seq<Id>, inc: int): (s': Sys)
    requires Shape(s)
    ensures Shape(s')
  {
    if schedule == [] then s
    else Step(Run(s, schedule[..|schedule| - 1], inc), schedule[|schedule| - 1], inc)
  }

  // ---------------------------------------------------------------- mutual exclusion

  /** Between `lock` and `unlock`. */
  predicate Inside(pc: Pc) { pc == Load || pc == Store || pc == Clear }

  predicate Spinning(pc: Pc) { pc == ReadRequest || pc == ReadTurn }

  /** What a thread has added to `count` so far. */
  function Added(t: Thread): nat { t.i + if t.pc == Clear then 1 else 0 }

  predicate ThreadOk(s: Sys, id: Id, inc: int)
    requires Shape(s)
  {
    var t, u := s.threads[id], s.threads[Other(id)];
    && (s.request[id] <==> t.pc == SetTurn || Spinning(t.pc) || Inside(t.pc))
    // A thread inside has its turn if the other is past its own `turn = other`.
    && (Inside(t.pc) && (Spinning(u.pc) || Inside(u.pc)) ==> s.turn == id)
    && (t.pc == Store ==> t.reg == s.count)
    && (t.pc == Done ==> t.i >= inc)
    && (t.pc != Test && t.pc != Done ==> t.i < inc)
    && (t.i == 0 || t.i <= inc)
  }

  predicate Inv(s: Sys, inc: int) {
    && Shape(s) && ThreadOk(s, 0, inc) && ThreadOk(s, 1, inc)
    && s.count == Added(s.threads[0]) + Added(s.threads[1])
  }

  lemma StepKeeps(s: Sys, id: Id, inc: int)
    requires Inv(s, inc)
    ensures Inv(Step(s, id, inc), inc)
  {
    var s', u := Step(s, id, inc), Other(id);
    assert Other(u) == id && ThreadOk(s, id, inc) && ThreadOk(s, u, inc);
    MoverOk(s, id, inc);
    OtherOk(s, id, inc);
    CountOk(s, id, inc);
    assert ThreadOk(s', id, inc) && ThreadOk(s', u, inc);
  }

  lemma MoverOk(s: Sys, id: Id, inc: int)
    requires Shape(s) && ThreadOk(s, id, inc) && ThreadOk(s, Other(id), inc)
    ensures ThreadOk(Step(s, id, inc), id, inc)
  {
  }

  /** A step does not disturb the other thread: a store to `count` finds it outside. */
  lemma OtherOk(s: Sys, id: Id, inc: int)
    requires Shape(s) && ThreadOk(s, id, inc) && ThreadOk(s, Other(id), inc)
    ensures ThreadOk(Step(s, id, inc), Other(id), inc)
  {
  }

  lemma CountOk(s: Sys, id: Id, inc: int)
    requires Shape(s) && ThreadOk(s, id, inc)
    requires s.count == Added(s.threads[0]) + Added(s.threads[1])
    ensures var s' := Step(s, id, inc); s'.count == Added(s'.threads[0]) + Added(s'.threads[1])
  {
  }

  lemma {:induction false} RunKeeps(s: Sys, schedule: seq<Id>, inc: int)
    requires Inv(s, inc)
    ensures Inv(Run(s, schedule, inc), inc)
  {
    if schedule != [] {
      RunKeeps(s, schedule[..|schedule| - 1], inc);
      StepKeeps(Run(s, schedule[..|schedule| - 1], inc), schedule[|schedule| - 1], inc);
    }
  }

  /** Under every interleaving at most one thread is between `lock` and `unlock`. */
  lemma MutualExclusion(schedule: seq<Id>, inc: int)
    ensures var s := Run(Start(), schedule, inc);
            !(Inside(s.threads[0].pc) && Inside(s.threads[1].pc))
  {
    RunKeeps(Start(), schedule, inc);
  }

  /** When both threads are done no increment has been lost. */
  lemma FinalCount(schedule: seq<Id>, inc: int)
    requires var s := Run(Start(), schedule, inc); s.threads[0].pc == Done && s.threads[1].pc == Done
    ensures Run(Start(), schedule, inc).count == if inc > 0 then 2 * inc else 0
  {
    RunKeeps(Start(), schedule, inc);
  }

  // ---------------------------------------------------------------- bounded bypass

  predicate Enters(s: Sys, id: Id, inc: int)
    requires Shape(s)
  {
    !Inside(s.threads[id].pc) && Inside(Step(s, id, inc).threads[id].pc)
  }

  /** How often thread `id` enters in the course of a schedule. */
  function Entries(s: Sys, schedule: seq<Id>, inc: int, id: Id): nat
    requires Shape(s)
  {
    if schedule == [] then 0
    else
      var before, last := schedule[..|schedule| - 1], schedule[|schedule| - 1];
      Entries(s, before, inc, id) + if last == id && Enters(Run(s, before, inc), id, inc) then 1 else 0
  }

  /** Thread `id` has executed `turn = other` and has not entered since. */
  ghost predicate WaitsThroughout(s: Sys, schedule: seq<Id>, inc: int, id: Id)
    requires Shape(s)
  {
    forall k :: 0 <= k <= |schedule| ==> Spinning(Run(s, schedule[..k], inc).threads[id].pc)
  }

  /**
   How often the other thread can still enter while thread `id` waits: once if it is the
   other's turn and it is at the spin loop.
   */
  function Bypasses(s: Sys, id: Id): nat
    requires Shape(s)
  {
    if s.turn == Other(id) && Spinning(s.threads[Other(id)].pc) then 1 else 0
  }

  lemma StepBypass(s: Sys, step: Id, inc: int, id: Id)
    requires Inv(s, inc) && Spinning(s.threads[id].pc) && Spinning(Step(s, step, inc).threads[id].pc)
    ensures Bypasses(Step(s, step, inc), id) +
              (if step == Other(id) && Enters(s, Other(id), inc) then 1 else 0) <= Bypasses(s, id)
  {
  }

  lemma {:induction false} BypassBound(s: Sys, schedule: seq<Id>, inc: int, id: Id)
    requires Inv(s, inc) && WaitsThroughout(s, schedule, inc, id)
    ensures Entries(s, schedule, inc, Other(id)) + Bypasses(Run(s, schedule, inc), id) <= Bypasses(s, id)
  {
    if schedule != [] {
      var before := schedule[..|schedule| - 1];
      WaitsBefore(s, schedule, inc, id);
      BypassBound(s, before, inc, id);
      RunKeeps(s, before, inc);
      StepBypass(Run(s, before, inc), schedule[|schedule| - 1], inc, id);
    }
  }

  /** Once a thread has executed `turn = other`, the other enters at most once before it does. */
  lemma BoundedBypass(prefix: seq<Id>, schedule: seq<Id>, inc: int, id: Id)
    requires WaitsThroughout(Run(Start(), prefix, inc), schedule, inc, id)
    ensures Entries(Run(Start(), prefix, inc), schedule, inc, Other(id)) <= 1
  {
    RunKeeps(Start(), prefix, inc);
    BypassBound(Run(Start(), prefix, inc), schedule, inc, id);
  }

  // ---------------------------------------------------------------- progress

  /** The condition of the spin loop. */
  predicate SpinCondition(s: Sys, id: Id)
    requires Shape(s)
  {
    s.request[Other(id)] && s.turn == Other(id)
  }

  function Steps(schedule: seq<Id>, id: Id): nat {
    if schedule == [] then 0
    else Steps(schedule[..|schedule| - 1], id) + if schedule[|schedule| - 1] == id then 1 else 0
  }

  /** Thread `id` has its turn, and the other cannot take it away. */
  predicate Chosen(s: Sys, id: Id)
    requires Shape(s)
  {
    s.turn == id && Spinning(s.threads[id].pc) && Spinning(s.threads[Other(id)].pc)
  }

  /** Until the thread named by `turn` enters, it stays chosen, and it has taken at most one step. */
  lemma {:induction false} ChosenUntilEntry(s: Sys, schedule: seq<Id>, inc: int)
    requires Inv(s, inc) && Spinning(s.threads[0].pc) && Spinning(s.threads[1].pc)
    ensures var id, s' := s.turn, Run(s, schedule, inc);
            Entries(s, schedule, inc, id) > 0 ||
            (Chosen(s', id) && Steps(schedule, id) <= 1 &&
             s'.threads[id].pc == if Steps(schedule, id) == 0 then s.threads[id].pc else ReadTurn)
    ensures Steps(schedule, s.turn) > 0 && s.threads[s.turn].pc == ReadTurn ==> Entries(s, schedule, inc, s.turn) > 0
  {
    if schedule != [] {
      var before := schedule[..|schedule| - 1];
      ChosenUntilEntry(s, before, inc);
      RunKeeps(s, before, inc);
    }
  }

  /**
   If both threads are in the spin loop, the one named by `turn` has a false spin condition, which
   stays false until it enters; and it enters with its second step at the latest, whatever the other does.
   */
  lemma OneGoesOn(prefix: seq<Id>, schedule: seq<Id>, inc: int)
    requires var s := Run(Start(), prefix, inc); Spinning(s.threads[0].pc) && Spinning(s.threads[1].pc)
    ensures var s := Run(Start(), prefix, inc);
            && (Entries(s, schedule, inc, s.turn) == 0 ==> !SpinCondition(Run(s, schedule, inc), s.turn))
            && (Steps(schedule, s.turn) >= 2 ==> Entries(s, schedule, inc, s.turn) > 0)
  {
    RunKeeps(Start(), prefix, inc);
    ChosenUntilEntry(Run(Start(), prefix, inc), schedule, inc);
  }

  /** How many of its own steps thread `u` is away from having yielded its turn or being done, while the other waits. */
  function Distance(s: Sys, u: Id): nat
    requires Shape(s)
  {
    match s.threads[u].pc
    case Done => 0
    case SetTurn => 1
    case SetRequest => 2
    case Test => 3
    case Clear => 4
    case Store => 5
    case Load => 6
    case ReadTurn => if s.turn == u then 7 else 0
    case ReadRequest => if s.turn == u then 8 else 0
  }

  /** How many more of its own steps thread `id` can take without entering once the other's distance is 0. */
  function Delay(s: Sys, id: Id): nat
    requires Shape(s)
  {
    if s.threads[Other(id)].pc == Done then
      if s.threads[id].pc == ReadTurn && s.turn == Other(id) then 1 else 0
    else
      if s.threads[id].pc == ReadRequest then 1 else 0
  }

  lemma StepDistance(s: Sys, step: Id, inc: int, id: Id)
    requires Inv(s, inc) && Spinning(s.threads[id].pc) && Spinning(Step(s, step, inc).threads[id].pc)
    ensures var d, d' := Distance(s, Other(id)), Distance(Step(s, step, inc), Other(id));
            d' <= (if step == Other(id) && d > 0 then d - 1 else d)
    ensures Distance(s, Other(id)) == 0 ==>
              Delay(Step(s, step, inc), id) + (if step == id then 1 else 0) <= Delay(s, id)
  {
  }

  lemma WaitsBefore(s: Sys, schedule: seq<Id>, inc: int, id: Id)
    requires Shape(s) && schedule != [] && WaitsThroughout(s, schedule, inc, id)
    ensures WaitsThroughout(s, schedule[..|schedule| - 1], inc, id)
    ensures Spinning(Run(s, schedule[..|schedule| - 1], inc).threads[id].pc)
    ensures Spinning(Run(s, schedule, inc).threads[id].pc)
  {
    hide Step, Run;
    var before := schedule[..|schedule| - 1];
    assert before[..|before|] == before;
    forall k | 0 <= k <= |before| ensures Spinning(Run(s, before[..k], inc).threads[id].pc) {
      assert before[..k] == schedule[..k];
    }
    assert schedule[..|schedule|] == schedule;
  }

  lemma {:induction false} DistanceFalls(s: Sys, schedule: seq<Id>, inc: int, id: Id)
    requires Inv(s, inc) && WaitsThroughout(s, schedule, inc, id)
    ensures var d, n := Distance(s, Other(id)), Steps(schedule, Other(id));
            Distance(Run(s, schedule, inc), Other(id)) <= if d > n then d - n else 0
  {
    if schedule != [] {
      var before := schedule[..|schedule| - 1];
      WaitsBefore(s, schedule, inc, id);
      DistanceFalls(s, before, inc, id);
      RunKeeps(s, before, inc);
      StepDistance(Run(s, before, inc), schedule[|schedule| - 1], inc, id);
    }
  }

  lemma {:induction false} DelayBounds(s: Sys, schedule: seq<Id>, inc: int, id: Id)
    requires Inv(s, inc) && WaitsThroughout(s, schedule, inc, id) && Distance(s, Other(id)) == 0
    ensures Distance(Run(s, schedule, inc), Other(id)) == 0
    ensures Delay(Run(s, schedule, inc), id) + Steps(schedule, id) <= Delay(s, id)
  {
    if schedule != [] {
      var before := schedule[..|schedule| - 1];
      WaitsBefore(s, schedule, inc, id);
      DelayBounds(s, before, inc, id);
      RunKeeps(s, before, inc);
      StepDistance(Run(s, before, inc), schedule[|schedule| - 1], inc, id);
    }
  }

  lemma {:induction false} RunConcat(s: Sys, a: seq<Id>, b: seq<Id>, inc: int)
    requires Shape(s)
    ensures Run(s, a + b, inc) == Run(Run(s, a, inc), b, inc)
  {
    if b == [] {
      assert a + b == a;
    } else {
      assert (a + b)[..|a + b| - 1] == a + b[..|b| - 1];
      RunConcat(s, a, b[..|b| - 1], inc);
    }
  }

  /** No lockout: a waiting thread has entered once the other has taken 8 steps and then it 2, in any interleaving. */
  lemma NoLockout(prefix: seq<Id>, a: seq<Id>, b: seq<Id>, inc: int, id: Id)
    requires Steps(a, Other(id)) >= 8 && Steps(b, id) >= 2
    ensures !WaitsThroughout(Run(Start(), prefix, inc), a + b, inc, id)
  {
    var s := Run(Start(), prefix, inc);
    RunKeeps(Start(), prefix, inc);
    if WaitsThroughout(s, a + b, inc, id) {
      forall k | 0 <= k <= |a| ensures Spinning(Run(s, a[..k], inc).threads[id].pc) {
        assert (a + b)[..k] == a[..k];
      }
      var s1 := Run(s, a, inc);
      forall k | 0 <= k <= |b| ensures Spinning(Run(s1, b[..k], inc).threads[id].pc) {
        assert (a + b)[..|a| + k] == a + b[..k];
        RunConcat(s, a, b[..k], inc);
      }
      RunKeeps(s, a, inc);
      DistanceFalls(s, a, inc, id);
      DelayBounds(s1, b, inc, id);
      assert false;
    }
  }

  // ---------------------------------------------------------------- entry without contention

  function Repeated(id: Id, n: nat): (schedule: seq<Id>)
    ensures |schedule| == n && forall k :: 0 <= k < n ==> schedule[k] == id
  {
    seq(n, _ => id)
  }

  /** How many steps of its own take a thread into `lock` and through it when the other does not want it. */
  function StepsToEntry(s: Sys, id: Id): nat
    requires Shape(s)
  {
    match s.threads[id].pc
    case Test => 4
    case SetRequest => 3
    case SetTurn => 2
    case ReadRequest => 1
    case ReadTurn => if s.turn == Other(id) then 2 else 1
    case _ => 0
  }

  /** A thread with work left that runs alone, while the other is not in `lock` or between the two calls, gets in. */
  lemma EntersAlone(prefix: seq<Id>, inc: int, id: Id)
    requires var s := Run(Start(), prefix, inc);
             && (s.threads[Other(id)].pc == Test || s.threads[Other(id)].pc == Done)
             && s.threads[id].pc != Done && (s.threads[id].pc == Test ==> s.threads[id].i < inc)
    ensures var s := Run(Start(), prefix, inc);
            Inside(Run(s, Repeated(id, StepsToEntry(s, id)), inc).threads[id].pc)
  {
    RunKeeps(Start(), prefix, inc);
    SoloEntry(Run(Start(), prefix, inc), inc, id);
  }

  lemma {:induction false} SoloEntry(s: Sys, inc: int, id: Id)
    requires Inv(s, inc) && (s.threads[Other(id)].pc == Test || s.threads[Other(id)].pc == Done)
    requires s.threads[id].pc != Done && (s.threads[id].pc == Test ==> s.threads[id].i < inc)
    ensures Inside(Run(s, Repeated(id, StepsToEntry(s, id)), inc).threads[id].pc)
    decreases StepsToEntry(s, id)
  {
    var n := StepsToEntry(s, id);
    if n > 0 {
      StepKeeps(s, id, inc);
      SoloStep(s, inc, id);
      SoloEntry(Step(s, id, inc), inc, id);
      assert [id] + Repeated(id, n - 1) == Repeated(id, n);
      RunConcat(s, [id], Repeated(id, n - 1), inc);
      assert Run(s, [id], inc) == Step(s, id, inc) by { assert [id][..0] == []; }
    }
  }

  lemma SoloStep(s: Sys, inc: int, id: Id)
    requires Inv(s, inc) && (s.threads[Other(id)].pc == Test || s.threads[Other(id)].pc == Done)
    requires s.threads[id].pc != Done && (s.threads[id].pc == Test ==> s.threads[id].i < inc)
    requires StepsToEntry(s, id) > 0
    ensures var s' := Step(s, id, inc);
            && s'.threads[Other(id)] == s.threads[Other(id)] && s'.threads[id].pc != Done && s'.threads[id].pc != Test
            && StepsToEntry(s', id) == StepsToEntry(s, id) - 1
  {
  }

  // ---------------------------------------------------------------- termination

  /** The steps a thread has ahead of it, not counting those it spends spinning. */
  function Ahead(t: Thread, inc: int): nat {
    var rounds := if inc > t.i then inc - t.i else 0;
    match t.pc
    case Done => 0
    case Test => 7 * rounds + 1
    case SetRequest => 7 * rounds
    case SetTurn => if rounds > 0 then 7 * rounds - 1 else 0
    case ReadRequest => if rounds > 0 then 7 * rounds - 2 else 0
    case ReadTurn => if rounds > 0 then 7 * rounds - 2 else 0
    case Load => if rounds > 0 then 7 * rounds - 3 else 0
    case Store => if rounds > 0 then 7 * rounds - 4 else 0
    case Clear => if rounds > 0 then 7 * rounds - 5 else 0
  }

  function Work(s: Sys, inc: int): nat
    requires Shape(s)
  {
    Ahead(s.threads[0], inc) + Ahead(s.threads[1], inc)
  }

  /** A thread that goes on when it is given steps: one that is not spinning, or the one that is not held up. */
  function Goer(s: Sys): Id
    requires Shape(s)
  {
    var p, q := s.threads[0].pc, s.threads[1].pc;
    if p != Done && !Spinning(p) then 0
    else if q != Done && !Spinning(q) then 1
    else if p == Done then 1
    else if q == Done then 0
    else s.turn
  }

  /** How many steps it may spend spinning before it does. */
  function Spins(s: Sys): nat
    requires Shape(s)
  {
    var id := Goer(s);
    if s.threads[Other(id)].pc == Done then
      if s.threads[id].pc == ReadTurn && s.turn == Other(id) then 1 else 0
    else if Spinning(s.threads[Other(id)].pc) && s.threads[id].pc == ReadRequest then 1
    else 0
  }

  /** A step brings the work down by one, or it is a step of the spin loop or of a thread that is done. */
  lemma StepWork(s: Sys, step: Id, inc: int)
    requires Inv(s, inc)
    ensures var s' := Step(s, step, inc);
            && (Work(s', inc) == Work(s, inc) || Work(s', inc) + 1 == Work(s, inc))
            && (Work(s', inc) == Work(s, inc) > 0 ==>
                  Goer(s') == Goer(s) && Spins(s') + (if step == Goer(s) then 1 else 0) <= Spins(s))
  {
    hide Step, Ahead, Goer, Spins, Inv;
    assert Shape(s) by { InvShape(s, inc); }
    HasWork(s, step, inc);
    StepAhead(s, step, inc);
    if Idle(s, step, inc) && Work(s, inc) > 0 {
      SomeWork(s, inc);
      IdleStep(s, step, inc);
    }
  }

  lemma HasWork(s: Sys, id: Id, inc: int)
    requires Inv(s, inc)
    ensures var t := s.threads[id]; t.pc != Test && t.pc != Done ==> t.i < inc
  {
    assert ThreadOk(s, id, inc);
  }

  lemma InvShape(s: Sys, inc: int)
    requires Inv(s, inc)
    ensures Shape(s)
  {
  }

  /** A step of a thread that is done, or that stays in the spin loop. */
  predicate Idle(s: Sys, step: Id, inc: int)
    requires Shape(s)
  {
    s.threads[step].pc == Done ||
    (Spinning(s.threads[step].pc) && Spinning(Step(s, step, inc).threads[step].pc))
  }

  lemma StepAhead(s: Sys, step: Id, inc: int)
    requires Shape(s) && var t := s.threads[step]; t.pc != Test && t.pc != Done ==> t.i < inc
    ensures var s' := Step(s, step, inc);
            && s'.threads[Other(step)] == s.threads[Other(step)]
            && Ahead(s.threads[step], inc) == Ahead(s'.threads[step], inc) + if Idle(s, step, inc) then 0 else 1
  {
  }

  lemma SomeWork(s: Sys, inc: int)
    requires Shape(s) && Work(s, inc) > 0
    ensures s.threads[0].pc != Done || s.threads[1].pc != Done
  {
  }

  lemma IdleStep(s: Sys, step: Id, inc: int)
    requires Inv(s, inc) && Idle(s, step, inc) && (s.threads[0].pc != Done || s.threads[1].pc != Done)
    ensures var s' := Step(s, step, inc);
            Goer(s') == Goer(s) && Spins(s') + (if step == Goer(s) then 1 else 0) <= Spins(s)
  {
  }

  /** How many rounds a schedule holds, each with two steps of either thread, and the steps since the last one. */
  datatype Progress = Progress(rounds: nat, zero: nat, one: nat)

  function Rounds(schedule: seq<Id>): (p: Progress)
    ensures p.zero < 2 || p.one < 2
  {
    if schedule == [] then Progress(0, 0, 0)
    else
      var p, id := Rounds(schedule[..|schedule| - 1]), schedule[|schedule| - 1];
      var zero, one := p.zero + (if id == 0 then 1 else 0), p.one + (if id == 1 then 1 else 0);
      if zero >= 2 && one >= 2 then Progress(p.rounds + 1, 0, 0) else Progress(p.rounds, zero, one)
  }

  function Since(p: Progress, id: Id): nat { if id == 0 then p.zero else p.one }

  lemma {:induction false} WorkFalls(s: Sys, schedule: seq<Id>, inc: int)
    requires Inv(s, inc)
    ensures var p, s' := Rounds(schedule), Run(s, schedule, inc);
            && Work(s', inc) <= Work(s, inc)
            && (Work(s', inc) > 0 ==> p.rounds + Work(s', inc) <= Work(s, inc))
            && (Work(s', inc) > 0 && p.rounds + Work(s', inc) == Work(s, inc) ==>
                  Since(p, Goer(s')) + Spins(s') <= 1)
  {
    hide Step, Inv, Ahead, Goer, Spins;
    InvShape(s, inc);
    SpinsBound(s);
    if schedule != [] {
      var before := schedule[..|schedule| - 1];
      SpinsBound(Run(s, schedule, inc));
      WorkFalls(s, before, inc);
      RunKeeps(s, before, inc);
      StepWork(Run(s, before, inc), schedule[|schedule| - 1], inc);
    }
  }

  lemma SpinsBound(s: Sys)
    requires Shape(s)
    ensures Spins(s) <= 1
  {
  }

  lemma NoWork(s: Sys, inc: int)
    requires Inv(s, inc) && Work(s, inc) == 0
    ensures s.threads[0].pc == Done && s.threads[1].pc == Done
  {
  }

  /** The steps the two threads need, not counting those they spend spinning. */
  function Needed(inc: int): nat { if inc > 0 then 14 * inc + 2 else 2 }

  /** Whatever the interleaving, both threads are done once each has had two steps so many times over. */
  lemma Terminates(schedule: seq<Id>, inc: int)
    requires Rounds(schedule).rounds >= Needed(inc)
    ensures var s := Run(Start(), schedule, inc); s.threads[0].pc == Done && s.threads[1].pc == Done
  {
    RunKeeps(Start(), schedule, inc);
    WorkFalls(Start(), schedule, inc);
    NoWork(Run(Start(), schedule, inc), inc);
  }

  /** The threads take turns step by step, two steps each, so many times. */
  function Alternating(times: nat): (schedule: seq<Id>)
    ensures |schedule| == 4 * times
  {
    if times == 0 then [] else Alternating(times - 1) + [0, 1, 0, 1]
  }

  lemma {:induction false} AlternatingRounds(times: nat)
    ensures Rounds(Alternating(times)) == Progress(times, 0, 0)
  {
    if times > 0 {
      AlternatingRounds(times - 1);
      RoundMade(Alternating(times - 1));
    }
  }

  lemma RoundMade(schedule: seq<Id>)
    requires Rounds(schedule).zero == Rounds(schedule).one == 0
    ensures Rounds(schedule + [0, 1, 0, 1]) == Progress(Rounds(schedule).rounds + 1, 0, 0)
  {
    var s1, s2, s3 := schedule + [0], schedule + [0, 1], schedule + [0, 1, 0];
    assert s1[..|s1| - 1] == schedule && s2[..|s2| - 1] == s1 && s3[..|s3| - 1] == s2;
    assert (schedule + [0, 1, 0, 1])[..|s3|] == s3;
    assert Rounds(s1) == Progress(Rounds(schedule).rounds, 1, 0);
    assert Rounds(s2) == Progress(Rounds(schedule).rounds, 1, 1);
    assert Rounds(s3) == Progress(Rounds(schedule).rounds, 2, 1);
  }

  /** Taking turns step by step, the threads are done after 56 inc + 8 steps. */
  lemma AlternatingTerminates(times: nat, inc: int)
    requires times >= Needed(inc)
    ensures var s := Run(Start(), Alternating(times), inc); s.threads[0].pc == Done && s.threads[1].pc == Done
  {
    AlternatingRounds(times);
    Terminates(Alternating(times), inc);
  }

  // ---------------------------------------------------------------- the program

  /** `main` and both threads, run under a given schedule: the shared variables are updated in place. */
  class Machine {
    const request: array<bool>
    var turn: Id
    var count: int
    var one: Thread
    var two: Thread

    ghost predicate Valid()
      reads this, request
    {
      request.Length == 2
    }

    ghost function State(): Sys
      requires Valid()
      reads this, request
    {
      Sys([one, two], request[..], turn, count)
    }

    constructor ()
      ensures Valid() && fresh(request) && State() == Start()
    {
      request := new bool[2](i => false);
      turn, count := 0, 0;
      one, two := Thread(Test, 0, 0), Thread(Test, 0, 0);
    }

    /** The next shared access of thread `id`. */
    method Tick(id: Id, inc: int)
      requires Valid()
      modifies this, request
      ensures Valid() && State() == Step(old(State()), id, inc)
    {
      var t := if id == 0 then one else two;
      match t.pc {
        case Test => t := t.(pc := if t.i < inc then SetRequest else Done);
        case SetRequest => request[id] := true; t := t.(pc := SetTurn);
        case SetTurn => turn := Other(id); t := t.(pc := ReadRequest);
        case ReadRequest => t := t.(pc := if request[Other(id)] then ReadTurn else Load);
        case ReadTurn => t := t.(pc := if turn == Other(id) then ReadRequest else Load);
        case Load => t := t.(pc := Store, reg := count);
        case Store => count := t.reg + 1; t := t.(pc := Clear);
        case Clear => request[id] := false; t := t.(pc := Test, i := t.i + 1);
        case Done =>
      }
      if id == 0 { one := t; } else { two := t; }
    }
  }

  /** A run of the program: if both threads get done, `result` is what `main` prints. */
  method RunProgram(schedule: seq<Id>, inc: int) returns (result: int, done: bool)
    ensures var s := Run(Start(), schedule, inc);
            result == s.count && (done <==> s.threads[0].pc == Done && s.threads[1].pc == Done)
    ensures done ==> result == if inc > 0 then 2 * inc else 0
    ensures Rounds(schedule).rounds >= Needed(inc) ==> done
  {
    var m := new Machine();
    var k := 0;
    while k < |schedule|
      invariant k <= |schedule| && fresh(m) && fresh(m.request) && m.Valid()
      invariant m.State() == Run(Start(), schedule[..k], inc)
    {
      m.Tick(schedule[k], inc);
      k := k + 1;
      assert schedule[..k][..k - 1] == schedule[..k - 1];
    }
    assert schedule[..k] == schedule;
    result, done := m.count, m.one.pc == Done && m.two.pc == Done;
    if done { FinalCount(schedule, inc); }
    if Rounds(schedule).rounds >= Needed(inc) { Terminates(schedule, inc); }
  }
}
