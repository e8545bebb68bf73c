/** The thread pool of threadpool/threadpool.c before it is shut down: any number
    of workers and of callers that add tasks, sharing a queue, a mutex and a
    condition variable. */
module ThreadPool {

  // ---------- the task queue ----------

  class TaskRunner {
    const task: nat
    var next: TaskRunner?

    constructor (task: nat)
      ensures this.task == task && next == null
    {
      this.task, next := task, null;
    }
  }

  ghost function NextOf(rs: seq<TaskRunner>, i: nat): TaskRunner? {
    if i + 1 < |rs| then rs[i + 1] else null
  }

  /** Different runners, each pointing at the next. */
  ghost predicate LinkedTasks(rs: seq<TaskRunner>)
    reads rs
  {
    && (forall i, j :: 0 <= i < j < |rs| ==> rs[i] != rs[j])
    && (forall i :: 0 <= i < |rs| ==> rs[i].next == NextOf(rs, i))
  }

  lemma LinkedTail(rs: seq<TaskRunner>)
    requires LinkedTasks(rs) && rs != []
    ensures rs[0].next == if |rs| > 1 then rs[1] else null
    ensures LinkedTasks(rs[1..])
  {
    forall i | 0 <= i < |rs| - 1
      ensures rs[1..][i].next == NextOf(rs[1..], i)
    {
      assert rs[1..][i] == rs[i + 1];
    }
  }

  ghost function TasksOf(rs: seq<TaskRunner>): (ts: seq<nat>)
    ensures |ts| == |rs| && forall i :: 0 <= i < |rs| ==> ts[i] == rs[i].task
  {
    seq(|rs|, i requires 0 <= i < |rs| => rs[i].task)
  }

  /** tsk_head and tsk_tail. */
  class TaskQueue {
    var head: TaskRunner?
    var tail: TaskRunner?
    ghost var runners: seq<TaskRunner>

    ghost predicate Valid()
      reads this, runners
    {
      && head == (if runners == [] then null else runners[0])
      && tail == (if runners == [] then null else runners[|runners| - 1])
      && LinkedTasks(runners)
    }

    constructor ()
      ensures Valid() && runners == []
    {
      head, tail, runners := null, null, [];
    }

    /** What thread_pool_add_tsk does under the mutex. */
    method Add(t: TaskRunner)
      requires Valid() && t !in runners && t.next == null
      modifies this, runners
      ensures Valid() && runners == old(runners) + [t]
      ensures TasksOf(runners) == TasksOf(old(runners)) + [t.task]
    {
      assert runners != [] ==> runners[|runners| - 1] in runners;
      if head == null {
        head := t;
        tail := t;
      } else {
        tail.next := t;
        tail := t;
      }
      ghost var before := runners;
      runners := before + [t];
      assert forall i :: 0 <= i < |before| - 1 ==> NextOf(runners, i) == NextOf(before, i);
    }

    /** What thread_run does under the mutex once the queue is not empty. */
    method Take() returns (t: TaskRunner)
      requires Valid() && head != null
      modifies this
      ensures Valid() && old(runners) == [t] + runners
      ensures TasksOf(old(runners)) == [t.task] + TasksOf(runners)
    {
      hide LinkedTasks;
      LinkedTail(runners);
      t := head;
      head := t.next;
      if head == null {
        tail := null;
      }
      runners := runners[1..];
    }
  }

  // ---------- the threads as steps ----------

  datatype Worker =
    | Ready                // about to lock the mutex
    | Testing              // has the mutex, about to look at the queue
    | Asleep               // in pthread_cond_wait
    | Woken                // signalled, about to get the mutex back
    | Took(task: nat)      // has taken a task and still has the mutex
    | Running(task: nat)

  /** A call of thread_pool_add_tsk; a task is known by the call that adds it. */
  datatype Adder =
    | Asked
    | Inserting            // has the mutex
    | Inserted             // has the mutex, task queued
    | Unlocked             // signal pending
    | Returned

  datatype Holder = Nobody | WorkerHas(w: nat) | AdderHas(a: nat)

  datatype State = State(
    queue: seq<nat>,
    mutex: Holder,
    workers: seq<Worker>,
    adders: seq<Adder>,
    order: seq<nat>,       // all tasks queued so far, in that order
    taken: nat,            // how many tasks workers have taken
    done: set<nat>)        // tasks run to their end

  datatype Step =
    | Call                         // a new thread_pool_add_tsk call
    | AddLock(a: nat)
    | AddInsert(a: nat)
    | AddUnlock(a: nat)
    | AddSignal(a: nat, w: nat)    // wakes w, or nobody when nobody sleeps
    | Lock(w: nat)
    | Test(w: nat)                 // takes a task, or sleeps and lets go of the mutex
    | Unlock(w: nat)
    | Finish(w: nat)
    | Spurious(w: nat)             // pthread_cond_wait may return unasked

  predicate NoSleeper(ws: seq<Worker>) {
    Asleep !in ws
  }

  predicate Enabled(s: State, e: Step) {
    match e
    case Call => true
    case AddLock(a) => a < |s.adders| && s.adders[a].Asked? && s.mutex.Nobody?
    case AddInsert(a) => a < |s.adders| && s.adders[a].Inserting?
    case AddUnlock(a) => a < |s.adders| && s.adders[a].Inserted?
    case AddSignal(a, w) =>
      a < |s.adders| && s.adders[a].Unlocked? && (NoSleeper(s.workers) || (w < |s.workers| && s.workers[w].Asleep?))
    case Lock(w) => w < |s.workers| && (s.workers[w].Ready? || s.workers[w].Woken?) && s.mutex.Nobody?
    case Test(w) => w < |s.workers| && s.workers[w].Testing?
    case Unlock(w) => w < |s.workers| && s.workers[w].Took?
    case Finish(w) => w < |s.workers| && s.workers[w].Running?
    case Spurious(w) => w < |s.workers| && s.workers[w].Asleep?
  }

  function Do(s: State, e: Step): State
    requires Enabled(s, e)
  {
    match e
    case Call => s.(adders := s.adders + [Asked])
    case AddLock(a) => s.(mutex := AdderHas(a), adders := s.adders[a := Inserting])
    case AddInsert(a) => s.(queue := s.queue + [a], order := s.order + [a], adders := s.adders[a := Inserted])
    case AddUnlock(a) => s.(mutex := Nobody, adders := s.adders[a := Unlocked])
    case AddSignal(a, w) =>
      s.(adders := s.adders[a := Returned],
         workers := if NoSleeper(s.workers) then s.workers else s.workers[w := Woken])
    case Lock(w) => s.(mutex := WorkerHas(w), workers := s.workers[w := Testing])
    case Test(w) =>
      if s.queue == [] then s.(mutex := Nobody, workers := s.workers[w := Asleep])
      else s.(queue := s.queue[1..], taken := s.taken + 1, workers := s.workers[w := Took(s.queue[0])])
    case Unlock(w) => s.(mutex := Nobody, workers := s.workers[w := Running(s.workers[w].task)])
    case Finish(w) => s.(done := s.done + {s.workers[w].task}, workers := s.workers[w := Ready])
    case Spurious(w) => s.(workers := s.workers[w := Woken])
  }

  // ---------- sums over threads ----------

  function Total<T>(s: seq<T>, f: T -> nat): nat {
    if s == [] then 0 else f(s[0]) + Total(s[1..], f)
  }

  lemma {:induction false} TotalUpdate<T>(s: seq<T>, i: nat, t: T, f: T -> nat)
    requires i < |s|
    ensures Total(s[i := t], f) + f(s[i]) == Total(s, f) + f(t)
  {
    if i > 0 {
      assert s[i := t][1..] == s[1..][i - 1 := t];
      TotalUpdate(s[1..], i - 1, t, f);
    } else {
      assert s[i := t][1..] == s[1..];
    }
  }

  lemma {:induction false} TotalAppend<T>(s: seq<T>, t: T, f: T -> nat)
    ensures Total(s + [t], f) == Total(s, f) + f(t)
  {
    if s == [] {
      assert s + [t] == [t];
      assert [t][1..] == [];
    } else {
      assert (s + [t])[1..] == s[1..] + [t];
      TotalAppend(s[1..], t, f);
    }
  }

  lemma {:induction false} TotalZero<T>(s: seq<T>, f: T -> nat)
    requires forall i :: 0 <= i < |s| ==> f(s[i]) == 0
    ensures Total(s, f) == 0
  {
    if s != [] {
      TotalZero(s[1..], f);
    }
  }

  /** Workers on their way to look at the queue. */
  function Searching(w: Worker): nat {
    if w.Ready? || w.Testing? || w.Woken? then 1 else 0
  }

  /** Calls that still owe a signal for a task they queued. */
  function Owing(a: Adder): nat {
    if a.Inserted? || a.Unlocked? then 1 else 0
  }

  // ---------- the invariant ----------

  predicate HasTask(w: Worker) {
    w.Took? || w.Running?
  }

  /** The mutex is where the threads think it is. */
  ghost predicate MutexOk(s: State) {
    && (forall w :: 0 <= w < |s.workers| ==> (s.workers[w].Testing? || s.workers[w].Took? <==> s.mutex == WorkerHas(w)))
    && (forall a :: 0 <= a < |s.adders| ==> (s.adders[a].Inserting? || s.adders[a].Inserted? <==> s.mutex == AdderHas(a)))
    && (s.mutex.WorkerHas? ==> s.mutex.w < |s.workers|)
    && (s.mutex.AdderHas? ==> s.mutex.a < |s.adders|)
  }

  predicate Queued(a: Adder) {
    a.Inserted? || a.Unlocked? || a.Returned?
  }

  /** Tasks leave the queue in the order they came in, each call's task once. */
  ghost predicate FifoOk(s: State) {
    && s.taken <= |s.order| && s.queue == s.order[s.taken..]
    && (forall i, j :: 0 <= i < j < |s.order| ==> s.order[i] != s.order[j])
    && (forall i :: 0 <= i < |s.order| ==> s.order[i] < |s.adders| && Queued(s.adders[s.order[i]]))
    && (forall a :: 0 <= a < |s.adders| && Queued(s.adders[a]) ==> a in s.order)
  }

  /** Every task taken is done or in the hands of exactly one worker. */
  ghost predicate OnceOk(s: State) {
    && s.taken <= |s.order|
    && (forall w :: 0 <= w < |s.workers| && HasTask(s.workers[w]) ==>
          s.workers[w].task !in s.done && s.workers[w].task in s.order[..s.taken])
    && (forall v, w :: 0 <= v < w < |s.workers| && HasTask(s.workers[v]) && HasTask(s.workers[w]) ==>
          s.workers[v].task != s.workers[w].task)
    && (forall t :: t in s.done ==> t in s.order[..s.taken])
    && (forall t :: t in s.order[..s.taken] && t !in s.done ==> InHand(s, t))
  }

  ghost predicate InHand(s: State, t: nat) {
    exists w :: 0 <= w < |s.workers| && HasTask(s.workers[w]) && s.workers[w].task == t
  }

  /** While any worker sleeps, each queued task has a searching worker or a signal
      still to come to itself. */
  ghost predicate NoneForgotten(s: State) {
    Asleep in s.workers ==> |s.queue| <= Total(s.workers, Searching) + Total(s.adders, Owing)
  }

  ghost predicate Inv(s: State) {
    |s.workers| > 0 && MutexOk(s) && FifoOk(s) && OnceOk(s) && NoneForgotten(s)
  }

  /** thread_pool_init. */
  ghost predicate Initial(s: State) {
    && |s.workers| > 0 && (forall w <- s.workers :: w == Ready)
    && s.queue == [] && s.mutex == Nobody && s.adders == [] && s.order == [] && s.taken == 0 && s.done == {}
  }

  lemma InitialInv(s: State)
    requires Initial(s)
    ensures Inv(s)
  {
    assert forall w :: 0 <= w < |s.workers| ==> s.workers[w] in s.workers;
  }

  lemma MutexStep(s: State, e: Step)
    requires MutexOk(s) && Enabled(s, e)
    ensures MutexOk(Do(s, e))
  {
    hide NoSleeper;
  }

  lemma FifoStep(s: State, e: Step)
    requires FifoOk(s) && Enabled(s, e)
    ensures FifoOk(Do(s, e))
  {
    hide FifoOk, NoSleeper;
    if e.AddInsert? {
      FifoInsert(s, e.a);
    } else if e.Test? && s.queue != [] {
      FifoTake(s, e.w);
    } else {
      FifoSame(s, Do(s, e));
    }
  }

  lemma FifoTake(s: State, w: nat)
    requires FifoOk(s) && Enabled(s, Test(w)) && s.queue != []
    ensures FifoOk(Do(s, Test(w)))
  {
    assert s.order[s.taken..][1..] == s.order[s.taken + 1..];
  }

  lemma FifoSame(s: State, t: State)
    requires FifoOk(s) && t.queue == s.queue && t.order == s.order && t.taken == s.taken && |t.adders| >= |s.adders|
    requires forall a :: 0 <= a < |s.adders| ==> (Queued(s.adders[a]) <==> Queued(t.adders[a]))
    requires forall a :: |s.adders| <= a < |t.adders| ==> !Queued(t.adders[a])
    ensures FifoOk(t)
  {
  }

  lemma FifoInsert(s: State, a: nat)
    requires FifoOk(s) && Enabled(s, AddInsert(a))
    ensures FifoOk(Do(s, AddInsert(a)))
  {
    var t := Do(s, AddInsert(a));
    assert a !in s.order;
    assert t.order[t.taken..] == s.queue + [a];
    assert forall b :: b in s.order ==> b in t.order;
    assert t.order[|s.order|] == a;
  }

  lemma OnceStep(s: State, e: Step)
    requires FifoOk(s) && OnceOk(s) && Enabled(s, e)
    ensures OnceOk(Do(s, e))
  {
    hide FifoOk, InHand, NoSleeper;
    TakenStep(s, e);
    HandsStep(s, e);
    NewHand(s, e);
    var t := Do(s, e);
    forall x | x in t.order[..t.taken] && x !in t.done
      ensures InHand(t, x)
    {
      assert InHand(s, x) || (e.Test? && s.queue != [] && x == s.queue[0]);
    }
  }

  lemma NewHand(s: State, e: Step)
    requires Enabled(s, e)
    ensures e.Test? && s.queue != [] ==> InHand(Do(s, e), s.queue[0])
  {
    if e.Test? && s.queue != [] {
      var t := Do(s, e);
      assert HasTask(t.workers[e.w]) && t.workers[e.w].task == s.queue[0];
    }
  }

  /** A task stays in the hand it is in until it is done. */
  lemma HandsStep(s: State, e: Step)
    requires Enabled(s, e)
    ensures forall x :: InHand(s, x) && x !in Do(s, e).done ==> InHand(Do(s, e), x)
  {
    var t := Do(s, e);
    forall x | InHand(s, x) && x !in t.done
      ensures InHand(t, x)
    {
      var w :| 0 <= w < |s.workers| && HasTask(s.workers[w]) && s.workers[w].task == x;
      assert HasTask(t.workers[w]) && t.workers[w].task == x;
    }
  }

  /** What the tasks taken become. */
  lemma TakenStep(s: State, e: Step)
    requires FifoOk(s) && Enabled(s, e)
    ensures var t := Do(s, e);
      if e.Test? && s.queue != [] then
        && t.taken <= |t.order|
        && t.order[..t.taken] == s.order[..s.taken] + [s.queue[0]]
        && s.queue[0] !in s.order[..s.taken]
      else t.order[..t.taken] == s.order[..s.taken]
  {
  }

  lemma ForgetsNone(s: State, e: Step)
    requires MutexOk(s) && NoneForgotten(s) && Enabled(s, e)
    ensures NoneForgotten(Do(s, e))
  {
    TotalsStep(s, e);
    var t := Do(s, e);
    if Asleep in t.workers && Asleep !in s.workers {
      assert e.Test? && s.queue == [];
    }
  }

  /** How a step changes the sums. */
  lemma TotalsStep(s: State, e: Step)
    requires Enabled(s, e)
    ensures var t := Do(s, e);
      && Total(t.workers, Searching) == Total(s.workers, Searching) + SearchChange(s, e)
      && Total(t.adders, Owing) == Total(s.adders, Owing) + (if e.AddInsert? then 1 else if e.AddSignal? then -1 else 0)
  {
    if e.Call? {
      TotalAppend(s.adders, Asked, Owing);
    } else if e.AddLock? || e.AddInsert? || e.AddUnlock? || e.AddSignal? {
      TotalUpdate(s.adders, e.a, Do(s, e).adders[e.a], Owing);
      if e.AddSignal? && !NoSleeper(s.workers) {
        TotalUpdate(s.workers, e.w, Woken, Searching);
      }
    } else {
      TotalUpdate(s.workers, e.w, Do(s, e).workers[e.w], Searching);
    }
  }

  function SearchChange(s: State, e: Step): int {
    match e
    case AddSignal(_, _) => if NoSleeper(s.workers) then 0 else 1
    case Spurious(_) => 1
    case Finish(_) => 1
    case Test(_) => -1
    case _ => 0
  }

  /** Every step of every thread keeps the invariant. */
  lemma StepInv(s: State, e: Step)
    requires Inv(s) && Enabled(s, e)
    ensures Inv(Do(s, e))
  {
    hide MutexOk, FifoOk, OnceOk, NoneForgotten;
    MutexStep(s, e);
    FifoStep(s, e);
    OnceStep(s, e);
    ForgetsNone(s, e);
  }

  // ---------- whole runs ----------

  ghost predicate IsRun(s: State, steps: seq<Step>)
    decreases |steps|
  {
    steps == [] || (Enabled(s, steps[0]) && IsRun(Do(s, steps[0]), steps[1..]))
  }

  function After(s: State, steps: seq<Step>): State
    requires IsRun(s, steps)
    decreases |steps|
  {
    if steps == [] then s else After(Do(s, steps[0]), steps[1..])
  }

  lemma {:induction false} RunInv(s: State, steps: seq<Step>)
    requires Inv(s) && IsRun(s, steps)
    ensures Inv(After(s, steps))
    decreases |steps|
  {
    hide Inv, Do, Enabled;
    if steps != [] {
      StepInv(s, steps[0]);
      RunInv(Do(s, steps[0]), steps[1..]);
    }
  }

  /** Tasks come out in the order they went in, none twice: each task queued so far
      is still queued, in one worker's hands, or done, and only one of these. */
  lemma TasksOnce(s: State, steps: seq<Step>)
    requires Initial(s) && IsRun(s, steps)
    ensures var t := After(s, steps);
      && t.taken <= |t.order| && t.order == t.order[..t.taken] + t.queue
      && (forall a: nat :: a in t.order <==> a < |t.adders| && Queued(t.adders[a]))
      && (forall i, j :: 0 <= i < j < |t.order| ==> t.order[i] != t.order[j])
      && (forall a :: a in t.order[..t.taken] <==> a in t.done || InHand(t, a))
      && (forall a :: a in t.queue ==> a !in t.done && !InHand(t, a))
      && (forall v, w :: 0 <= v < w < |t.workers| && HasTask(t.workers[v]) && HasTask(t.workers[w]) ==>
            t.workers[v].task != t.workers[w].task)
      && (forall w :: 0 <= w < |t.workers| && HasTask(t.workers[w]) ==> t.workers[w].task !in t.done)
  {
    hide Do, Enabled, NoneForgotten, MutexOk;
    var t := After(s, steps);
    InitialInv(s);
    RunInv(s, steps);
    QueueApart(t);
  }

  lemma QueueApart(s: State)
    requires FifoOk(s) && OnceOk(s)
    ensures forall a :: a in s.queue ==> a !in s.order[..s.taken]
  {
    forall a | a in s.queue
      ensures a !in s.order[..s.taken]
    {
      var i :| 0 <= i < |s.queue| && s.queue[i] == a;
      assert s.order[s.taken + i] == a;
    }
  }

  /** No wakeup is lost: while tasks are queued some worker is awake or a signal is
      still to come; more, as long as one worker sleeps there are at least as many
      workers searching and signals to come as there are tasks. */
  lemma NoLostWakeup(s: State, steps: seq<Step>)
    requires Initial(s) && IsRun(s, steps)
    ensures var t := After(s, steps);
      && (Asleep in t.workers ==> |t.queue| <= Total(t.workers, Searching) + Total(t.adders, Owing))
      && (t.queue != [] ==> (exists w <- t.workers :: !w.Asleep?) || (exists a <- t.adders :: a.Inserted? || a.Unlocked?))
  {
    var t := After(s, steps);
    InitialInv(s);
    RunInv(s, steps);
    if t.queue != [] {
      SomeoneComes(t);
    }
  }

  lemma SomeoneComes(t: State)
    requires Inv(t) && t.queue != []
    ensures (exists w <- t.workers :: !w.Asleep?) || (exists a <- t.adders :: a.Inserted? || a.Unlocked?)
  {
    if forall w <- t.workers :: w.Asleep? {
      assert t.workers[0] in t.workers;
      assert forall i :: 0 <= i < |t.workers| ==> t.workers[i] in t.workers;
      TotalZero(t.workers, Searching);
      if forall a <- t.adders :: !(a.Inserted? || a.Unlocked?) {
        assert forall i :: 0 <= i < |t.adders| ==> t.adders[i] in t.adders;
        TotalZero(t.adders, Owing);
      }
    }
  }

  // ---------- left alone, the pool finishes every task ----------

  function WorkerRank(w: Worker): nat {
    match w
    case Asleep => 0
    case Testing => 1
    case Ready => 2
    case Woken => 2
    case Running(_) => 3
    case Took(_) => 4
  }

  function AdderRank(a: Adder): nat {
    match a
    case Returned => 0
    case Unlocked => 3
    case Inserted => 4
    case Inserting => 10
    case Asked => 11
  }

  function Work(s: State): nat {
    5 * |s.queue| + Total(s.workers, WorkerRank) + Total(s.adders, AdderRank)
  }

  /** A step that is neither a new call nor a spurious wakeup. */
  predicate Due(e: Step) {
    !e.Call? && !e.Spurious?
  }

  /** Due steps cannot go on for ever. */
  lemma DueStepsEnd(s: State, e: Step)
    requires Enabled(s, e) && Due(e)
    ensures Work(Do(s, e)) < Work(s)
  {
    if e.AddLock? || e.AddInsert? || e.AddUnlock? || e.AddSignal? {
      TotalUpdate(s.adders, e.a, Do(s, e).adders[e.a], AdderRank);
      if e.AddSignal? && !NoSleeper(s.workers) {
        TotalUpdate(s.workers, e.w, Woken, WorkerRank);
      }
    } else {
      TotalUpdate(s.workers, e.w, Do(s, e).workers[e.w], WorkerRank);
    }
  }

  ghost predicate Quiet(s: State) {
    forall e :: Enabled(s, e) ==> !Due(e)
  }

  /** When no step is due, every task ever added is done and every worker sleeps. */
  lemma QuietMeansDone(s: State)
    requires Inv(s) && Quiet(s)
    ensures s.queue == [] && s.done == set t | t in s.order
    ensures forall a <- s.adders :: a == Returned
    ensures forall w <- s.workers :: w == Asleep
  {
    MutexIsFree(s);
    forall a | a in s.adders
      ensures a == Returned
    {
      var i :| 0 <= i < |s.adders| && s.adders[i] == a;
      AdderReturned(s, i);
    }
    forall w | w in s.workers
      ensures w == Asleep
    {
      var i :| 0 <= i < |s.workers| && s.workers[i] == w;
      assert !Enabled(s, Lock(i)) && !Enabled(s, Finish(i)) && !Enabled(s, Test(i)) && !Enabled(s, Unlock(i));
    }
    assert s.workers[0] in s.workers;
    if s.queue != [] {
      SomeoneComes(s);
    }
    assert s.order[..s.taken] == s.order;
    assert forall i :: 0 <= i < |s.workers| ==> s.workers[i] in s.workers;
    assert forall t :: t in s.order ==> t in s.order[..s.taken] && !InHand(s, t);
  }

  lemma HolderMoves(s: State)
    requires MutexOk(s) && s.mutex != Nobody
    ensures exists e :: Enabled(s, e) && Due(e)
  {
    match s.mutex
    case WorkerHas(w) => assert if s.workers[w].Testing? then Enabled(s, Test(w)) && Due(Test(w)) else Enabled(s, Unlock(w)) && Due(Unlock(w));
    case AdderHas(a) => assert if s.adders[a].Inserting? then Enabled(s, AddInsert(a)) && Due(AddInsert(a)) else Enabled(s, AddUnlock(a)) && Due(AddUnlock(a));
  }

  lemma MutexIsFree(s: State)
    requires Inv(s) && Quiet(s)
    ensures s.mutex == Nobody
  {
    if s.mutex != Nobody {
      HolderMoves(s);
    }
  }

  lemma AdderReturned(s: State, a: nat)
    requires Inv(s) && Quiet(s) && s.mutex == Nobody && a < |s.adders|
    ensures s.adders[a] == Returned
  {
    assert !Enabled(s, AddLock(a)) && !Enabled(s, AddInsert(a)) && !Enabled(s, AddUnlock(a));
    if NoSleeper(s.workers) {
      assert !Enabled(s, AddSignal(a, 0));
    } else {
      var w :| 0 <= w < |s.workers| && s.workers[w] == Asleep;
      assert !Enabled(s, AddSignal(a, w));
    }
  }

  /** From any reachable state, steps that are due run out, and when they do every
      task is done. */
  lemma {:induction false} AllGetDone(s: State, steps: seq<Step>)
    requires Inv(s) && IsRun(s, steps) && forall e <- steps :: Due(e)
    ensures |steps| <= Work(s)
    ensures var t := After(s, steps);
      Quiet(t) ==> t.queue == [] && t.done == (set x | x in t.order) && (forall a <- t.adders :: a == Returned)
    decreases |steps|
  {
    hide Inv, Do, Enabled, Work, Quiet;
    if steps == [] {
      if Quiet(s) {
        QuietMeansDone(s);
      }
    } else {
      assert steps[0] in steps;
      StepInv(s, steps[0]);
      DueStepsEnd(s, steps[0]);
      AllGetDone(Do(s, steps[0]), steps[1..]);
    }
  }
}
