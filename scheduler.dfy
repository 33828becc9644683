// The task schedulers: BotScheduler of scheduler.py, a list of (task, timestamp) pairs swept
// on every tick, and Scheduler of utils/Scheduler.kt, a priority queue by timestamp. A task is
// named by an id; running it is recorded in a log, and whether it throws is an input. The
// threads, the sleeping and the lock are not modelled: a tick is one call with the time read
// at its start as a parameter.

module Schedulers {
  import opened Text
  import opened Collections

  type TaskId = int

  // ---------------------------------------------------------------------------
  // scheduler.py

  /** A queued task with its timestamp; None means "now". */
  datatype Task = Task(func: TaskId, ts: Option<int>)

  /** scheduler.py:50-51: a task runs unless it has a timestamp later than now. */
  predicate Due(t: Task, now: int) {
    t.ts.None? || now >= t.ts.value
  }

  function DueTasks(tasks: seq<Task>, now: int): seq<Task> {
    if tasks == [] then []
    else (if Due(tasks[0], now) then [tasks[0]] else []) + DueTasks(tasks[1..], now)
  }

  function WaitingTasks(tasks: seq<Task>, now: int): seq<Task> {
    if tasks == [] then []
    else (if !Due(tasks[0], now) then [tasks[0]] else []) + WaitingTasks(tasks[1..], now)
  }

  /** The due tasks are the queued tasks that are due, and the waiting ones the others. */
  lemma {:induction false} DueOrWaiting(tasks: seq<Task>, now: int)
    ensures forall t :: t in DueTasks(tasks, now) <==> t in tasks && Due(t, now)
    ensures forall t :: t in WaitingTasks(tasks, now) <==> t in tasks && !Due(t, now)
  {
    if tasks != [] {
      DueOrWaiting(tasks[1..], now);
      assert tasks == [tasks[0]] + tasks[1..];
    }
  }

  function Funcs(tasks: seq<Task>): (r: seq<TaskId>)
    ensures |r| == |tasks| && forall k :: 0 <= k < |tasks| ==> r[k] == tasks[k].func
  {
    if tasks == [] then [] else [tasks[0].func] + Funcs(tasks[1..])
  }

  /** What the loop of __run_tasks leaves: the tasks it completed, the tasks it called in order,
      and whether a call raised, which ends the loop (the try encloses the whole loop). */
  datatype Sweep = Sweep(completed: seq<Task>, ran: seq<TaskId>, raised: bool)

  function SweepTasks(tasks: seq<Task>, now: int, throws: TaskId -> bool): Sweep {
    if tasks == [] then Sweep([], [], false)
    else
      var t := tasks[0];
      if !Due(t, now) then SweepTasks(tasks[1..], now, throws)
      else if throws(t.func) then Sweep([], [t.func], true)
      else
        var rest := SweepTasks(tasks[1..], now, throws);
        Sweep([t] + rest.completed, [t.func] + rest.ran, rest.raised)
  }

  function RemoveEach<T(==)>(s: seq<T>, xs: seq<T>): seq<T>
    decreases |xs|
  {
    if xs == [] then s else RemoveEach(RemoveFirst(s, xs[0]), xs[1..])
  }

  /** A tick: the queue that remains and the tasks called. */
  function Tick(tasks: seq<Task>, now: int, throws: TaskId -> bool): (seq<Task>, seq<TaskId>) {
    var sw := SweepTasks(tasks, now, throws);
    (RemoveEach(tasks, sw.completed), sw.ran)
  }

  lemma {:induction false} RemoveEachSkips(x: Task, s: seq<Task>, xs: seq<Task>)
    requires x !in xs
    ensures RemoveEach([x] + s, xs) == [x] + RemoveEach(s, xs)
    decreases |xs|
  {
    if xs != [] {
      assert ([x] + s)[1..] == s;
      assert RemoveFirst([x] + s, xs[0]) == [x] + RemoveFirst(s, xs[0]);
      RemoveEachSkips(x, RemoveFirst(s, xs[0]), xs[1..]);
    }
  }

  /** Removing the due tasks of a prefix, one first occurrence at a time, removes exactly them:
      an equal pair has the same timestamp, so its first occurrence is the due one. */
  lemma {:induction false} RemoveDueOfPrefix(p: seq<Task>, s: seq<Task>, now: int)
    ensures RemoveEach(p + s, DueTasks(p, now)) == WaitingTasks(p, now) + s
  {
    if p == [] {
      assert [] + s == s;
    } else {
      var x := p[0];
      var rest := p[1..] + s;
      assert p + s == [x] + rest;
      RemoveDueOfPrefix(p[1..], s, now);
      if Due(x, now) {
        DueHead(p, now);
      } else {
        WaitingHead(p, s, now);
      }
    }
  }

  lemma DueHead(p: seq<Task>, now: int)
    requires p != [] && Due(p[0], now)
    ensures DueTasks(p, now) == [p[0]] + DueTasks(p[1..], now)
    ensures WaitingTasks(p, now) == WaitingTasks(p[1..], now)
    ensures RemoveFirst([p[0]] + (p[1..]), p[0]) == p[1..]
  {
  }

  lemma {:induction false} WaitingHead(p: seq<Task>, s: seq<Task>, now: int)
    requires p != [] && !Due(p[0], now)
    requires RemoveEach(p[1..] + s, DueTasks(p[1..], now)) == WaitingTasks(p[1..], now) + s
    ensures RemoveEach([p[0]] + (p[1..] + s), DueTasks(p, now)) == WaitingTasks(p, now) + s
  {
    var x, d, w, l := p[0], DueTasks(p[1..], now), WaitingTasks(p[1..], now), p[1..] + s;
    assert x !in d by {
      DueOrWaiting(p[1..], now);
    }
    assert DueTasks(p, now) == d by {
      assert [] + d == d;
    }
    assert WaitingTasks(p, now) == [x] + w;
    RemoveEachSkips(x, l, d);
    AppendAssoc([x], w, s);
  }

  lemma {:induction false} SweepWithoutThrow(tasks: seq<Task>, now: int, throws: TaskId -> bool)
    requires forall k :: 0 <= k < |tasks| && Due(tasks[k], now) ==> !throws(tasks[k].func)
    ensures SweepTasks(tasks, now, throws) == Sweep(DueTasks(tasks, now), Funcs(DueTasks(tasks, now)), false)
  {
    if tasks != [] {
      SweepWithoutThrow(tasks[1..], now, throws);
    }
  }

  lemma {:induction false} SweepUpToThrow(tasks: seq<Task>, now: int, throws: TaskId -> bool, j: nat)
    requires j < |tasks| && Due(tasks[j], now) && throws(tasks[j].func)
    requires forall k :: 0 <= k < j && Due(tasks[k], now) ==> !throws(tasks[k].func)
    ensures SweepTasks(tasks, now, throws)
            == Sweep(DueTasks(tasks[..j], now), Funcs(DueTasks(tasks[..j], now)) + [tasks[j].func], true)
  {
    if j > 0 {
      SweepUpToThrow(tasks[1..], now, throws, j - 1);
      assert tasks[..j][1..] == tasks[1..][..j - 1];
    } else {
      assert tasks[..0] == [];
    }
  }

  /** A tick in which no due task raises calls every due task once, in queue order, and
      removes exactly them: the other tasks stay, in their order. */
  lemma TickWithoutThrow(tasks: seq<Task>, now: int, throws: TaskId -> bool)
    requires forall k :: 0 <= k < |tasks| && Due(tasks[k], now) ==> !throws(tasks[k].func)
    ensures Tick(tasks, now, throws) == (WaitingTasks(tasks, now), Funcs(DueTasks(tasks, now)))
  {
    SweepWithoutThrow(tasks, now, throws);
    RemoveDueOfPrefix(tasks, [], now);
    assert tasks + [] == tasks;
    assert WaitingTasks(tasks, now) + [] == WaitingTasks(tasks, now);
  }

  /** When the due task at j raises, the tick ends there: the due tasks before it are removed,
      and it and every later task stay queued, to be called again on the next tick. */
  lemma TickStopsAtThrow(tasks: seq<Task>, now: int, throws: TaskId -> bool, j: nat)
    requires j < |tasks| && Due(tasks[j], now) && throws(tasks[j].func)
    requires forall k :: 0 <= k < j && Due(tasks[k], now) ==> !throws(tasks[k].func)
    ensures Tick(tasks, now, throws)
            == (WaitingTasks(tasks[..j], now) + tasks[j..], Funcs(DueTasks(tasks[..j], now)) + [tasks[j].func])
  {
    SweepUpToThrow(tasks, now, throws, j);
    RemoveDueOfPrefix(tasks[..j], tasks[j..], now);
    assert tasks[..j] + tasks[j..] == tasks;
  }

  /** A task that always raises is called on every tick, and a due task queued after it is
      never called: the tick leaves the queue as it found it. */
  lemma RaisingTaskBlocksLaterOnes(a: TaskId, b: TaskId, now: int, throws: TaskId -> bool)
    requires throws(a)
    ensures Tick([Task(a, None), Task(b, None)], now, throws) == ([Task(a, None), Task(b, None)], [a])
  {
    var tasks := [Task(a, None), Task(b, None)];
    TickStopsAtThrow(tasks, now, throws, 0);
    assert tasks[..0] == [] && tasks[0..] == tasks;
  }

  // The intended run: the try around each call, as Scheduler.kt:53-57 has it, so that a task
  // that raises is not completed and stays queued, while every other due task still runs.

  /** A task that a run completes: due, and its call returns. */
  predicate Done(t: Task, now: int, throws: TaskId -> bool) {
    Due(t, now) && !throws(t.func)
  }

  function DoneTasks(tasks: seq<Task>, now: int, throws: TaskId -> bool): seq<Task> {
    if tasks == [] then []
    else (if Done(tasks[0], now, throws) then [tasks[0]] else []) + DoneTasks(tasks[1..], now, throws)
  }

  function KeptTasks(tasks: seq<Task>, now: int, throws: TaskId -> bool): seq<Task> {
    if tasks == [] then []
    else (if !Done(tasks[0], now, throws) then [tasks[0]] else []) + KeptTasks(tasks[1..], now, throws)
  }

  /** The corrected run: every due task is called in queue order, and the completed ones are
      removed. */
  function TickEach(tasks: seq<Task>, now: int, throws: TaskId -> bool): (seq<Task>, seq<TaskId>) {
    (RemoveEach(tasks, DoneTasks(tasks, now, throws)), Funcs(DueTasks(tasks, now)))
  }

  lemma {:induction false} KeptNotDone(tasks: seq<Task>, now: int, throws: TaskId -> bool)
    ensures forall t :: t in DoneTasks(tasks, now, throws) ==> t in tasks && Done(t, now, throws)
  {
    if tasks != [] {
      KeptNotDone(tasks[1..], now, throws);
    }
  }

  /** Removing the completed tasks of a prefix removes exactly them: equal pairs name the same
      task, so they are completed alike. */
  lemma {:induction false} RemoveDoneOfPrefix(p: seq<Task>, s: seq<Task>, now: int, throws: TaskId -> bool)
    ensures RemoveEach(p + s, DoneTasks(p, now, throws)) == KeptTasks(p, now, throws) + s
  {
    if p == [] {
      assert [] + s == s;
    } else {
      var x, d, w := p[0], DoneTasks(p[1..], now, throws), KeptTasks(p[1..], now, throws);
      assert p + s == [x] + (p[1..] + s);
      RemoveDoneOfPrefix(p[1..], s, now, throws);
      if Done(x, now, throws) {
        assert DoneTasks(p, now, throws) == [x] + d;
        assert RemoveFirst([x] + (p[1..] + s), x) == p[1..] + s;
      } else {
        assert x !in d by {
          KeptNotDone(p[1..], now, throws);
        }
        assert DoneTasks(p, now, throws) == d by {
          assert [] + d == d;
        }
        RemoveEachSkips(x, p[1..] + s, d);
        AppendAssoc([x], w, s);
      }
    }
  }

  /** A corrected run calls every due task once, in queue order, whatever raises, and keeps
      queued exactly the tasks not yet due and those that raised. */
  lemma TickEachRunsEveryDueTask(tasks: seq<Task>, now: int, throws: TaskId -> bool)
    ensures TickEach(tasks, now, throws) == (KeptTasks(tasks, now, throws), Funcs(DueTasks(tasks, now)))
  {
    RemoveDoneOfPrefix(tasks, [], now, throws);
    assert tasks + [] == tasks;
    assert KeptTasks(tasks, now, throws) + [] == KeptTasks(tasks, now, throws);
  }

  /** With the try around each call, the due task after a raising one is called and removed. */
  lemma RaisingTaskNoLongerBlocks(a: TaskId, b: TaskId, now: int, throws: TaskId -> bool)
    requires throws(a) && !throws(b)
    ensures TickEach([Task(a, None), Task(b, None)], now, throws) == ([Task(a, None)], [a, b])
  {
    var tasks := [Task(a, None), Task(b, None)];
    TickEachRunsEveryDueTask(tasks, now, throws);
    var last := [Task(b, None)];
    assert tasks[1..] == last && last[1..] == [];
    assert KeptTasks(last, now, throws) == [] + KeptTasks([], now, throws) == [];
    assert KeptTasks(tasks, now, throws) == [Task(a, None)] + KeptTasks(last, now, throws);
    assert DueTasks(last, now) == last + DueTasks([], now);
    assert DueTasks(tasks, now) == [Task(a, None)] + DueTasks(last, now);
    assert DueTasks(tasks, now) == tasks && Funcs(tasks) == [a, b];
    assert KeptTasks(tasks, now, throws) == [Task(a, None)];
  }

  /** One task more of the loop: its completion and its call come first. */
  lemma SweepStep(tasks: seq<Task>, k: nat, now: int, throws: TaskId -> bool)
    requires k < |tasks|
    ensures DoneTasks(tasks[k..], now, throws)
            == (if Done(tasks[k], now, throws) then [tasks[k]] else []) + DoneTasks(tasks[k + 1..], now, throws)
    ensures Funcs(DueTasks(tasks[k..], now))
            == (if Due(tasks[k], now) then [tasks[k].func] else []) + Funcs(DueTasks(tasks[k + 1..], now))
  {
    assert tasks[k..][0] == tasks[k] && tasks[k..][1..] == tasks[k + 1..];
  }

  /** The scheduler of scheduler.py. */
  class BotScheduler {
    var tasks: seq<Task>
    /** Whether `_thread` is set. */
    var running: bool
    var threadsStarted: nat
    /** The tasks called so far, in order. */
    var ran: seq<TaskId>

    constructor()
      ensures tasks == [] && !running && threadsStarted == 0 && ran == []
    {
      tasks := [];
      running := false;
      threadsStarted := 0;
      ran := [];
    }

    /** queue (scheduler.py:17-19) appends one pair at the end. */
    method Queue(func: TaskId, atTimestamp: Option<int>)
      modifies this
      ensures tasks == old(tasks) + [Task(func, atTimestamp)]
      ensures running == old(running) && threadsStarted == old(threadsStarted) && ran == old(ran)
    {
      tasks := tasks + [Task(func, atTimestamp)];
    }

    /** start_scheduler (scheduler.py:21-28) starts a thread only when none is set. */
    method StartScheduler()
      modifies this
      ensures running
      ensures threadsStarted == old(threadsStarted) + (if old(running) then 0 else 1)
      ensures tasks == old(tasks) && ran == old(ran)
    {
      if running {
        return;
      }
      running := true;
      threadsStarted := threadsStarted + 1;
    }

    /** stop_scheduler (scheduler.py:30-31). */
    method StopScheduler()
      modifies this
      ensures !running
      ensures tasks == old(tasks) && ran == old(ran) && threadsStarted == old(threadsStarted)
    {
      running := false;
    }

    /** One turn of the thread's loop (scheduler.py:33-37): it ends once the thread is unset,
      and otherwise runs the tasks when there are any. */
    method SchedulerTurn(now: int, throws: TaskId -> bool) returns (goOn: bool)
      modifies this
      ensures goOn == old(running)
      ensures goOn && old(tasks) != [] ==> |ran| >= |old(ran)| && (tasks, ran[|old(ran)|..]) == TickEach(old(tasks), now, throws)
      ensures !goOn || old(tasks) == [] ==> tasks == old(tasks) && ran == old(ran)
      ensures running == old(running) && threadsStarted == old(threadsStarted)
    {
      if !running {
        return false;
      }
      if |tasks| != 0 {
        RunTasks(now, throws);
      }
      return true;
    }

    /** __run_tasks (scheduler.py:43-58) with the try around each call, the time read once at
      its start. */
    method RunTasks(now: int, throws: TaskId -> bool)
      modifies this
      ensures |ran| >= |old(ran)| && ran[..|old(ran)|] == old(ran)
      ensures (tasks, ran[|old(ran)|..]) == TickEach(old(tasks), now, throws)
      ensures running == old(running) && threadsStarted == old(threadsStarted)
    {
      var completed, called := SweepLoop(tasks, now, throws);
      ghost var queued := tasks;
      ran := ran + called;
      var i := 0;
      while i < |completed|
        invariant 0 <= i <= |completed|
        invariant RemoveEach(queued, completed) == RemoveEach(tasks, completed[i..])
        invariant ran == old(ran) + called
        invariant running == old(running) && threadsStarted == old(threadsStarted)
      {
        assert completed[i..][1..] == completed[i + 1..];
        tasks := RemoveFirst(tasks, completed[i]);
        i := i + 1;
      }
      assert ran[|old(ran)|..] == called;
    }
  }

  /** The loop of __run_tasks (scheduler.py:48-55) with the try around each call: skip the tasks
      not yet due, call the others in order and note each that returns. */
  method SweepLoop(tasks: seq<Task>, now: int, throws: TaskId -> bool) returns (completed: seq<Task>, called: seq<TaskId>)
    ensures completed == DoneTasks(tasks, now, throws)
    ensures called == Funcs(DueTasks(tasks, now))
  {
    completed, called := [], [];
    var k := 0;
    while k < |tasks|
      invariant 0 <= k <= |tasks|
      invariant DoneTasks(tasks, now, throws) == completed + DoneTasks(tasks[k..], now, throws)
      invariant Funcs(DueTasks(tasks, now)) == called + Funcs(DueTasks(tasks[k..], now))
    {
      var t := tasks[k];
      SweepStep(tasks, k, now, throws);
      ghost var restDone, restFuncs := DoneTasks(tasks[k + 1..], now, throws), Funcs(DueTasks(tasks[k + 1..], now));
      if t.ts.Some? && now < t.ts.value {
        assert [] + restDone == restDone && [] + restFuncs == restFuncs;
      } else {
        AppendAssoc(called, [t.func], restFuncs);
        called := called + [t.func];
        if !throws(t.func) {
          AppendAssoc(completed, [t], restDone);
          completed := completed + [t];
        } else {
          assert [] + restDone == restDone;
        }
      }
      k := k + 1;
    }
    assert tasks[k..] == [];
    assert completed + [] == completed && called + [] == called;
  }

  // ---------------------------------------------------------------------------
  // utils/Scheduler.kt

  /** QueueElement (Scheduler.kt:68-70): ordered by timestamp only. */
  datatype QueueElement = QueueElement(runnable: TaskId, timestamp: int)

  /** The scheduler of Scheduler.kt. The priority queue is a multiset: poll takes an element
      with the least timestamp, and which one among equal timestamps is not specified. */
  class Scheduler {
    var queue: multiset<QueueElement>
    /** Whether `thread` is set. */
    var running: bool
    var threadsStarted: nat
    /** The tasks run so far, in order. */
    var ran: seq<QueueElement>

    constructor()
      ensures queue == multiset{} && !running && threadsStarted == 0 && ran == []
    {
      queue := multiset{};
      running := false;
      threadsStarted := 0;
      ran := [];
    }

    /** queue (Scheduler.kt:62-66) adds one element. */
    method Queue(runnable: TaskId, timestamp: int)
      modifies this
      ensures queue == old(queue) + multiset{QueueElement(runnable, timestamp)}
      ensures running == old(running) && threadsStarted == old(threadsStarted) && ran == old(ran)
    {
      queue := queue + multiset{QueueElement(runnable, timestamp)};
    }

    /** A queue call for each element, in order (as a caller's loop over its records does). */
    method QueueAll(elements: seq<QueueElement>)
      modifies this
      ensures queue == old(queue) + multiset(elements)
      ensures running == old(running) && threadsStarted == old(threadsStarted) && ran == old(ran)
    {
      var k := 0;
      while k < |elements|
        invariant 0 <= k <= |elements|
        invariant queue == old(queue) + multiset(elements[..k])
        invariant running == old(running) && threadsStarted == old(threadsStarted) && ran == old(ran)
      {
        assert elements[..k + 1] == elements[..k] + [elements[k]];
        Queue(elements[k].runnable, elements[k].timestamp);
        k := k + 1;
      }
      assert elements[..k] == elements;
    }

    /** start (Scheduler.kt:20-26) starts a new thread every time, with no guard. */
    method Start()
      modifies this
      ensures running && threadsStarted == old(threadsStarted) + 1
      ensures queue == old(queue) && ran == old(ran)
    {
      running := true;
      threadsStarted := threadsStarted + 1;
    }

    /** stop (Scheduler.kt:28-31). */
    method Stop()
      modifies this
      ensures !running
      ensures queue == old(queue) && ran == old(ran) && threadsStarted == old(threadsStarted)
    {
      running := false;
    }

    /** execute (Scheduler.kt:43-60): poll tasks in timestamp order and run each due one once,
      whether or not it throws (the exception is caught); the first task that is not yet due
      goes back into the queue and ends the tick. */
    method Execute(now: int)
      modifies this
      ensures |ran| >= |old(ran)| && ran[..|old(ran)|] == old(ran)
      ensures forall x :: queue[x] == (if x.timestamp > now then old(queue)[x] else 0)
      ensures multiset(ran[|old(ran)|..]) + queue == old(queue)
      ensures forall i, j :: |old(ran)| <= i < j < |ran| ==> ran[i].timestamp <= ran[j].timestamp
      ensures forall i :: |old(ran)| <= i < |ran| ==> ran[i].timestamp <= now
      ensures running == old(running) && threadsStarted == old(threadsStarted)
    {
      var runs, rest := Drain(queue, now);
      ran := ran + runs;
      queue := rest;
      assert ran[|old(ran)|..] == runs;
    }

    /** One turn of the thread's loop (Scheduler.kt:33-40): it ends once the thread is unset, and
      otherwise executes when the queue is not empty. */
    method LoopTurn(now: int) returns (goOn: bool)
      modifies this
      ensures goOn == old(running)
      ensures !goOn || old(queue) == multiset{} ==> queue == old(queue) && ran == old(ran)
      ensures goOn ==> forall x :: queue[x] == (if x.timestamp > now then old(queue)[x] else 0)
      ensures goOn ==> |ran| >= |old(ran)| && multiset(ran[|old(ran)|..]) + queue == old(queue)
      ensures running == old(running) && threadsStarted == old(threadsStarted)
    {
      if !running {
        return false;
      }
      if queue != multiset{} {
        Execute(now);
      } else {
        assert ran[|old(ran)|..] == [];
      }
      return true;
    }
  }

  /** The loop of execute (Scheduler.kt:45-57) on the queue's contents: poll the least element;
      a due one is run (and whatever it throws is caught), the first one not yet due is put back
      and ends the loop. The result is the elements run, in order, and the queue left. */
  method Drain(q: multiset<QueueElement>, now: int) returns (runs: seq<QueueElement>, rest: multiset<QueueElement>)
    ensures forall x :: rest[x] == (if x.timestamp > now then q[x] else 0)
    ensures multiset(runs) + rest == q
    ensures forall i, j :: 0 <= i < j < |runs| ==> runs[i].timestamp <= runs[j].timestamp
    ensures forall i :: 0 <= i < |runs| ==> runs[i].timestamp <= now
  {
    runs, rest := [], q;
    while rest != multiset{}
      invariant Drained(runs, rest, q, now)
      decreases |rest|
    {
      LeastExists(rest);
      var task :| task in rest && forall x :: x in rest ==> task.timestamp <= x.timestamp;
      if task.timestamp > now {
        break;
      }
      DrainStep(runs, rest, q, now, task);
      rest := rest - multiset{task};
      runs := runs + [task];
    }
    DrainedEnd(runs, rest, q, now);
  }

  /** What a tick of execute keeps: the elements run, in order, together with the queue are the
      queue it started with; they were due, and none is later than one left queued. */
  ghost predicate Drained(done: seq<QueueElement>, q: multiset<QueueElement>, start: multiset<QueueElement>, now: int) {
    && multiset(done) + q == start
    && (forall i, j :: 0 <= i < j < |done| ==> done[i].timestamp <= done[j].timestamp)
    && (forall i :: 0 <= i < |done| ==> done[i].timestamp <= now)
    && (forall i, x :: 0 <= i < |done| && x in q ==> done[i].timestamp <= x.timestamp)
  }

  /** Running the least element, when it is due, keeps Drained and shrinks the queue. */
  lemma DrainStep(done: seq<QueueElement>, q: multiset<QueueElement>, start: multiset<QueueElement>, now: int, task: QueueElement)
    requires Drained(done, q, start, now)
    requires task in q && task.timestamp <= now && forall x :: x in q ==> task.timestamp <= x.timestamp
    ensures Drained(done + [task], q - multiset{task}, start, now)
    ensures |q - multiset{task}| < |q|
  {
    var d, r := done + [task], q - multiset{task};
    assert multiset(d) == multiset(done) + multiset{task};
    assert forall x :: x in r ==> x in q;
    forall i, j | 0 <= i < j < |d| ensures d[i].timestamp <= d[j].timestamp {
      if j < |done| {
        assert d[i] == done[i] && d[j] == done[j];
      } else {
        assert d[i] == done[i] && d[j] == task;
      }
    }
    forall i | 0 <= i < |d| ensures d[i].timestamp <= now {
      if i < |done| {
        assert d[i] == done[i];
      }
    }
    forall i, x | 0 <= i < |d| && x in r ensures d[i].timestamp <= x.timestamp {
      if i < |done| {
        assert d[i] == done[i];
      }
    }
  }

  /** When the queue is empty or its least element is not yet due, the elements run are
      exactly the due ones, in timestamp order, and the queue keeps only the later ones. */
  lemma DrainedEnd(done: seq<QueueElement>, q: multiset<QueueElement>, start: multiset<QueueElement>, now: int)
    requires Drained(done, q, start, now)
    requires forall x :: x in q ==> x.timestamp > now
    ensures forall x :: q[x] == (if x.timestamp > now then start[x] else 0)
    ensures multiset(done) + q == start
    ensures forall i, j :: 0 <= i < j < |done| ==> done[i].timestamp <= done[j].timestamp
    ensures forall i :: 0 <= i < |done| ==> done[i].timestamp <= now
  {
    forall x ensures q[x] == (if x.timestamp > now then start[x] else 0) {
      if x.timestamp > now {
        assert x !in multiset(done);
      } else {
        assert x !in q;
      }
    }
  }

  /** A non-empty priority queue has an element with the least timestamp. */
  lemma LeastExists(q: multiset<QueueElement>)
    requires q != multiset{}
    ensures exists m :: m in q && forall x :: x in q ==> m.timestamp <= x.timestamp
    decreases |q|
  {
    var y :| y in q;
    var r := q - multiset{y};
    assert |r| < |q|;
    if r == multiset{} {
      forall x | x in q ensures y.timestamp <= x.timestamp {
        assert q[x] == r[x] + (if x == y then 1 else 0);
      }
    } else {
      LeastExists(r);
      var m :| m in r && forall x :: x in r ==> m.timestamp <= x.timestamp;
      var w := if y.timestamp < m.timestamp then y else m;
      forall x | x in q ensures w.timestamp <= x.timestamp {
        assert q[x] == r[x] + (if x == y then 1 else 0);
      }
      assert w in q;
    }
  }
}
