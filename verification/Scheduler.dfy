/** The task table and its state machine (kernel/sched/sched.c).

    The kernel runs these paths with interrupts off on one CPU, so each method up
    to its context switch is one atomic step.  A switch is the assignment to
    `current`. */
module Scheduler {
  import opened ReadyQueue

  datatype TaskState = RUNNING | BLOCKED | ZOMBIE | READY | DEAD | SLEEPING | LOADING

  /** pid 0 marks a free slot.  `user` stands for owning an address space, `vfs`
      for an active file-system operation, `sharedOut` for lent frames. */
  datatype Task = Task(pid: nat, state: TaskState, prio: int, waitingFor: int, parent: nat,
                       wakeTick: nat, deadline: nat, timedOut: bool, interruptible: bool, interrupted: bool,
                       futex: nat, unclaimed: bool, exitCode: int, user: bool, vfs: bool,
                       vforkParent: nat, sharedOut: bool)

  /** A zeroed slot: note that its state reads as RUNNING. */
  const NO_TASK := Task(0, RUNNING, 0, 0, 0, 0, 0, false, false, false, 0, false, 0, false, false, 0, false)

  predicate Live(t: Task)
  {
    t.pid != 0
  }

  /** One task parked on one wait queue. */
  datatype Wait = Wait(queue: nat, task: nat)

  const VFORK_QUEUE: nat := 0
  const CHILD_QUEUE: nat := 1

  // ---- the invariant ---------------------------------------------------------

  /** What is true of slot i: it is RUNNING exactly when it is the running task;
      it is on a ready queue exactly when it is a READY task other than idle, and
      then on the queue of its own priority; a deadline means a timed block. */
  ghost predicate SlotOk(tasks: seq<Task>, run: int, idle: int, q: seq<seq<nat>>, i: nat)
  {
    i < |tasks| ==>
      var t := tasks[i];
      && (Live(t) && t.state == RUNNING <==> i == run)
      && (forall p :: 0 <= p < |q| ==> (i in q[p] <==> Live(t) && t.state == READY && i != idle && p == Clamp(t.prio)))
      && (t.deadline != 0 ==> Live(t) && t.state == BLOCKED)
      && (i == idle ==> Live(t) && !t.user && (t.state == RUNNING || t.state == READY))
      && (!Live(t) ==> t == NO_TASK)
  }

  datatype Kind = Asleep | Timed

  predicate Is(k: Kind, t: Task)
  {
    Live(t) && match k case Asleep => t.state == SLEEPING case Timed => t.deadline != 0
  }

  function Those(k: Kind, tasks: seq<Task>): set<nat>
  {
    set i: nat | i < |tasks| && Is(k, tasks[i])
  }

  ghost predicate Inv(tasks: seq<Task>, run: int, idle: int, q: seq<seq<nat>>, asleep: int, timed: int)
  {
    && |tasks| == MAX_TASKS && 0 <= idle < MAX_TASKS && |q| == LEVELS
    && (run == NIL || 0 <= run < MAX_TASKS)
    && (forall i: nat {:trigger SlotOk(tasks, run, idle, q, i)} :: SlotOk(tasks, run, idle, q, i))
    && asleep == |Those(Asleep, tasks)| && timed == |Those(Timed, tasks)|
  }

  /** Live tasks have different pids, all already handed out. */
  ghost predicate PidsOk(tasks: seq<Task>, nextPid: nat)
  {
    && nextPid > 0
    && (forall i :: 0 <= i < |tasks| ==> tasks[i].pid < nextPid)
    && (forall i, j :: 0 <= i < j < |tasks| && Live(tasks[i]) ==> tasks[i].pid != tasks[j].pid)
  }

  predicate Waitable(tasks: seq<Task>, i: nat)
  {
    i < |tasks| && Live(tasks[i]) && tasks[i].state != ZOMBIE && tasks[i].state != DEAD
  }

  /** Wait entries live on kernel stacks, so they belong to tasks that still have one. */
  ghost predicate EntriesOk(entries: seq<Wait>, tasks: seq<Task>)
  {
    forall k :: 0 <= k < |entries| ==> Waitable(tasks, entries[k].task)
  }

  /** How the dying task counts while it is being taken apart. */
  function Buried(t: Task): Task
  {
    t.(state := ZOMBIE, deadline := 0)
  }

  function View(tasks: seq<Task>, limbo: int): seq<Task>
  {
    if 0 <= limbo < |tasks| then tasks[limbo := Buried(tasks[limbo])] else tasks
  }

  // ---- changing one slot -----------------------------------------------------

  function Delta(k: Kind, before: Task, after: Task): int
  {
    (if Is(k, after) then 1 else 0) - (if Is(k, before) then 1 else 0)
  }

  lemma SetDelta(a: set<nat>, b: set<nat>, i: nat)
    requires a - {i} == b - {i}
    ensures |b| == |a| + (if i in b then 1 else 0) - (if i in a then 1 else 0)
  {
    assert i in a ==> a == (a - {i}) + {i};
    assert i in b ==> b == (b - {i}) + {i};
    assert i !in a ==> a == a - {i};
    assert i !in b ==> b == b - {i};
  }

  lemma CountUpdate(k: Kind, tasks: seq<Task>, i: nat, t: Task)
    requires i < |tasks|
    ensures |Those(k, tasks[i := t])| == |Those(k, tasks)| + Delta(k, tasks[i], t)
  {
    hide Is;
    var tasks' := tasks[i := t];
    var a, b := Those(k, tasks), Those(k, tasks');
    forall j: nat | j != i
      ensures j in a <==> j in b
    {
    }
    assert a - {i} == b - {i};
    SetDelta(a, b, i);
  }

  /** Only slot i and its queue membership change. */
  lemma OneSlot(tasks: seq<Task>, run: int, run': int, idle: int, q: seq<seq<nat>>, q': seq<seq<nat>>,
                asleep: int, timed: int, i: nat, t: Task)
    requires Inv(tasks, run, idle, q, asleep, timed) && i < MAX_TASKS && |q'| == LEVELS
    requires run' == run || {run, run'} == {NIL, i}
    requires SlotOk(tasks[i := t], run', idle, q', i)
    requires forall p, j: nat {:trigger j in q'[p]} :: 0 <= p < LEVELS && j != i ==> (j in q'[p] <==> j in q[p])
    ensures Inv(tasks[i := t], run', idle, q', asleep + Delta(Asleep, tasks[i], t), timed + Delta(Timed, tasks[i], t))
  {
    CountUpdate(Asleep, tasks, i, t);
    CountUpdate(Timed, tasks, i, t);
    var tasks' := tasks[i := t];
    forall j: nat
      ensures SlotOk(tasks', run', idle, q', j)
    {
      assert SlotOk(tasks, run, idle, q, j);
    }
  }

  /** Fields the scheduler does not look at may change freely. */
  lemma SameSlot(tasks: seq<Task>, run: int, idle: int, q: seq<seq<nat>>, asleep: int, timed: int, i: nat, t: Task)
    requires Inv(tasks, run, idle, q, asleep, timed) && i < MAX_TASKS && Live(tasks[i])
    requires t.pid == tasks[i].pid && t.state == tasks[i].state && t.prio == tasks[i].prio
    requires t.deadline == tasks[i].deadline && t.user == tasks[i].user
    ensures Inv(tasks[i := t], run, idle, q, asleep, timed)
  {
    assert SlotOk(tasks, run, idle, q, i);
    OneSlot(tasks, run, run, idle, q, q, asleep, timed, i, t);
  }

  // ---- queue membership ------------------------------------------------------

  lemma PushedMembers(r: Ready, t: nat, p: nat)
    requires |r.q| == LEVELS && p < LEVELS
    ensures forall o, j: nat {:trigger j in Pushed(r, t, p).q[o]} :: 0 <= o < LEVELS ==>
              (j in Pushed(r, t, p).q[o] <==> j in r.q[o] || (j == t && o == p))
  {
  }

  lemma PoppedMembers(r: Ready)
    requires |r.q| == LEVELS && Distinct(r.q) && Level(r) != NIL
    ensures r.q[Level(r)] != []
    ensures forall o, j: nat {:trigger j in Popped(r).q[o]} :: 0 <= o < LEVELS ==>
              (j in Popped(r).q[o] <==> j in r.q[o] && j != r.q[Level(r)][0])
  {
    LevelServes(r);
    var l := Level(r);
    var t := r.q[l][0];
    assert t in r.q[l] && NoDup(r.q[l]);
    forall o, j: nat {:trigger j in Popped(r).q[o]} | 0 <= o < LEVELS
      ensures j in Popped(r).q[o] <==> j in r.q[o] && j != t
    {
      assert r.q[l] == [t] + r.q[l][1..];
    }
  }

  lemma {:induction false} WithoutMembers(s: seq<nat>, t: nat, j: nat)
    requires NoDup(s)
    ensures j in Without(s, t) <==> j in s && j != t
  {
    if s != [] {
      assert s == [s[0]] + s[1..];
      WithoutMembers(s[1..], t, j);
    }
  }

  lemma RemovedMembers(r: Ready, t: nat)
    requires |r.q| == LEVELS && Distinct(r.q)
    ensures forall o, j: nat {:trigger j in Removed(r, t).q[o]} :: 0 <= o < LEVELS ==>
              (j in Removed(r, t).q[o] <==> j in r.q[o] && j != t)
  {
    forall o, j: nat {:trigger j in Removed(r, t).q[o]} | 0 <= o < LEVELS
      ensures j in Removed(r, t).q[o] <==> j in r.q[o] && j != t
    {
      assert NoDup(r.q[o]);
      WithoutMembers(r.q[o], t, j);
    }
  }

  // ---- transitions -----------------------------------------------------------

  /** A parked, sleeping, loading or new task becomes READY and is queued. */
  lemma EnqueueOk(tasks: seq<Task>, run: int, idle: int, r: Ready, asleep: int, timed: int, i: nat, t: Task)
    requires Inv(tasks, run, idle, r.q, asleep, timed) && i < MAX_TASKS && i != run && i != idle
    requires !(Live(tasks[i]) && tasks[i].state == READY)
    requires Live(t) && t.state == READY && t.deadline == 0
    ensures !Queued(r.q, i)
    ensures Inv(tasks[i := t], run, idle, Pushed(r, i, Clamp(t.prio)).q, asleep + Delta(Asleep, tasks[i], t),
                timed + Delta(Timed, tasks[i], t))
  {
    assert SlotOk(tasks, run, idle, r.q, i);
    PushedMembers(r, i, Clamp(t.prio));
    OneSlot(tasks, run, run, idle, r.q, Pushed(r, i, Clamp(t.prio)).q, asleep, timed, i, t);
  }

  /** The running task leaves the CPU without being queued. */
  lemma StopOk(tasks: seq<Task>, run: nat, idle: int, q: seq<seq<nat>>, asleep: int, timed: int, t: Task)
    requires Inv(tasks, run, idle, q, asleep, timed) && run != idle
    requires Live(t) && t.state != RUNNING && t.state != READY && (t.deadline != 0 ==> t.state == BLOCKED)
    ensures Inv(tasks[run := t], NIL, idle, q, asleep + Delta(Asleep, tasks[run], t),
                timed + Delta(Timed, tasks[run], t))
  {
    assert SlotOk(tasks, run, idle, q, run);
    OneSlot(tasks, run, NIL, idle, q, q, asleep, timed, run, t);
  }

  /** The running task gives up the CPU but stays runnable. */
  lemma RequeueOk(tasks: seq<Task>, run: nat, idle: int, r: Ready, asleep: int, timed: int, t: Task)
    requires Inv(tasks, run, idle, r.q, asleep, timed) && t == tasks[run].(state := READY)
    ensures !Queued(r.q, run) && Live(tasks[run])
    ensures run != idle ==> Inv(tasks[run := t], NIL, idle, Pushed(r, run, Clamp(t.prio)).q, asleep, timed)
    ensures run == idle ==> Inv(tasks[run := t], NIL, idle, r.q, asleep, timed)
  {
    assert SlotOk(tasks, run, idle, r.q, run);
    if run == idle {
      OneSlot(tasks, run, NIL, idle, r.q, r.q, asleep, timed, run, t);
    } else {
      PushedMembers(r, run, Clamp(t.prio));
      OneSlot(tasks, run, NIL, idle, r.q, Pushed(r, run, Clamp(t.prio)).q, asleep, timed, run, t);
    }
  }

  /** A READY task taken off its queue (or idle) gets the CPU. */
  lemma StartOk(tasks: seq<Task>, idle: int, q: seq<seq<nat>>, q': seq<seq<nat>>, asleep: int, timed: int, next: nat)
    requires Inv(tasks, NIL, idle, q, asleep, timed) && next < MAX_TASKS && |q'| == LEVELS
    requires Live(tasks[next]) && tasks[next].state == READY
    requires forall p, j: nat {:trigger j in q'[p]} :: 0 <= p < LEVELS ==> (j in q'[p] <==> j in q[p] && j != next)
    ensures Inv(tasks[next := tasks[next].(state := RUNNING)], next, idle, q', asleep, timed)
  {
    assert SlotOk(tasks, NIL, idle, q, next);
    OneSlot(tasks, NIL, next, idle, q, q', asleep, timed, next, tasks[next].(state := RUNNING));
  }

  /** Whom ready_pop picks when idle is not the caller. */
  function Next(r: Ready, idle: nat): nat
    requires |r.q| == LEVELS
  {
    if Level(r) == NIL then idle else (LevelServes(r); r.q[Level(r)][0])
  }

  /** ready_pop hands out a READY task and takes exactly it off its queue. */
  lemma NextOk(tasks: seq<Task>, run: int, idle: nat, r: Ready, asleep: int, timed: int)
    requires Inv(tasks, run, idle, r.q, asleep, timed) && Distinct(r.q)
    requires forall p, j: nat {:trigger j in r.q[p]} :: 0 <= p < LEVELS && j in r.q[p] ==> j < MAX_TASKS
    requires Level(r) == NIL ==> run != idle
    ensures var next := Next(r, idle);
            && next < MAX_TASKS && Live(tasks[next]) && tasks[next].state == READY && next != run
            && (forall p, j: nat {:trigger j in Popped(r).q[p]} ::
                  0 <= p < LEVELS ==> (j in Popped(r).q[p] <==> j in r.q[p] && j != next))
  {
    LevelServes(r);
    if Level(r) == NIL {
      assert SlotOk(tasks, run, idle, r.q, idle);
    } else {
      PoppedMembers(r);
      var next := Next(r, idle);
      assert next in r.q[Level(r)];
      assert SlotOk(tasks, run, idle, r.q, next);
    }
  }

  /** task_yield as a whole: pop, requeue the caller, start the popped task. */
  lemma YieldOk(tasks: seq<Task>, run: nat, idle: nat, r: Ready, asleep: int, timed: int)
    requires Inv(tasks, run, idle, r.q, asleep, timed) && Distinct(r.q) && !(Level(r) == NIL && run == idle)
    requires forall p, j: nat {:trigger j in r.q[p]} :: 0 <= p < LEVELS && j in r.q[p] ==> j < MAX_TASKS
    ensures var next, prev := Next(r, idle), tasks[run].(state := READY);
            var r' := if run == idle then Popped(r) else Pushed(Popped(r), run, Clamp(prev.prio));
            && next < MAX_TASKS && next != run && !Queued(Popped(r).q, run)
            && Live(tasks[run]) && Live(tasks[next]) && tasks[next].state == READY
            && Inv(tasks[run := prev][next := tasks[next].(state := RUNNING)], next, idle, r'.q, asleep, timed)
  {
    var prev := tasks[run].(state := READY);
    NextOk(tasks, run, idle, r, asleep, timed);
    RequeueOk(tasks, run, idle, r, asleep, timed, prev);
    PushedMembers(r, run, Clamp(prev.prio));
    PushedMembers(Popped(r), run, Clamp(prev.prio));
    assert !Queued(Popped(r).q, run);
    var q := if run == idle then r.q else Pushed(r, run, Clamp(prev.prio)).q;
    var r' := if run == idle then Popped(r) else Pushed(Popped(r), run, Clamp(prev.prio));
    StartOk(tasks[run := prev], idle, q, r'.q, asleep, timed, Next(r, idle));
  }

  /** The common tail of task_block, task_sleep_ticks and the exit paths. */
  lemma LeaveOk(tasks: seq<Task>, run: nat, idle: nat, r: Ready, asleep: int, timed: int, t: Task)
    requires Inv(tasks, run, idle, r.q, asleep, timed) && Distinct(r.q) && run != idle
    requires forall p, j: nat {:trigger j in r.q[p]} :: 0 <= p < LEVELS && j in r.q[p] ==> j < MAX_TASKS
    requires Live(t) && t.state != RUNNING && t.state != READY && (t.deadline != 0 ==> t.state == BLOCKED)
    ensures var next := Next(r, idle);
            && next < MAX_TASKS && next != run && Live(tasks[next]) && tasks[next].state == READY
            && Inv(tasks[run := t][next := tasks[next].(state := RUNNING)], next, idle, Popped(r).q,
                   asleep + Delta(Asleep, tasks[run], t), timed + Delta(Timed, tasks[run], t))
  {
    NextOk(tasks, run, idle, r, asleep, timed);
    StopOk(tasks, run, idle, r.q, asleep, timed, t);
    StartOk(tasks[run := t], idle, r.q, Popped(r).q, asleep + Delta(Asleep, tasks[run], t),
            timed + Delta(Timed, tasks[run], t), Next(r, idle));
  }

  lemma RunningSlot(tasks: seq<Task>, run: nat, idle: int, q: seq<seq<nat>>, asleep: int, timed: int)
    requires Inv(tasks, run, idle, q, asleep, timed)
    ensures run < MAX_TASKS && Live(tasks[run]) && tasks[run].state == RUNNING && tasks[run].deadline == 0
    ensures run != idle ==> Live(tasks[idle]) && tasks[idle].state == READY
  {
    assert SlotOk(tasks, run, idle, q, run) && SlotOk(tasks, run, idle, q, idle);
  }

  lemma QueuedInRange(q: seq<seq<nat>>, head: seq<int>, tail: seq<int>, next: seq<int>)
    requires |head| == |tail| == |q| && forall p :: 0 <= p < |q| ==> Linked(q[p], head[p], tail[p], next)
    ensures forall p, j: nat {:trigger j in q[p]} :: 0 <= p < |q| && j in q[p] ==> j < |next|
  {
    forall p, j: nat {:trigger j in q[p]} | 0 <= p < |q| && j in q[p]
      ensures j < |next|
    {
      InRange(q[p], head[p], tail[p], next);
    }
  }

  /** Waking a parked task. */
  function Woken(t: Task): Task
  {
    t.(state := READY, waitingFor := 0, deadline := 0)
  }

  lemma PidsSame(tasks: seq<Task>, nextPid: nat, i: nat, t: Task)
    requires PidsOk(tasks, nextPid) && i < |tasks| && t.pid == tasks[i].pid
    ensures PidsOk(tasks[i := t], nextPid)
  {
  }

  lemma EntriesSame(entries: seq<Wait>, tasks: seq<Task>, i: nat, t: Task)
    requires EntriesOk(entries, tasks) && i < |tasks|
    requires (Waitable(tasks, i) ==> Live(t) && t.state != ZOMBIE && t.state != DEAD)
    ensures EntriesOk(entries, tasks[i := t])
  {
  }

  // ---- the scheduler ---------------------------------------------------------

  /** The time slice in timer ticks: ten milliseconds rounded up, at least one. */
  function Quantum(frequency: nat): (n: nat)
    ensures n >= 1 && n * 1000 >= frequency * 10
    ensures n > 1 ==> (n - 1) * 1000 < frequency * 10
  {
    var n := (frequency * 10 + 999) / 1000;
    if n == 0 then 1 else n
  }

  ghost predicate Handed(current: nat, idle: nat, q: seq<seq<nat>>, flagged: bool, slice: nat, frequency: nat)
  {
    && current != idle && (exists p :: 0 <= p < |q| && q[p] != [])
    && (flagged || slice + 1 >= Quantum(frequency))
  }

  /** No free slot, and no zombie whose slot could be reclaimed on the spot. */
  ghost predicate Full(tasks: seq<Task>)
  {
    forall j :: 0 <= j < |tasks| ==> Live(tasks[j]) && !(Reapable(tasks[j]) && !tasks[j].vfs)
  }

  class Scheduler {
    const rq: ReadyQueues
    var tasks: seq<Task>
    var current: nat
    var idle: nat
    var nextPid: nat
    var nSleeping: int
    var nTimed: int
    var needResched: bool
    var slice: nat
    /** Wait-queue entries, newest first. */
    var entries: seq<Wait>
    /** The slot whose state is RUNNING; NIL inside a switch. */
    ghost var running: int
    /** The slot being taken apart by mark_task_exited, else NIL. */
    ghost var limbo: int

    ghost predicate Valid()
      reads this, rq
    {
      && rq.Valid() && |tasks| == MAX_TASKS && current < MAX_TASKS
      && (limbo == NIL || 0 <= limbo < MAX_TASKS)
      && Inv(View(tasks, limbo), running, idle, rq.q, nSleeping, nTimed)
      && PidsOk(tasks, nextPid) && EntriesOk(entries, View(tasks, limbo))
    }

    /** The state between two steps. */
    ghost predicate Stable()
      reads this, rq
    {
      Valid() && running == current && limbo == NIL
    }

    /** sched_init: the caller becomes task 1, idle is spawned as task 2 and taken
        off the ready queue again. */
    constructor ()
      ensures Stable() && fresh(rq)
      ensures current == 0 && idle == 1 && rq.State() == Ready([[], [], []], 0, 0)
      ensures tasks == seq(MAX_TASKS, _ => NO_TASK)[0 := NO_TASK.(pid := 1, prio := NORMAL)]
                                                   [1 := NO_TASK.(pid := 2, state := READY, prio := NORMAL)]
    {
      hide Inv, PidsOk, Linked, Distinct, Removed, Without;
      var queues := new ReadyQueues();
      queues.Push(1, NORMAL);
      assert queues.q[1] == [1];
      assert queues.q == [[], [1], []];
      OnlyOne(queues.State());
      var _ := queues.Remove(1);
      rq := queues;
      tasks := seq(MAX_TASKS,
                   _ => NO_TASK)[0 := NO_TASK.(pid := 1, prio := NORMAL)][1 := NO_TASK.(pid := 2, state := READY, prio := NORMAL)];
      current, idle, nextPid := 0, 1, 3;
      nSleeping, nTimed, needResched, slice := 0, 0, false, 0;
      entries := [];
      running, limbo := 0, NIL;
      new;
      InitOk(tasks, rq.q);
    }

    /** ready_push */
    method ReadyPush(t: nat)
      requires rq.Valid() && t < MAX_TASKS && !Queued(rq.q, t) && |tasks| == MAX_TASKS && current < MAX_TASKS
      modifies rq, this`needResched
      ensures rq.Valid() && rq.State() == Pushed(old(rq.State()), t, Clamp(tasks[t].prio))
      ensures needResched <==>
              old(needResched) || (t != current && (current == idle || Clamp(tasks[t].prio) > tasks[current].prio))
    {
      rq.Push(t, tasks[t].prio);
      if t != current && (current == idle || Clamp(tasks[t].prio) > tasks[current].prio) {
        needResched := true;
      }
    }

    /** task_wakeup: a parked task other than the one being taken apart becomes
        READY at the back of its queue; any other state is left alone. */
    method Wakeup(t: nat)
      requires Valid() && t < MAX_TASKS && (t == limbo ==> tasks[t].state != BLOCKED)
      modifies this`tasks, this`nTimed, this`needResched, rq
      ensures Valid()
      ensures tasks == if old(tasks)[t].state == BLOCKED
                       then old(tasks)[t := old(tasks)[t].(state := READY, waitingFor := 0, deadline := 0)] else old(tasks)
      ensures rq.State() == if old(tasks)[t].state == BLOCKED then Pushed(old(rq.State()), t, Clamp(tasks[t].prio))
          else old(rq.State())
      ensures needResched <==> old(needResched) || Outranked(old(tasks), tasks, current, idle)
    {
      hide Inv, PidsOk, EntriesOk, Linked, Distinct;
      if tasks[t].state != BLOCKED {
        return;
      }
      ghost var v0 := View(tasks, limbo);
      BlockedSlot(v0, running, idle, rq.q, nSleeping, nTimed, t);
      EnqueueOk(v0, running, idle, rq.State(), nSleeping, nTimed, t, Woken(tasks[t]));
      PidsSame(tasks, nextPid, t, Woken(tasks[t]));
      EntriesSame(entries, v0, t, Woken(tasks[t]));
      if tasks[t].deadline != 0 {
        nTimed := nTimed - 1;
      }
      tasks := tasks[t := Woken(tasks[t])];
      assert View(tasks, limbo) == v0[t := Woken(v0[t])];
      ReadyPush(t);
    }

    /** ready_pop */
    method ReadyPop() returns (next: int)
      requires rq.Valid()
      modifies rq
      ensures rq.Valid() && rq.State() == Popped(old(rq.State()))
      ensures next == if Level(old(rq.State())) == NIL && current == idle then NIL else Next(old(rq.State()), idle)
    {
      hide Linked, Distinct;
      next := rq.Pop();
      if next == NIL && current != idle {
        next := idle;
      }
    }

    /** task_yield: the caller goes to the back of its queue (idle to none) and
        the next task runs; nothing happens when idle finds nobody else. */
    method Yield()
      requires Stable()
      modifies this`tasks, this`current, this`needResched, this`slice, this`running, rq
      ensures Stable() && slice == 0 && !needResched
      ensures if Level(old(rq.State())) == NIL && old(current) == idle then
                tasks == old(tasks) && current == old(current) && rq.State() == Popped(old(rq.State()))
              else
                && current == Next(old(rq.State()), idle) && current != old(current)
                && tasks == old(tasks)[old(current) := old(tasks)[old(current)].(state := READY)]
                                      [current := old(tasks)[current].(state := RUNNING)]
                && rq.State() == if old(current) == idle then Popped(old(rq.State()))
                                 else Pushed(Popped(old(rq.State())), old(current),
                                             Clamp(old(tasks)[old(current)].prio))
    {
      hide Inv, PidsOk, EntriesOk, Linked, Distinct, Level, Popped, Pushed, Next, Queued, Clamp;
      slice, needResched := 0, false;
      ghost var r0, tasks0 := rq.State(), tasks;
      QueuedInRange(rq.q, rq.head, rq.tail, rq.next);
      var next := ReadyPop();
      if next == NIL {
        PoppedIdle(r0);
        return;
      }
      YieldOk(tasks, current, idle, r0, nSleeping, nTimed);
      RunningSlot(tasks, current, idle, r0.q, nSleeping, nTimed);
      var prev := current;
      tasks := tasks[prev := tasks[prev].(state := READY)];
      if prev != idle {
        ReadyPush(prev);
      }
      Start(next);
      TwoSame(entries, tasks0, nextPid, prev, tasks0[prev].(state := READY), next, tasks0[next].(state := RUNNING));
    }

    /** Give the CPU to `next`. */
    method Start(next: nat)
      requires next < |tasks|
      modifies this`tasks, this`current, this`running
      ensures tasks == old(tasks)[next := old(tasks)[next].(state := RUNNING)] && current == next && running == next
    {
      tasks := tasks[next := tasks[next].(state := RUNNING)];
      current, running := next, next;
    }

    /** sched_preempt_tick */
    method PreemptTick(frequency: nat)
      requires Stable()
      modifies this`tasks, this`current, this`needResched, this`slice, this`running, rq
      ensures Stable()
      // the running task loses the CPU exactly when somebody is ready and either
      // outranks it or has waited out the quantum
      ensures if Handed(old(current), idle, old(rq.q), old(needResched), old(slice), frequency) then
                && current == Next(old(rq.State()), idle) && current != old(current)
                && tasks == old(tasks)[old(current) := old(tasks)[old(current)].(state := READY)]
                                      [current := old(tasks)[current].(state := RUNNING)]
                && rq.State() == Pushed(Popped(old(rq.State())), old(current), Clamp(old(tasks)[old(current)].prio))
              else
                && current == old(current) && tasks == old(tasks) && rq.State() == old(rq.State())
                && slice == if current == idle || old(slice) + 1 >= Quantum(frequency) then 0 else old(slice) + 1
      ensures needResched <==> old(needResched) && current == old(current) == idle
    {
      RunningSlot(tasks, current, idle, rq.q, nSleeping, nTimed);
      hide Inv, PidsOk, EntriesOk, Linked, Distinct, Popped, Pushed, Next, Clamp, Level, Quantum, View;
      LevelServes(rq.State());
      if Level(rq.State()) == NIL {
        PoppedIdle(rq.State());
      }
      if current == idle {
        slice := 0;
        return;
      }
      if needResched {
        needResched := false;
        var any := rq.Any();
        if any {
          Yield();
          return;
        }
      }
      slice := slice + 1;
      if slice < Quantum(frequency) {
        return;
      }
      slice := 0;
      var any := rq.Any();
      if any {
        Yield();
      }
    }

    /** task_block: park the caller and run the next task. */
    method Block(waitingFor: int)
      requires Stable() && current != idle
      modifies this`tasks, this`current, this`needResched, this`slice, this`running, rq
      ensures Stable() && slice == 0 && !needResched
      ensures current == Next(old(rq.State()), idle) && current != old(current) && rq.State() == Popped(old(rq.State()))
      ensures tasks == old(tasks)[old(current) := old(tasks)[old(current)].(state := BLOCKED, waitingFor := waitingFor)]
                                 [current := old(tasks)[current].(state := RUNNING)]
    {
      RunningSlot(tasks, current, idle, rq.q, nSleeping, nTimed);
      Park(tasks[current].(state := BLOCKED, waitingFor := waitingFor));
    }

    /** Pop the next task and leave the caller behind as `parked`; the counters
        already include the parked record. */
    method Park(parked: Task)
      requires rq.Valid() && |tasks| == MAX_TASKS && current < MAX_TASKS && running == current && limbo == NIL
      requires current != idle
      requires parked.pid == tasks[current].pid && (parked.state == BLOCKED || parked.state == SLEEPING)
      requires parked.deadline != 0 ==> parked.state == BLOCKED
      requires Inv(tasks, current, idle, rq.q, nSleeping - Delta(Asleep, tasks[current], parked),
                   nTimed - Delta(Timed, tasks[current], parked))
      requires PidsOk(tasks, nextPid) && EntriesOk(entries, tasks)
      modifies this`tasks, this`current, this`needResched, this`slice, this`running, rq
      ensures Stable() && slice == 0 && !needResched
      ensures current == Next(old(rq.State()), idle) && current != old(current) && rq.State() == Popped(old(rq.State()))
      ensures tasks == old(tasks)[old(current) := parked][current := old(tasks)[current].(state := RUNNING)]
    {
      hide Inv, PidsOk, EntriesOk, Linked, Distinct, Level, Popped, Next, Delta, Queued;
      slice, needResched := 0, false;
      ghost var r0, tasks0 := rq.State(), tasks;
      ghost var a0, t0 := nSleeping - Delta(Asleep, tasks[current], parked),
          nTimed - Delta(Timed, tasks[current], parked);
      QueuedInRange(rq.q, rq.head, rq.tail, rq.next);
      RunningSlot(tasks, current, idle, r0.q, a0, t0);
      LeaveOk(tasks, current, idle, r0, a0, t0, parked);
      var next := ReadyPop();
      var prev := current;
      tasks := tasks[prev := parked];
      Start(next);
      TwoSame(entries, tasks0, nextPid, prev, parked, next, tasks0[next].(state := RUNNING));
    }

    /** task_block_until up to its context switch; -EINTR (false) when a signal is
        already deliverable. */
    method BlockUntil(deadline: nat, deliverable: bool) returns (parked: bool)
      requires Stable() && current != idle
      modifies this`tasks, this`current, this`needResched, this`slice, this`running, this`nTimed, rq
      ensures Stable() && parked == !deliverable
      ensures !parked ==> tasks == old(tasks) && current == old(current) && rq.State() == old(rq.State())
      ensures slice == (if parked then 0 else old(slice)) && needResched == (!parked && old(needResched))
      ensures parked ==>
                && current == Next(old(rq.State()), idle) && current != old(current)
                && rq.State() == Popped(old(rq.State()))
                && tasks == old(tasks)[old(current) := old(tasks)[old(current)].(
                                         state := BLOCKED, waitingFor := -1, deadline := deadline, timedOut := false,
                                         interrupted := false, interruptible := true)]
                                      [current := old(tasks)[current].(state := RUNNING)]
    {
      if deliverable {
        return false;
      }
      RunningSlot(tasks, current, idle, rq.q, nSleeping, nTimed);
      if deadline != 0 {
        nTimed := nTimed + 1;
      }
      Park(Napping(tasks[current], deadline));
      parked := true;
    }

    /** task_block_until after the switch back: the reason and the cleared flags. */
    method Resumed() returns (rc: int)
      requires Stable()
      modifies this`tasks
      ensures Stable()
      ensures rc == if old(tasks)[current].interrupted then -4 else if old(tasks)[current].timedOut then -110 else 0
      ensures tasks == old(tasks)[current := old(tasks)[current].(timedOut := false, interrupted := false, interruptible := false)]
    {
      RunningSlot(tasks, current, idle, rq.q, nSleeping, nTimed);
      var t := tasks[current];
      rc := if t.interrupted then -4 else if t.timedOut then -110 else 0;
      Relabel(current, t.(timedOut := false, interrupted := false, interruptible := false));
    }

    /** Change fields of a live task that the scheduler does not look at. */
    method Relabel(i: nat, t: Task)
      requires Valid() && i < MAX_TASKS && Live(tasks[i])
      requires t.pid == tasks[i].pid && t.state == tasks[i].state && t.prio == tasks[i].prio
      requires t.deadline == tasks[i].deadline && t.user == tasks[i].user
      modifies this`tasks
      ensures Valid() && tasks == old(tasks)[i := t]
    {
      hide Inv, PidsOk, EntriesOk, Linked, Distinct;
      ghost var v0 := View(tasks, limbo);
      var t' := if i == limbo then Buried(t) else t;
      SameSlot(v0, running, idle, rq.q, nSleeping, nTimed, i, t');
      PidsSame(tasks, nextPid, i, t);
      EntriesSame(entries, v0, i, t');
      tasks := tasks[i := t];
      assert View(tasks, limbo) == v0[i := t'];
    }

    /** task_interrupt */
    method Interrupt(t: nat)
      requires Valid() && t < MAX_TASKS && limbo == NIL
      modifies this`tasks, this`nTimed, this`needResched, rq
      ensures Valid()
      ensures tasks == if old(tasks)[t].state == BLOCKED && old(tasks)[t].interruptible
                       then old(tasks)[t := Woken(old(tasks)[t].(interrupted := true))] else old(tasks)
      ensures old(tasks)[t].state != BLOCKED || !old(tasks)[t].interruptible ==> rq.State() == old(rq.State())
      ensures needResched <==> old(needResched) || Outranked(old(tasks), tasks, current, idle)
    {
      hide Inv, PidsOk, EntriesOk, Linked, Distinct, Pushed;
      if tasks[t].state == BLOCKED && tasks[t].interruptible {
        BlockedSlot(tasks, running, idle, rq.q, nSleeping, nTimed, t);
        Relabel(t, tasks[t].(interrupted := true));
        Wakeup(t);
      }
    }

    /** task_wake_futex: wakes the first task parked on the key, if any. */
    method WakeFutex(key: nat) returns (woke: bool)
      requires Valid() && limbo == NIL
      modifies this`tasks, this`nTimed, this`needResched, rq
      ensures Valid()
      ensures !woke ==> tasks == old(tasks) && rq.State() == old(rq.State())
                        && forall i :: 0 <= i < MAX_TASKS ==> !OnFutex(old(tasks)[i], key)
      ensures woke ==> exists i :: && 0 <= i < MAX_TASKS && OnFutex(old(tasks)[i], key)
                                   && (forall j :: 0 <= j < i ==> !OnFutex(old(tasks)[j], key))
                                   && tasks == old(tasks)[i := Woken(old(tasks)[i].(futex := 0))]
      ensures needResched <==> old(needResched) || Outranked(old(tasks), tasks, current, idle)
    {
      var i := FindFutex(key);
      if i == NIL {
        return false;
      }
      Relabel(i, tasks[i].(futex := 0));
      Wakeup(i);
      woke := true;
    }

    method FindFutex(key: nat) returns (i: int)
      requires Valid()
      ensures i == NIL ==> forall j :: 0 <= j < MAX_TASKS ==> !OnFutex(tasks[j], key)
      ensures i != NIL ==>
                0 <= i < MAX_TASKS && OnFutex(tasks[i], key) && forall j :: 0 <= j < i ==> !OnFutex(tasks[j], key)
    {
      i := 0;
      while i < MAX_TASKS
        invariant 0 <= i <= MAX_TASKS
        invariant forall j :: 0 <= j < i ==> !OnFutex(tasks[j], key)
      {
        if tasks[i].pid != 0 && tasks[i].state == BLOCKED && tasks[i].futex == key {
          return;
        }
        i := i + 1;
      }
      i := NIL;
    }

    /** task_sleep_ticks */
    method SleepTicks(now: nat, ticks: nat)
      requires Stable() && current != idle
      modifies this`tasks, this`current, this`needResched, this`slice, this`running, this`nSleeping, rq
      ensures Stable()
      ensures ticks == 0 ==> tasks == old(tasks) && current == old(current) && rq.State() == old(rq.State())
      ensures slice == (if ticks != 0 then 0 else old(slice)) && needResched == (ticks == 0 && old(needResched))
      ensures ticks != 0 ==>
                && current == Next(old(rq.State()), idle) && current != old(current)
                && rq.State() == Popped(old(rq.State()))
                && tasks == old(tasks)[old(current) := old(tasks)[old(current)].(state := SLEEPING, wakeTick := (now + ticks) % U64)]
                                      [current := old(tasks)[current].(state := RUNNING)]
    {
      if ticks == 0 {
        return;
      }
      RunningSlot(tasks, current, idle, rq.q, nSleeping, nTimed);
      nSleeping := nSleeping + 1;
      Park(tasks[current].(wakeTick := (now + ticks) % U64, state := SLEEPING));
    }

    /** A sleeper whose tick has come. */
    method Rouse(i: nat)
      requires Valid() && limbo == NIL && i < MAX_TASKS && Live(tasks[i]) && tasks[i].state == SLEEPING
      modifies this`tasks, this`nSleeping, this`needResched, rq
      ensures Valid() && tasks == old(tasks)[i := old(tasks)[i].(state := READY)]
      ensures needResched <==> old(needResched) || Outranked(old(tasks), tasks, current, idle)
    {
      hide Inv, PidsOk, EntriesOk, Linked, Distinct;
      var t := tasks[i].(state := READY);
      QuietSlot(tasks, running, idle, rq.q, nSleeping, nTimed, i);
      EnqueueOk(tasks, running, idle, rq.State(), nSleeping, nTimed, i, t);
      PidsSame(tasks, nextPid, i, t);
      EntriesSame(entries, tasks, i, t);
      tasks := tasks[i := t];
      nSleeping := nSleeping - 1;
      ReadyPush(i);
    }

    /** sched_wake_sleepers: every due sleeper and every timed-out block becomes
        READY, nobody else changes; the counters make the shortcut exact. */
    method WakeSleepers(now: nat)
      requires Valid() && limbo == NIL
      modifies this`tasks, this`nSleeping, this`nTimed, this`needResched, rq
      ensures Valid()
      ensures forall i :: 0 <= i < MAX_TASKS ==> tasks[i] == Due(old(tasks)[i], now)
      ensures needResched <==> old(needResched) || Outranked(old(tasks), tasks, current, idle)
    {
      if nSleeping == 0 && nTimed == 0 {
        NobodyDue(tasks, running, idle, rq.q, now);
        return;
      }
      hide Inv, PidsOk, EntriesOk, Linked, Distinct, Due;
      var i := 0;
      while i < MAX_TASKS
        invariant 0 <= i <= MAX_TASKS && Valid()
        invariant forall j :: 0 <= j < i ==> tasks[j] == Due(old(tasks)[j], now)
        invariant forall j :: i <= j < MAX_TASKS ==> tasks[j] == old(tasks)[j]
        invariant needResched <==> old(needResched) || Outranked(old(tasks), tasks, current, idle)
      {
        ghost var before := tasks;
        WakeDue(i, now);
        DueRanks(old(tasks), before, tasks, current, idle, i, now);
        i := i + 1;
      }
    }

    /** One slot of the walk in sched_wake_sleepers. */
    method WakeDue(i: nat, now: nat)
      requires Valid() && limbo == NIL && i < MAX_TASKS
      modifies this`tasks, this`nSleeping, this`nTimed, this`needResched, rq
      ensures Valid() && tasks == old(tasks)[i := Due(old(tasks)[i], now)]
      ensures needResched <==> old(needResched) || Outranked(old(tasks), tasks, current, idle)
    {
      hide Inv, PidsOk, EntriesOk, Linked, Distinct;
      var t := tasks[i];
      if !Live(t) {
        return;
      }
      if t.state == SLEEPING && t.wakeTick <= now {
        Rouse(i);
      } else if t.state == BLOCKED && t.deadline != 0 && t.deadline <= now {
        Relabel(i, t.(timedOut := true));
        Wakeup(i);
      }
    }

    /** sched_set_priority: a queued task moves to the back of its new queue, any
        other picks the level up when it is next pushed. */
    method SetPriority(i: nat, prio: int) returns (ok: bool)
      requires Stable() && i < MAX_TASKS && Live(tasks[i])
      modifies this`tasks, this`needResched, rq
      ensures Stable() && (ok <==> LOW <= prio <= HIGH)
      ensures tasks == if ok then old(tasks)[i := old(tasks)[i].(prio := prio)] else old(tasks)
      ensures !ok || old(tasks)[i].prio == prio ==> rq.State() == old(rq.State())
      ensures ok && old(tasks)[i].prio != prio ==>
                rq.State() == if Queued(old(rq.q), i) then Pushed(Removed(old(rq.State()), i), i, prio)
                    else Removed(old(rq.State()), i)
      ensures needResched <==>
              || old(needResched)
              || (&& ok && old(tasks)[i].prio != prio && Queued(old(rq.q), i) && i != current
                  && (current == idle || prio > tasks[current].prio))
    {
      if prio < LOW || prio > HIGH {
        return false;
      }
      hide Inv, PidsOk, EntriesOk, Linked, Distinct, Removed, Pushed, Queued;
      if tasks[i].prio != prio {
        Requeue(i, prio);
      }
      ok := true;
      assert tasks == old(tasks)[i := old(tasks)[i].(prio := prio)];
    }

    method Requeue(i: nat, prio: nat)
      requires Stable() && i < MAX_TASKS && Live(tasks[i]) && prio <= HIGH
      modifies this`tasks, this`needResched, rq
      ensures Stable() && tasks == old(tasks)[i := old(tasks)[i].(prio := prio)]
      ensures rq.State() == if Queued(old(rq.q), i) then Pushed(Removed(old(rq.State()), i), i, prio)
          else Removed(old(rq.State()), i)
      ensures needResched <==>
              old(needResched) || (Queued(old(rq.q), i) && i != current && (current == idle || prio > tasks[current].prio))
    {
      hide Inv, PidsOk, EntriesOk, Linked, Distinct, Removed, Pushed, Queued;
      var t := tasks[i].(prio := prio);
      PriorityOk(tasks, current, idle, rq.State(), nSleeping, nTimed, i, t);
      PidsSame(tasks, nextPid, i, t);
      EntriesSame(entries, tasks, i, t);
      var queued := rq.Remove(i);
      tasks := tasks[i := t];
      if queued {
        ReadyPush(i);
      }
    }

    /** task_find */
    method Find(pid: int) returns (i: int)
      requires |tasks| == MAX_TASKS
      ensures i == NIL || 0 <= i < MAX_TASKS
      ensures i == NIL ==> pid <= 0 || forall j :: 0 <= j < MAX_TASKS ==> tasks[j].pid != pid
      ensures i != NIL ==> tasks[i].pid == pid && pid > 0
    {
      if pid <= 0 {
        return NIL;
      }
      i := 0;
      while i < MAX_TASKS
        invariant 0 <= i <= MAX_TASKS
        invariant forall j :: 0 <= j < i ==> tasks[j].pid != pid
      {
        if tasks[i].pid == pid {
          return;
        }
        i := i + 1;
      }
      i := NIL;
    }

    // ---- wait queues ---------------------------------------------------------

    /** wq_add */
    method WaitOn(queue: nat)
      requires Stable()
      modifies this`entries
      ensures Stable() && entries == [Wait(queue, current)] + old(entries)
    {
      RunningSlot(tasks, current, idle, rq.q, nSleeping, nTimed);
      entries := [Wait(queue, current)] + entries;
    }

    /** wq_remove_all */
    method LeaveQueues(t: nat)
      requires Stable() && t < MAX_TASKS
      modifies this`entries
      ensures Stable() && entries == Drop(old(entries), t)
    {
      DropOk(entries, tasks, t, tasks[t]);
      assert tasks[t := tasks[t]] == tasks;
      entries := Drop(entries, t);
    }

    /** wq_wake_all: every task parked on the queue becomes READY; the entries stay. */
    method WakeAll(queue: nat)
      requires Valid()
      modifies this`tasks, this`nTimed, this`needResched, rq
      ensures Valid()
      ensures forall i :: 0 <= i < MAX_TASKS ==>
                tasks[i] == if old(tasks)[i].state == BLOCKED && Wait(queue, i) in entries then Woken(old(tasks)[i])
                    else old(tasks)[i]
      ensures needResched <==> old(needResched) || Outranked(old(tasks), tasks, current, idle)
    {
      hide Inv, PidsOk, EntriesOk, Linked, Distinct, View, Pushed, Clamp, Outranked;
      NoneOutranks(tasks, current, idle);
      var k := 0;
      while k < |entries|
        invariant 0 <= k <= |entries| && Valid()
        invariant forall i :: 0 <= i < MAX_TASKS ==>
                    tasks[i] == if old(tasks)[i].state == BLOCKED && Wait(queue, i) in entries[..k]
                                then Woken(old(tasks)[i]) else old(tasks)[i]
        invariant needResched <==> old(needResched) || Outranked(old(tasks), tasks, current, idle)
      {
        if entries[k].queue == queue {
          NotWaiting(entries, tasks, limbo, queue);
          assert entries[k] == Wait(queue, entries[k].task);
          ghost var before := tasks;
          Wakeup(entries[k].task);
          OutranksTwice(old(tasks), before, tasks, current, idle);
        }
        assert entries[..k + 1] == entries[..k] + [entries[k]];
        k := k + 1;
      }
      assert entries[..k] == entries;
    }

    // ---- exit, kill and reap ---------------------------------------------------

    /** Task i is off every ready queue and about to be taken apart: the table is
        consistent if i counts as a zombie. */
    ghost predicate Dying(i: nat)
      reads this, rq
    {
      && rq.Valid() && |tasks| == MAX_TASKS && current < MAX_TASKS && limbo == NIL && i < MAX_TASKS && Live(tasks[i])
      && PidsOk(tasks, nextPid) && EntriesOk(Drop(entries, i), View(tasks, i))
      && Inv(View(tasks, i), if running == i then NIL else running, idle, rq.q, nSleeping,
             nTimed - (if tasks[i].deadline != 0 then 1 else 0))
    }

    /** Dying while blocked on a child: nobody will read that child's exit code. */
    method ReleaseAwaited(i: nat)
      requires Dying(i)
      modifies this`tasks
      ensures Dying(i)
      ensures forall j :: 0 <= j < MAX_TASKS ==>
                tasks[j] == if Abandoned(old(tasks), i, j) then old(tasks)[j].(unclaimed := true) else old(tasks)[j]
    {
      hide Inv, PidsOk, EntriesOk, Linked, Distinct;
      if tasks[i].state == BLOCKED && tasks[i].waitingFor > 0 {
        var w := Find(tasks[i].waitingFor);
        if w != NIL {
          PidIndex(tasks, nextPid, w);
        }
        if w != NIL && tasks[w].state == ZOMBIE {
          var t := tasks[w].(unclaimed := true);
          ghost var v0, run' := View(tasks, i), if running == i then NIL else running;
          SameSlot(v0, run', idle, rq.q, nSleeping, nTimed - (if tasks[i].deadline != 0 then 1 else 0), w, t);
          PidsSame(tasks, nextPid, w, t);
          EntriesSame(Drop(entries, i), v0, w, t);
          tasks := tasks[w := t];
          assert View(tasks, i) == v0[w := t];
        }
      }
    }

    /** Leave every wait queue and drop the deadline, while the stack is valid. */
    method Detach(i: nat)
      requires Dying(i)
      modifies this`tasks, this`entries, this`nTimed, this`limbo, this`running
      ensures Valid() && limbo == i && running == (if old(running) == i then NIL else old(running))
      ensures tasks == old(tasks)[i := old(tasks)[i].(deadline := 0)] && entries == Drop(old(entries), i)
    {
      hide Inv, EntriesOk, Linked, Distinct, PidsOk, Drop, View;
      entries := Drop(entries, i);
      nTimed := nTimed - (if tasks[i].deadline != 0 then 1 else 0);
      PidsSame(tasks, nextPid, i, tasks[i].(deadline := 0));
      SameView(tasks, i);
      tasks := tasks[i := tasks[i].(deadline := 0)];
      limbo := i;
      running := if running == i then NIL else running;
    }

    /** The wakes caused by closing pipe ends. */
    method WakeMany(queues: seq<nat>)
      requires Valid()
      modifies this`tasks, this`nTimed, this`needResched, rq
      ensures Valid() && (0 <= limbo < MAX_TASKS ==> tasks[limbo] == old(tasks)[limbo])
      ensures forall j :: 0 <= j < MAX_TASKS ==>
                tasks[j] == if old(tasks)[j].state == BLOCKED && OnAny(entries, queues, j) then Woken(old(tasks)[j])
                    else old(tasks)[j]
      ensures needResched <==> old(needResched) || Outranked(old(tasks), tasks, current, idle)
    {
      hide Inv, PidsOk, EntriesOk, Linked, Distinct, View, OnAny, Outranked;
      NoneOutranks(tasks, current, idle);
      var k := 0;
      OnNone(entries);
      while k < |queues|
        invariant 0 <= k <= |queues| && Valid() && (0 <= limbo < MAX_TASKS ==> tasks[limbo] == old(tasks)[limbo])
        invariant forall j :: 0 <= j < MAX_TASKS ==>
                    tasks[j] == if old(tasks)[j].state == BLOCKED && OnAny(entries, queues[..k], j) then Woken(old(tasks)[j])
                        else old(tasks)[j]
        invariant needResched <==> old(needResched) || Outranked(old(tasks), tasks, current, idle)
      {
        NotWaiting(entries, tasks, limbo, queues[k]);
        OnNext(entries, queues, k);
        ghost var before := tasks;
        WakeAll(queues[k]);
        OutranksTwice(old(tasks), before, tasks, current, idle);
        k := k + 1;
      }
      assert queues[..k] == queues;
    }

    /** task_vfork_release on a dying task. */
    method VforkRelease(i: nat)
      requires Valid() && limbo == i && Live(tasks[i])
      modifies this`tasks, this`nTimed, this`needResched, rq
      ensures Valid() && tasks[i] == old(tasks)[i].(vforkParent := 0)
      ensures forall j :: 0 <= j < MAX_TASKS && j != i ==>
                tasks[j] == if old(tasks)[i].vforkParent != 0 && old(tasks)[j].state == BLOCKED && Wait(VFORK_QUEUE, j) in entries
                            then Woken(old(tasks)[j]) else old(tasks)[j]
      ensures needResched <==> old(needResched) || Outranked(old(tasks), tasks, current, idle)
    {
      hide Inv, PidsOk, Linked, Distinct;
      if tasks[i].vforkParent != 0 {
        Relabel(i, tasks[i].(vforkParent := 0));
        NotWaiting(entries, tasks, limbo, VFORK_QUEUE);
        WakeAll(VFORK_QUEUE);
      }
    }

    /** The dying task becomes a zombie. */
    method Bury(i: nat, code: int)
      requires Valid() && limbo == i && Live(tasks[i]) && tasks[i].deadline == 0
      modifies this`tasks, this`limbo
      ensures Valid() && limbo == NIL && tasks == old(tasks)[i := old(tasks)[i].(state := ZOMBIE, exitCode := code)]
    {
      hide Inv, PidsOk, EntriesOk, Linked, Distinct;
      var t := tasks[i].(state := ZOMBIE, exitCode := code);
      ghost var v0 := View(tasks, i);
      SameSlot(v0, running, idle, rq.q, nSleeping, nTimed, i, t);
      PidsSame(tasks, nextPid, i, t);
      EntriesSame(entries, v0, i, t);
      tasks := tasks[i := t];
      limbo := NIL;
      assert tasks == v0[i := t];
    }

    /** Wake every task blocked on `pid`. */
    method WakeWaiters(pid: nat) returns (claimed: bool)
      requires Valid() && limbo == NIL
      modifies this`tasks, this`nTimed, this`needResched, rq
      ensures Valid()
      ensures forall j :: 0 <= j < MAX_TASKS ==>
                tasks[j] == if WaitsFor(old(tasks)[j], pid) then Woken(old(tasks)[j]) else old(tasks)[j]
      ensures claimed <==> exists j :: 0 <= j < MAX_TASKS && WaitsFor(old(tasks)[j], pid)
      ensures needResched <==> old(needResched) || Outranked(old(tasks), tasks, current, idle)
    {
      hide Inv, PidsOk, EntriesOk, Linked, Distinct, View, Outranked;
      NoneOutranks(tasks, current, idle);
      claimed := false;
      var j := 0;
      while j < MAX_TASKS
        invariant 0 <= j <= MAX_TASKS && Valid()
        invariant forall k :: 0 <= k < j ==>
                    tasks[k] == if WaitsFor(old(tasks)[k], pid) then Woken(old(tasks)[k]) else old(tasks)[k]
        invariant forall k :: j <= k < MAX_TASKS ==> tasks[k] == old(tasks)[k]
        invariant claimed <==> exists k :: 0 <= k < j && WaitsFor(old(tasks)[k], pid)
        invariant needResched <==> old(needResched) || Outranked(old(tasks), tasks, current, idle)
      {
        if tasks[j].pid != 0 && tasks[j].state == BLOCKED && tasks[j].waitingFor == pid {
          ghost var before := tasks;
          Wakeup(j);
          OutranksTwice(old(tasks), before, tasks, current, idle);
          claimed := true;
        }
        j := j + 1;
      }
    }

    /** mark_task_exited: i becomes a zombie on no queue of any kind, everybody
        blocked on it is released, and no other task is touched except by being
        woken.  `pipes` are the queues woken by closing its pipe ends. */
    method MarkExited(i: nat, code: int, pipes: seq<nat>, notify: bool)
      requires Dying(i)
      modifies this`tasks, this`entries, this`nTimed, this`limbo, this`running, this`needResched, rq
      ensures Valid() && limbo == NIL && running == (if old(running) == i then NIL else old(running))
      ensures Live(tasks[i]) && tasks[i].state == ZOMBIE && tasks[i].exitCode == code && !Queued(rq.q, i)
      ensures Exited(old(tasks), old(entries), tasks, entries, i, code, pipes, notify)
      ensures needResched <==> old(needResched) || Outranked(old(tasks), tasks, current, idle)
    {
      hide Inv, PidsOk, EntriesOk, Linked, Distinct, Outranked, Exited, Abandoned, OnAny, Woken, WaitsFor, Drop, View;
      ghost var t0 := tasks;
      ReleaseAwaited(i);
      NotAbandoned(t0, i);
      ghost var t1 := tasks;
      Detach(i);
      ghost var t1d := tasks;
      WakeMany(pipes);
      ghost var t2 := tasks;
      VforkRelease(i);
      ghost var t2v := tasks;
      Bury(i, code);
      ghost var t3 := tasks;
      var claimed := WakeWaiters(tasks[i].pid);
      ghost var t4 := tasks;
      NotOneself(t3[i], t3[i].pid);
      Announce(i, !claimed, notify);
      AllDropped(old(entries), i);
      FlaggedByParts(t0, old(entries), t1, t1d, t2, t2v, t3, t4, tasks, entries, i, code, pipes, notify, claimed, current, idle);
    }

    /** The end of mark_task_exited: record whether the code is claimed and tell
        the parent. */
    method Announce(i: nat, unclaimed: bool, notify: bool)
      requires Valid() && limbo == NIL && i < MAX_TASKS && Live(tasks[i]) && tasks[i].state == ZOMBIE
      modifies this`tasks, this`nTimed, this`needResched, rq
      ensures Valid() && tasks[i] == old(tasks)[i].(unclaimed := unclaimed) && !Queued(rq.q, i)
      ensures forall j :: 0 <= j < MAX_TASKS && j != i ==>
                tasks[j] == Told(old(tasks)[j], Wait(CHILD_QUEUE, j) in entries, notify, old(tasks)[i].parent)
      ensures needResched <==> old(needResched) || Outranked(old(tasks), tasks, current, idle)
    {
      hide Inv, PidsOk, EntriesOk, Linked, Distinct, Outranked;
      Relabel(i, tasks[i].(unclaimed := unclaimed));
      ghost var t1 := tasks;
      WakeAll(CHILD_QUEUE);
      ghost var t2 := tasks;
      var parent := Find(tasks[i].parent);
      if notify && parent != NIL {
        PidIndex(tasks, nextPid, parent);
        Interrupt(parent);
      } else {
        NoneOutranks(tasks, current, idle);
      }
      RelabelRanks(old(tasks), t1, current, idle, i);
      OutranksTwice(old(tasks), t1, t2, current, idle);
      OutranksTwice(old(tasks), t2, tasks, current, idle);
      QuietSlot(tasks, running, idle, rq.q, nSleeping, nTimed, i);
    }

    /** The tail of the exit paths: nobody is RUNNING, the next task starts. */
    method Handover()
      requires Valid() && running == NIL && limbo == NIL && current != idle
      modifies this`tasks, this`current, this`running, rq
      ensures Stable() && current == Next(old(rq.State()), idle)
      ensures tasks == old(tasks)[current := old(tasks)[current].(state := RUNNING)]
      ensures old(tasks)[current].state == READY && Live(old(tasks)[current])
      ensures forall i: nat :: !Queued(old(rq.q), i) ==> !Queued(rq.q, i)
    {
      hide Inv, PidsOk, EntriesOk, Linked, Distinct, Level, Popped, Next;
      ghost var r0 := rq.State();
      QueuedInRange(rq.q, rq.head, rq.tail, rq.next);
      NextOk(tasks, NIL, idle, r0, nSleeping, nTimed);
      var next := ReadyPop();
      StartOk(tasks, idle, r0.q, rq.q, nSleeping, nTimed, next);
      PidsSame(tasks, nextPid, next, tasks[next].(state := RUNNING));
      EntriesSame(entries, tasks, next, tasks[next].(state := RUNNING));
      Start(next);
    }

    lemma CurrentDies()
      requires Stable() && current != idle
      ensures Dying(current)
    {
      RunningSlot(tasks, current, idle, rq.q, nSleeping, nTimed);
      BuryOk(tasks, running, idle, rq.q, nSleeping, nTimed, current);
      DropOk(entries, tasks, current, Buried(tasks[current]));
    }

    /** task_exit.  The kernel panics when idle exits or inside a file operation. */
    method Exit(code: int, pipes: seq<nat>, notify: bool)
      requires Stable() && current != idle && !tasks[current].vfs
      modifies this`tasks, this`current, this`entries, this`nTimed, this`limbo, this`running, this`needResched,
               this`slice, rq
      ensures Stable() && current != old(current)
      ensures tasks[old(current)].state == ZOMBIE && tasks[old(current)].exitCode == code && !Queued(rq.q, old(current))
      ensures forall q :: Wait(q, old(current)) !in entries
      // the others see the exit, and one of those who are then READY runs
      ensures Exited(old(tasks), old(entries), tasks[current := tasks[current].(state := READY)], entries, old(current), code,
                     pipes, notify)
      ensures slice == 0
      ensures needResched <==> Outranked(old(tasks), tasks[current := tasks[current].(state := READY)], old(current), idle)
    {
      hide Inv, PidsOk, EntriesOk, Linked, Distinct, Drop, Next, Queued, Exited, View, Outranked;
      CurrentDies();
      slice, needResched := 0, false;
      var prev := current;
      MarkExited(prev, code, pipes, notify);
      ghost var after := tasks;
      Gone(old(tasks), old(entries), tasks, entries, prev, code, pipes, notify);
      Handover();
      assert tasks[current := tasks[current].(state := READY)] == after;
    }

    /** task_exit_thread: a bare thread must have left its wait queues itself. */
    method ExitThread()
      requires Stable() && current != idle && !tasks[current].vfs && forall q :: Wait(q, current) !in entries
      modifies this`tasks, this`current, this`nTimed, this`running, this`needResched, this`slice, rq
      ensures Stable() && current != old(current)
      ensures ThreadExited(old(tasks), tasks[current := tasks[current].(state := READY)], old(current)) && slice == 0
    {
      hide Inv, PidsOk, EntriesOk, Linked, Distinct, Next, View, Queued, ThreadExited, Woken, WaitsFor;
      slice, needResched := 0, false;
      QuitAndWake();
      ghost var after := tasks;
      Handover();
      assert tasks[current := tasks[current].(state := READY)] == after;
    }

    method QuitAndWake()
      requires Stable() && current != idle && forall q :: Wait(q, current) !in entries
      modifies this`tasks, this`nTimed, this`running, this`needResched, rq
      ensures Valid() && running == NIL && limbo == NIL && ThreadExited(old(tasks), tasks, current)
      ensures tasks[current].state == ZOMBIE
    {
      hide Inv, PidsOk, EntriesOk, Linked, Distinct, View, Queued, Woken, WaitsFor;
      var pid := tasks[current].pid;
      Quit();
      var _ := WakeWaiters(pid);
      ThreadExitedByParts(old(tasks), tasks, current);
    }

    /** A bare thread becomes an unclaimed zombie. */
    method Quit()
      requires Stable() && current != idle && forall q :: Wait(q, current) !in entries
      modifies this`tasks, this`running
      ensures Valid() && running == NIL && limbo == NIL
      ensures tasks == old(tasks)[current := old(tasks)[current].(state := ZOMBIE, unclaimed := true)]
      ensures !WaitsFor(old(tasks)[current], old(tasks)[current].pid)
    {
      RunningSlot(tasks, current, idle, rq.q, nSleeping, nTimed);
      var t := tasks[current].(state := ZOMBIE, unclaimed := true);
      StopOk(tasks, current, idle, rq.q, nSleeping, nTimed, t);
      NoneHeld(entries, tasks, current, t);
      PidsSame(tasks, nextPid, current, t);
      hide Inv, PidsOk, EntriesOk, Linked, Distinct;
      tasks := tasks[current := t];
      running := NIL;
    }

    /** task_kill behind its test for a task that is still loading.  `false` is -1. */
    method Kill(pid: int, code: int, pipes: seq<nat>, notify: bool) returns (ok: bool)
      requires Stable()
      modifies this`tasks, this`current, this`entries, this`nTimed, this`nSleeping, this`limbo, this`running,
               this`needResched, this`slice, rq
      ensures Stable()
      ensures !ok ==>
                tasks == old(tasks) && current == old(current) && rq.State() == old(rq.State()) && entries == old(entries)
      ensures ok <==> pid > 0 && exists i :: 0 <= i < MAX_TASKS && old(tasks)[i].pid == pid && !old(tasks)[i].vfs && old(tasks)[i].user
                                            && old(tasks)[i].state !in {LOADING, ZOMBIE, DEAD}
      ensures forall i :: ok && 0 <= i < MAX_TASKS && old(tasks)[i].pid == pid ==>
                && tasks[i].state == ZOMBIE && tasks[i].exitCode == code && !Queued(rq.q, i)
                && (forall q :: Wait(q, i) !in entries) && (current != old(current) <==> i == old(current))
                && Exited(old(tasks), old(entries), if i == old(current) then tasks[current := tasks[current].(state := READY)]
                              else tasks, entries, i, code, pipes, notify)
    {
      hide Exited;
      var i := Find(pid);
      if i == NIL {
        return false;
      }
      PidIndex(tasks, nextPid, i);
      if !Killable(tasks[i]) {
        return false;
      }
      if i == current {
        RunningSlot(tasks, current, idle, rq.q, nSleeping, nTimed);
        UserNotIdle(tasks, running, idle, rq.q, nSleeping, nTimed, i);
        Exit(code, pipes, notify);
        return true;
      }
      KillOther(i, code, pipes, notify);
      ok := true;
    }

    /** task_kill on a task that is not running. */
    method KillOther(i: nat, code: int, pipes: seq<nat>, notify: bool)
      requires Stable() && i < MAX_TASKS && i != current && Live(tasks[i]) && Killable(tasks[i])
      modifies this`tasks, this`entries, this`nTimed, this`nSleeping, this`limbo, this`running, this`needResched, rq
      ensures Stable()
      ensures tasks[i].state == ZOMBIE && tasks[i].exitCode == code && !Queued(rq.q, i)
      ensures forall q :: Wait(q, i) !in entries
      ensures Exited(old(tasks), old(entries), tasks, entries, i, code, pipes, notify)
      ensures needResched <==> old(needResched) || Outranked(old(tasks), tasks, current, idle)
    {
      UserNotIdle(tasks, running, idle, rq.q, nSleeping, nTimed, i);
      DropOk(entries, tasks, i, Buried(tasks[i]));
      if tasks[i].state == READY {
        BuryReady(tasks, running, idle, rq.State(), nSleeping, nTimed, i);
        var removed := rq.Remove(i);
      } else {
        BuryOk(tasks, running, idle, rq.q, nSleeping, nTimed, i);
        Counted(tasks, running, idle, rq.q, nSleeping, nTimed, i);
        if tasks[i].state == SLEEPING && nSleeping > 0 {
          nSleeping := nSleeping - 1;
        }
      }
      hide Inv, PidsOk, EntriesOk, Linked, Distinct, Drop, Queued, Exited;
      MarkExited(i, code, pipes, notify);
      Gone(old(tasks), old(entries), tasks, entries, i, code, pipes, notify);
    }

    /** task_reap up to its first sleep: claim the zombie. */
    method ReapClaim(i: nat) returns (ok: bool)
      requires Stable() && i < MAX_TASKS && Live(tasks[i])
      modifies this`tasks
      ensures Stable() && (ok <==> old(tasks)[i].state == ZOMBIE && !old(tasks)[i].vfs)
      ensures tasks == if ok then old(tasks)[i := old(tasks)[i].(state := DEAD)] else old(tasks)
    {
      if tasks[i].state != ZOMBIE || tasks[i].vfs {
        return false;
      }
      var t := tasks[i].(state := DEAD);
      GraveOk(tasks, running, idle, rq.q, nSleeping, nTimed, i, t);
      PidsSame(tasks, nextPid, i, t);
      EntriesSame(entries, tasks, i, t);
      tasks := tasks[i := t];
      ok := true;
    }

    /** The end of task_reap: the slot is zeroed. */
    method ReapFree(i: nat)
      requires Stable() && i < MAX_TASKS && Live(tasks[i]) && tasks[i].state == DEAD
      modifies this`tasks
      ensures Stable() && tasks == old(tasks)[i := NO_TASK]
    {
      GraveOk(tasks, running, idle, rq.q, nSleeping, nTimed, i, NO_TASK);
      EntriesSame(entries, tasks, i, NO_TASK);
      tasks := tasks[i := NO_TASK];
    }

    /** task_reap_unclaimed when no close sleeps in between. */
    method ReapUnclaimed() returns (reaped: nat)
      requires Stable()
      modifies this`tasks
      ensures Stable()
      ensures forall i :: 0 <= i < MAX_TASKS ==>
                tasks[i] == if Reapable(old(tasks)[i]) && !old(tasks)[i].vfs then NO_TASK else old(tasks)[i]
      // exactly the zombies that nobody claims and that lent no frame
      ensures forall i :: 0 <= i < MAX_TASKS && old(tasks)[i].pid != 0 ==>
                (tasks[i].pid == 0 <==> var t := old(tasks)[i]; t.state == ZOMBIE && t.unclaimed && !t.sharedOut && !t.vfs)
      ensures reaped > 0 <==> exists i :: 0 <= i < MAX_TASKS && Reapable(old(tasks)[i])
    {
      hide Inv, PidsOk, EntriesOk, Linked, Distinct, View, Reapable;
      reaped := 0;
      var i := 0;
      while i < MAX_TASKS
        invariant 0 <= i <= MAX_TASKS && Stable()
        invariant forall j :: 0 <= j < i ==>
                    tasks[j] == if Reapable(old(tasks)[j]) && !old(tasks)[j].vfs then NO_TASK else old(tasks)[j]
        invariant forall j :: i <= j < MAX_TASKS ==> tasks[j] == old(tasks)[j]
        invariant reaped > 0 <==> exists j :: 0 <= j < i && Reapable(old(tasks)[j])
      {
        var tried := ReapOne(i);
        if tried {
          reaped := reaped + 1;
        }
        i := i + 1;
      }
      ReapableMeans(old(tasks));
    }

    /** One slot of the walk in task_reap_unclaimed. */
    method ReapOne(i: nat) returns (tried: bool)
      requires Stable() && i < MAX_TASKS
      modifies this`tasks
      ensures Stable() && (tried <==> Reapable(old(tasks)[i]))
      ensures tasks == old(tasks)[i := if Reapable(old(tasks)[i]) && !old(tasks)[i].vfs then NO_TASK else old(tasks)[i]]
    {
      RunningSlot(tasks, current, idle, rq.q, nSleeping, nTimed);
      hide Inv, PidsOk, EntriesOk, Linked, Distinct, View;
      tried := Reapable(tasks[i]) && i != current;
      if tried {
        var ok := ReapClaim(i);
        if ok {
          ReapFree(i);
        }
      }
    }

    // ---- new tasks -------------------------------------------------------------

    method FreeSlot() returns (i: int)
      requires |tasks| == MAX_TASKS
      ensures i == NIL ==> forall j :: 0 <= j < MAX_TASKS ==> Live(tasks[j])
      ensures i != NIL ==> 0 <= i < MAX_TASKS && !Live(tasks[i])
    {
      i := 0;
      while i < MAX_TASKS
        invariant 0 <= i <= MAX_TASKS
        invariant forall j :: 0 <= j < i ==> Live(tasks[j])
      {
        if tasks[i].pid == 0 {
          return;
        }
        i := i + 1;
      }
      i := NIL;
    }

    /** alloc_slot: reclaims unclaimed zombies when the table is full. */
    method AllocSlot() returns (i: int)
      requires Stable()
      modifies this`tasks
      ensures Stable()
      ensures i != NIL ==> 0 <= i < MAX_TASKS && !Live(tasks[i])
      ensures i == NIL ==> Full(old(tasks))
      ensures forall j ::
                0 <= j < MAX_TASKS ==> tasks[j] == old(tasks)[j] || (Reapable(old(tasks)[j]) && tasks[j] == NO_TASK)
    {
      i := FreeSlot();
      if i != NIL {
        return;
      }
      var reaped := ReapUnclaimed();
      if reaped > 0 {
        i := FreeSlot();
        if i == NIL {
          forall j | 0 <= j < MAX_TASKS
            ensures Live(old(tasks)[j]) && !(Reapable(old(tasks)[j]) && !old(tasks)[j].vfs)
          {
            assert Live(tasks[j]);
          }
        }
      }
    }

    /** The spawn paths as the scheduler sees them: a slot, two allocations that
        may fail, a pid, and either the ready queue or LOADING. */
    method Spawn(origin: Origin, stackOk: bool, stateOk: bool) returns (i: int)
      requires Stable()
      modifies this`tasks, this`nextPid, this`needResched, rq
      ensures Stable()
      ensures i == NIL ==> rq.State() == old(rq.State()) && (stackOk && stateOk ==> Full(old(tasks)))
      ensures i != NIL ==>
                && 0 <= i < MAX_TASKS && stackOk && stateOk
                && tasks[i] == NewTask(origin, old(nextPid), tasks[current].pid) && nextPid == old(nextPid) + 1
                && rq.State() == if origin.Reserve? then old(rq.State()) else Pushed(old(rq.State()), i, NORMAL)
      // every path names its parent; only a kernel thread has no address space, only a vfork child holds its parent up
      ensures i != NIL ==>
                && tasks[i].state == (if origin.Reserve? then LOADING else READY)
                && tasks[i].user == !origin.KernelThread? && !tasks[i].vfs && !tasks[i].unclaimed && !tasks[i].sharedOut
                && tasks[i].vforkParent == (if origin.Vfork? then tasks[current].pid else 0)
                && tasks[i].parent == match origin
                                      case KernelThread => 0
                                      case User(p) => p
                                      case Reserve(p) => p
                                      case Thread => tasks[current].pid
                                      case Vfork => tasks[current].pid
      ensures needResched <==> old(needResched) || (i != NIL && !origin.Reserve? && (current == idle || NORMAL > tasks[current].prio))
      ensures forall j ::
                0 <= j < MAX_TASKS && j != i ==> tasks[j] == old(tasks)[j] || (Reapable(old(tasks)[j]) && tasks[j] == NO_TASK)
    {
      i := AllocSlot();
      if i == NIL || !stackOk {
        return NIL;
      }
      hide Inv, PidsOk, EntriesOk, Linked, Distinct, Pushed, NewTask, Reapable, View, Full;
      i := Populate(i, origin, stateOk);
    }

    /** The part of the spawn paths after the slot and the stack are there. */
    method Populate(slot: nat, origin: Origin, stateOk: bool) returns (i: int)
      requires Stable() && slot < MAX_TASKS && !Live(tasks[slot])
      modifies this`tasks, this`nextPid, this`needResched, rq
      ensures Stable()
      ensures slot != current
      ensures !stateOk ==> i == NIL && tasks == old(tasks) && rq.State() == old(rq.State())
      ensures stateOk ==>
                && i == slot && nextPid == old(nextPid) + 1
                && tasks == old(tasks)[i := NewTask(origin, old(nextPid), old(tasks)[current].pid)]
                && rq.State() == if origin.Reserve? then old(rq.State()) else Pushed(old(rq.State()), i, NORMAL)
      ensures needResched <==> old(needResched) || (stateOk && !origin.Reserve? && (current == idle || NORMAL > tasks[current].prio))
    {
      RunningSlot(tasks, current, idle, rq.q, nSleeping, nTimed);
      hide Inv, PidsOk, EntriesOk, Linked, Distinct, Pushed, NewTask;
      var pid, t := nextPid, NewTask(origin, nextPid, tasks[current].pid);
      NewTaskOk(origin, pid, tasks[current].pid);
      NextPidOk(tasks, nextPid);
      if stateOk || !origin.Vfork? {
        nextPid := nextPid + 1;
      }
      if !stateOk {
        return NIL;
      }
      Install(slot, t);
      i := slot;
    }

    /** Fill a free slot. */
    method Install(i: nat, t: Task)
      requires Stable() && i < MAX_TASKS && !Live(tasks[i])
      requires Live(t) && (t.state == READY || t.state == LOADING) && t.deadline == 0 && t.pid < nextPid
      requires forall j :: 0 <= j < MAX_TASKS ==> tasks[j].pid != t.pid
      modifies this`tasks, this`needResched, rq
      ensures Stable() && tasks == old(tasks)[i := t]
      ensures rq.State() == if t.state == LOADING then old(rq.State()) else Pushed(old(rq.State()), i, Clamp(t.prio))
      ensures i != current
      ensures needResched <==> old(needResched) || (t.state == READY && (current == idle || Clamp(t.prio) > tasks[current].prio))
    {
      EmptySlot(tasks, running, idle, rq.q, nSleeping, nTimed, i);
      EntriesSame(entries, tasks, i, t);
      assert PidsOk(tasks[i := t], nextPid);
      hide Inv, PidsOk, EntriesOk, Linked, Distinct;
      if t.state == LOADING {
        LoadingOk(tasks, running, idle, rq.q, nSleeping, nTimed, i, t);
        tasks := tasks[i := t];
      } else {
        EnqueueOk(tasks, running, idle, rq.State(), nSleeping, nTimed, i, t);
        tasks := tasks[i := t];
        ReadyPush(i);
      }
    }

    /** task_activate_reserved_user */
    method Activate(i: nat, memoryOk: bool) returns (ok: bool)
      requires Stable() && i < MAX_TASKS && Live(tasks[i])
      modifies this`tasks, this`needResched, rq
      ensures Stable() && (ok <==> old(tasks)[i].state == LOADING && memoryOk)
      ensures tasks == if ok then old(tasks)[i := old(tasks)[i].(state := READY)] else old(tasks)
      ensures rq.State() == if ok then Pushed(old(rq.State()), i, Clamp(tasks[i].prio)) else old(rq.State())
      ensures needResched <==> old(needResched) || Outranked(old(tasks), tasks, current, idle)
    {
      hide Inv, PidsOk, EntriesOk, Linked, Distinct;
      if tasks[i].state != LOADING || !memoryOk {
        return false;
      }
      var t := tasks[i].(state := READY);
      QuietSlot(tasks, running, idle, rq.q, nSleeping, nTimed, i);
      EnqueueOk(tasks, running, idle, rq.State(), nSleeping, nTimed, i, t);
      PidsSame(tasks, nextPid, i, t);
      EntriesSame(entries, tasks, i, t);
      tasks := tasks[i := t];
      ReadyPush(i);
      ok := true;
    }

    /** task_fail_reserved_user */
    method FailReserved(i: nat, code: int, pipes: seq<nat>, notify: bool)
      requires Stable() && i < MAX_TASKS && Live(tasks[i])
      modifies this`tasks, this`entries, this`nTimed, this`limbo, this`running, this`needResched, rq
      ensures Stable()
      ensures old(tasks)[i].state == LOADING ==>
                && tasks[i].state == ZOMBIE && tasks[i].exitCode == code && !Queued(rq.q, i)
                && Exited(old(tasks), old(entries), tasks, entries, i, code, pipes, notify)
      ensures old(tasks)[i].state != LOADING ==> tasks == old(tasks) && rq.State() == old(rq.State())
      ensures needResched <==> old(needResched) || Outranked(old(tasks), tasks, current, idle)
    {
      if tasks[i].state != LOADING {
        return;
      }
      QuietSlot(tasks, running, idle, rq.q, nSleeping, nTimed, i);
      BuryOk(tasks, running, idle, rq.q, nSleeping, nTimed, i);
      DropOk(entries, tasks, i, Buried(tasks[i]));
      hide Inv, PidsOk, EntriesOk, Linked, Distinct, Drop, Queued, Exited;
      MarkExited(i, code, pipes, notify);
    }

    // ---- every run -------------------------------------------------------------

    /** May the kernel take this step now?  Only idle never blocks, sleeps or
        exits, and nobody exits inside a file operation. */
    predicate Allowed(op: Op)
      requires Stable()
      reads this, rq
    {
      match op
      case Block(_) => current != idle
      case BlockUntil(_, _) => current != idle
      case SleepTicks(_, _) => current != idle
      case Exit(_, _, _) => current != idle && !tasks[current].vfs
      case ExitThread => current != idle && !tasks[current].vfs && forall k :: 0 <= k < |entries| ==> entries[k].task != current
      case Wakeup(i) => i < MAX_TASKS
      case Interrupt(i) => i < MAX_TASKS
      case SetPriority(i, _) => i < MAX_TASKS && Live(tasks[i])
      case ReapClaim(i) => i < MAX_TASKS && Live(tasks[i])
      case ReapFree(i) => i < MAX_TASKS && Live(tasks[i]) && tasks[i].state == DEAD
      case Activate(i, _) => i < MAX_TASKS && Live(tasks[i])
      case FailReserved(i, _, _, _) => i < MAX_TASKS && Live(tasks[i])
      case _ => true
    }

    method Perform(op: Op)
      requires Stable() && Allowed(op)
      modifies this, rq
      ensures Stable()
    {
      hide Inv, PidsOk, EntriesOk, Linked, Distinct, Popped, Pushed, Removed, Next, Level, View;
      match op
      case Yield => Yield();
      case Tick(frequency) => PreemptTick(frequency);
      case Block(pid) => Block(pid);
      case BlockUntil(deadline, deliverable) => var _ := BlockUntil(deadline, deliverable);
      case Resumed => var _ := Resumed();
      case Wakeup(i) => Wakeup(i);
      case Interrupt(i) => Interrupt(i);
      case WakeFutex(key) => var _ := WakeFutex(key);
      case SleepTicks(now, ticks) => SleepTicks(now, ticks);
      case WakeSleepers(now) => WakeSleepers(now);
      case SetPriority(i, prio) => var _ := SetPriority(i, prio);
      case WaitOn(queue) => WaitOn(queue);
      case LeaveQueues => LeaveQueues(current);
      case WakeAll(queue) => WakeAll(queue);
      case Exit(code, pipes, notify) => Exit(code, pipes, notify);
      case ExitThread => ExitThread();
      case Kill(pid, code, pipes, notify) => var _ := Kill(pid, code, pipes, notify);
      case ReapClaim(i) => var _ := ReapClaim(i);
      case ReapFree(i) => ReapFree(i);
      case ReapUnclaimed => var _ := ReapUnclaimed();
      case Spawn(origin, stackOk, stateOk) => var _ := Spawn(origin, stackOk, stateOk);
      case Activate(i, memoryOk) => var _ := Activate(i, memoryOk);
      case FailReserved(i, code, pipes, notify) => FailReserved(i, code, pipes, notify);
    }
  }

  datatype Op =
    | Yield | Tick(frequency: nat) | Block(pid: int) | BlockUntil(deadline: nat, deliverable: bool) | Resumed
    | Wakeup(i: nat) | Interrupt(i: nat) | WakeFutex(key: nat) | SleepTicks(now: nat, ticks: nat) | WakeSleepers(now: nat)
    | SetPriority(i: nat, prio: int) | WaitOn(queue: nat) | LeaveQueues | WakeAll(queue: nat)
    | Exit(code: int, pipes: seq<nat>, notify: bool) | ExitThread | Kill(pid: int, code: int, pipes: seq<nat>,
                                                                         notify: bool)
    | ReapClaim(i: nat) | ReapFree(i: nat) | ReapUnclaimed
    | Spawn(origin: Origin, stackOk: bool, stateOk: bool) | Activate(i: nat, memoryOk: bool)
    | FailReserved(i: nat, code: int, pipes: seq<nat>, notify: bool)

  /** After sched_init and any sequence of steps (a step the kernel may not take
      is skipped), the table is consistent. */
  method Run(ops: seq<Op>) returns (s: Scheduler)
    ensures s.Stable() && Consistent(s.tasks, s.current, s.idle, s.rq.q, s.nSleeping, s.nTimed)
  {
    s := new Scheduler();
    var k := 0;
    while k < |ops|
      invariant s.Stable() && fresh(s) && fresh(s.rq)
    {
      if s.Allowed(ops[k]) {
        s.Perform(ops[k]);
      }
      k := k + 1;
    }
    QueuedInRange(s.rq.q, s.rq.head, s.rq.tail, s.rq.next);
    Spelled(s.tasks, s.current, s.idle, s.rq.q, s.nSleeping, s.nTimed);
  }

  /** The invariant spelled out. */
  ghost predicate Consistent(tasks: seq<Task>, current: nat, idle: nat, q: seq<seq<nat>>, asleep: int, timed: int)
  {
    && |tasks| == MAX_TASKS && |q| == LEVELS
    // exactly one task is RUNNING, and it is current
    && (forall i :: 0 <= i < MAX_TASKS ==> (Live(tasks[i]) && tasks[i].state == RUNNING <==> i == current))
    // every READY task but idle is queued once, at its own level
    && (forall i :: 0 <= i < MAX_TASKS && Live(tasks[i]) && tasks[i].state == READY && i != idle ==>
          exists k :: 0 <= k < |q[Clamp(tasks[i].prio)]| && q[Clamp(tasks[i].prio)][k] == i)
    && (forall p, k, p', k' :: 0 <= p < LEVELS && 0 <= k < |q[p]| && 0 <= p' < LEVELS && 0 <= k' < |q[p']| && q[p][k] == q[p'][k'] ==>
          p == p' && k == k')
    // nothing else is queued
    && (forall p, k :: 0 <= p < LEVELS && 0 <= k < |q[p]| ==>
          var i := q[p][k];
          i < MAX_TASKS && i != idle && Live(tasks[i]) && tasks[i].state == READY && p == Clamp(tasks[i].prio))
    // the counters are exact
    && asleep == |set i: nat | i < MAX_TASKS && Live(tasks[i]) && tasks[i].state == SLEEPING|
    && timed == |set i: nat | i < MAX_TASKS && Live(tasks[i]) && tasks[i].state == BLOCKED && tasks[i].deadline != 0|
  }

  lemma Spelled(tasks: seq<Task>, current: nat, idle: nat, q: seq<seq<nat>>, asleep: int, timed: int)
    requires Inv(tasks, current, idle, q, asleep, timed) && Distinct(q)
    requires forall p, j: nat {:trigger j in q[p]} :: 0 <= p < LEVELS && j in q[p] ==> j < MAX_TASKS
    ensures Consistent(tasks, current, idle, q, asleep, timed)
  {
    forall i: nat | i < MAX_TASKS
      ensures Live(tasks[i]) && tasks[i].state == RUNNING <==> i == current
      ensures Live(tasks[i]) && tasks[i].state == READY && i != idle ==> i in q[Clamp(tasks[i].prio)]
      ensures Is(Timed, tasks[i]) ==> tasks[i].state == BLOCKED
    {
      assert SlotOk(tasks, current, idle, q, i);
    }
    forall p, k | 0 <= p < LEVELS && 0 <= k < |q[p]|
      ensures var i := q[p][k]; i < MAX_TASKS && i != idle && Live(tasks[i]) && tasks[i].state == READY && p == Clamp(tasks[i].prio)
    {
      assert q[p][k] in q[p];
      assert SlotOk(tasks, current, idle, q, q[p][k]);
    }
    forall p, k, p', k' | 0 <= p < LEVELS && 0 <= k < |q[p]| && 0 <= p' < LEVELS && 0 <= k' < |q[p']| && q[p][k] == q[p'][k']
      ensures p == p' && k == k'
    {
      assert q[p][k] in q[p] && q[p][k] in q[p'];
      assert NoDup(q[p]);
    }
    assert Those(Asleep, tasks) == set i: nat | i < MAX_TASKS && Live(tasks[i]) && tasks[i].state == SLEEPING;
    assert Those(Timed, tasks) == set i: nat | i < MAX_TASKS && Live(tasks[i]) && tasks[i].state == BLOCKED && tasks[i].deadline != 0;
  }

  /** A task parked by task_block_until. */
  function Napping(t: Task, deadline: nat): Task
  {
    t.(state := BLOCKED, waitingFor := -1, deadline := deadline,
       timedOut := false, interrupted := false, interruptible := true)
  }

  /** What task_reap_unclaimed looks for. */
  predicate Reapable(t: Task)
  {
    Live(t) && t.state == ZOMBIE && t.unclaimed && !t.sharedOut
  }

  lemma ReapableMeans(tasks: seq<Task>)
    ensures forall i :: 0 <= i < |tasks| && tasks[i].pid != 0 ==>
              (Reapable(tasks[i]) <==> tasks[i].state == ZOMBIE && tasks[i].unclaimed && !tasks[i].sharedOut)
  {
  }

  /** task_spawn, task_spawn_user, task_reserve_user, task_spawn_thread and
      task_spawn_vfork. */
  datatype Origin = KernelThread | User(parent: nat) | Reserve(parent: nat) | Thread | Vfork

  function NewTask(o: Origin, pid: nat, creator: nat): Task
  {
    NO_TASK.(pid := pid, prio := NORMAL, state := if o.Reserve? then LOADING else READY,
             parent := if o.KernelThread? then 0 else if o.User? || o.Reserve? then o.parent else creator,
             user := !o.KernelThread?, vforkParent := if o.Vfork? then creator else 0)
  }

  lemma NewTaskOk(o: Origin, pid: nat, creator: nat)
    ensures var t := NewTask(o, pid, creator);
            t.pid == pid && (t.state == if o.Reserve? then LOADING else READY) && t.deadline == 0 && t.prio == NORMAL
  {
  }

  lemma GraveOk(tasks: seq<Task>, run: int, idle: int, q: seq<seq<nat>>, asleep: int, timed: int, i: nat, t: Task)
    requires Inv(tasks, run, idle, q, asleep, timed) && i < MAX_TASKS && Live(tasks[i])
    requires (tasks[i].state == ZOMBIE || tasks[i].state == DEAD)
    requires t == NO_TASK || t == tasks[i].(state := DEAD)
    ensures Inv(tasks[i := t], run, idle, q, asleep, timed)
  {
    assert SlotOk(tasks, run, idle, q, i);
    OneSlot(tasks, run, run, idle, q, q, asleep, timed, i, t);
  }

  lemma EmptySlot(tasks: seq<Task>, run: int, idle: int, q: seq<seq<nat>>, asleep: int, timed: int, i: nat)
    requires Inv(tasks, run, idle, q, asleep, timed) && i < MAX_TASKS && !Live(tasks[i])
    ensures i != run && i != idle && tasks[i] == NO_TASK
  {
    assert SlotOk(tasks, run, idle, q, i);
  }

  lemma LoadingOk(tasks: seq<Task>, run: int, idle: int, q: seq<seq<nat>>, asleep: int, timed: int, i: nat, t: Task)
    requires Inv(tasks, run, idle, q, asleep, timed) && i < MAX_TASKS && !Live(tasks[i])
    requires Live(t) && t.state == LOADING && t.deadline == 0
    ensures Inv(tasks[i := t], run, idle, q, asleep, timed)
  {
    assert SlotOk(tasks, run, idle, q, i);
    OneSlot(tasks, run, run, idle, q, q, asleep, timed, i, t);
  }

  lemma NextPidOk(tasks: seq<Task>, nextPid: nat)
    requires PidsOk(tasks, nextPid)
    ensures PidsOk(tasks, nextPid + 1) && nextPid > 0 && forall j :: 0 <= j < |tasks| ==> tasks[j].pid != nextPid
  {
  }

  /** The tests task_kill makes before it acts. */
  predicate Killable(t: Task)
  {
    Live(t) && !t.vfs && t.user && t.state != LOADING && t.state != ZOMBIE && t.state != DEAD
  }

  lemma PidIndex(tasks: seq<Task>, nextPid: nat, i: nat)
    requires PidsOk(tasks, nextPid) && i < |tasks| && Live(tasks[i])
    ensures forall j :: 0 <= j < |tasks| && tasks[j].pid == tasks[i].pid ==> j == i
  {
  }

  lemma UserNotIdle(tasks: seq<Task>, run: int, idle: int, q: seq<seq<nat>>, asleep: int, timed: int, i: nat)
    requires Inv(tasks, run, idle, q, asleep, timed) && i < MAX_TASKS && Live(tasks[i])
    ensures tasks[i].user ==> i != idle
    ensures i != run ==> tasks[i].state != RUNNING
  {
    assert SlotOk(tasks, run, idle, q, i);
  }

  lemma Counted(tasks: seq<Task>, run: int, idle: int, q: seq<seq<nat>>, asleep: int, timed: int, i: nat)
    requires Inv(tasks, run, idle, q, asleep, timed) && i < MAX_TASKS
    ensures Is(Asleep, tasks[i]) ==> asleep > 0
  {
    assert i in Those(Asleep, tasks) <==> Is(Asleep, tasks[i]);
  }

  /** A task that is not READY counts as a zombie with its counters adjusted. */
  lemma BuryOk(tasks: seq<Task>, run: int, idle: int, q: seq<seq<nat>>, asleep: int, timed: int, i: nat)
    requires Inv(tasks, run, idle, q, asleep, timed) && i < MAX_TASKS && i != idle && Live(tasks[i])
    requires tasks[i].state != READY
    ensures Inv(View(tasks, i), if run == i then NIL else run, idle, q,
                asleep - (if tasks[i].state == SLEEPING then 1 else 0), timed - (if tasks[i].deadline != 0 then 1
                    else 0))
  {
    assert SlotOk(tasks, run, idle, q, i);
    OneSlot(tasks, run, if run == i then NIL else run, idle, q, q, asleep, timed, i, Buried(tasks[i]));
  }

  /** A READY task counts as a zombie once it is off its queue. */
  lemma BuryReady(tasks: seq<Task>, run: int, idle: int, r: Ready, asleep: int, timed: int, i: nat)
    requires Inv(tasks, run, idle, r.q, asleep, timed) && Distinct(r.q)
    requires i < MAX_TASKS && i != idle && i != run && Live(tasks[i]) && tasks[i].state == READY
    ensures Queued(r.q, i) && tasks[i].deadline == 0
    ensures Inv(View(tasks, i), run, idle, Removed(r, i).q, asleep, timed)
  {
    assert SlotOk(tasks, run, idle, r.q, i);
    assert i in r.q[Clamp(tasks[i].prio)];
    RemovedMembers(r, i);
    OneSlot(tasks, run, run, idle, r.q, Removed(r, i).q, asleep, timed, i, Buried(tasks[i]));
  }

  lemma DropOk(entries: seq<Wait>, tasks: seq<Task>, i: nat, t: Task)
    requires EntriesOk(entries, tasks) && i < |tasks|
    ensures EntriesOk(Drop(entries, i), tasks[i := t])
  {
    forall k | 0 <= k < |Drop(entries, i)|
      ensures Waitable(tasks[i := t], Drop(entries, i)[k].task)
    {
      DropMembers(entries, i, Drop(entries, i)[k]);
    }
  }

  lemma NoneHeld(entries: seq<Wait>, tasks: seq<Task>, i: nat, t: Task)
    requires EntriesOk(entries, tasks) && i < |tasks| && forall q :: Wait(q, i) !in entries
    ensures EntriesOk(entries, tasks[i := t])
  {
    forall k | 0 <= k < |entries|
      ensures Waitable(tasks[i := t], entries[k].task)
    {
      assert entries[k] == Wait(entries[k].queue, entries[k].task);
    }
  }

  predicate WaitsFor(t: Task, pid: nat)
  {
    Live(t) && t.state == BLOCKED && t.waitingFor == pid
  }

  /** Some task has become ready that outranks the running one. */
  ghost predicate Outranked(tasks: seq<Task>, tasks': seq<Task>, current: nat, idle: nat)
    requires |tasks| == |tasks'| && current < |tasks'|
  {
    exists j: nat ::
      && j < |tasks| && j != current && tasks[j].state != READY && tasks'[j].state == READY
      && (current == idle || Clamp(tasks'[j].prio) > tasks'[current].prio)
  }

  lemma NoneOutranks(tasks: seq<Task>, current: nat, idle: nat)
    requires current < |tasks|
    ensures !Outranked(tasks, tasks, current, idle)
  {
  }

  lemma RelabelRanks(a: seq<Task>, b: seq<Task>, current: nat, idle: nat, i: nat)
    requires i < |a| == |b| && current < |a| && b == a[i := b[i]] && b[i].state == a[i].state
    ensures !Outranked(a, b, current, idle)
  {
  }

  /** Priorities stay, and whoever is ready stays ready. */
  ghost predicate OnlyWakes(a: seq<Task>, b: seq<Task>)
  {
    && |a| == |b|
    && forall j: nat :: j < |a| ==> b[j].prio == a[j].prio && (a[j].state == READY ==> b[j].state == READY)
  }

  lemma OutranksTwice(a: seq<Task>, b: seq<Task>, c: seq<Task>, current: nat, idle: nat)
    requires OnlyWakes(a, b) && OnlyWakes(b, c) && current < |a|
    ensures OnlyWakes(a, c)
    ensures Outranked(a, c, current, idle) <==> Outranked(a, b, current, idle) || Outranked(b, c, current, idle)
  {
    hide Clamp;
  }

  lemma DueRanks(a: seq<Task>, b: seq<Task>, c: seq<Task>, current: nat, idle: nat, i: nat, now: nat)
    requires |a| == |b| && current < |a| && i < |a| && c == b[i := Due(b[i], now)]
    requires forall j :: 0 <= j < i ==> b[j] == Due(a[j], now)
    requires forall j :: i <= j < |a| ==> b[j] == a[j]
    ensures Outranked(a, c, current, idle) <==> Outranked(a, b, current, idle) || Outranked(b, c, current, idle)
  {
    OutranksTwice(a, b, c, current, idle);
  }

  /** An exit notes a reschedule for whomever it makes ready. */
  lemma FlaggedByParts(t0: seq<Task>, e0: seq<Wait>, t1: seq<Task>, t1d: seq<Task>, t2: seq<Task>, t2v: seq<Task>,
                       t3: seq<Task>, t4: seq<Task>, t5: seq<Task>, e: seq<Wait>, i: nat, code: int, pipes: seq<nat>,
                       notify: bool, claimed: bool, current: nat, idle: nat)
    requires i < |t0| == |t1| == |t1d| == |t2| == |t2v| == |t3| == |t4| == |t5| && current < |t0|
    requires forall q, j :: Wait(q, j) in e <==> Wait(q, j) in e0 && j != i
    requires forall j :: 0 <= j < |t0| ==> t1[j] == if Abandoned(t0, i, j) then t0[j].(unclaimed := true) else t0[j]
    requires t1[i] == t0[i] && t1d == t1[i := t1[i].(deadline := 0)]
    requires t2[i] == t1d[i] && t2v[i] == t2[i].(vforkParent := 0)
    requires forall j :: 0 <= j < |t0| && j != i ==> t2[j] == WokenIf(t1d[j], OnAny(e, pipes, j))
    requires forall j :: 0 <= j < |t0| && j != i ==>
               t2v[j] == WokenIf(t2[j], t2[i].vforkParent != 0 && Wait(VFORK_QUEUE, j) in e)
    requires t3 == t2v[i := t2v[i].(state := ZOMBIE, exitCode := code)]
    requires forall j :: 0 <= j < |t0| ==> t4[j] == if WaitsFor(t3[j], t3[i].pid) then Woken(t3[j]) else t3[j]
    requires claimed <==> exists j :: 0 <= j < |t0| && WaitsFor(t3[j], t3[i].pid)
    requires t5[i] == t4[i].(unclaimed := !claimed)
    requires forall j :: 0 <= j < |t0| && j != i ==> t5[j] == Told(t4[j], Wait(CHILD_QUEUE, j) in e, notify, t4[i].parent)
    ensures Exited(t0, e0, t5, e, i, code, pipes, notify)
    ensures Outranked(t0, t5, current, idle) <==>
            || Outranked(t1d, t2, current, idle) || Outranked(t2, t2v, current, idle)
            || Outranked(t3, t4, current, idle) || Outranked(t4, t5, current, idle)
  {
    NotOneself(t3[i], t0[i].pid);
    assert t4[i] == t3[i];
    ExitedByParts(t0, e0, t1, t2, t3, t4, t5, e, i, code, pipes, notify, claimed);
    RanksByParts(t0, t1, t1d, t2, t2v, t3, t4, t5, e, i, pipes, notify, current, idle);
  }

  lemma RanksByParts(t0: seq<Task>, t1: seq<Task>, t1d: seq<Task>, t2: seq<Task>, t2v: seq<Task>, t3: seq<Task>,
                     t4: seq<Task>, t5: seq<Task>, e: seq<Wait>, i: nat, pipes: seq<nat>, notify: bool, current: nat, idle: nat)
    requires i < |t0| == |t1| == |t1d| == |t2| == |t2v| == |t3| == |t4| == |t5| && current < |t0|
    requires forall j :: 0 <= j < |t0| ==> t1[j] == if Abandoned(t0, i, j) then t0[j].(unclaimed := true) else t0[j]
    requires t1d == t1[i := t1[i].(deadline := 0)] && t2[i] == t1d[i] && t2v[i] == t2[i].(vforkParent := 0)
    requires forall j :: 0 <= j < |t0| && j != i ==> t2[j] == WokenIf(t1d[j], OnAny(e, pipes, j))
    requires forall j :: 0 <= j < |t0| && j != i ==>
               t2v[j] == WokenIf(t2[j], t0[i].vforkParent != 0 && Wait(VFORK_QUEUE, j) in e)
    requires t3 == t2v[i := t3[i]] && t3[i].state == ZOMBIE && t3[i].prio == t0[i].prio && t4[i] == t3[i]
    requires forall j :: 0 <= j < |t0| ==> t4[j] == if WaitsFor(t3[j], t0[i].pid) then Woken(t3[j]) else t3[j]
    requires t5[i] == t4[i].(unclaimed := t5[i].unclaimed)
    requires forall j :: 0 <= j < |t0| && j != i ==> t5[j] == Told(t4[j], Wait(CHILD_QUEUE, j) in e, notify, t0[i].parent)
    ensures Outranked(t0, t5, current, idle) <==>
            || Outranked(t1d, t2, current, idle) || Outranked(t2, t2v, current, idle)
            || Outranked(t3, t4, current, idle) || Outranked(t4, t5, current, idle)
  {
    hide Outranked, OnAny, Abandoned, WaitsFor, Clamp;
    // the dying task counts as a zombie from the start
    var z := Buried(t0[i]);
    var a0, a1, a2, a3, a4, a5 := t0[i := z], t1d[i := z], t2[i := z], t2v[i := z], t4[i := z], t5[i := z];
    assert OnlyWakes(a0, a1) && OnlyWakes(a1, a2) && OnlyWakes(a2, a3) && t3[i := z] == a3;
    assert OnlyWakes(a3, a4) && OnlyWakes(a4, a5);
    SameRanks(a0, a1, current, idle);
    ZombieRanks(t0, t5, current, idle, i, z);
    ZombieRanks(t1d, t2, current, idle, i, z);
    ZombieRanks(t2, t2v, current, idle, i, z);
    ZombieRanks(t3, t4, current, idle, i, z);
    ZombieRanks(t4, t5, current, idle, i, z);
    hide OnlyWakes, Told, WokenIf, Woken;
    OutranksTwice(a0, a1, a2, current, idle);
    OutranksTwice(a0, a2, a3, current, idle);
    OutranksTwice(a0, a3, a4, current, idle);
    OutranksTwice(a0, a4, a5, current, idle);
  }

  lemma ZombieRanks(a: seq<Task>, b: seq<Task>, current: nat, idle: nat, i: nat, z: Task)
    requires i < |a| == |b| && current < |a| && z.state == ZOMBIE && z.prio == b[i].prio
    requires b[i].state == a[i].state || b[i].state == ZOMBIE
    ensures Outranked(a[i := z], b[i := z], current, idle) <==> Outranked(a, b, current, idle)
  {
    hide Clamp;
    var a', b' := a[i := z], b[i := z];
    assert b'[current].prio == b[current].prio;
    forall j: nat | j < |a| && j != current
      ensures a'[j].state != READY && b'[j].state == READY <==> a[j].state != READY && b[j].state == READY
      ensures b'[j].prio == b[j].prio
    {
    }
  }

  lemma SameRanks(a: seq<Task>, b: seq<Task>, current: nat, idle: nat)
    requires |a| == |b| && current < |a|
    requires forall j: nat :: j < |a| ==> a[j].state == b[j].state
    ensures !Outranked(a, b, current, idle)
  {
  }

  /** The exit of a bare thread in slot i: an unclaimed zombie, and whoever waited for
      it is ready. */
  ghost predicate ThreadExited(tasks: seq<Task>, tasks': seq<Task>, i: nat)
  {
    && i < |tasks| == |tasks'| && tasks'[i] == tasks[i].(state := ZOMBIE, unclaimed := true)
    && forall j :: 0 <= j < |tasks| && j != i ==>
         tasks'[j] == if WaitsFor(tasks[j], tasks[i].pid) then tasks[j].(state := READY, waitingFor := 0, deadline := 0)
                      else tasks[j]
  }

  lemma ThreadExitedByParts(t0: seq<Task>, t2: seq<Task>, i: nat)
    requires i < |t0| == |t2|
    requires var t1 := t0[i := t0[i].(state := ZOMBIE, unclaimed := true)];
             forall j :: 0 <= j < |t0| ==> t2[j] == if WaitsFor(t1[j], t0[i].pid) then Woken(t1[j]) else t1[j]
    ensures ThreadExited(t0, t2, i)
  {
  }

  /** Task j waits on one of the queues. */
  ghost predicate OnAny(entries: seq<Wait>, queues: seq<nat>, j: nat)
  {
    exists k :: 0 <= k < |queues| && Wait(queues[k], j) in entries
  }

  lemma OnNone(entries: seq<Wait>)
    ensures forall j: nat :: !OnAny(entries, [], j)
  {
  }

  lemma OnNext(entries: seq<Wait>, queues: seq<nat>, k: nat)
    requires k < |queues|
    ensures forall j: nat :: OnAny(entries, queues[..k + 1], j) <==> OnAny(entries, queues[..k], j) || Wait(queues[k], j) in entries
  {
    var now, next := queues[..k], queues[..k + 1];
    assert next == now + [queues[k]];
    forall j: nat
      ensures OnAny(entries, next, j) <==> OnAny(entries, now, j) || Wait(queues[k], j) in entries
    {
      if OnAny(entries, now, j) {
        var m :| 0 <= m < |now| && Wait(now[m], j) in entries;
        assert next[m] == now[m];
      }
      assert next[k] == queues[k];
    }
  }

  /** Task i dies blocked on the zombie j, whose exit code nobody will read now. */
  ghost predicate Abandoned(tasks: seq<Task>, i: nat, j: nat)
  {
    && i < |tasks| && j < |tasks| && tasks[i].state == BLOCKED && tasks[i].waitingFor > 0
    && tasks[j].state == ZOMBIE && tasks[j].pid == tasks[i].waitingFor
  }

  lemma NotAbandoned(tasks: seq<Task>, i: nat)
    ensures !Abandoned(tasks, i, i)
  {
  }

  lemma NotOneself(t: Task, pid: nat)
    ensures t.state == ZOMBIE ==> !WaitsFor(t, pid)
  {
  }

  /** Task j is parked on a queue of the pipes that i holds, or on the vfork queue
      when i is a vfork child. */
  ghost predicate LetGo(tasks: seq<Task>, entries: seq<Wait>, i: nat, pipes: seq<nat>, j: nat)
    requires i < |tasks| && j < |tasks|
  {
    && tasks[j].state == BLOCKED
    && (OnAny(entries, pipes, j) || (tasks[i].vforkParent != 0 && Wait(VFORK_QUEUE, j) in entries))
  }

  /** What the exit of i makes of another task j: ready when it is let go, waits for i
      or for any child; interrupted when it is the parent that is notified; an
      abandoned zombie becomes unclaimed; else nothing. */
  ghost predicate Outlives(tasks: seq<Task>, entries: seq<Wait>, i: nat, pipes: seq<nat>, notify: bool, j: nat, after: Task)
    requires i < |tasks| && j < |tasks|
  {
    var t := tasks[j];
    if LetGo(tasks, entries, i, pipes, j) || WaitsFor(t, tasks[i].pid) || (t.state == BLOCKED && Wait(CHILD_QUEUE, j) in entries)
    then after == t.(state := READY, waitingFor := 0, deadline := 0)
    else if notify && t.state == BLOCKED && t.interruptible && t.pid == tasks[i].parent > 0
    then after == t.(state := READY, waitingFor := 0, deadline := 0, interrupted := true)
    else after == t.(unclaimed := t.unclaimed || Abandoned(tasks, i, j))
  }

  /** Some task that is still parked when i is a zombie waits for it. */
  ghost predicate Claimed(tasks: seq<Task>, entries: seq<Wait>, i: nat, pipes: seq<nat>)
    requires i < |tasks|
  {
    exists j: nat :: j < |tasks| && j != i && WaitsFor(tasks[j], tasks[i].pid) && !LetGo(tasks, entries, i, pipes, j)
  }

  /** The exit of task i, as the whole table sees it. */
  ghost predicate Exited(tasks: seq<Task>, entries: seq<Wait>, tasks': seq<Task>, entries': seq<Wait>, i: nat, code: int,
                         pipes: seq<nat>, notify: bool)
  {
    && i < |tasks| == |tasks'|
    && (forall q, j :: Wait(q, j) in entries' <==> Wait(q, j) in entries && j != i)
    && tasks'[i] == tasks[i].(state := ZOMBIE, exitCode := code, deadline := 0, vforkParent := 0,
                              unclaimed := !Claimed(tasks, entries, i, pipes))
    && forall j: nat {:trigger tasks'[j]} :: j < |tasks| && j != i ==>
         Outlives(tasks, entries, i, pipes, notify, j, tasks'[j])
  }

  lemma Gone(tasks: seq<Task>, entries: seq<Wait>, tasks': seq<Task>, entries': seq<Wait>, i: nat, code: int,
             pipes: seq<nat>, notify: bool)
    requires Exited(tasks, entries, tasks', entries', i, code, pipes, notify)
    ensures forall q :: Wait(q, i) !in entries'
  {
  }

  /** The last step of the exit for another task: a wake on the child queue, then the
      signal to the parent. */
  function Told(t: Task, onQueue: bool, notify: bool, parent: nat): Task
  {
    if t.state == BLOCKED && onQueue then Woken(t)
    else if notify && t.state == BLOCKED && t.interruptible && t.pid == parent > 0 then Woken(t.(interrupted := true))
    else t
  }

  function WokenIf(t: Task, b: bool): Task
  {
    if b && t.state == BLOCKED then Woken(t) else t
  }

  /** The steps of an exit, for one other task. */
  lemma OutlivesByParts(t0: seq<Task>, e0: seq<Wait>, e: seq<Wait>, i: nat, pipes: seq<nat>, notify: bool, j: nat, b1: Task,
                        b2: Task, b3: Task, b4: Task, b5: Task)
    requires i < |t0| && j < |t0| && i != j
    requires forall q :: Wait(q, j) in e <==> Wait(q, j) in e0
    requires b1 == if Abandoned(t0, i, j) then t0[j].(unclaimed := true) else t0[j]
    requires b2 == WokenIf(b1, OnAny(e, pipes, j))
    requires b3 == WokenIf(b2, t0[i].vforkParent != 0 && Wait(VFORK_QUEUE, j) in e)
    requires b4 == if WaitsFor(b3, t0[i].pid) then Woken(b3) else b3
    requires b5 == Told(b4, Wait(CHILD_QUEUE, j) in e, notify, t0[i].parent)
    ensures Outlives(t0, e0, i, pipes, notify, j, b5)
    ensures WaitsFor(b3, t0[i].pid) <==> WaitsFor(t0[j], t0[i].pid) && !LetGo(t0, e0, i, pipes, j)
  {
    assert OnAny(e, pipes, j) <==> OnAny(e0, pipes, j);
    hide OnAny;
  }

  /** The steps of an exit one after the other. */
  lemma ExitedByParts(t0: seq<Task>, e0: seq<Wait>, t1: seq<Task>, t2: seq<Task>, t3: seq<Task>, t4: seq<Task>, t5: seq<Task>,
                      e: seq<Wait>, i: nat, code: int, pipes: seq<nat>, notify: bool, claimed: bool)
    requires i < |t0| == |t1| == |t2| == |t3| == |t4| == |t5|
    requires forall q, j :: Wait(q, j) in e <==> Wait(q, j) in e0 && j != i
    requires forall j :: 0 <= j < |t0| ==> t1[j] == if Abandoned(t0, i, j) then t0[j].(unclaimed := true) else t0[j]
    requires forall j :: 0 <= j < |t0| && j != i ==> t2[j] == WokenIf(t1[j], OnAny(e, pipes, j))
    requires forall j :: 0 <= j < |t0| && j != i ==>
               t3[j] == WokenIf(t2[j], t0[i].vforkParent != 0 && Wait(VFORK_QUEUE, j) in e)
    requires t3[i] == t0[i].(state := ZOMBIE, exitCode := code, deadline := 0, vforkParent := 0)
    requires forall j :: 0 <= j < |t0| ==> t4[j] == if WaitsFor(t3[j], t0[i].pid) then Woken(t3[j]) else t3[j]
    requires claimed <==> exists j :: 0 <= j < |t0| && WaitsFor(t3[j], t0[i].pid)
    requires t5[i] == t4[i].(unclaimed := !claimed)
    requires forall j :: 0 <= j < |t0| && j != i ==> t5[j] == Told(t4[j], Wait(CHILD_QUEUE, j) in e, notify, t0[i].parent)
    ensures Exited(t0, e0, t5, e, i, code, pipes, notify)
  {
    hide Outlives, LetGo, OnAny, Abandoned, Woken, WokenIf, Told;
    forall j: nat | j < |t0| && j != i
      ensures Outlives(t0, e0, i, pipes, notify, j, t5[j])
      ensures WaitsFor(t3[j], t0[i].pid) <==> WaitsFor(t0[j], t0[i].pid) && !LetGo(t0, e0, i, pipes, j)
    {
      OutlivesByParts(t0, e0, e, i, pipes, notify, j, t1[j], t2[j], t3[j], t4[j], t5[j]);
    }
  }

  lemma AllDropped(entries: seq<Wait>, i: nat)
    ensures forall q, j :: Wait(q, j) in Drop(entries, i) <==> Wait(q, j) in entries && j != i
  {
    forall q, j
      ensures Wait(q, j) in Drop(entries, i) <==> Wait(q, j) in entries && j != i
    {
      DropMembers(entries, i, Wait(q, j));
    }
  }

  lemma SameView(tasks: seq<Task>, i: nat)
    requires i < |tasks|
    ensures View(tasks[i := tasks[i].(deadline := 0)], i) == View(tasks, i)
  {
  }

  lemma NotWaiting(entries: seq<Wait>, tasks: seq<Task>, limbo: int, queue: nat)
    requires EntriesOk(entries, View(tasks, limbo))
    ensures forall k :: 0 <= k < |entries| ==> entries[k].task < |tasks|
    ensures 0 <= limbo < |tasks| ==> Wait(queue, limbo) !in entries
  {
  }

  /** What sched_wake_sleepers makes of a task. */
  function Due(t: Task, now: nat): Task
  {
    if !Live(t) then t
    else if t.state == SLEEPING && t.wakeTick <= now then t.(state := READY)
    else if t.state == BLOCKED && t.deadline != 0 && t.deadline <= now then Woken(t.(timedOut := true))
    else t
  }

  lemma NobodyDue(tasks: seq<Task>, run: int, idle: int, q: seq<seq<nat>>, now: nat)
    requires Inv(tasks, run, idle, q, 0, 0)
    ensures forall i :: 0 <= i < MAX_TASKS ==> tasks[i] == Due(tasks[i], now)
  {
    forall i: nat | i < MAX_TASKS
      ensures tasks[i] == Due(tasks[i], now)
    {
      assert i !in Those(Asleep, tasks) && i !in Those(Timed, tasks);
    }
  }

  lemma QuietSlot(tasks: seq<Task>, run: int, idle: int, q: seq<seq<nat>>, asleep: int, timed: int, i: nat)
    requires Inv(tasks, run, idle, q, asleep, timed) && i < MAX_TASKS
    requires Live(tasks[i]) && tasks[i].state != RUNNING && tasks[i].state != READY
    ensures i != run && i != idle && !Queued(q, i) && (tasks[i].state != BLOCKED ==> tasks[i].deadline == 0)
  {
    assert SlotOk(tasks, run, idle, q, i);
  }

  /** A new priority for one task, requeued if it was queued. */
  lemma PriorityOk(tasks: seq<Task>, run: int, idle: int, r: Ready, asleep: int, timed: int, i: nat, t: Task)
    requires Inv(tasks, run, idle, r.q, asleep, timed) && Distinct(r.q) && i < MAX_TASKS && Live(tasks[i])
    requires t == tasks[i].(prio := t.prio)
    ensures var r' := Removed(r, i);
            Inv(tasks[i := t], run, idle, if Queued(r.q, i) then Pushed(r', i, Clamp(t.prio)).q else r'.q, asleep,
                timed)
  {
    assert SlotOk(tasks, run, idle, r.q, i);
    RemovedMembers(r, i);
    var r' := Removed(r, i);
    PushedMembers(r', i, Clamp(t.prio));
    var q' := if Queued(r.q, i) then Pushed(r', i, Clamp(t.prio)).q else r'.q;
    OneSlot(tasks, run, run, idle, r.q, q', asleep, timed, i, t);
  }

  /** The entries that remain when task t leaves all queues. */
  function Drop(entries: seq<Wait>, t: nat): seq<Wait>
  {
    if entries == [] then []
    else if entries[0].task == t then Drop(entries[1..], t)
    else [entries[0]] + Drop(entries[1..], t)
  }

  lemma {:induction false} DropMembers(entries: seq<Wait>, t: nat, e: Wait)
    ensures e in Drop(entries, t) <==> e in entries && e.task != t
  {
    if entries != [] {
      DropMembers(entries[1..], t, e);
      assert entries == [entries[0]] + entries[1..];
    }
  }

  const U64: nat := 0x1_0000_0000_0000_0000

  predicate OnFutex(t: Task, key: nat)
  {
    Live(t) && t.state == BLOCKED && t.futex == key
  }

  /** The queues as they were when there is nothing to pop. */
  lemma PoppedIdle(r: Ready)
    requires |r.q| == LEVELS && Level(r) == NIL
    ensures Popped(r).q == r.q
  {
  }

  /** Pids and wait entries do not care about a switch. */
  lemma TwoSame(entries: seq<Wait>, tasks: seq<Task>, nextPid: nat, i: nat, t: Task, j: nat, u: Task)
    requires PidsOk(tasks, nextPid) && EntriesOk(entries, tasks) && i < |tasks| && j < |tasks| && i != j
    requires t.pid == tasks[i].pid && u.pid == tasks[j].pid && Live(t) && Live(u)
    requires t.state != ZOMBIE && t.state != DEAD && u.state != ZOMBIE && u.state != DEAD
    ensures PidsOk(tasks[i := t][j := u], nextPid) && EntriesOk(entries, tasks[i := t][j := u])
  {
    PidsSame(tasks, nextPid, i, t);
    PidsSame(tasks[i := t], nextPid, j, u);
    EntriesSame(entries, tasks, i, t);
    EntriesSame(entries, tasks[i := t], j, u);
  }

  lemma OnlyOne(r: Ready)
    requires r.q == [[], [1], []]
    ensures Removed(r, 1) == r.(q := [[], [], []])
  {
    assert Without([1], 1) == [];
  }

  lemma InitOk(tasks: seq<Task>, q: seq<seq<nat>>)
    requires |tasks| == MAX_TASKS && q == [[], [], []]
    requires tasks[0] == NO_TASK.(pid := 1, prio := NORMAL)
    requires tasks[1] == NO_TASK.(pid := 2, state := READY, prio := NORMAL)
    requires forall i :: 2 <= i < MAX_TASKS ==> tasks[i] == NO_TASK
    ensures Inv(tasks, 0, 1, q, 0, 0) && PidsOk(tasks, 3)
  {
    assert Those(Asleep, tasks) == {} && Those(Timed, tasks) == {};
  }

  lemma BlockedSlot(tasks: seq<Task>, run: int, idle: int, q: seq<seq<nat>>, asleep: int, timed: int, i: nat)
    requires Inv(tasks, run, idle, q, asleep, timed) && i < MAX_TASKS && tasks[i].state == BLOCKED
    ensures i != run && i != idle && Live(tasks[i])
  {
    assert SlotOk(tasks, run, idle, q, i);
  }
}
