/** The queue of images to load (kernel/loader/process.c): a task is reserved at once
    and becomes ready when the loader has its image, unless it is killed first. */
module Loader {
  import opened ReadyQueue
  import S = Scheduler

  ghost predicate LoadsOk(loads: seq<nat>, active: int)
  {
    (forall k :: 0 <= k < |loads| ==> loads[k] < MAX_TASKS) && NIL <= active < MAX_TASKS
  }

  /** A task whose image is still on its way. */
  predicate Cancellable(t: S.Task)
  {
    S.Live(t) && !t.vfs && t.state == S.LOADING
  }

  class Loads {
    const sched: S.Scheduler
    /** Task slots whose image waits, oldest first. */
    var loads: seq<nat>
    /** The slot whose image is being loaded, NIL for none. */
    var active: int
    var cancelled: bool
    var cancelCode: int

    ghost predicate Valid()
      reads this, sched, sched.rq
    {
      sched.Stable() && LoadsOk(loads, active)
    }

    constructor ()
      ensures Valid() && fresh(sched) && fresh(sched.rq) && loads == [] && active == NIL && !cancelled
    {
      sched := new S.Scheduler();
      loads, active, cancelled, cancelCode := [], NIL, false, 0;
    }

    /** spawn_async_on_tty: reserve a task and queue its image. */
    method SpawnAsync(parent: nat, stackOk: bool, stateOk: bool) returns (i: int)
      requires Valid()
      modifies this`loads, sched, sched.rq
      ensures Valid() && NIL <= i < MAX_TASKS && loads == if i == NIL then old(loads) else old(loads) + [i]
      ensures i != NIL ==> Cancellable(sched.tasks[i]) && sched.tasks[i].parent == parent
      ensures i == NIL && stackOk && stateOk ==> S.Full(old(sched.tasks))
    {
      S.NextPidOk(sched.tasks, sched.nextPid);
      hide S.Inv, S.PidsOk, S.EntriesOk;
      i := sched.Spawn(S.Reserve(parent), stackOk, stateOk);
      if i != NIL {
        loads := loads + [i];
      }
    }

    /** The loader takes the next request. */
    method LoadNext()
      requires Valid()
      modifies this`loads, this`active, this`cancelled
      ensures Valid()
      ensures if old(active) == NIL && old(loads) != []
              then active == old(loads)[0] && loads == old(loads)[1..] && !cancelled
              else active == old(active) && loads == old(loads) && cancelled == old(cancelled)
    {
      if active == NIL && loads != [] {
        active, loads, cancelled := loads[0], loads[1..], false;
      }
    }

    /** The loader is done with it.  A task that was killed meanwhile never becomes
        ready: it ends with the code of its killer. */
    method LoadDone(loaded: bool, memoryOk: bool, pipes: seq<nat>, notify: bool)
      requires Valid() && active != NIL && S.Live(sched.tasks[active])
      modifies this`active, sched, sched.rq
      ensures Valid() && active == NIL
      ensures var i := old(active);
              old(sched.tasks)[i].state == S.LOADING ==>
                if !cancelled && loaded && memoryOk then sched.tasks[i].state == S.READY
                else && sched.tasks[i].state == S.ZOMBIE && !Queued(sched.rq.q, i)
                     && S.Exited(old(sched.tasks), old(sched.entries), sched.tasks, sched.entries, i,
                                 if cancelled then cancelCode else -1, pipes, notify)
    {
      hide S.Inv, S.PidsOk, S.EntriesOk, S.Exited;
      var i := active;
      active := NIL;
      if cancelled {
        sched.FailReserved(i, cancelCode, pipes, notify);
        return;
      }
      var ok := false;
      if loaded {
        ok := sched.Activate(i, memoryOk);
      }
      if !ok {
        sched.FailReserved(i, -1, pipes, notify);
      }
    }

    /** process_cancel_async for the LOADING task in slot i: one that still waits dies
        at once, one that is being loaded when the loader is done. */
    method CancelAsync(i: nat, code: int, pipes: seq<nat>, notify: bool) returns (ok: bool)
      requires Valid() && i < MAX_TASKS && Cancellable(sched.tasks[i])
      modifies this`loads, this`cancelled, this`cancelCode, sched, sched.rq
      ensures Valid() && (ok <==> active == i || i in old(loads))
      ensures !ok || active == i ==> sched.tasks == old(sched.tasks) && loads == old(loads)
      ensures if ok && active == i then cancelled && cancelCode == code
          else cancelled == old(cancelled) && cancelCode == old(cancelCode)
      ensures ok && active != i ==>
                && sched.tasks[i].state == S.ZOMBIE && sched.tasks[i].exitCode == code && !Queued(sched.rq.q, i)
                && S.Exited(old(sched.tasks), old(sched.entries), sched.tasks, sched.entries, i, code, pipes, notify)
                && loads == Without(old(loads), i)
    {
      if active == i {
        cancelled, cancelCode := true, code;
        return true;
      }
      S.PidIndex(sched.tasks, sched.nextPid, i);
      hide S.Inv, S.PidsOk, S.EntriesOk, S.Exited;
      for k := 0 to |loads|
        invariant i !in loads[..k]
      {
        if sched.tasks[loads[k]].pid == sched.tasks[i].pid {
          WithoutAt(loads, i, k);
          loads := loads[..k] + loads[k + 1..];
          sched.FailReserved(i, code, pipes, notify);
          return true;
        }
      }
      ok := false;
    }

    /** task_kill: `false` is -1. */
    method Kill(pid: int, code: int, pipes: seq<nat>, notify: bool) returns (ok: bool)
      requires Valid()
      modifies this`loads, this`cancelled, this`cancelCode, sched, sched.rq
      ensures Valid()
      ensures ok <==> pid > 0 && exists i ::
                && 0 <= i < MAX_TASKS && old(sched.tasks)[i].pid == pid && !old(sched.tasks)[i].vfs
                && var t := old(sched.tasks)[i];
                   if t.state == S.LOADING then i == active || i in old(loads)
                   else t.user && t.state != S.ZOMBIE && t.state != S.DEAD
      ensures !ok ==> sched.tasks == old(sched.tasks) && loads == old(loads) && cancelled == old(cancelled)
      ensures forall i :: ok && 0 <= i < MAX_TASKS && old(sched.tasks)[i].pid == pid ==>
                if old(sched.tasks)[i].state == S.LOADING && i == active
                then sched.tasks == old(sched.tasks) && cancelled && cancelCode == code
                else && sched.tasks[i].state == S.ZOMBIE && sched.tasks[i].exitCode == code && !Queued(sched.rq.q, i)
                     && S.Exited(old(sched.tasks), old(sched.entries),
                                 if i == old(sched.current)
                                 then sched.tasks[sched.current := sched.tasks[sched.current].(state := S.READY)]
                                 else sched.tasks, sched.entries, i, code, pipes, notify)
    {
      var i := sched.Find(pid);
      if i == NIL {
        return false;
      }
      S.PidIndex(sched.tasks, sched.nextPid, i);
      S.RunningSlot(sched.tasks, sched.current, sched.idle, sched.rq.q, sched.nSleeping, sched.nTimed);
      hide S.Inv, S.PidsOk, S.EntriesOk, S.Exited;
      if Cancellable(sched.tasks[i]) {
        ok := CancelAsync(i, code, pipes, notify);
        return;
      }
      ok := sched.Kill(pid, code, pipes, notify);
    }
  }

  datatype Op =
    | Sched(op: S.Op)
    | SpawnAsync(parent: nat, stackOk: bool, stateOk: bool)
    | LoadNext
    | LoadDone(loaded: bool, memoryOk: bool, pipes: seq<nat>, notify: bool)
    | Kill(pid: int, code: int, pipes: seq<nat>, notify: bool)

  /** Any interleaving of scheduler steps, asynchronous spawns, the loader and kills
      keeps the task table consistent. */
  method Run(ops: seq<Op>) returns (l: Loads)
    ensures l.Valid()
    ensures S.Consistent(l.sched.tasks, l.sched.current, l.sched.idle, l.sched.rq.q, l.sched.nSleeping, l.sched.nTimed)
  {
    l := new Loads();
    var k := 0;
    while k < |ops|
      invariant l.Valid() && fresh(l) && fresh(l.sched) && fresh(l.sched.rq)
    {
      match ops[k] {
        case Sched(op) => if l.sched.Allowed(op) { l.sched.Perform(op); }
        case SpawnAsync(parent, stackOk, stateOk) => var _ := l.SpawnAsync(parent, stackOk, stateOk);
        case LoadNext => l.LoadNext();
        case LoadDone(loaded, memoryOk, pipes, notify) =>
          if l.active != NIL && S.Live(l.sched.tasks[l.active]) {
            l.LoadDone(loaded, memoryOk, pipes, notify);
          }
        case Kill(pid, code, pipes, notify) => var _ := l.Kill(pid, code, pipes, notify);
      }
      k := k + 1;
    }
    S.QueuedInRange(l.sched.rq.q, l.sched.rq.head, l.sched.rq.tail, l.sched.rq.next);
    S.Spelled(l.sched.tasks, l.sched.current, l.sched.idle, l.sched.rq.q, l.sched.nSleeping, l.sched.nTimed);
  }
}
