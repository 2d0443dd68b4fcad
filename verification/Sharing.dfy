/** Who still uses an address space (kernel/sched/sched.c): the reference count
    of a VM record through thread creation, vfork, exec and reap, and the wait of
    a vfork parent. */
module Sharing {
  datatype Phase = Loading | Active | Exited

  /** A task that has not been reaped.  vm 0 is the null pointer; `waitsOn` is the
      child a vfork parent waits for, `parked` whether it is off the CPU for it. */
  datatype Member = Member(phase: Phase, vm: nat, vforkParent: nat, waitsOn: nat, parked: bool)

  /** struct task_vm: page tables, the count behind pml4_ref_count (null if not
      `counted`), and whether frames are lent to others. */
  datatype Vm = Vm(pml4: nat, counted: bool, refs: int, sharedOut: bool)

  type Tasks = map<nat, Member>
  type Vms = map<nat, Vm>

  function Users(tasks: Tasks, v: nat): set<nat>
  {
    set p | p in tasks && tasks[p].vm == v
  }

  ghost predicate VmOk(tasks: Tasks, vms: Vms, v: nat)
  {
    v in vms ==>
      && v != 0 && Users(tasks, v) != {}
      && (vms[v].counted ==> vms[v].pml4 != 0 && vms[v].refs == |Users(tasks, v)|)
      && (!vms[v].counted ==> vms[v].pml4 == 0 && |Users(tasks, v)| == 1)
  }

  /** `pending` maps each vfork child that has neither exec'd nor exited to its parent. */
  ghost predicate TaskOk(tasks: Tasks, vms: Vms, pending: map<nat, nat>, p: nat)
  {
    p in tasks ==>
      var m := tasks[p];
      && p != 0
      && (m.vm != 0 ==> m.vm in vms && (m.phase == Active ==> vms[m.vm].counted) && (m.phase == Loading ==> !vms[m.vm].counted))
      && (m.vforkParent != 0 <==> p in pending) && (p in pending ==> pending[p] == m.vforkParent && m.phase == Active)
      && (m.parked ==> m.phase == Active && m.waitsOn in pending && pending[m.waitsOn] == p)
  }

  ghost predicate Inv(tasks: Tasks, vms: Vms, pending: map<nat, nat>, torn: set<nat>, leaked: set<nat>, nextVm: nat,
                      nextPid: nat)
  {
    && (forall v: nat {:trigger VmOk(tasks, vms, v)} :: VmOk(tasks, vms, v))
    && (forall p: nat {:trigger TaskOk(tasks, vms, pending, p)} :: TaskOk(tasks, vms, pending, p))
    && pending.Keys <= tasks.Keys
    && torn !! vms.Keys && leaked !! vms.Keys && torn !! leaked && 0 !in torn
    && (forall v :: v in vms || v in torn || v in leaked ==> v < nextVm)
    && (forall p :: p in tasks ==> p < nextPid) && nextPid > 0 && nextVm > 0
  }

  lemma UsersSet(tasks: Tasks, p: nat, m: Member, v: nat)
    ensures Users(tasks[p := m], v) == (Users(tasks, v) - {p}) + (if m.vm == v then {p} else {})
  {
  }

  lemma UsersGone(tasks: Tasks, p: nat, v: nat)
    ensures Users(tasks - {p}, v) == Users(tasks, v) - {p}
  {
  }

  lemma SizeWith(s: set<nat>, p: nat)
    ensures |s + {p}| == |s| + (if p in s then 0 else 1)
    ensures |s - {p}| == |s| - (if p in s then 1 else 0)
  {
    if p in s {
      assert s + {p} == s;
      assert s == (s - {p}) + {p};
    } else {
      assert s - {p} == s;
    }
  }

  /** Fields other than the VM pointer do not change who uses what. */
  lemma UsersSame(tasks: Tasks, p: nat, m: Member, vms: Vms, v: nat)
    requires p in tasks && m.vm == tasks[p].vm && VmOk(tasks, vms, v)
    ensures VmOk(tasks[p := m], vms, v)
  {
    UsersSet(tasks, p, m, v);
    assert Users(tasks[p := m], v) == Users(tasks, v);
  }

  /** Wake every parent parked in task_vfork_wait. */
  function Woken(tasks: Tasks): Tasks
  {
    map p | p in tasks :: tasks[p].(parked := false)
  }

  /** A child gives the address space back: it stops being pending and all parked
      parents look again. */
  lemma ReleaseOk(tasks: Tasks, vms: Vms, pending: map<nat, nat>, torn: set<nat>, leaked: set<nat>, nextVm: nat,
                  nextPid: nat, p: nat)
    requires Inv(tasks, vms, pending, torn, leaked, nextVm, nextPid) && p in tasks && tasks[p].vforkParent != 0
    ensures Inv(Woken(tasks[p := tasks[p].(vforkParent := 0)]), vms, pending - {p}, torn, leaked, nextVm, nextPid)
  {
    var tasks1 := tasks[p := tasks[p].(vforkParent := 0)];
    var tasks', pending' := Woken(tasks1), pending - {p};
    forall v: nat
      ensures VmOk(tasks', vms, v)
    {
      assert VmOk(tasks, vms, v);
      assert Users(tasks', v) == Users(tasks, v);
    }
    forall k: nat
      ensures TaskOk(tasks', vms, pending', k)
    {
      assert TaskOk(tasks, vms, pending, k);
    }
  }

  /** Dropping p's use of record v: what remains of the other records. */
  lemma DropUser(tasks: Tasks, tasks': Tasks, vms: Vms, p: nat, v: nat, w: nat)
    requires p in tasks && tasks[p].vm == v && v in vms && VmOk(tasks, vms, v) && VmOk(tasks, vms, w) && vms[v].counted
    requires Users(tasks', v) == Users(tasks, v) - {p} && (w != v ==> Users(tasks', w) == Users(tasks, w))
    ensures vms[v].refs - 1 == |Users(tasks', v)|
    ensures vms[v].refs - 1 > 0 <==> Users(tasks', v) != {}
    ensures vms[v].refs - 1 > 0 ==> VmOk(tasks', vms[v := vms[v].(refs := vms[v].refs - 1)], w)
    ensures VmOk(tasks', vms - {v}, w)
    ensures vms[v].refs - 1 <= 0 ==> Users(tasks, v) == {p}
  {
    SizeWith(Users(tasks, v), p);
    assert p in Users(tasks, v);
    if |Users(tasks', v)| == 0 {
      assert Users(tasks', v) == {};
      assert forall x :: x in Users(tasks, v) ==> x == p;
    }
  }

  /** A new task on a new record. */
  lemma FreshOk(tasks: Tasks, vms: Vms, pending: map<nat, nat>, torn: set<nat>, leaked: set<nat>, nextVm: nat,
                nextPid: nat, m: Member, r: Vm)
    requires Inv(tasks, vms, pending, torn, leaked, nextVm, nextPid)
    requires m.vm == nextVm && m.vforkParent == 0 && !m.parked && r.refs == 1 && m.phase != Exited
    requires if m.phase == Active then r.counted && r.pml4 != 0 else !r.counted && r.pml4 == 0
    ensures Inv(tasks[nextPid := m], vms[nextVm := r], pending, torn, leaked, nextVm + 1, nextPid + 1)
  {
    var tasks', vms' := tasks[nextPid := m], vms[nextVm := r];
    forall v: nat
      ensures VmOk(tasks', vms', v)
    {
      assert VmOk(tasks, vms, v);
      UsersSet(tasks, nextPid, m, v);
      if v == nextVm {
        NoUsers(tasks, vms, pending, torn, leaked, nextVm, nextPid);
        assert Users(tasks', v) == {nextPid};
      } else {
        assert Users(tasks', v) == Users(tasks, v);
      }
    }
    forall k: nat
      ensures TaskOk(tasks', vms', pending, k)
    {
      assert TaskOk(tasks, vms, pending, k);
    }
  }

  lemma KernelOk(tasks: Tasks, vms: Vms, pending: map<nat, nat>, torn: set<nat>, leaked: set<nat>, nextVm: nat,
                 nextPid: nat)
    requires Inv(tasks, vms, pending, torn, leaked, nextVm, nextPid)
    ensures Inv(tasks[nextPid := Member(Active, 0, 0, 0, false)], vms, pending, torn, leaked, nextVm, nextPid + 1)
  {
    var m := Member(Active, 0, 0, 0, false);
    var tasks' := tasks[nextPid := m];
    forall v: nat
      ensures VmOk(tasks', vms, v)
    {
      assert VmOk(tasks, vms, v);
      UsersSet(tasks, nextPid, m, v);
      assert v != 0 ==> Users(tasks', v) == Users(tasks, v);
    }
    forall k: nat
      ensures TaskOk(tasks', vms, pending, k)
    {
      assert TaskOk(tasks, vms, pending, k);
    }
  }

  /** Nobody uses a record that does not exist yet. */
  lemma NoUsers(tasks: Tasks, vms: Vms, pending: map<nat, nat>, torn: set<nat>, leaked: set<nat>, nextVm: nat,
                nextPid: nat)
    requires Inv(tasks, vms, pending, torn, leaked, nextVm, nextPid)
    ensures Users(tasks, nextVm) == {}
  {
    forall p | p in tasks
      ensures tasks[p].vm != nextVm
    {
      assert TaskOk(tasks, vms, pending, p);
    }
  }

  lemma SharedVm(tasks: Tasks, vms: Vms, p: nat, m: Member, w: nat)
    requires p !in tasks && m.vm in vms && vms[m.vm].counted && VmOk(tasks, vms, w)
    ensures VmOk(tasks[p := m], vms[m.vm := vms[m.vm].(refs := vms[m.vm].refs + 1)], w)
  {
    UsersSet(tasks, p, m, w);
    SizeWith(Users(tasks, w), p);
    assert p !in Users(tasks, w);
    hide Users;
    assert Users(tasks, w) - {p} == Users(tasks, w);
    assert Users(tasks[p := m], w) == if w == m.vm then Users(tasks, w) + {p} else Users(tasks, w);
  }

  /** A new task on the record of its creator. */
  lemma SharedOk(tasks: Tasks, vms: Vms, pending: map<nat, nat>, torn: set<nat>, leaked: set<nat>, nextVm: nat,
                 nextPid: nat, parent: nat, vfork: bool)
    requires Inv(tasks, vms, pending, torn, leaked, nextVm, nextPid)
    requires parent in tasks && tasks[parent].phase == Active && tasks[parent].vm != 0
    ensures var v := tasks[parent].vm;
            && v in vms
            && Inv(tasks[nextPid := Member(Active, v, if vfork then parent else 0, 0, false)],
                   vms[v := vms[v].(refs := vms[v].refs + 1)],
                   if vfork then pending[nextPid := parent] else pending, torn, leaked, nextVm, nextPid + 1)
  {
    assert TaskOk(tasks, vms, pending, parent);
    var v := tasks[parent].vm;
    var m := Member(Active, v, if vfork then parent else 0, 0, false);
    var tasks', vms' := tasks[nextPid := m], vms[v := vms[v].(refs := vms[v].refs + 1)];
    var pending' := if vfork then pending[nextPid := parent] else pending;
    forall w: nat
      ensures VmOk(tasks', vms', w)
    {
      assert VmOk(tasks, vms, w);
      SharedVm(tasks, vms, nextPid, m, w);
    }
    hide VmOk;
    forall k: nat
      ensures TaskOk(tasks', vms', pending', k)
    {
      assert TaskOk(tasks, vms, pending, k);
    }
  }

  /** The record p used, after p stopped using it. */
  function Dropped(vms: Vms, v: nat): Vms
    requires v in vms
  {
    if vms[v].refs - 1 > 0 then vms[v := vms[v].(refs := vms[v].refs - 1)] else vms - {v}
  }

  lemma SwitchVm(tasks: Tasks, vms: Vms, p: nat, n: nat, r: Vm, w: nat)
    requires p in tasks && n !in vms && n != 0 && r.counted && r.pml4 != 0 && r.refs == 1 && Users(tasks, n) == {}
    requires n != tasks[p].vm
    requires VmOk(tasks, vms, w) && VmOk(tasks, vms, tasks[p].vm)
    requires (tasks[p].vm != 0 ==> tasks[p].vm in vms && vms[tasks[p].vm].counted)
    requires 0 !in vms
    ensures var v := tasks[p].vm;
            VmOk(tasks[p := tasks[p].(vm := n)], (if v == 0 then vms else Dropped(vms, v))[n := r], w)
  {
    var v, m := tasks[p].vm, tasks[p].(vm := n);
    var tasks' := tasks[p := m];
    UsersSet(tasks, p, m, w);
    if w == n {
      assert Users(tasks', w) == {p};
    } else if v == 0 {
      assert w in vms ==> Users(tasks', w) == Users(tasks, w);
    } else {
      UsersSet(tasks, p, m, v);
      assert w != v ==> Users(tasks', w) == Users(tasks, w);
      assert Users(tasks', v) == Users(tasks, v) - {p};
      DropUser(tasks, tasks', vms, p, v, w);
    }
  }

  /** When p lets go of its record: others remain, or p was the last user. */
  lemma LastUser(tasks: Tasks, vms: Vms, p: nat)
    requires p in tasks && tasks[p].vm in vms && vms[tasks[p].vm].counted && VmOk(tasks, vms, tasks[p].vm)
    ensures vms[tasks[p].vm].refs - 1 <= 0 <==> Users(tasks, tasks[p].vm) == {p}
  {
    var u := Users(tasks, tasks[p].vm);
    assert p in u;
    SizeWith(u, p);
    if |u| == 1 {
      assert |u - {p}| == 0;
      assert u - {p} == {};
      assert u == {p};
    }
  }

  /** p moves to a new record (exec). */
  lemma SwitchOk(tasks: Tasks, vms: Vms, pending: map<nat, nat>, torn: set<nat>, leaked: set<nat>, nextVm: nat,
                 nextPid: nat, p: nat, r: Vm, tear: bool)
    requires Inv(tasks, vms, pending, torn, leaked, nextVm, nextPid)
    requires p in tasks && tasks[p].phase == Active && r.counted && r.pml4 != 0 && r.refs == 1
    ensures var v := tasks[p].vm;
            var tasks' := tasks[p := tasks[p].(vm := nextVm)];
            if v == 0 then Inv(tasks', vms[nextVm := r], pending, torn, leaked, nextVm + 1, nextPid)
            else
              && v in vms && v != nextVm && vms[v].counted && vms[v].pml4 != 0
              && (vms[v].refs - 1 <= 0 <==> Users(tasks, v) == {p}) && v !in torn
              && Inv(tasks', Dropped(vms, v)[nextVm := r], pending,
                     if vms[v].refs - 1 <= 0 && tear then torn + {v} else torn,
                     if vms[v].refs - 1 <= 0 && !tear then leaked + {v} else leaked, nextVm + 1, nextPid)
  {
    var v, m := tasks[p].vm, tasks[p].(vm := nextVm);
    assert TaskOk(tasks, vms, pending, p) && VmOk(tasks, vms, v) && VmOk(tasks, vms, 0);
    NoUsers(tasks, vms, pending, torn, leaked, nextVm, nextPid);
    if v != 0 {
      LastUser(tasks, vms, p);
    }
    var tasks', vms' := tasks[p := m], (if v == 0 then vms else Dropped(vms, v))[nextVm := r];
    hide Users;
    forall w: nat
      ensures VmOk(tasks', vms', w)
    {
      assert VmOk(tasks, vms, w);
      SwitchVm(tasks, vms, p, nextVm, r, w);
    }
    hide VmOk;
    SwitchTasks(tasks, vms, pending, p, m, vms', v, nextVm);
  }

  lemma SwitchTasks(tasks: Tasks, vms: Vms, pending: map<nat, nat>, p: nat, m: Member, vms': Vms, v: nat, nextVm: nat)
    requires forall k: nat {:trigger TaskOk(tasks, vms, pending, k)} :: TaskOk(tasks, vms, pending, k)
    requires p in tasks && m == tasks[p].(vm := nextVm) && tasks[p].vm == v && m.phase == Active && nextVm in vms'
    requires vms'[nextVm].counted
    requires forall w :: w in vms && w != v && w != nextVm ==> w in vms' && vms'[w] == vms[w]
    requires v in vms && v !in vms' ==> Users(tasks, v) == {p}
    requires v in vms && v in vms' ==> vms'[v].counted == vms[v].counted
    requires nextVm !in vms && v != nextVm
    ensures var tasks' := tasks[p := m]; forall k: nat {:trigger TaskOk(tasks', vms', pending, k)} :: TaskOk(tasks', vms', pending, k)
  {
    var tasks' := tasks[p := m];
    forall k: nat
      ensures TaskOk(tasks', vms', pending, k)
    {
      assert TaskOk(tasks, vms, pending, k);
      if k in tasks && k != p && tasks[k].vm == v && v != 0 {
        assert k in Users(tasks, v);
      }
    }
  }

  lemma ReapVm(tasks: Tasks, vms: Vms, p: nat, w: nat)
    requires p in tasks && VmOk(tasks, vms, w) && VmOk(tasks, vms, tasks[p].vm)
    requires (tasks[p].vm != 0 ==> tasks[p].vm in vms) && 0 !in vms
    ensures VmOk(tasks - {p}, Without(vms, tasks[p].vm), w)
  {
    var v := tasks[p].vm;
    UsersGone(tasks, p, w);
    UsersGone(tasks, p, v);
    assert w != v ==> p !in Users(tasks, w) && Users(tasks, w) - {p} == Users(tasks, w);
    if v != 0 && vms[v].counted {
      DropUser(tasks, tasks - {p}, vms, p, v, w);
    }
  }

  /** The records after the reap of a task that pointed at v. */
  function Without(vms: Vms, v: nat): Vms
  {
    if v !in vms then vms else if vms[v].counted then Dropped(vms, v) else vms - {v}
  }

  /** The reaped task is gone; its record too if it was the last user. */
  lemma ReapOk(tasks: Tasks, vms: Vms, pending: map<nat, nat>, torn: set<nat>, leaked: set<nat>, nextVm: nat,
               nextPid: nat, p: nat)
    requires Inv(tasks, vms, pending, torn, leaked, nextVm, nextPid) && p in tasks && tasks[p].phase == Exited
    ensures var v := tasks[p].vm;
            var last := v in vms && vms[v].counted && vms[v].refs - 1 <= 0;
            && (v != 0 ==> v in vms) && (last ==> Users(tasks, v) == {p} && v !in torn)
            && Inv(tasks - {p}, Without(vms, v), pending, if last then torn + {v} else torn, leaked, nextVm, nextPid)
  {
    var v, tasks' := tasks[p].vm, tasks - {p};
    assert TaskOk(tasks, vms, pending, p) && VmOk(tasks, vms, v) && VmOk(tasks, vms, 0);
    if v != 0 && vms[v].counted {
      LastUser(tasks, vms, p);
    }
    var vms' := Without(vms, v);
    assert v in vms && v !in vms' ==> Users(tasks, v) == {p} by {
      if v in vms && !vms[v].counted {
        SizeWith(Users(tasks, v), p);
        assert p in Users(tasks, v) && |Users(tasks, v) - {p}| == 0;
        assert Users(tasks, v) == {p};
      }
    }
    forall w: nat
      ensures VmOk(tasks', vms', w)
    {
      assert VmOk(tasks, vms, w);
      ReapVm(tasks, vms, p, w);
    }
    hide VmOk;
    forall k: nat
      ensures TaskOk(tasks', vms', pending, k)
    {
      assert TaskOk(tasks, vms, pending, k);
      if k in tasks && k != p && tasks[k].vm == v && v != 0 {
        assert k in Users(tasks, v);
      }
    }
  }

  /** A change of p that keeps its record; `pending` is unaffected. */
  lemma ChangeOk(tasks: Tasks, vms: Vms, pending: map<nat, nat>, torn: set<nat>, leaked: set<nat>, nextVm: nat,
                 nextPid: nat, p: nat, m: Member)
    requires Inv(tasks, vms, pending, torn, leaked, nextVm, nextPid) && p in tasks && m.vm == tasks[p].vm
    requires TaskOk(tasks[p := m], vms, pending, p)
    ensures Inv(tasks[p := m], vms, pending, torn, leaked, nextVm, nextPid)
  {
    var tasks' := tasks[p := m];
    forall w: nat
      ensures VmOk(tasks', vms, w)
    {
      assert VmOk(tasks, vms, w);
      UsersSame(tasks, p, m, vms, w);
    }
    hide VmOk, Users;
    forall k: nat
      ensures TaskOk(tasks', vms, pending, k)
    {
      assert TaskOk(tasks, vms, pending, k);
    }
  }

  /** A change of record v that keeps its count. */
  lemma RecordOk(tasks: Tasks, vms: Vms, pending: map<nat, nat>, torn: set<nat>, leaked: set<nat>, nextVm: nat,
                 nextPid: nat, v: nat, r: Vm)
    requires Inv(tasks, vms, pending, torn, leaked, nextVm, nextPid) && v in vms
    requires r == vms[v].(sharedOut := r.sharedOut)
    ensures Inv(tasks, vms[v := r], pending, torn, leaked, nextVm, nextPid)
  {
    var vms' := vms[v := r];
    forall w: nat
      ensures VmOk(tasks, vms', w)
    {
      assert VmOk(tasks, vms, w);
    }
    forall k: nat
      ensures TaskOk(tasks, vms', pending, k)
    {
      assert TaskOk(tasks, vms, pending, k);
    }
  }

  /** The reserved task gets its page tables. */
  lemma ActivateOk(tasks: Tasks, vms: Vms, pending: map<nat, nat>, torn: set<nat>, leaked: set<nat>, nextVm: nat,
                   nextPid: nat, p: nat, pml4: nat)
    requires Inv(tasks, vms, pending, torn, leaked, nextVm, nextPid) && p in tasks && tasks[p].phase == Loading
    requires tasks[p].vm != 0 && pml4 != 0
    ensures var v := tasks[p].vm;
            v in vms && Inv(tasks[p := tasks[p].(phase := Active)], vms[v := Vm(pml4, true, 1, vms[v].sharedOut)],
                            pending, torn, leaked, nextVm, nextPid)
  {
    assert TaskOk(tasks, vms, pending, p) && VmOk(tasks, vms, tasks[p].vm);
    var v, m := tasks[p].vm, tasks[p].(phase := Active);
    var tasks', vms' := tasks[p := m], vms[v := Vm(pml4, true, 1, vms[v].sharedOut)];
    SizeWith(Users(tasks, v), p);
    assert p in Users(tasks, v);
    assert Users(tasks, v) == {p} by {
      assert |Users(tasks, v) - {p}| == 0;
      assert Users(tasks, v) - {p} == {};
    }
    forall w: nat
      ensures VmOk(tasks', vms', w)
    {
      assert VmOk(tasks, vms, w);
      UsersSet(tasks, p, m, w);
      assert Users(tasks', w) == Users(tasks, w);
    }
    forall k: nat
      ensures TaskOk(tasks', vms', pending, k)
    {
      assert TaskOk(tasks, vms, pending, k);
      assert k in tasks && tasks[k].vm == v ==> k in Users(tasks, v);
    }
  }

  class Spaces {
    var tasks: Tasks
    var vms: Vms
    var nextVm: nat
    var nextPid: nat
    /** vfork children that have neither exec'd nor exited, and their parents. */
    ghost var pending: map<nat, nat>
    /** Records whose address space was torn down, and those leaked by exec. */
    ghost var torn: set<nat>
    ghost var leaked: set<nat>

    ghost predicate Valid()
      reads this
    {
      Inv(tasks, vms, pending, torn, leaked, nextVm, nextPid)
    }

    constructor ()
      ensures Valid() && tasks == map[] && vms == map[] && torn == {}
    {
      tasks, vms, nextVm, nextPid := map[], map[], 1, 1;
      pending, torn, leaked := map[], {}, {};
    }

    /** task_spawn_user (pml4 given) and task_reserve_user (pml4 null). */
    method Spawn(pml4: nat) returns (p: nat)
      requires Valid()
      modifies this
      ensures Valid() && p == old(nextPid)
      ensures tasks == old(tasks)[p := Member(if pml4 == 0 then Loading else Active, old(nextVm), 0, 0, false)]
      ensures vms == old(vms)[old(nextVm) := Vm(pml4, pml4 != 0, 1, false)] && torn == old(torn)
      ensures leaked == old(leaked) && pending == old(pending)
    {
      var m := Member(if pml4 == 0 then Loading else Active, nextVm, 0, 0, false);
      FreshOk(tasks, vms, pending, torn, leaked, nextVm, nextPid, m, Vm(pml4, pml4 != 0, 1, false));
      p := nextPid;
      vms := vms[nextVm := Vm(pml4, pml4 != 0, 1, false)];
      tasks := tasks[p := m];
      nextPid, nextVm := nextPid + 1, nextVm + 1;
    }

    /** task_spawn: a kernel thread has no record. */
    method SpawnKernel() returns (p: nat)
      requires Valid()
      modifies this`tasks, this`nextPid
      ensures Valid() && p == old(nextPid) && tasks == old(tasks)[p := Member(Active, 0, 0, 0, false)]
    {
      KernelOk(tasks, vms, pending, torn, leaked, nextVm, nextPid);
      p := nextPid;
      tasks := tasks[p := Member(Active, 0, 0, 0, false)];
      nextPid := nextPid + 1;
    }

    /** task_activate_reserved_user */
    method Activate(p: nat, pml4: nat) returns (ok: bool)
      requires Valid() && p in tasks
      modifies this
      ensures Valid() && (ok <==> old(tasks)[p].phase == Loading && pml4 != 0 && old(tasks)[p].vm != 0)
      ensures tasks == if ok then old(tasks)[p := old(tasks)[p].(phase := Active)] else old(tasks)
      ensures vms.Keys == old(vms).Keys
      ensures (ok ==> tasks[p].vm in vms && vms[tasks[p].vm].pml4 == pml4 && vms[tasks[p].vm].counted)
      ensures torn == old(torn) && leaked == old(leaked) && pending == old(pending)
    {
      if tasks[p].phase != Loading || pml4 == 0 || tasks[p].vm == 0 {
        return false;
      }
      ActivateOk(tasks, vms, pending, torn, leaked, nextVm, nextPid, p, pml4);
      var v := tasks[p].vm;
      vms := vms[v := Vm(pml4, true, 1, vms[v].sharedOut)];
      tasks := tasks[p := tasks[p].(phase := Active)];
      ok := true;
    }

    /** task_spawn_thread, and task_spawn_vfork once its descriptors are copied. */
    method Share(parent: nat, vfork: bool) returns (p: nat, ok: bool)
      requires Valid() && parent in tasks && tasks[parent].phase == Active
      modifies this
      ensures Valid() && (ok <==> old(tasks)[parent].vm != 0) && p == old(nextPid)
      ensures !ok ==> tasks == old(tasks) && vms == old(vms) && pending == old(pending)
      ensures ok ==>
                && tasks == old(tasks)[p := Member(Active, old(tasks)[parent].vm, if vfork then parent else 0, 0, false)]
                     && pending == if vfork then old(pending)[p := parent] else old(pending)
      ensures torn == old(torn) && leaked == old(leaked)
    {
      p := nextPid;
      if tasks[parent].vm == 0 {
        return p, false;
      }
      SharedOk(tasks, vms, pending, torn, leaked, nextVm, nextPid, parent, vfork);
      var v := tasks[parent].vm;
      vms := vms[v := vms[v].(refs := vms[v].refs + 1)];
      tasks := tasks[p := Member(Active, v, if vfork then parent else 0, 0, false)];
      if vfork {
        pending := pending[p := parent];
      }
      nextPid := nextPid + 1;
      ok := true;
    }

    /** task_vfork_release */
    method VforkRelease(p: nat)
      requires Valid() && p in tasks
      modifies this`tasks, this`pending
      ensures Valid() && pending == old(pending) - {p} && tasks.Keys == old(tasks).Keys && p in tasks
      ensures tasks[p].vforkParent == 0 && tasks[p].vm == old(tasks)[p].vm && tasks[p].phase == old(tasks)[p].phase
      ensures forall k :: k in tasks ==> tasks[k].vm == old(tasks)[k].vm
      ensures old(tasks)[p].vforkParent != 0 ==> forall k :: k in tasks ==> !tasks[k].parked
    {
      assert TaskOk(tasks, vms, pending, p);
      if tasks[p].vforkParent == 0 {
        assert pending - {p} == pending;
        return;
      }
      ReleaseOk(tasks, vms, pending, torn, leaked, nextVm, nextPid, p);
      tasks := tasks[p := tasks[p].(vforkParent := 0)];
      tasks := Woken(tasks);
      pending := pending - {p};
    }

    /** One round of task_vfork_wait by parent p: it leaves the wait only when the
        child has exec'd, exited or been reaped; otherwise it parks. */
    method VforkWait(p: nat, child: nat) returns (done: bool)
      requires Valid() && p in tasks && tasks[p].phase == Active && !tasks[p].parked
      modifies this`tasks
      ensures Valid() && (done <==> !(child in pending && pending[child] == p))
      ensures tasks == old(tasks)[p := old(tasks)[p].(waitsOn := if done then 0 else child, parked := !done)]
    {
      assert TaskOk(tasks, vms, pending, p) && TaskOk(tasks, vms, pending, child);
      done := child !in tasks || tasks[child].vforkParent != p;
      var m := tasks[p].(waitsOn := if done then 0 else child, parked := !done);
      ChangeOk(tasks, vms, pending, torn, leaked, nextVm, nextPid, p, m);
      tasks := tasks[p := m];
    }

    /** sys_shmem_share counts lent frames on the record. */
    method LendFrames(p: nat, lent: bool)
      requires Valid() && p in tasks && tasks[p].vm != 0
      modifies this`vms
      ensures Valid() && tasks[p].vm in old(vms)
      ensures vms == old(vms)[tasks[p].vm := old(vms)[tasks[p].vm].(sharedOut := lent)]
    {
      assert TaskOk(tasks, vms, pending, p);
      var v := tasks[p].vm;
      RecordOk(tasks, vms, pending, torn, leaked, nextVm, nextPid, v, vms[v].(sharedOut := lent));
      vms := vms[v := vms[v].(sharedOut := lent)];
    }

    /** task_exec_address_space: a new record for p; the old one is torn down (or
        leaked, if frames are lent) exactly when p was its last user. */
    method Exec(p: nat, pml4: nat)
      requires Valid() && p in tasks && tasks[p].phase == Active && pml4 != 0
      modifies this
      ensures Valid() && p in tasks && tasks[p].vm == old(nextVm) && pending == old(pending) - {p}
      ensures tasks.Keys == old(tasks).Keys && (forall k :: k in tasks && k != p ==> tasks[k].vm == old(tasks)[k].vm)
      ensures old(nextVm) in vms && vms[old(nextVm)] == Vm(pml4, true, 1, false)
      ensures torn == (if LastWith(old(tasks), old(vms), p, false) then old(torn) + {old(tasks)[p].vm} else old(torn))
      ensures leaked == (if LastWith(old(tasks), old(vms), p, true) then old(leaked) + {old(tasks)[p].vm}
          else old(leaked))
      ensures old(tasks)[p].vm !in old(torn)
    {
      var oldVm, newVm := tasks[p].vm, nextVm;
      ghost var tasks0 := tasks;
      TornOld(tasks, vms, pending, torn, leaked, nextVm, nextPid, p);
      hide Inv, Users, Woken;
      VforkRelease(p);
      SameUsers(tasks0, tasks, oldVm);
      SwitchOk(tasks, vms, pending, torn, leaked, nextVm, nextPid, p, Vm(pml4, true, 1, false),
               oldVm in vms && !vms[oldVm].sharedOut);
      vms := vms[newVm := Vm(pml4, true, 1, false)];
      tasks := tasks[p := tasks[p].(vm := newVm)];
      nextVm := nextVm + 1;
      if oldVm == 0 || vms[oldVm].pml4 == 0 {
        return;
      }
      LetGo(oldVm);
      assert vms == Dropped(old(vms), oldVm)[newVm := Vm(pml4, true, 1, false)];
    }

    /** One user less; the last one tears the record down, or leaks it if frames
        are lent. */
    method LetGo(v: nat)
      requires v in vms
      modifies this`vms, this`torn, this`leaked
      ensures vms == Dropped(old(vms), v)
      ensures torn == if old(vms)[v].refs - 1 <= 0 && !old(vms)[v].sharedOut then old(torn) + {v} else old(torn)
      ensures leaked == if old(vms)[v].refs - 1 <= 0 && old(vms)[v].sharedOut then old(leaked) + {v} else old(leaked)
    {
      var left := vms[v].refs - 1;
      if left > 0 {
        vms := vms[v := vms[v].(refs := left)];
        return;
      }
      if vms[v].sharedOut {
        leaked := leaked + {v};
      } else {
        torn := torn + {v};
      }
      vms := vms - {v};
    }

    /** The address-space part of task_exit and task_kill: a borrowed space goes
        back to the parked parent, the record stays until the reap. */
    method Exit(p: nat)
      requires Valid() && p in tasks && tasks[p].phase != Exited
      modifies this`tasks, this`pending
      ensures Valid() && p in tasks && tasks[p].phase == Exited && tasks[p].vm == old(tasks)[p].vm
      ensures pending == old(pending) - {p}
    {
      VforkRelease(p);
      assert TaskOk(tasks, vms, pending, p);
      var m := tasks[p].(phase := Exited, waitsOn := 0, parked := false);
      ChangeOk(tasks, vms, pending, torn, leaked, nextVm, nextPid, p, m);
      tasks := tasks[p := m];
    }

    /** task_reap: p lets go of its record, which is torn down exactly when p was
        the last task pointing at it. */
    method Reap(p: nat)
      requires Valid() && p in tasks && tasks[p].phase == Exited
      modifies this
      ensures Valid() && tasks == old(tasks) - {p} && pending == old(pending) && leaked == old(leaked)
      ensures torn == (if LastWith(old(tasks), old(vms), p, false) || LastWith(old(tasks), old(vms), p, true)
                       then old(torn) + {old(tasks)[p].vm} else old(torn))
      ensures old(tasks)[p].vm !in old(torn)
    {
      assert TaskOk(tasks, vms, pending, p) && VmOk(tasks, vms, tasks[p].vm);
      ReapOk(tasks, vms, pending, torn, leaked, nextVm, nextPid, p);
      var v := tasks[p].vm;
      if v != 0 && vms[v].counted {
        LastUser(tasks, vms, p);
      }
      TornOld(tasks, vms, pending, torn, leaked, nextVm, nextPid, p);
      tasks := tasks - {p};
      if v == 0 {
        return;
      }
      if vms[v].pml4 == 0 {
        vms := vms - {v};
        return;
      }
      var left := vms[v].refs - 1;
      if left > 0 {
        vms := vms[v := vms[v].(refs := left)];
        return;
      }
      torn := torn + {v};
      vms := vms - {v};
    }
  }

  datatype Op =
    | SpawnKernel | Spawn(pml4: nat) | Activate(p: nat, pml4: nat) | Share(parent: nat, vfork: bool)
    | VforkWait(p: nat, child: nat) | LendFrames(p: nat, lent: bool) | Exec(p: nat, pml4: nat) | Exit(p: nat) | Reap(p: nat)

  /** Any sequence of these operations (one that cannot happen is skipped) keeps
      the count of every live record equal to the number of tasks pointing at it,
      and no torn record is ever pointed at again. */
  method Run(ops: seq<Op>) returns (s: Spaces)
    ensures s.Valid()
    ensures forall v :: v in s.vms && s.vms[v].counted ==> s.vms[v].refs == |Users(s.tasks, v)| > 0
    ensures forall p :: p in s.tasks ==> s.tasks[p].vm !in s.torn
    ensures forall p ::
              p in s.tasks && s.tasks[p].parked ==> s.tasks[p].waitsOn in s.pending && s.pending[s.tasks[p].waitsOn] == p
  {
    s := new Spaces();
    hide Inv;
    var k := 0;
    while k < |ops|
      invariant s.Valid() && fresh(s)
    {
      match ops[k] {
        case SpawnKernel => var _ := s.SpawnKernel();
        case Spawn(pml4) => var _ := s.Spawn(pml4);
        case Activate(p, pml4) => if p in s.tasks { var _ := s.Activate(p, pml4); }
        case Share(parent, vfork) => if parent in s.tasks && s.tasks[parent].phase == Active { var _, _ := s.Share(parent, vfork); }
        case VforkWait(p, child) =>
          if p in s.tasks && s.tasks[p].phase == Active && !s.tasks[p].parked {
            var _ := s.VforkWait(p, child);
          }
        case LendFrames(p, lent) => if p in s.tasks && s.tasks[p].vm != 0 { s.LendFrames(p, lent); }
        case Exec(p, pml4) => if p in s.tasks && s.tasks[p].phase == Active && pml4 != 0 { s.Exec(p, pml4); }
        case Exit(p) => if p in s.tasks && s.tasks[p].phase != Exited { s.Exit(p); }
        case Reap(p) => if p in s.tasks && s.tasks[p].phase == Exited { s.Reap(p); }
      }
      k := k + 1;
    }
    Spelled(s.tasks, s.vms, s.pending, s.torn, s.leaked, s.nextVm, s.nextPid);
  }

  lemma Spelled(tasks: Tasks, vms: Vms, pending: map<nat, nat>, torn: set<nat>, leaked: set<nat>, nextVm: nat,
                nextPid: nat)
    requires Inv(tasks, vms, pending, torn, leaked, nextVm, nextPid)
    ensures forall v :: v in vms && vms[v].counted ==> vms[v].refs == |Users(tasks, v)| > 0
    ensures forall p :: p in tasks ==> tasks[p].vm !in torn
    ensures forall p :: p in tasks && tasks[p].parked ==> tasks[p].waitsOn in pending && pending[tasks[p].waitsOn] == p
  {
    forall v | v in vms && vms[v].counted
      ensures vms[v].refs == |Users(tasks, v)| > 0
    {
      assert VmOk(tasks, vms, v);
    }
    forall p | p in tasks
      ensures tasks[p].vm !in torn
      ensures (tasks[p].parked ==> tasks[p].waitsOn in pending && pending[tasks[p].waitsOn] == p)
    {
      assert TaskOk(tasks, vms, pending, p);
    }
  }

  /** Is p the last user of its record, with the given lending state? */
  ghost predicate LastWith(tasks: Tasks, vms: Vms, p: nat, lent: bool)
    requires p in tasks
  {
    var v := tasks[p].vm;
    v in vms && vms[v].counted && Users(tasks, v) == {p} && vms[v].sharedOut == lent
  }

  lemma SameUsers(a: Tasks, b: Tasks, v: nat)
    requires a.Keys == b.Keys && forall k :: k in a ==> b[k].vm == a[k].vm
    ensures Users(a, v) == Users(b, v)
  {
    assert forall k :: k in a.Keys <==> k in b.Keys;
  }

  lemma TornOld(tasks: Tasks, vms: Vms, pending: map<nat, nat>, torn: set<nat>, leaked: set<nat>, nextVm: nat,
                nextPid: nat, p: nat)
    requires Inv(tasks, vms, pending, torn, leaked, nextVm, nextPid) && p in tasks
    ensures tasks[p].vm !in torn && 0 !in vms && nextVm !in vms
    ensures tasks[p].vm != 0 ==> tasks[p].vm in vms
  {
    assert TaskOk(tasks, vms, pending, p) && VmOk(tasks, vms, 0);
  }
}
