/** Wait queues (kernel/sync/waitqueue.c): entries on kernel stacks, doubly
    linked into their queue and singly linked into the chain of their task.

    An entry is known by a non-zero address.  All lists together refine one
    sequence of items, newest first; the scheduler model works on that. */
module WaitQueue {
  import opened ReadyQueue
  import opened Scheduler

  /** struct wq_entry; 0 is the null pointer. */
  datatype Entry = Entry(task: nat, wq: nat, prev: nat, next: nat, taskNext: nat)

  datatype Item = Item(id: nat, queue: nat, task: nat)

  // ---- the simple form -------------------------------------------------------

  /** The entries of a queue, newest first. */
  function QueueIds(items: seq<Item>, q: nat): seq<nat>
  {
    if items == [] then []
    else (if items[0].queue == q then [items[0].id] else []) + QueueIds(items[1..], q)
  }

  /** The entries of a task, newest first. */
  function ChainIds(items: seq<Item>, t: nat): seq<nat>
  {
    if items == [] then []
    else (if items[0].task == t then [items[0].id] else []) + ChainIds(items[1..], t)
  }

  function RemoveId(items: seq<Item>, id: nat): seq<Item>
  {
    if items == [] then [] else if items[0].id == id then items[1..] else [items[0]] + RemoveId(items[1..], id)
  }

  /** What the scheduler sees of the items. */
  function Waits(items: seq<Item>): seq<Wait>
  {
    if items == [] then [] else [Wait(items[0].queue, items[0].task)] + Waits(items[1..])
  }

  /** The tasks a wake of queue q touches, in order. */
  function Sleepers(waits: seq<Wait>, q: nat): seq<nat>
  {
    if waits == [] then []
    else (if waits[0].queue == q then [waits[0].task] else []) + Sleepers(waits[1..], q)
  }

  ghost predicate Ids(items: seq<Item>)
  {
    && (forall k :: 0 <= k < |items| ==> items[k].id != 0)
    && (forall j, k :: 0 <= j < k < |items| ==> items[j].id != items[k].id)
  }

  lemma IdsTail(items: seq<Item>)
    requires Ids(items) && items != []
    ensures Ids(items[1..]) && forall k :: 0 <= k < |items[1..]| ==> items[1..][k].id != items[0].id
  {
  }

  lemma {:induction false} QueueMembers(items: seq<Item>, q: nat, id: nat)
    ensures id in QueueIds(items, q) <==> exists k :: 0 <= k < |items| && items[k].id == id && items[k].queue == q
  {
    if items != [] {
      QueueMembers(items[1..], q, id);
      if exists k :: 0 <= k < |items[1..]| && items[1..][k].id == id && items[1..][k].queue == q {
        var k :| 0 <= k < |items[1..]| && items[1..][k].id == id && items[1..][k].queue == q;
        assert items[k + 1] == items[1..][k];
      }
      if exists k :: 0 <= k < |items| && items[k].id == id && items[k].queue == q {
        var k :| 0 <= k < |items| && items[k].id == id && items[k].queue == q;
        assert k > 0 ==> items[1..][k - 1] == items[k];
      }
    }
  }

  lemma {:induction false} ChainMembers(items: seq<Item>, t: nat, id: nat)
    ensures id in ChainIds(items, t) <==> exists k :: 0 <= k < |items| && items[k].id == id && items[k].task == t
  {
    if items != [] {
      ChainMembers(items[1..], t, id);
      if exists k :: 0 <= k < |items[1..]| && items[1..][k].id == id && items[1..][k].task == t {
        var k :| 0 <= k < |items[1..]| && items[1..][k].id == id && items[1..][k].task == t;
        assert items[k + 1] == items[1..][k];
      }
      if exists k :: 0 <= k < |items| && items[k].id == id && items[k].task == t {
        var k :| 0 <= k < |items| && items[k].id == id && items[k].task == t;
        assert k > 0 ==> items[1..][k - 1] == items[k];
      }
    }
  }

  lemma {:induction false} QueueDistinct(items: seq<Item>, q: nat)
    requires Ids(items)
    ensures forall j, k :: 0 <= j < k < |QueueIds(items, q)| ==> QueueIds(items, q)[j] != QueueIds(items, q)[k]
    ensures 0 !in QueueIds(items, q)
  {
    if items != [] {
      IdsTail(items);
      QueueDistinct(items[1..], q);
      QueueMembers(items[1..], q, items[0].id);
    }
  }

  /** Removing an item takes it out of the lists it is on, and no other. */
  lemma {:induction false} RemoveQueue(items: seq<Item>, id: nat, q: nat)
    requires Ids(items) && id in QueueIds(items, q)
    ensures QueueIds(RemoveId(items, id), q) == Without(QueueIds(items, q), id)
  {
    IdsTail(items);
    var rest := QueueIds(items[1..], q);
    if items[0].id == id {
      QueueMembers(items[1..], q, id);
      assert items[0].queue == q;
      assert ([id] + rest)[1..] == rest;
    } else {
      RemoveQueue(items[1..], id, q);
      var less := RemoveId(items, id);
      assert less[1..] == RemoveId(items[1..], id);
      if items[0].queue == q {
        assert QueueIds(items, q) == [items[0].id] + rest;
        assert ([items[0].id] + rest)[1..] == rest;
        assert QueueIds(less, q) == [items[0].id] + QueueIds(less[1..], q);
      } else {
        assert QueueIds(items, q) == rest;
        assert QueueIds(less, q) == QueueIds(less[1..], q);
      }
    }
  }

  lemma {:induction false} RemoveOtherQueue(items: seq<Item>, id: nat, q: nat)
    requires id !in QueueIds(items, q)
    ensures QueueIds(RemoveId(items, id), q) == QueueIds(items, q)
  {
    if items != [] && items[0].id != id {
      RemoveOtherQueue(items[1..], id, q);
    }
  }

  lemma {:induction false} RemoveOtherChain(items: seq<Item>, id: nat, t: nat)
    requires id !in ChainIds(items, t)
    ensures ChainIds(RemoveId(items, id), t) == ChainIds(items, t)
  {
    if items != [] && items[0].id != id {
      RemoveOtherChain(items[1..], id, t);
    }
  }

  /** Removing the newest entry of a task. */
  lemma {:induction false} RemoveFirst(items: seq<Item>, t: nat)
    requires Ids(items) && ChainIds(items, t) != []
    ensures var id := ChainIds(items, t)[0];
            && ChainIds(RemoveId(items, id), t) == ChainIds(items, t)[1..]
            && Drop(Waits(RemoveId(items, id)), t) == Drop(Waits(items), t)
  {
    IdsTail(items);
    var id := ChainIds(items, t)[0];
    if items[0].task == t {
      assert items[0].id == id;
      assert Waits(items)[1..] == Waits(items[1..]);
    } else {
      RemoveFirst(items[1..], t);
      ChainMembers(items[1..], t, id);
      assert items[0].id != id;
      assert Waits(items)[1..] == Waits(items[1..]);
      var less := RemoveId(items, id);
      assert less[1..] == RemoveId(items[1..], id);
      assert Waits(less)[1..] == Waits(less[1..]);
    }
  }

  /** A task without entries leaves nothing to drop. */
  lemma {:induction false} NothingToDrop(items: seq<Item>, t: nat)
    requires ChainIds(items, t) == []
    ensures Drop(Waits(items), t) == Waits(items)
  {
    if items != [] {
      assert items[0].task != t;
      NothingToDrop(items[1..], t);
      assert Waits(items)[1..] == Waits(items[1..]);
    }
  }

  lemma {:induction false} RemoveIds(items: seq<Item>, id: nat)
    requires Ids(items)
    ensures Ids(RemoveId(items, id))
    ensures forall x :: x in RemoveId(items, id) <==> x in items && x.id != id
  {
    if items != [] {
      IdsTail(items);
      RemoveIds(items[1..], id);
      var less := RemoveId(items, id);
      assert items == [items[0]] + items[1..];
      if items[0].id != id {
        forall k | 0 < k < |less|
          ensures less[k].id != less[0].id && less[k].id != 0
        {
          assert less[k] == RemoveId(items[1..], id)[k - 1];
          assert less[k] in RemoveId(items[1..], id);
          assert less[k] in items[1..];
        }
      }
    }
  }

  // ---- the linked form -------------------------------------------------------

  ghost predicate NodeOk(s: seq<nat>, ent: map<nat, Entry>, i: int)
  {
    0 <= i < |s| ==>
      && s[i] in ent
      && ent[s[i]].next == (if i + 1 < |s| then s[i + 1] else 0)
      && ent[s[i]].prev == (if i > 0 then s[i - 1] else 0)
  }

  /** The doubly linked list of a queue. */
  ghost predicate QueueList(s: seq<nat>, h: nat, ent: map<nat, Entry>)
  {
    && h == (if s == [] then 0 else s[0])
    && forall i {:trigger NodeOk(s, ent, i)} :: NodeOk(s, ent, i)
  }

  /** The singly linked chain of a task. */
  ghost predicate ChainList(s: seq<nat>, h: nat, ent: map<nat, Entry>)
  {
    if s == [] then h == 0
    else h == s[0] && h in ent && ChainList(s[1..], ent[h].taskNext, ent)
  }

  function At(m: map<nat, nat>, k: nat): nat
  {
    if k in m then m[k] else 0
  }

  /** A change of links that leaves the list alone. */
  lemma QueueFrame(s: seq<nat>, h: nat, ent: map<nat, Entry>, ent': map<nat, Entry>)
    requires QueueList(s, h, ent)
    requires forall id ::
               id in s && id in ent ==> id in ent' && ent'[id].next == ent[id].next && ent'[id].prev == ent[id].prev
    ensures QueueList(s, h, ent')
  {
    forall i
      ensures NodeOk(s, ent', i)
    {
      assert NodeOk(s, ent, i);
    }
  }

  lemma {:induction false} ChainFrame(s: seq<nat>, h: nat, ent: map<nat, Entry>, ent': map<nat, Entry>)
    requires ChainList(s, h, ent)
    requires forall id :: id in s && id in ent ==> id in ent' && ent'[id].taskNext == ent[id].taskNext
    ensures ChainList(s, h, ent')
    decreases |s|
  {
    if s != [] {
      assert h in s;
      ChainFrame(s[1..], ent[h].taskNext, ent, ent');
    }
  }

  /** A new entry at the front. */
  lemma QueuePush(s: seq<nat>, h: nat, ent: map<nat, Entry>, id: nat, ent': map<nat, Entry>)
    requires QueueList(s, h, ent) && id !in s && 0 !in s && id != 0
    requires id in ent' && ent'[id].next == h && ent'[id].prev == 0
    requires h != 0 ==> h in ent && h in ent' && ent'[h].prev == id && ent'[h].next == ent[h].next
    requires forall x ::
               x in s && x != h && x in ent ==> x in ent' && ent'[x].next == ent[x].next && ent'[x].prev == ent[x].prev
    requires forall j, k :: 0 <= j < k < |s| ==> s[j] != s[k]
    ensures QueueList([id] + s, id, ent')
  {
    var s' := [id] + s;
    forall i
      ensures NodeOk(s', ent', i)
    {
      assert NodeOk(s, ent, i - 1);
      assert i > 1 && i - 1 < |s| ==> s[i - 1] != h;
    }
  }

  /** What unlinking node i of a queue does to the other nodes. */
  ghost predicate Unlinked(s: seq<nat>, i: nat, ent: map<nat, Entry>, ent': map<nat, Entry>)
    requires i < |s|
  {
    && s[i] in ent
    && (forall x :: x in ent && x != s[i] ==>
          && x in ent' && ent'[x].task == ent[x].task && ent'[x].wq == ent[x].wq && ent'[x].taskNext == ent[x].taskNext
          && ent'[x].next == (if i > 0 && x == s[i - 1] then ent[s[i]].next else ent[x].next)
          && ent'[x].prev == (if i + 1 < |s| && x == s[i + 1] then ent[s[i]].prev else ent[x].prev))
  }

  lemma QueueUnlink(s: seq<nat>, h: nat, ent: map<nat, Entry>, i: nat, ent': map<nat, Entry>)
    requires QueueList(s, h, ent) && i < |s| && s[i] in ent && Unlinked(s, i, ent, ent')
    requires forall j, k :: 0 <= j < k < |s| ==> s[j] != s[k]
    ensures QueueList(s[..i] + s[i + 1..], if i == 0 then ent[s[0]].next else h, ent')
  {
    var s' := s[..i] + s[i + 1..];
    assert NodeOk(s, ent, i) && NodeOk(s, ent, 0);
    forall j
      ensures NodeOk(s', ent', j)
    {
      assert NodeOk(s, ent, j) && NodeOk(s, ent, j + 1);
      assert 0 <= j < i ==> s'[j] == s[j];
      assert i <= j < |s'| ==> s'[j] == s[j + 1];
    }
  }

  ghost predicate ItemOk(x: Item, ent: map<nat, Entry>)
  {
    x.id in ent && ent[x.id].task == x.task && ent[x.id].wq == x.queue
  }

  ghost predicate QueueOk(items: seq<Item>, ent: map<nat, Entry>, head: map<nat, nat>, q: nat)
  {
    QueueList(QueueIds(items, q), At(head, q), ent)
  }

  ghost predicate ChainOk(items: seq<Item>, ent: map<nat, Entry>, chain: map<nat, nat>, t: nat)
  {
    ChainList(ChainIds(items, t), At(chain, t), ent)
  }

  /** Every queue and every chain holds exactly its items, in order. */
  ghost predicate WellLinked(items: seq<Item>, ent: map<nat, Entry>, head: map<nat, nat>, chain: map<nat, nat>)
  {
    && Ids(items)
    && (forall x :: x in items ==> ItemOk(x, ent))
    && (forall q: nat {:trigger QueueOk(items, ent, head, q)} :: QueueOk(items, ent, head, q))
    && (forall t: nat {:trigger ChainOk(items, ent, chain, t)} :: ChainOk(items, ent, chain, t))
  }

  /** The item behind an address on a list. */
  lemma OnOneQueue(items: seq<Item>, ent: map<nat, Entry>, q: nat, id: nat)
    requires Ids(items) && (forall x :: x in items ==> ItemOk(x, ent)) && id in QueueIds(items, q)
    ensures id != 0 && id in ent && ent[id].wq == q && exists x :: x in items && x.id == id
  {
    QueueMembers(items, q, id);
    var k :| 0 <= k < |items| && items[k].id == id && items[k].queue == q;
    assert items[k] in items;
  }

  lemma OnOneChain(items: seq<Item>, ent: map<nat, Entry>, t: nat, id: nat)
    requires Ids(items) && (forall x :: x in items ==> ItemOk(x, ent)) && id in ChainIds(items, t)
    ensures id != 0 && id in ent && ent[id].task == t && exists x :: x in items && x.id == id
    ensures id in QueueIds(items, ent[id].wq)
  {
    ChainMembers(items, t, id);
    var k :| 0 <= k < |items| && items[k].id == id && items[k].task == t;
    assert items[k] in items;
    QueueMembers(items, ent[id].wq, id);
  }

  /** The entries after wq_add. */
  function Added(ent: map<nat, Entry>, h: nat, q: nat, t: nat, c: nat, id: nat): map<nat, Entry>
  {
    var ent1 := ent[id := Entry(t, q, 0, h, c)];
    if h != 0 && h in ent1 then ent1[h := ent1[h].(prev := id)] else ent1
  }

  lemma AddQueue(items: seq<Item>, ent: map<nat, Entry>, head: map<nat, nat>, q: nat, t: nat, c: nat, id: nat, r: nat)
    requires Ids(items) && (forall x :: x in items ==> ItemOk(x, ent) && x.id != id) && id != 0
    requires QueueOk(items, ent, head, r) && QueueOk(items, ent, head, q)
    ensures QueueOk([Item(id, q, t)] + items, Added(ent, At(head, q), q, t, c, id), head[q := id], r)
  {
    var s, h := QueueIds(items, r), At(head, q);
    var ent', items' := Added(ent, h, q, t, c, id), [Item(id, q, t)] + items;
    assert items'[1..] == items;
    QueueMembers(items, r, id);
    QueueDistinct(items, r);
    if h != 0 {
      assert h in QueueIds(items, q);
      OnOneQueue(items, ent, q, h);
    }
    if r == q {
      QueuePush(s, h, ent, id, ent');
    } else {
      if h in s {
        OnOneQueue(items, ent, r, h);
      }
      assert QueueIds(items', r) == s;
      QueueFrame(s, At(head, r), ent, ent');
    }
  }

  lemma AddChain(items: seq<Item>, ent: map<nat, Entry>, chain: map<nat, nat>, h: nat, q: nat, t: nat, id: nat, r: nat)
    requires Ids(items) && (forall x :: x in items ==> ItemOk(x, ent) && x.id != id) && id != 0
    requires ChainOk(items, ent, chain, r) && (h != 0 ==> h in ent && h != id)
    ensures ChainOk([Item(id, q, t)] + items, Added(ent, h, q, t, At(chain, t), id), chain[t := id], r)
  {
    var s := ChainIds(items, r);
    var ent', items' := Added(ent, h, q, t, At(chain, t), id), [Item(id, q, t)] + items;
    assert items'[1..] == items;
    ChainMembers(items, r, id);
    ChainFrame(s, At(chain, r), ent, ent');
    if r == t {
      assert ChainIds(items', r) == [id] + s;
      assert ([id] + s)[1..] == s;
    } else {
      assert ChainIds(items', r) == s;
    }
  }

  lemma AddOk(items: seq<Item>, ent: map<nat, Entry>, head: map<nat, nat>, chain: map<nat, nat>, q: nat, t: nat,
              id: nat)
    requires WellLinked(items, ent, head, chain) && id != 0 && forall x :: x in items ==> x.id != id
    ensures At(head, q) != 0 ==> At(head, q) in ent && At(head, q) != id
    ensures WellLinked([Item(id, q, t)] + items, Added(ent, At(head, q), q, t, At(chain, t), id), head[q := id],
                       chain[t := id])
  {
    var h := At(head, q);
    assert QueueOk(items, ent, head, q);
    if h != 0 {
      assert h in QueueIds(items, q);
      OnOneQueue(items, ent, q, h);
    }
    var items', ent', head', chain' := [Item(id, q, t)] + items, Added(ent, h, q, t, At(chain, t), id), head[q := id],
        chain[t := id];
    forall r: nat
      ensures QueueOk(items', ent', head', r)
    {
      assert QueueOk(items, ent, head, r);
      AddQueue(items, ent, head, q, t, At(chain, t), id, r);
    }
    forall r: nat
      ensures ChainOk(items', ent', chain', r)
    {
      assert ChainOk(items, ent, chain, r);
      AddChain(items, ent, chain, h, q, t, id, r);
    }
  }

  // ---- unlinking -----------------------------------------------------------------

  /** The entries after e has been taken out of its queue and its chain. */
  function Cut(ent: map<nat, Entry>, e: nat): map<nat, Entry>
    requires e in ent
  {
    var x := ent[e];
    var ent1 := if x.prev != 0 && x.prev in ent then ent[x.prev := ent[x.prev].(next := x.next)] else ent;
    var ent2 := if x.next != 0 && x.next in ent1 then ent1[x.next := ent1[x.next].(prev := x.prev)] else ent1;
    ent2[e := ent2[e].(prev := 0, next := 0, taskNext := 0)]
  }

  function CutHead(ent: map<nat, Entry>, head: map<nat, nat>, e: nat): map<nat, nat>
    requires e in ent
  {
    if ent[e].prev == 0 then head[ent[e].wq := ent[e].next] else head
  }

  /** Where an entry sits in its queue. */
  lemma Neighbours(items: seq<Item>, ent: map<nat, Entry>, head: map<nat, nat>, q: nat, e: nat) returns (i: nat)
    requires Ids(items) && (forall x :: x in items ==> ItemOk(x, ent)) && QueueOk(items, ent, head, q)
    requires e in QueueIds(items, q)
    ensures var s := QueueIds(items, q);
            && i < |s| && s[i] == e && e in ent && e !in s[..i]
            && ent[e].prev == (if i > 0 then s[i - 1] else 0) && ent[e].next == (if i + 1 < |s| then s[i + 1] else 0)
            && (ent[e].prev != 0 ==> ent[e].prev in ent && ent[e].prev in s && ent[e].prev != e)
            && (ent[e].next != 0 ==> ent[e].next in ent && ent[e].next in s && ent[e].next != e && ent[e].next != ent[e].prev)
  {
    var s := QueueIds(items, q);
    QueueDistinct(items, q);
    i :| 0 <= i < |s| && s[i] == e;
    assert NodeOk(s, ent, i) && NodeOk(s, ent, i - 1) && NodeOk(s, ent, i + 1);
  }

  lemma CutUnlinks(s: seq<nat>, i: nat, ent: map<nat, Entry>)
    requires i < |s| && s[i] in ent && 0 !in s && (forall j, k :: 0 <= j < k < |s| ==> s[j] != s[k])
    requires ent[s[i]].prev == (if i > 0 then s[i - 1] else 0)
    requires ent[s[i]].next == (if i + 1 < |s| then s[i + 1] else 0)
    requires ent[s[i]].prev != 0 ==> ent[s[i]].prev in ent
    requires ent[s[i]].next != 0 ==> ent[s[i]].next in ent
    ensures Unlinked(s, i, ent, Cut(ent, s[i]))
  {
  }

  lemma CutOwnQueue(items: seq<Item>, ent: map<nat, Entry>, head: map<nat, nat>, e: nat)
    requires Ids(items) && (forall x :: x in items ==> ItemOk(x, ent)) && e in ent && e in QueueIds(items, ent[e].wq)
    requires QueueOk(items, ent, head, ent[e].wq)
    ensures QueueOk(RemoveId(items, e), Cut(ent, e), CutHead(ent, head, e), ent[e].wq)
  {
    var q := ent[e].wq;
    var s := QueueIds(items, q);
    var i := Neighbours(items, ent, head, q, e);
    QueueDistinct(items, q);
    RemoveQueue(items, e, q);
    WithoutAt(s, e, i);
    CutUnlinks(s, i, ent);
    hide QueueIds, Without, Unlinked, Cut;
    QueueUnlink(s, At(head, q), ent, i, Cut(ent, e));
  }

  lemma CutOtherQueue(items: seq<Item>, ent: map<nat, Entry>, head: map<nat, nat>, e: nat, r: nat)
    requires Ids(items) && (forall x :: x in items ==> ItemOk(x, ent)) && e in ent && e in QueueIds(items, ent[e].wq)
    requires QueueOk(items, ent, head, ent[e].wq) && QueueOk(items, ent, head, r) && r != ent[e].wq
    ensures QueueOk(RemoveId(items, e), Cut(ent, e), CutHead(ent, head, e), r)
  {
    hide QueueIds;
    var q, s, ent' := ent[e].wq, QueueIds(items, r), Cut(ent, e);
    var _ := Neighbours(items, ent, head, q, e);
    forall id | id in s
      ensures id != e && id != ent[e].prev && id != ent[e].next
    {
      OnOneQueue(items, ent, r, id);
      if id in QueueIds(items, q) {
        OnOneQueue(items, ent, q, id);
      }
    }
    RemoveOtherQueue(items, e, r);
    QueueFrame(s, At(head, r), ent, ent');
  }

  lemma {:induction false} ChainDistinct(items: seq<Item>, t: nat)
    requires Ids(items) && ChainIds(items, t) != []
    ensures ChainIds(items, t)[0] !in ChainIds(items, t)[1..]
  {
    IdsTail(items);
    var rest := ChainIds(items[1..], t);
    if items[0].task == t {
      ChainMembers(items[1..], t, items[0].id);
      assert ([items[0].id] + rest)[1..] == rest;
    } else {
      ChainDistinct(items[1..], t);
      assert ChainIds(items, t) == rest;
    }
  }

  lemma CutChain(items: seq<Item>, ent: map<nat, Entry>, head: map<nat, nat>, chain: map<nat, nat>, t: nat, r: nat)
    requires Ids(items) && (forall x :: x in items ==> ItemOk(x, ent)) && ChainIds(items, t) != []
    requires ChainOk(items, ent, chain, t) && ChainOk(items, ent, chain, r)
    ensures var e := At(chain, t);
            e in ent && ChainOk(RemoveId(items, e), Cut(ent, e), chain[t := ent[e].taskNext], r)
  {
    var e, s := At(chain, t), ChainIds(items, r);
    OnOneChain(items, ent, t, e);
    var ent' := Cut(ent, e);
    if r == t {
      RemoveFirst(items, t);
      ChainDistinct(items, t);
      ChainFrame(s[1..], ent[e].taskNext, ent, ent');
    } else {
      if e in s {
        OnOneChain(items, ent, r, e);
      }
      RemoveOtherChain(items, e, r);
      ChainFrame(s, At(chain, r), ent, ent');
    }
  }

  /** One round of wq_remove_all. */
  lemma RemoveOk(items: seq<Item>, ent: map<nat, Entry>, head: map<nat, nat>, chain: map<nat, nat>, t: nat)
    requires WellLinked(items, ent, head, chain) && ChainIds(items, t) != []
    ensures var e := At(chain, t);
            && e != 0 && e in ent && e == ChainIds(items, t)[0]
            && (ent[e].prev != 0 ==> ent[e].prev in ent && ent[e].prev != e)
            && (ent[e].next != 0 ==> ent[e].next in ent && ent[e].next != e && ent[e].next != ent[e].prev)
            && WellLinked(RemoveId(items, e), Cut(ent, e), CutHead(ent, head, e), chain[t := ent[e].taskNext])
  {
    var e := At(chain, t);
    assert ChainOk(items, ent, chain, t);
    OnOneChain(items, ent, t, e);
    assert QueueOk(items, ent, head, ent[e].wq);
    var _ := Neighbours(items, ent, head, ent[e].wq, e);
    RemoveIds(items, e);
    var items', ent', head', chain' := RemoveId(items,
                                                e), Cut(ent, e), CutHead(ent, head, e), chain[t := ent[e].taskNext];
    forall r: nat
      ensures QueueOk(items', ent', head', r)
    {
      assert QueueOk(items, ent, head, r);
      if r == ent[e].wq {
        CutOwnQueue(items, ent, head, e);
      } else {
        CutOtherQueue(items, ent, head, e, r);
      }
    }
    forall r: nat
      ensures ChainOk(items', ent', chain', r)
    {
      assert ChainOk(items, ent, chain, r);
      CutChain(items, ent, head, chain, t, r);
    }
  }

  class WaitQueues {
    var ent: map<nat, Entry>
    var head: map<nat, nat>
    var chain: map<nat, nat>
    ghost var items: seq<Item>

    ghost predicate Valid()
      reads this
    {
      WellLinked(items, ent, head, chain)
    }

    constructor ()
      ensures Valid() && items == []
    {
      ent, head, chain, items := map[], map[], map[], [];
    }

    /** wq_add with an entry on the caller's stack that is not linked yet. */
    method Add(q: nat, t: nat, e: nat)
      requires Valid() && e != 0 && forall x :: x in items ==> x.id != e
      modifies this
      ensures Valid() && items == [Item(e, q, t)] + old(items) && Waits(items) == [Wait(q, t)] + Waits(old(items))
    {
      AddOk(items, ent, head, chain, q, t, e);
      hide WellLinked;
      ghost var items' := [Item(e, q, t)] + items;
      assert items'[1..] == items;
      var h := At(head, q);
      ent := ent[e := Entry(t, q, 0, h, At(chain, t))];
      if h != 0 {
        ent := ent[h := ent[h].(prev := e)];
      }
      head := head[q := e];
      chain := chain[t := e];
      items := items';
    }

    /** wq_remove_all: exactly the entries of t go, from every queue. */
    method RemoveAll(t: nat)
      requires Valid()
      modifies this
      ensures Valid() && Waits(items) == Drop(Waits(old(items)), t) && ChainIds(items, t) == []
    {
      hide WellLinked, Drop, Waits;
      var e := At(chain, t);
      ghost var links := chain[t := e];
      SameChain(items, ent, head, chain, t);
      while e != 0
        invariant WellLinked(items, ent, head, chain[t := e])
        invariant Drop(Waits(items), t) == Drop(Waits(old(items)), t)
        decreases |ChainIds(items, t)|
      {
        ChainStart(items, ent, head, chain[t := e], t);
        RemoveOk(items, ent, head, chain[t := e], t);
        RemoveFirst(items, t);
        assert chain[t := e][t := ent[e].taskNext] == chain[t := ent[e].taskNext];
        e := UnlinkOne(e);
      }
      ChainStart(items, ent, head, chain[t := e], t);
      NothingToDrop(items, t);
      chain := chain[t := 0];
    }

    /** The body of the loop in wq_remove_all. */
    method UnlinkOne(e: nat) returns (next: nat)
      requires e in ent && e != 0
      requires ent[e].prev != 0 ==> ent[e].prev in ent && ent[e].prev != e
      requires ent[e].next != 0 ==> ent[e].next in ent && ent[e].next != e && ent[e].next != ent[e].prev
      modifies this`ent, this`head, this`items
      ensures next == old(ent)[e].taskNext
      ensures ent == Cut(old(ent), e) && head == CutHead(old(ent), old(head), e) && items == RemoveId(old(items), e)
    {
      next := ent[e].taskNext;
      if ent[e].prev != 0 {
        ent := ent[ent[e].prev := ent[ent[e].prev].(next := ent[e].next)];
      } else {
        head := head[ent[e].wq := ent[e].next];
      }
      if ent[e].next != 0 {
        ent := ent[ent[e].next := ent[ent[e].next].(prev := ent[e].prev)];
      }
      ent := ent[e := ent[e].(prev := 0, next := 0)];
      ent := ent[e := ent[e].(taskNext := 0)];
      items := RemoveId(items, e);
    }

    /** The tasks wq_wake_all passes to task_wakeup, in order. */
    method WakeOrder(q: nat) returns (tasks: seq<nat>)
      requires Valid()
      ensures tasks == Sleepers(Waits(items), q)
    {
      ghost var s := QueueIds(items, q);
      assert QueueOk(items, ent, head, q);
      QueueDistinct(items, q);
      tasks := [];
      ghost var i := 0;
      var e := At(head, q);
      while e != 0
        invariant 0 <= i <= |s| && e == (if i < |s| then s[i] else 0)
        invariant |tasks| == i && forall j :: 0 <= j < i ==> s[j] in ent && tasks[j] == ent[s[j]].task
        decreases |s| - i
      {
        assert NodeOk(s, ent, i);
        tasks := tasks + [ent[e].task];
        e := ent[e].next;
        i := i + 1;
      }
      SleepersAre(items, ent, q, tasks);
    }
  }

  lemma SameChain(items: seq<Item>, ent: map<nat, Entry>, head: map<nat, nat>, chain: map<nat, nat>, t: nat)
    requires WellLinked(items, ent, head, chain)
    ensures WellLinked(items, ent, head, chain[t := At(chain, t)])
  {
    var chain' := chain[t := At(chain, t)];
    forall r: nat
      ensures ChainOk(items, ent, chain', r)
    {
      assert ChainOk(items, ent, chain, r);
    }
  }

  lemma ChainStart(items: seq<Item>, ent: map<nat, Entry>, head: map<nat, nat>, chain: map<nat, nat>, t: nat)
    requires WellLinked(items, ent, head, chain)
    ensures Ids(items) && (At(chain, t) == 0 <==> ChainIds(items, t) == [])
  {
    assert ChainOk(items, ent, chain, t);
    if ChainIds(items, t) != [] {
      OnOneChain(items, ent, t, ChainIds(items, t)[0]);
    }
  }

  lemma {:induction false} SleepersAre(items: seq<Item>, ent: map<nat, Entry>, q: nat, tasks: seq<nat>)
    requires forall x :: x in items ==> ItemOk(x, ent)
    requires |tasks| == |QueueIds(items, q)|
    requires forall j ::
               0 <= j < |tasks| ==> QueueIds(items, q)[j] in ent && tasks[j] == ent[QueueIds(items, q)[j]].task
    ensures tasks == Sleepers(Waits(items), q)
  {
    if items != [] {
      assert items[0] in items && Waits(items)[1..] == Waits(items[1..]);
      var rest := QueueIds(items[1..], q);
      if items[0].queue == q {
        assert QueueIds(items, q) == [items[0].id] + rest;
        assert tasks[0] == items[0].task && tasks == [tasks[0]] + tasks[1..];
        assert forall j :: 0 <= j < |rest| ==> rest[j] == QueueIds(items, q)[j + 1];
        SleepersAre(items[1..], ent, q, tasks[1..]);
      } else {
        assert QueueIds(items, q) == rest;
        SleepersAre(items[1..], ent, q, tasks);
      }
    }
  }
}
