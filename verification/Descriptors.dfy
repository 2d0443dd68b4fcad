/** Descriptor slots and the objects behind them (kernel/sched/sched.c and
    kernel/arch/syscall.c): reference counts of files, sockets and pipe ends.

    Only used slots are in the table; an unused slot 0, 1 or 2 is the console. */
module Descriptors {
  const MAX_FDS: nat := 32

  datatype Cell = Cell(pid: nat, fd: nat)

  /** The copy on the kernel stack that fd_dup_into makes. */
  const TEMP := Cell(0, 0)

  /** What a counter counts: the references to a file (directories included) or a
      socket, or to one end of a pipe. */
  datatype Key = FileKey(o: nat) | SocketKey(o: nat) | ReadKey(o: nat) | WriteKey(o: nat)

  datatype Desc = Tty(cloexec: bool) | Ref(key: Key, cloexec: bool)

  type Slots = map<Cell, Desc>
  /** fd_refs, readers and writers of the objects that exist. */
  type Counts = map<Key, nat>

  /** The slots that refer to k. */
  function Holders(slots: Slots, k: Key): set<Cell>
  {
    set c | c in slots && slots[c].Ref? && slots[c].key == k
  }

  function OtherEnd(k: Key): Key
  {
    match k
    case ReadKey(o) => WriteKey(o)
    case WriteKey(o) => ReadKey(o)
    case _ => k
  }

  function Refs(counts: Counts, k: Key): nat
  {
    if k in counts then counts[k] else 0
  }

  /** Counter k is exact; an object exists exactly as long as some slot refers to
      it (for a pipe, to either end). */
  ghost predicate KeyOk(slots: Slots, counts: Counts, next: nat, k: Key)
  {
    && Refs(counts, k) == |Holders(slots, k)|
    && (k in counts <==> OtherEnd(k) in counts)
    && (k in counts ==> Refs(counts, k) + Refs(counts, OtherEnd(k)) > 0 && k.o < next)
  }

  ghost predicate Inv(slots: Slots, counts: Counts, next: nat)
  {
    forall k {:trigger KeyOk(slots, counts, next, k)} :: KeyOk(slots, counts, next, k)
  }

  /** The slot POSIX asks for: the lowest free one, past the standard three. */
  ghost predicate LowestSlot(slots: Slots, pid: nat, from: nat, fd: nat)
  {
    && 3 <= fd < 32 && from <= fd && Cell(pid, fd) !in slots
    && forall i: nat :: 3 <= i && from <= i < fd ==> Cell(pid, i) in slots
  }

  ghost predicate NoSlot(slots: Slots, pid: nat, from: nat)
  {
    forall i: nat :: 3 <= i && from <= i < 32 ==> Cell(pid, i) in slots
  }

  lemma HoldersSet(slots: Slots, c: Cell, d: Desc, k: Key)
    ensures Holders(slots[c := d], k) == (Holders(slots, k) - {c}) + (if d.Ref? && d.key == k then {c} else {})
  {
  }

  lemma HoldersGone(slots: Slots, c: Cell, k: Key)
    ensures Holders(slots - {c}, k) == Holders(slots, k) - {c}
  {
  }

  lemma SizeWith(s: set<Cell>, c: Cell)
    ensures |s + {c}| == |s| + (if c in s then 0 else 1)
    ensures |s - {c}| == |s| - (if c in s then 1 else 0)
  {
    if c in s {
      assert s + {c} == s;
      assert s == (s - {c}) + {c};
    } else {
      assert s - {c} == s;
    }
  }

  /** A referenced object exists. */
  lemma HeldExists(slots: Slots, counts: Counts, next: nat, c: Cell)
    requires Inv(slots, counts, next) && c in slots && slots[c].Ref?
    ensures slots[c].key in counts && counts[slots[c].key] > 0 && OtherEnd(slots[c].key) in counts
  {
    var k := slots[c].key;
    assert KeyOk(slots, counts, next, k);
    assert c in Holders(slots, k);
    SizeWith(Holders(slots, k), c);
  }

  /** And an object that exists is referenced. */
  lemma ExistsHeld(slots: Slots, counts: Counts, next: nat, k: Key)
    requires Inv(slots, counts, next) && k in counts
    ensures Holders(slots, k) + Holders(slots, OtherEnd(k)) != {}
  {
    assert KeyOk(slots, counts, next, k) && KeyOk(slots, counts, next, OtherEnd(k));
    var a, b := Holders(slots, k), Holders(slots, OtherEnd(k));
    if |a| > 0 {
      var c :| c in a;
      assert c in a + b;
    } else {
      assert |b| > 0;
      var c :| c in b;
      assert c in a + b;
    }
  }

  /** So the slots determine the counters. */
  lemma CountsDetermined(slots: Slots, a: Counts, b: Counts, next: nat, next': nat)
    requires Inv(slots, a, next) && Inv(slots, b, next')
    ensures a == b
  {
    forall k
      ensures k in a <==> k in b
      ensures k in a ==> a[k] == b[k]
    {
      assert KeyOk(slots, a, next, k) && KeyOk(slots, b, next', k);
      assert KeyOk(slots, a, next, OtherEnd(k)) && KeyOk(slots, b, next', OtherEnd(k));
    }
  }

  // ---- one more reference ------------------------------------------------------

  lemma AddedKey(slots: Slots, counts: Counts, next: nat, c: Cell, d: Desc, k: Key)
    requires c !in slots && d.Ref? && d.key in counts && KeyOk(slots, counts, next, k)
    ensures KeyOk(slots[c := d], counts[d.key := counts[d.key] + 1], next, k)
  {
    HoldersSet(slots, c, d, k);
    SizeWith(Holders(slots, k), c);
    assert c !in Holders(slots, k) && Holders(slots, k) - {c} == Holders(slots, k);
  }

  lemma AddedOk(slots: Slots, counts: Counts, next: nat, c: Cell, d: Desc)
    requires Inv(slots, counts, next) && c !in slots && (d.Ref? ==> d.key in counts)
    ensures Inv(slots[c := d], if d.Ref? then counts[d.key := counts[d.key] + 1] else counts, next)
  {
    var slots', counts' := slots[c := d], if d.Ref? then counts[d.key := counts[d.key] + 1] else counts;
    forall k
      ensures KeyOk(slots', counts', next, k)
    {
      assert KeyOk(slots, counts, next, k);
      if d.Ref? {
        AddedKey(slots, counts, next, c, d, k);
      } else {
        HoldersSet(slots, c, d, k);
        assert Holders(slots', k) == Holders(slots, k);
      }
    }
  }

  // ---- one reference less ------------------------------------------------------

  /** The counters after one reference to k is dropped; the object goes with its
      last reference. */
  function Dropped(counts: Counts, k: Key): Counts
    requires k in counts && counts[k] > 0 && OtherEnd(k) in counts
  {
    match k
    case FileKey(_) => if counts[k] > 1 then counts[k := counts[k] - 1] else counts - {k}
    case SocketKey(_) => if counts[k] > 1 then counts[k := counts[k] - 1] else counts - {k}
    case _ => if counts[k] == 1 && counts[OtherEnd(k)] == 0 then counts - {k, OtherEnd(k)} else counts[k := counts[k] - 1]
  }

  lemma DroppedRefs(counts: Counts, k: Key, j: Key)
    requires k in counts && counts[k] > 0 && OtherEnd(k) in counts && (j in counts <==> OtherEnd(j) in counts)
    ensures Refs(Dropped(counts, k), j) == Refs(counts, j) - (if j == k then 1 else 0)
    ensures j in Dropped(counts, k) <==> OtherEnd(j) in Dropped(counts, k)
    ensures j in Dropped(counts, k) ==> j in counts
    ensures j in Dropped(counts, k) && Refs(counts, j) + Refs(counts, OtherEnd(j)) > 0 ==>
              Refs(Dropped(counts, k), j) + Refs(Dropped(counts, k), OtherEnd(j)) > 0
  {
  }

  lemma DroppedKey(slots: Slots, counts: Counts, next: nat, c: Cell, j: Key)
    requires c in slots && slots[c].Ref? && slots[c].key in counts && counts[slots[c].key] > 0
    requires OtherEnd(slots[c].key) in counts && KeyOk(slots, counts, next, j)
    ensures KeyOk(slots - {c}, Dropped(counts, slots[c].key), next, j)
  {
    HoldersGone(slots, c, j);
    SizeWith(Holders(slots, j), c);
    HeldBy(slots, c, j);
    DroppedRefs(counts, slots[c].key, j);
    hide Holders, Dropped, Refs, OtherEnd;
  }

  lemma HeldBy(slots: Slots, c: Cell, j: Key)
    requires c in slots && slots[c].Ref?
    ensures c in Holders(slots, j) <==> j == slots[c].key
    ensures j != slots[c].key ==> Holders(slots, j) - {c} == Holders(slots, j)
  {
  }

  lemma DroppedOk(slots: Slots, counts: Counts, next: nat, c: Cell)
    requires Inv(slots, counts, next) && c in slots && slots[c].Ref?
    ensures slots[c].key in counts && counts[slots[c].key] > 0 && OtherEnd(slots[c].key) in counts
    ensures Inv(slots - {c}, Dropped(counts, slots[c].key), next)
  {
    HeldExists(slots, counts, next, c);
    var slots', counts' := slots - {c}, Dropped(counts, slots[c].key);
    forall j
      ensures KeyOk(slots', counts', next, j)
    {
      assert KeyOk(slots, counts, next, j) && KeyOk(slots, counts, next, OtherEnd(j)) && KeyOk(slots, counts, next, slots[c].key);
      DroppedKey(slots, counts, next, c, j);
    }
  }

  lemma TtyGone(slots: Slots, counts: Counts, next: nat, c: Cell)
    requires Inv(slots, counts, next) && c in slots && slots[c].Tty?
    ensures Inv(slots - {c}, counts, next)
  {
    var slots' := slots - {c};
    forall k
      ensures KeyOk(slots', counts, next, k)
    {
      assert KeyOk(slots, counts, next, k);
      HoldersGone(slots, c, k);
      assert Holders(slots, k) - {c} == Holders(slots, k);
    }
  }

  /** A reference moves from one slot to another. */
  lemma MovedOk(slots: Slots, counts: Counts, next: nat, a: Cell, b: Cell)
    requires Inv(slots, counts, next) && a in slots && b !in slots
    ensures Inv((slots - {a})[b := slots[a]], counts, next)
  {
    var slots' := (slots - {a})[b := slots[a]];
    forall k
      ensures KeyOk(slots', counts, next, k)
    {
      assert KeyOk(slots, counts, next, k);
      HoldersGone(slots, a, k);
      HoldersSet(slots - {a}, b, slots[a], k);
      SizeWith(Holders(slots, k), a);
      SizeWith(Holders(slots - {a}, k), b);
      assert b !in Holders(slots - {a}, k) && Holders(slots - {a}, k) - {b} == Holders(slots - {a}, k);
      assert a in Holders(slots, k) <==> slots[a].Ref? && slots[a].key == k;
    }
  }

  /** A new file or socket with its first slot. */
  lemma OpenedOk(slots: Slots, counts: Counts, next: nat, c: Cell, k: Key)
    requires Inv(slots, counts, next) && c !in slots && k.o == next && (k.FileKey? || k.SocketKey?)
    ensures Inv(slots[c := Ref(k, false)], counts[k := 1], next + 1)
  {
    var slots', counts', next' := slots[c := Ref(k, false)], counts[k := 1], next + 1;
    assert KeyOk(slots, counts, next, k);
    assert |Holders(slots, k)| == 0 && Holders(slots, k) == {};
    forall j
      ensures KeyOk(slots', counts', next', j)
    {
      assert KeyOk(slots, counts, next, j);
      HoldersSet(slots, c, Ref(k, false), j);
      assert j != k ==> Holders(slots, j) - {c} == Holders(slots, j);
      assert j == k ==> Holders(slots', j) == {c};
    }
  }

  /** A new pipe with one slot on each end. */
  lemma PipeOk(slots: Slots, counts: Counts, next: nat, r: Cell, w: Cell, cloexec: bool)
    requires Inv(slots, counts, next) && r !in slots && w !in slots && r != w
    ensures Inv(slots[r := Ref(ReadKey(next), cloexec)][w := Ref(WriteKey(next), cloexec)],
                counts[ReadKey(next) := 1][WriteKey(next) := 1], next + 1)
  {
    var slots1 := slots[r := Ref(ReadKey(next), cloexec)];
    var slots', counts', next' := slots1[w := Ref(WriteKey(next), cloexec)],
        counts[ReadKey(next) := 1][WriteKey(next) := 1], next + 1;
    assert KeyOk(slots, counts, next, ReadKey(next)) && KeyOk(slots, counts, next, WriteKey(next));
    assert Holders(slots, ReadKey(next)) == {} && Holders(slots, WriteKey(next)) == {};
    forall j
      ensures KeyOk(slots', counts', next', j)
    {
      assert KeyOk(slots, counts, next, j);
      PipeHolders(slots, next, r, w, cloexec, j);
      hide Holders;
    }
  }

  lemma PipeHolders(slots: Slots, o: nat, r: Cell, w: Cell, cloexec: bool, j: Key)
    requires r !in slots && w !in slots && r != w
    ensures Holders(slots[r := Ref(ReadKey(o), cloexec)][w := Ref(WriteKey(o), cloexec)], j) ==
              Holders(slots, j) + (if j == ReadKey(o) then {r} else if j == WriteKey(o) then {w} else {})
  {
    var slots1 := slots[r := Ref(ReadKey(o), cloexec)];
    HoldersSet(slots, r, Ref(ReadKey(o), cloexec), j);
    HoldersSet(slots1, w, Ref(WriteKey(o), cloexec), j);
    assert r !in Holders(slots, j) && w !in Holders(slots, j);
    hide Holders;
    assert Holders(slots, j) - {r} == Holders(slots, j);
    assert w !in Holders(slots1, j) && Holders(slots1, j) - {w} == Holders(slots1, j);
  }

  // ---- every object is closed once ---------------------------------------------

  ghost predicate OneKind(counts: Counts, k: Key, j: Key)
  {
    k in counts && j in counts && k.o == j.o ==> j == k || j == OtherEnd(k)
  }

  ghost predicate IsOpen(counts: Counts, o: nat)
  {
    exists k :: k in counts && k.o == o
  }

  ghost predicate IsClosed(closed: seq<Key>, o: nat)
  {
    exists i :: 0 <= i < |closed| && closed[i].o == o
  }

  /** Of all objects opened so far (numbered below `next`), each is either open or
      closed, never both, and was closed once. */
  ghost predicate Ledger(counts: Counts, closed: seq<Key>, next: nat)
  {
    && (forall k, j {:trigger OneKind(counts, k, j)} :: OneKind(counts, k, j))
    && (forall o: nat {:trigger IsOpen(counts, o)} {:trigger IsClosed(closed, o)} ::
          (o < next <==> IsOpen(counts, o) || IsClosed(closed, o)) && !(IsOpen(counts, o) && IsClosed(closed, o)))
    && (forall i, j :: 0 <= i < j < |closed| ==> closed[i].o != closed[j].o)
  }

  lemma LedgerSame(counts: Counts, counts': Counts, closed: seq<Key>, next: nat)
    requires Ledger(counts, closed, next) && forall k :: k in counts <==> k in counts'
    ensures Ledger(counts', closed, next)
  {
    forall k, j
      ensures OneKind(counts', k, j)
    {
      assert OneKind(counts, k, j);
    }
    forall o: nat
      ensures IsOpen(counts', o) <==> IsOpen(counts, o)
    {
    }
  }

  lemma LedgerClosed(counts: Counts, counts': Counts, closed: seq<Key>, next: nat, k: Key)
    requires Ledger(counts, closed, next) && k in counts
    requires forall j :: j in counts' <==> j in counts && j != k && j != OtherEnd(k)
    ensures Ledger(counts', closed + [k], next)
  {
    var closed' := closed + [k];
    assert IsOpen(counts, k.o);
    forall i, j
      ensures OneKind(counts', i, j)
    {
      assert OneKind(counts, i, j);
    }
    forall o: nat
      ensures IsOpen(counts', o) <==> IsOpen(counts, o) && o != k.o
      ensures IsClosed(closed', o) <==> IsClosed(closed, o) || o == k.o
    {
      forall j | j in counts && j.o == k.o
        ensures j == k || j == OtherEnd(k)
      {
        assert OneKind(counts, k, j);
      }
      assert closed'[|closed|] == k;
      assert IsClosed(closed, o) ==> IsClosed(closed', o) by {
        assert forall i :: 0 <= i < |closed| ==> closed'[i] == closed[i];
      }
    }
    assert !IsClosed(closed, k.o);
  }

  lemma LedgerOpened(counts: Counts, counts': Counts, closed: seq<Key>, next: nat, k: Key)
    requires Ledger(counts, closed, next) && k.o == next
    requires forall j :: j in counts' <==> j in counts || j == k || j == OtherEnd(k)
    ensures Ledger(counts', closed, next + 1)
  {
    assert !IsOpen(counts, next);
    forall i, j
      ensures OneKind(counts', i, j)
    {
      assert OneKind(counts, i, j);
    }
    forall o: nat
      ensures IsOpen(counts', o) <==> IsOpen(counts, o) || o == next
    {
      assert k in counts' && k.o == next;
    }
    forall o: nat
      ensures o < next + 1 <==> IsOpen(counts', o) || IsClosed(closed, o)
      ensures !(IsOpen(counts', o) && IsClosed(closed, o))
    {
      assert o < next <==> IsOpen(counts, o) || IsClosed(closed, o);
    }
  }

  class Table {
    var slots: Slots
    var counts: Counts
    var next: nat
    /** Every vfs_close, socket_close and pipe free so far. */
    ghost var closed: seq<Key>

    ghost predicate Valid()
      reads this
    {
      Inv(slots, counts, next) && TEMP !in slots && Ledger(counts, closed, next)
    }

    constructor ()
      ensures Valid() && slots == map[] && counts == map[] && closed == [] && next == 0
    {
      slots, counts, next, closed := map[], map[], 0, [];
      assert forall k :: Holders(map[], k) == {};
    }

    /** task_fd_release: one reference less; the object is closed exactly when
        this was the last slot that referred to it. */
    method Release(c: Cell)
      requires Inv(slots, counts, next) && Ledger(counts, closed, next)
      modifies this`slots, this`counts, this`closed
      ensures Inv(slots, counts, next) && Ledger(counts, closed, next) && slots == old(slots) - {c}
      ensures closed == if c in old(slots) && LastSlot(old(slots), c) then old(closed) + [old(slots)[c].key]
          else old(closed)
    {
      hide Ledger;
      if c !in slots {
        assert slots - {c} == slots;
        return;
      }
      match slots[c] {
        case Tty(_) => TtyGone(slots, counts, next, c);
        case Ref(k, _) =>
          DroppedOk(slots, counts, next, c);
          ClosedIff(slots, counts, next, c);
          if k.FileKey? || k.SocketKey? {
            if counts[k] > 1 {
              LedgerSame(counts, counts[k := counts[k] - 1], closed, next);
              counts := counts[k := counts[k] - 1];
            } else {
              LedgerClosed(counts, counts - {k}, closed, next, k);
              counts := counts - {k};
              closed := closed + [k];
            }
          } else {
            if counts[k] == 1 && counts[OtherEnd(k)] == 0 {
              LedgerClosed(counts, counts - {k, OtherEnd(k)}, closed, next, k);
              counts := counts - {k, OtherEnd(k)};
              closed := closed + [k];
            } else {
              LedgerSame(counts, counts[k := counts[k] - 1], closed, next);
              counts := counts[k := counts[k] - 1];
            }
          }
      }
      slots := slots - {c};
    }

    /** task_fd_dup into an unused slot.  `pathOk` is whether a directory's path
        could be copied. */
    method DupTo(dst: Cell, src: Cell, console: bool, pathOk: bool) returns (ok: bool)
      requires Inv(slots, counts, next) && Ledger(counts, closed, next) && dst !in slots && dst != src
      modifies this`slots, this`counts
      ensures Inv(slots, counts, next) && Ledger(counts, closed, next) && (ok <==> src !in old(slots) || pathOk)
      ensures slots == if !ok then old(slots) else Copied(old(slots), dst, src, console)
    {
      hide Ledger;
      if src !in slots {
        if console {
          AddedOk(slots, counts, next, dst, Tty(false));
          slots := slots[dst := Tty(false)];
        }
        return true;
      }
      if !pathOk {
        return false;
      }
      var d := WithFlag(slots[src], false);
      if d.Ref? {
        HeldExists(slots, counts, next, src);
      }
      AddedOk(slots, counts, next, dst, d);
      if d.Ref? {
        LedgerSame(counts, counts[d.key := counts[d.key] + 1], closed, next);
        counts := counts[d.key := counts[d.key] + 1];
      }
      slots := slots[dst := d];
      ok := true;
    }

    /** fd_lowest_free */
    method LowestFree(pid: nat, from: nat) returns (fd: int)
      ensures fd == -1 <==> NoSlot(slots, pid, from)
      ensures fd != -1 ==> fd >= 0 && LowestSlot(slots, pid, from, fd)
    {
      var start := if from < 3 then 3 else from;
      fd := start;
      while fd < MAX_FDS
        invariant start <= fd && forall i: nat :: start <= i < fd ==> Cell(pid, i) in slots
      {
        if Cell(pid, fd) !in slots {
          return;
        }
        fd := fd + 1;
      }
      fd := -1;
    }

    /** sys_close */
    method Close(pid: nat, fd: nat) returns (ok: bool)
      requires Valid() && pid != 0
      modifies this`slots, this`counts, this`closed
      ensures Valid() && (ok <==> fd < 32 && (Cell(pid, fd) in old(slots) || fd < 3))
      ensures slots == if ok then old(slots) - {Cell(pid, fd)} else old(slots)
    {
      if fd >= MAX_FDS {
        return false;
      }
      if Cell(pid, fd) !in slots {
        assert slots - {Cell(pid, fd)} == slots;
        return fd < 3;
      }
      Release(Cell(pid, fd));
      ok := true;
    }

    /** fd_dup_into for two different slots: the new slot takes over the object of
        the old one.  Replacing a slot by its own object closes nothing. */
    method DupInto(pid: nat, oldFd: nat, newFd: nat, pathOk: bool) returns (ok: bool)
      requires Valid() && pid != 0 && oldFd != newFd && Known(slots, pid, oldFd) && newFd < MAX_FDS
      modifies this`slots, this`counts, this`closed
      ensures Valid() && (ok <==> Cell(pid, oldFd) !in old(slots) || pathOk)
      ensures !ok ==> slots == old(slots) && closed == old(closed)
      ensures ok ==> slots == old(slots)[Cell(pid, newFd) := Duplicate(old(slots), Cell(pid, oldFd), false)]
      ensures Cell(pid, newFd) !in old(slots) || SameObject(old(slots), Cell(pid, oldFd), Cell(pid, newFd)) ==>
                closed == old(closed)
    {
      hide Ledger;
      var src, dst := Cell(pid, oldFd), Cell(pid, newFd);
      ok := DupTo(TEMP, src, true, pathOk);
      if !ok {
        return;
      }
      ghost var mid := slots;
      Release(dst);
      MovedOk(slots, counts, next, TEMP, dst);
      assert (mid - {dst} - {TEMP})[dst := mid[TEMP]] == old(slots)[dst := mid[TEMP]];
      slots := (slots - {TEMP})[dst := slots[TEMP]];
    }

    /** sys_dup */
    method Dup(pid: nat, fd: nat, pathOk: bool) returns (r: int)
      requires Valid() && pid != 0
      modifies this`slots, this`counts, this`closed
      ensures Valid() && closed == old(closed)
      ensures r < 0 ==> slots == old(slots)
      ensures r == -9 <==> fd >= 32 || (fd >= 3 && Cell(pid, fd) !in old(slots))
      ensures r == -24 <==> r != -9 && NoSlot(old(slots), pid, 0)
      ensures r < 0 && r != -9 && r != -24 ==> r == -12 && Cell(pid, fd) in old(slots) && !pathOk
      // the lowest free slot refers to the same object, without close-on-exec
      ensures r >= 0 ==>
                && LowestSlot(old(slots), pid, 0, r) && (Cell(pid, fd) in old(slots) ==> pathOk)
                && slots == old(slots)[Cell(pid, r) := if Cell(pid, fd) in old(slots)
                                                       then old(slots)[Cell(pid, fd)].(cloexec := false) else Tty(false)]
    {
      if !Known(slots, pid, fd) {
        return -9;
      }
      var free := LowestFree(pid, 0);
      if free < 0 {
        return -24;
      }
      FreeSlotsDiffer(slots, pid, fd, free);
      var ok := DupInto(pid, fd, free, pathOk);
      r := if ok then free else -12;
    }

    /** sys_dup2 and sys_dup3 (`strict`, which refuses equal numbers and may set
        close-on-exec). */
    method Dup23(pid: nat, oldFd: nat, newFd: nat, strict: bool, cloexec: bool, pathOk: bool) returns (r: int)
      requires Valid() && pid != 0 && (cloexec ==> strict)
      modifies this`slots, this`counts, this`closed
      ensures Valid()
      ensures r >= 0 ==> r == newFd < 32
      ensures r < 0 || oldFd == newFd ==> slots == old(slots) && closed == old(closed)
      ensures r >= 0 && oldFd != newFd ==>
                slots == old(slots)[Cell(pid, newFd) := if Cell(pid, oldFd) in old(slots)
                                                        then old(slots)[Cell(pid, oldFd)].(cloexec := cloexec) else Tty(cloexec)]
      ensures r >= 0 <==>
              && oldFd < 32 && (oldFd < 3 || Cell(pid, oldFd) in old(slots))
              && (if oldFd == newFd then !strict else newFd < 32 && (Cell(pid, oldFd) in old(slots) ==> pathOk))
      ensures r >= 0 || r == -9 || r == -12 || r == -22
      ensures r == -22 <==> strict && oldFd == newFd < 32 && (oldFd < 3 || Cell(pid, oldFd) in old(slots))
    {
      if !Known(slots, pid, oldFd) {
        return -9;
      }
      if oldFd == newFd {
        return if strict then -22 else newFd;
      }
      if newFd >= MAX_FDS {
        return -9;
      }
      var ok := DupInto(pid, oldFd, newFd, pathOk);
      if !ok {
        return -12;
      }
      if cloexec {
        FlagOk(slots, counts, next, Cell(pid, newFd), true);
        slots := slots[Cell(pid, newFd) := WithFlag(slots[Cell(pid, newFd)], true)];
      }
      r := newFd;
    }

    /** fd_alloc_for and sock_fd_alloc: a freshly opened object in the lowest slot. */
    method Open(pid: nat, socket: bool) returns (fd: int)
      requires Valid() && pid != 0
      modifies this`slots, this`counts, this`next
      ensures Valid() && closed == old(closed)
      ensures fd < 0 ==> slots == old(slots) && NoSlot(old(slots), pid, 3)
      ensures fd >= 0 ==> && LowestSlot(old(slots), pid, 3, fd)
                          && var key := if socket then SocketKey(old(next)) else FileKey(old(next));
                          && slots == old(slots)[Cell(pid, fd) := Ref(key, false)]
    {
      hide Ledger;
      fd := LowestFree(pid, 3);
      if fd < 0 {
        return;
      }
      var k := if socket then SocketKey(next) else FileKey(next);
      OpenedOk(slots, counts, next, Cell(pid, fd), k);
      LedgerOpened(counts, counts[k := 1], closed, next, k);
      slots, counts, next := slots[Cell(pid, fd) := Ref(k, false)], counts[k := 1], next + 1;
    }

    /** sys_pipe2 */
    method Pipe2(pid: nat, cloexec: bool) returns (rfd: int, wfd: int)
      requires Valid() && pid != 0
      modifies this`slots, this`counts, this`next
      ensures Valid() && closed == old(closed)
      ensures rfd < 0 <==> wfd < 0
      ensures rfd < 0 ==>
                slots == old(slots) && forall r: nat :: LowestSlot(old(slots), pid, 0, r) ==> NoSlot(old(slots), pid, r + 1)
      ensures rfd >= 0 && wfd >= 0 ==>
                && LowestSlot(old(slots), pid, 0, rfd) && LowestSlot(old(slots), pid, rfd + 1, wfd)
                && slots == old(slots)[Cell(pid, rfd) := Ref(ReadKey(old(next)), cloexec)]
                                      [Cell(pid, wfd) := Ref(WriteKey(old(next)), cloexec)]
    {
      hide Ledger;
      rfd, wfd := -1, -1;
      var r := LowestFree(pid, 0);
      if r < 0 {
        return;
      }
      var w := LowestFree(pid, r + 1);
      if w < 0 {
        return;
      }
      PipeOk(slots, counts, next, Cell(pid, r), Cell(pid, w), cloexec);
      LedgerOpened(counts, counts[ReadKey(next) := 1][WriteKey(next) := 1], closed, next, ReadKey(next));
      slots := slots[Cell(pid, r) := Ref(ReadKey(next), cloexec)][Cell(pid, w) := Ref(WriteKey(next), cloexec)];
      counts, next := counts[ReadKey(next) := 1][WriteKey(next) := 1], next + 1;
      rfd, wfd := r, w;
    }

    /** The loops that release slots of one task: close-on-exec slots at exec, pipe
        ends at exit, everything at reap. */
    method ReleaseAll(pid: nat, which: Which)
      requires Valid() && pid != 0
      modifies this`slots, this`counts, this`closed
      ensures Valid()
      ensures forall c ::
                c in slots <==> && c in old(slots)
                                && !(c.pid == pid && c.fd < 32 &&
                                     match which
                                     case Everything => true
                                     case OnExec => old(slots)[c].cloexec
                                     case PipeEnds => old(slots)[c].Ref? && (old(slots)[c].key.ReadKey? || old(slots)[c].key.WriteKey?))
      ensures forall c :: c in slots ==> slots[c] == old(slots)[c]
    {
      hide Inv, Ledger;
      var fd := 0;
      while fd < MAX_FDS
        invariant 0 <= fd <= MAX_FDS && Inv(slots, counts, next) && Ledger(counts, closed, next)
        invariant forall c ::
                    c in slots <==> c in old(slots) && !(c.pid == pid && c.fd < fd && Wanted(which, old(slots)[c]))
        invariant forall c :: c in slots ==> slots[c] == old(slots)[c]
      {
        if Cell(pid, fd) in slots && Wanted(which, slots[Cell(pid, fd)]) {
          Release(Cell(pid, fd));
        }
        fd := fd + 1;
      }
    }

    /** task_inherit_stdio for a child without descriptors. */
    method InheritStdio(parent: nat, child: nat, pathOk: seq<bool>)
      requires Valid() && child != 0 && parent != child && |pathOk| == 3 && forall fd: nat :: Cell(child, fd) !in slots
      modifies this`slots, this`counts
      ensures Valid()
      ensures forall c ::
                c in slots <==> c in old(slots) || (c.pid == child && c.fd < 3 && Cell(parent, c.fd) in old(slots) && pathOk[c.fd])
      ensures forall c ::
                c in slots ==> slots[c] == if c in old(slots) then old(slots)[c]
                    else old(slots)[Cell(parent, c.fd)].(cloexec := false)
    {
      hide Inv, Ledger;
      var fd := 0;
      while fd < 3
        invariant 0 <= fd <= 3 && Valid()
        invariant forall c ::
                    c in slots <==> c in old(slots) || (c.pid == child && c.fd < fd && Cell(parent, c.fd) in old(slots) && pathOk[c.fd])
        invariant forall c ::
                    c in slots ==> slots[c] == if c in old(slots) then old(slots)[c]
                        else WithFlag(old(slots)[Cell(parent, c.fd)], false)
      {
        if Cell(parent, fd) in slots {
          var _ := DupTo(Cell(child, fd), Cell(parent, fd), false, pathOk[fd]);
        }
        fd := fd + 1;
      }
    }

    /** The descriptor copy of task_spawn_vfork: every slot of the parent, flags
        included, or nothing at all. */
    method VforkCopy(parent: nat, child: nat, pathOk: seq<bool>) returns (ok: bool)
      requires Valid() && child != 0 && parent != 0 && parent != child && |pathOk| == MAX_FDS
      requires forall fd: nat :: Cell(child, fd) !in slots
      modifies this`slots, this`counts, this`closed
      ensures Valid() && closed == old(closed)
      ensures !ok ==> slots == old(slots) && counts == old(counts)
      ensures ok ==> slots == Cloned(old(slots), parent, child, MAX_FDS)
      ensures ok <==> forall fd: nat :: fd < MAX_FDS && Cell(parent, fd) in old(slots) ==> pathOk[fd]
    {
      hide Inv, Cloned, Ledger;
      ghost var counts0 := counts;
      var fd := 0;
      assert slots == Cloned(slots, parent, child, 0) by {
        ClonedNone(slots, parent, child);
      }
      while fd < MAX_FDS
        invariant 0 <= fd <= MAX_FDS && Valid() && slots == Cloned(old(slots), parent, child, fd)
        invariant closed == old(closed)
        invariant forall i: nat :: i < fd && Cell(parent, i) in old(slots) ==> pathOk[i]
      {
        ClonedMeans(old(slots), parent, child, fd);
        ClonedNext(old(slots), parent, child, fd);
        ok := DupTo(Cell(child, fd), Cell(parent, fd), false, pathOk[fd]);
        if !ok {
          Undo(parent, child, fd, old(slots));
          CountsDetermined(slots, counts, counts0, next, next);
          return;
        }
        if Cell(parent, fd) in slots {
          FlagOk(slots, counts, next, Cell(child, fd), slots[Cell(parent, fd)].cloexec);
          slots := slots[Cell(child, fd) := WithFlag(slots[Cell(child, fd)], slots[Cell(parent, fd)].cloexec)];
        }
        fd := fd + 1;
      }
      ok := true;
    }

    /** Roll the first n copies back; none of them is a last reference. */
    method Undo(parent: nat, child: nat, n: nat, ghost before: Slots)
      requires Valid() && child != 0 && parent != child && slots == Cloned(before, parent, child, n)
      requires forall fd: nat :: Cell(child, fd) !in before
      modifies this`slots, this`counts, this`closed
      ensures Valid() && slots == before && closed == old(closed)
    {
      hide Inv, Cloned, Ledger;
      ClonedMeans(before, parent, child, n);
      var undo := 0;
      while undo < n
        invariant 0 <= undo <= n && Valid() && closed == old(closed)
        invariant forall c ::
                    c in slots <==> c in before || (c.pid == child && undo <= c.fd < n && Cell(parent, c.fd) in before)
        invariant forall c :: c in slots ==> slots[c] == if c in before then before[c] else before[Cell(parent, c.fd)]
      {
        if Cell(child, undo) in slots {
          NotLast(slots, Cell(child, undo), Cell(parent, undo));
        }
        Release(Cell(child, undo));
        undo := undo + 1;
      }
      assert slots == before;
    }
  }

  datatype Which = Everything | OnExec | PipeEnds

  predicate Wanted(which: Which, d: Desc)
  {
    match which
    case Everything => true
    case OnExec => d.cloexec
    case PipeEnds => d.Ref? && (d.key.ReadKey? || d.key.WriteKey?)
  }

  /** The first n slots of the parent copied to the child. */
  function Cloned(slots: Slots, parent: nat, child: nat, n: nat): Slots
  {
    if n == 0 then slots
    else
      var s := Cloned(slots, parent, child, n - 1);
      if Cell(parent, n - 1) in slots then s[Cell(child, n - 1) := slots[Cell(parent, n - 1)]] else s
  }

  lemma ClonedNone(slots: Slots, parent: nat, child: nat)
    ensures Cloned(slots, parent, child, 0) == slots
  {
  }

  lemma ClonedNext(slots: Slots, parent: nat, child: nat, n: nat)
    ensures Cloned(slots, parent, child, n + 1) ==
              if Cell(parent, n) in slots then Cloned(slots, parent, child, n)[Cell(child, n) := slots[Cell(parent, n)]]
              else Cloned(slots, parent, child, n)
  {
  }

  lemma {:induction false} ClonedMeans(slots: Slots, parent: nat, child: nat, n: nat)
    requires parent != child && forall fd: nat :: Cell(child, fd) !in slots
    ensures forall c ::
              c in Cloned(slots, parent, child, n) <==> c in slots || (c.pid == child && c.fd < n && Cell(parent, c.fd) in slots)
    ensures forall c :: c in Cloned(slots, parent, child, n) ==>
              Cloned(slots, parent, child, n)[c] == if c in slots then slots[c] else slots[Cell(parent, c.fd)]
  {
    if n > 0 {
      ClonedMeans(slots, parent, child, n - 1);
    }
  }

  /** A slot whose object another slot shares is not the last. */
  lemma NotLast(slots: Slots, a: Cell, b: Cell)
    requires a in slots && b in slots && a != b && slots[a] == slots[b]
    ensures !LastSlot(slots, a)
  {
    if slots[a].Ref? {
      assert b in Holders(slots, slots[a].key);
    }
  }

  /** task_fd_dup's copy. */
  function Copied(slots: Slots, dst: Cell, src: Cell, console: bool): Slots
  {
    if src in slots then slots[dst := WithFlag(slots[src], false)] else if console then slots[dst := Tty(false)]
        else slots
  }

  /** What a duplicate of a slot holds; an empty slot stands for the console. */
  function Duplicate(slots: Slots, src: Cell, cloexec: bool): Desc
  {
    if src in slots then WithFlag(slots[src], cloexec) else Tty(cloexec)
  }

  function WithFlag(d: Desc, cloexec: bool): Desc
  {
    match d
    case Tty(_) => Tty(cloexec)
    case Ref(k, _) => Ref(k, cloexec)
  }

  predicate SameObject(slots: Slots, a: Cell, b: Cell)
  {
    a in slots && b in slots && slots[a].Ref? && slots[b].Ref? && slots[a].key == slots[b].key
  }

  /** fd_is_known */
  predicate Known(slots: Slots, pid: nat, fd: nat)
  {
    fd < MAX_FDS && (Cell(pid, fd) in slots || fd < 3)
  }

  /** Is c the only slot that refers to its object? */
  ghost predicate LastSlot(slots: Slots, c: Cell)
    requires c in slots
  {
    slots[c].Ref? && Holders(slots, slots[c].key) + Holders(slots, OtherEnd(slots[c].key)) == {c}
  }

  /** The tests in task_fd_release and pipe_unref recognise the last slot. */
  lemma ClosedIff(slots: Slots, counts: Counts, next: nat, c: Cell)
    requires Inv(slots, counts, next) && c in slots && slots[c].Ref?
    ensures var k := slots[c].key;
            && k in counts && OtherEnd(k) in counts
            && (LastSlot(slots, c) <==> counts[k] == 1 && (k.ReadKey? || k.WriteKey? ==> counts[OtherEnd(k)] == 0))
            && counts[k] >= 1
  {
    var k := slots[c].key;
    HeldExists(slots, counts, next, c);
    assert KeyOk(slots, counts, next, k) && KeyOk(slots, counts, next, OtherEnd(k));
    var a, b := Holders(slots, k), Holders(slots, OtherEnd(k));
    assert c in a;
    SizeWith(a, c);
    if LastSlot(slots, c) {
      assert a == {c};
      if k.ReadKey? || k.WriteKey? {
        assert c !in b;
        assert b == {};
      }
    } else if counts[k] == 1 {
      assert a - {c} == {} && a == {c};
    }
  }

  lemma FreeSlotsDiffer(slots: Slots, pid: nat, fd: nat, free: nat)
    requires Known(slots, pid, fd) && 3 <= free && Cell(pid, free) !in slots
    ensures fd != free
  {
  }

  /** The flag of a slot is not part of the object. */
  lemma FlagOk(slots: Slots, counts: Counts, next: nat, c: Cell, cloexec: bool)
    requires Inv(slots, counts, next) && c in slots
    ensures Inv(slots[c := WithFlag(slots[c], cloexec)], counts, next)
  {
    var slots' := slots[c := WithFlag(slots[c], cloexec)];
    forall k
      ensures KeyOk(slots', counts, next, k)
    {
      assert KeyOk(slots, counts, next, k);
      assert Holders(slots', k) == Holders(slots, k);
    }
  }

  // ---- every run -----------------------------------------------------------------

  datatype Op =
    | Open(pid: nat, socket: bool) | Pipe2(pid: nat, cloexec: bool) | Close(pid: nat, fd: nat) | Dup(pid: nat, fd: nat, pathOk: bool)
    | Dup23(pid: nat, oldFd: nat, newFd: nat, strict: bool, cloexec: bool, pathOk: bool)
    | Spawn(parent: nat, child: nat, paths: seq<bool>) | Vfork(parent: nat, child: nat, paths: seq<bool>)
    | ExecClose(pid: nat) | ExitPipes(pid: nat) | ReapClose(pid: nat)

  /** Is the operation one the kernel can perform now?  Pid 0 is nobody, and a
      new task starts without descriptors. */
  predicate Possible(slots: Slots, op: Op)
  {
    match op
    case Spawn(parent, child, pathOk) =>
      child != 0 && parent != child && |pathOk| == 3 && forall c :: c in slots ==> c.pid != child
    case Vfork(parent, child, pathOk) =>
      child != 0 && parent != 0 && parent != child && |pathOk| == MAX_FDS && forall c :: c in slots ==> c.pid != child
    case Dup23(pid, _, _, strict, cloexec, _) => pid != 0 && (cloexec ==> strict)
    case Open(pid, _) => pid != 0
    case Pipe2(pid, _) => pid != 0
    case Close(pid, _) => pid != 0
    case Dup(pid, _, _) => pid != 0
    case ExecClose(pid) => pid != 0
    case ExitPipes(pid) => pid != 0
    case ReapClose(pid) => pid != 0
  }

  method Perform(t: Table, op: Op)
    requires t.Valid() && Possible(t.slots, op)
    modifies t
    ensures t.Valid() && Exact(t.slots, t.counts) && Ledger(t.counts, t.closed, t.next)
  {
    hide Inv, Ledger;
    match op {
      case Open(pid, socket) => var _ := t.Open(pid, socket);
      case Pipe2(pid, cloexec) => var _, _ := t.Pipe2(pid, cloexec);
      case Close(pid, fd) => var _ := t.Close(pid, fd);
      case Dup(pid, fd, pathOk) => var _ := t.Dup(pid, fd, pathOk);
      case Dup23(pid, oldFd, newFd, strict, cloexec, pathOk) => var _ := t.Dup23(pid, oldFd, newFd, strict, cloexec, pathOk);
      case Spawn(parent, child, pathOk) => t.InheritStdio(parent, child, pathOk);
      case Vfork(parent, child, pathOk) => var _ := t.VforkCopy(parent, child, pathOk);
      case ExecClose(pid) => t.ReleaseAll(pid, OnExec);
      case ExitPipes(pid) => t.ReleaseAll(pid, PipeEnds);
      case ReapClose(pid) => t.ReleaseAll(pid, Everything);
    }
    InvExact(t.slots, t.counts, t.next);
  }

  /** Any sequence of descriptor calls by any tasks.  Once no slot is left, as when
      every task has been reaped, nothing is open and everything ever opened was
      closed exactly once. */
  method Run(ops: seq<Op>) returns (t: Table)
    ensures t.Valid() && Exact(t.slots, t.counts) && Ledger(t.counts, t.closed, t.next)
    ensures t.slots == map[] ==> t.counts == map[] && forall o: nat :: o < t.next <==> IsClosed(t.closed, o)
  {
    hide Inv, Ledger;
    t := new Table();
    var k := 0;
    while k < |ops|
      invariant t.Valid() && fresh(t)
    {
      if Possible(t.slots, ops[k]) {
        Perform(t, ops[k]);
      }
      k := k + 1;
    }
    InvExact(t.slots, t.counts, t.next);
    if t.slots == map[] {
      AllClosed(t.slots, t.counts, t.closed, t.next);
    }
  }

  lemma AllClosed(slots: Slots, counts: Counts, closed: seq<Key>, next: nat)
    requires Exact(slots, counts) && Ledger(counts, closed, next) && slots == map[]
    ensures counts == map[] && forall o: nat :: o < next <==> IsClosed(closed, o)
  {
    assert forall k :: Holders(slots, k) == {};
    assert forall k :: k !in counts;
    assert forall o: nat :: !IsOpen(counts, o);
  }

  /** Counters equal the number of slots, and an object exists exactly while some
      slot refers to it. */
  ghost predicate Exact(slots: Slots, counts: Counts)
  {
    && (forall k :: k in counts ==> counts[k] == |Holders(slots, k)|)
    && (forall k :: k in counts ==> Holders(slots, k) + Holders(slots, OtherEnd(k)) != {})
    && (forall c :: c in slots && slots[c].Ref? ==> slots[c].key in counts)
  }

  lemma InvExact(slots: Slots, counts: Counts, next: nat)
    requires Inv(slots, counts, next)
    ensures Exact(slots, counts)
  {
    forall k | k in counts
      ensures counts[k] == |Holders(slots, k)| && Holders(slots, k) + Holders(slots, OtherEnd(k)) != {}
    {
      assert KeyOk(slots, counts, next, k);
      ExistsHeld(slots, counts, next, k);
    }
    forall c | c in slots && slots[c].Ref?
      ensures slots[c].key in counts
    {
      HeldExists(slots, counts, next, c);
    }
  }
}
