/** The PE module graph (kernel/loader/pe.c): discovery of imported DLLs, their
    placement, and the order in which their entry points run.

    Files are abstract: what matters of an image is its size, preferred base,
    whether it can be relocated, its imports and whether it has an entry point. */
module PeModules {
  import opened Reservations

  const MAX_MODULES: nat := 32
  const TEB: nat := 0x6_0000_0000
  const TEB_WINDOW: nat := 0x1_0000
  const PLACE_FIRST: nat := 0x2_0000_0000
  const PLACE_LAST: nat := 0x3_0000_0000
  const PLACE_STEP: nat := 0x100_0000

  datatype Import = Dll(name: string) | BadName

  /** hasImports is a non-empty import directory; `terminated` says that its list
      ends with an empty entry. */
  datatype File =
    | Broken
    | Image(size: nat, base: nat, relocatable: bool, relocates: bool, hasImports: bool, imports: seq<Import>,
            terminated: bool, entry: bool)

  datatype Module = Module(name: string, base: nat, size: nat, entry: bool, deps: set<nat>)

  // ---- names -----------------------------------------------------------------

  predicate Upper(c: char)
  {
    'A' <= c <= 'Z'
  }

  predicate Allowed(c: char)
  {
    Upper(c) || 'a' <= c <= 'z' || '0' <= c <= '9' || c == '.' || c == '_' || c == '-'
  }

  function Lower(c: char): char
  {
    if Upper(c) then c + 32 as char else c
  }

  function Lowered(s: string): (r: string)
    ensures |r| == |s|
  {
    seq(|s|, i requires 0 <= i < |s| => Lower(s[i]))
  }

  /** copy_name succeeds on these. */
  predicate GoodName(s: string)
  {
    0 < |s| < 64 && (forall i :: 0 <= i < |s| ==> Allowed(s[i])) && s != "." && s != ".."
  }

  /** copy_name, with an empty name where the C string is not used. */
  method CopyName(name: string) returns (ok: bool, out: string)
    ensures ok <==> GoodName(name)
    ensures out == if ok then Lowered(name) else ""
  {
    out := "";
    var n := 0;
    while n < |name|
      invariant 0 <= n <= |name| && n < 64 && out == Lowered(name[..n])
      invariant forall i :: 0 <= i < n ==> Allowed(name[i])
    {
      var c := name[n];
      if n + 1 >= 64 || !('A' <= c <= 'Z' || 'a' <= c <= 'z' || '0' <= c <= '9' || c == '.' || c == '_' || c == '-') {
        return false, "";
      }
      assert name[..n + 1] == name[..n] + [c];
      out := out + [if 'A' <= c <= 'Z' then c + 32 as char else c];
      n := n + 1;
    }
    assert name[..n] == name;
    if n == 0 || out == "." || out == ".." {
      DotsOnly(name);
      return false, "";
    }
    DotsOnly(name);
    ok := true;
  }

  lemma DotsOnly(s: string)
    ensures Lowered(s) == "." <==> s == "."
    ensures Lowered(s) == ".." <==> s == ".."
  {
    assert forall c: char :: Lower(c) == '.' <==> c == '.';
    assert |s| == 1 ==> s == [s[0]] && Lowered(s) == [Lower(s[0])];
    assert |s| == 2 ==> s == [s[0], s[1]] && Lowered(s) == [Lower(s[0]), Lower(s[1])];
  }

  lemma LowerTwice(s: string)
    requires GoodName(s)
    ensures GoodName(Lowered(s)) && Lowered(Lowered(s)) == Lowered(s)
  {
    var t := Lowered(s);
    forall i | 0 <= i < |s|
      ensures Allowed(t[i]) && Lower(t[i]) == t[i]
    {
      assert Allowed(s[i]);
    }
    assert |s| == 1 ==> s == [s[0]] && t == [t[0]];
    assert |s| == 2 ==> s == [s[0], s[1]] && t == [t[0], t[1]];
    assert forall c: char :: Lower(c) == '.' <==> c == '.';
  }

  // ---- placement -------------------------------------------------------------

  predicate Disjoint(a: nat, n: nat, b: nat, m: nat)
  {
    a + n <= b || b + m <= a
  }

  /** Aligned, inside the user half above 1 GiB, and clear of the TEB window. */
  predicate PlaceOk(base: nat, size: nat)
  {
    base % 0x1_0000 == 0 && 0x4000_0000 <= base && base + size <= 0x7F00_0000_0000 && Disjoint(base, size, 0x6_0000_0000, 0x1_0000)
  }

  ghost predicate AllPlaced(modules: seq<Module>)
  {
    && (forall i :: 0 <= i < |modules| ==> PlaceOk(modules[i].base, modules[i].size))
    && (forall i, j :: 0 <= i < j < |modules| ==> Disjoint(modules[i].base, modules[i].size, modules[j].base, modules[j].size))
  }

  /** A name is loaded at most once (a module whose name was refused has none). */
  ghost predicate NamesOk(modules: seq<Module>)
  {
    forall i, j :: 0 <= i < j < |modules| && modules[i].name != "" ==> modules[i].name != modules[j].name
  }

  ghost predicate DepsOk(modules: seq<Module>)
  {
    forall i :: 0 <= i < |modules| ==> forall d :: d in modules[i].deps ==> d < |modules|
  }

  /** [base, base + size) is in bounds and holds no module and no mapped page. */
  ghost predicate FreeAt(modules: seq<Module>, mapped: set<nat>, base: nat, size: nat)
  {
    && PlaceOk(base, size)
    && (forall i :: 0 <= i < |modules| ==> Disjoint(base, size, modules[i].base, modules[i].size))
    && (forall k: nat :: k * 4096 < size ==> base + k * 4096 !in mapped)
  }

  /** The k-th candidate of the relocation area. */
  function Candidate(k: nat): nat
  {
    PLACE_FIRST + k * PLACE_STEP
  }

  /** An image fits at its own base, or elsewhere if it can be relocated. */
  ghost predicate Fits(modules: seq<Module>, mapped: set<nat>, size: nat, preferred: nat, relocatable: bool)
  {
    || FreeAt(modules, mapped, preferred, size)
    || (relocatable && exists k: nat :: Candidate(k) < PLACE_LAST && FreeAt(modules, mapped, Candidate(k), size))
  }

  class PeProcess {
    const files: map<string, File>
    const directory: string
    /** Pages that were mapped before any module is. */
    const mapped: set<nat>
    var modules: seq<Module>
    var visit: seq<bool>
    var initOrder: seq<nat>
    /** The file of each module. */
    ghost var paths: seq<string>
    /** How often the heap refused a buffer. */
    ghost var refusals: nat

    ghost predicate Valid()
      reads this
    {
      && |modules| <= MAX_MODULES && |visit| == |modules| && |paths| == |modules|
      && AllPlaced(modules) && NamesOk(modules) && DepsOk(modules)
    }

    constructor (files: map<string, File>, directory: string, mapped: set<nat>)
      ensures Valid() && modules == [] && visit == [] && initOrder == [] && paths == []
      ensures this.files == files && this.directory == directory && this.mapped == mapped
    {
      this.files, this.directory, this.mapped := files, directory, mapped;
      modules, visit, initOrder, paths, refusals := [], [], [], [], 0;
    }

    /** range_free */
    method RangeFree(base: nat, size: nat) returns (free: bool)
      ensures free <==> FreeAt(modules, mapped, base, size)
    {
      if base % 0x1_0000 != 0 || base < 0x4000_0000 || size > USER_VA_MAX || base > USER_VA_MAX - size {
        return false;
      }
      if base < TEB + TEB_WINDOW && base + size > TEB {
        return false;
      }
      var i := 0;
      while i < |modules|
        invariant 0 <= i <= |modules|
        invariant forall j :: 0 <= j < i ==> Disjoint(base, size, modules[j].base, modules[j].size)
      {
        if base < modules[i].base + modules[i].size && modules[i].base < base + size {
          return false;
        }
        i := i + 1;
      }
      var k := 0;
      while k * 4096 < size
        invariant 0 <= k && forall j: nat :: j < k ==> base + j * 4096 !in mapped
        decreases size - k * 4096
      {
        if base + k * 4096 in mapped {
          return false;
        }
        k := k + 1;
      }
      free := true;
    }

    /** Where discover puts an image: its own base if free, else the first free
        slot of the relocation area. */
    method Place(size: nat, preferred: nat, relocatable: bool) returns (base: int)
      ensures base >= 0 <==> Fits(modules, mapped, size, preferred, relocatable)
      ensures base >= 0 ==> FreeAt(modules, mapped, base, size)
      ensures base >= 0 ==>
                || base == preferred
                || (relocatable && !FreeAt(modules, mapped, preferred, size)
                    && exists k: nat ::
                         && base == Candidate(k) < PLACE_LAST
                         && forall j: nat :: j < k ==> !FreeAt(modules, mapped, Candidate(j), size))
    {
      hide FreeAt, PlaceOk;
      var free := RangeFree(preferred, size);
      if free {
        return preferred;
      }
      if !relocatable {
        return -1;
      }
      base := PLACE_FIRST;
      free := RangeFree(base, size);
      ghost var k: nat := 0;
      while !free
        invariant base == Candidate(k) < PLACE_LAST && (free <==> FreeAt(modules, mapped, base, size))
        invariant forall j: nat :: j < k ==> !FreeAt(modules, mapped, Candidate(j), size)
        decreases PLACE_LAST - base, !free
      {
        base, k := base + PLACE_STEP, k + 1;
        if base >= PLACE_LAST {
          assert forall j: nat :: Candidate(j) < PLACE_LAST ==> j < k;
          return -1;
        }
        free := RangeFree(base, size);
      }
    }

    /** discover: load the image at `path` and everything it imports.  Recursion
        ends because every level takes one of the module slots, cycles included.
        -2 means that there is no such file, -1 any other failure; the heap may
        refuse the file's buffer or the image's.  After success everything that was
        loaded on the way is complete. */
    method Discover(path: string, name: string) returns (r: int)
      requires Valid() && (GoodName(name) ==> forall i :: 0 <= i < |modules| ==> modules[i].name != Lowered(name))
      modifies this`modules, this`visit, this`paths, this`refusals
      ensures Valid() && Extends(old(modules), modules) && old(paths) <= paths && Unvisited(old(visit), visit)
      ensures refusals >= old(refusals)
      ensures r >= -2 && (r == -2 <==> |old(modules)| < MAX_MODULES && path !in files)
      ensures (r == -2 ==> modules == old(modules) && refusals == old(refusals))
      ensures r >= 0 ==> r == |old(modules)| < |modules| && modules[r].name == Lowered(name) && paths[r] == path
      ensures r >= 0 <==>
                && |old(modules)| < MAX_MODULES && path in files && files[path].Image? && GoodName(name)
                && refusals == old(refusals)
                && Fits(old(modules), mapped, files[path].size, files[path].base, files[path].relocatable)
                && files[path].relocates
                && (files[path].hasImports ==>
                      && files[path].terminated
                      && forall k ::
                           0 <= k < |files[path].imports| ==> Resolved(modules, |old(modules)|, files[path].imports[k]))
      ensures r >= 0 ==> forall i :: |old(modules)| <= i < |modules| ==> Complete(files, paths, modules, i)
      decreases MAX_MODULES - |modules|, 0
    {
      if |modules| == MAX_MODULES {
        return -1;
      }
      if path !in files {
        return -2;
      }
      var granted: bool := *;
      if !granted {
        refusals := refusals + 1;
        return -1;
      }
      if files[path].Broken? {
        return -1;
      }
      var image := files[path];
      var base := Place(image.size, image.base, image.relocatable);
      if base < 0 {
        return -1;
      }
      granted := *;
      if !granted {
        refusals := refusals + 1;
        return -1;
      }
      if !image.relocates {
        return -1;
      }
      var index := |modules|;
      var good, lower := CopyName(name);
      var m := Module(lower, base, image.size, image.entry, {});
      AddedOk(modules, m);
      hide AllPlaced, NamesOk, DepsOk, GoodName, Resolved, Fits, FreeAt, Lowered, Complete;
      modules := modules + [m];
      visit := visit + [false];
      paths := paths + [path];
      if !good {
        return -1;
      }
      if !image.hasImports {
        AloneComplete(files, paths, modules, index);
        return index;
      }
      var ok := LoadImports(index, image.imports);
      if ok && image.terminated {
        LoadedComplete(files, paths, modules, index);
        r := index;
      } else {
        r := -1;
      }
    }

    /** The import loop of discover. */
    method LoadImports(index: nat, imports: seq<Import>) returns (ok: bool)
      requires Valid() && index < |modules|
      modifies this`modules, this`visit, this`paths, this`refusals
      ensures Valid() && |modules| >= |old(modules)| && old(paths) <= paths && Unvisited(old(visit), visit)
      ensures refusals >= old(refusals)
      ensures forall i :: 0 <= i < |old(modules)| && i != index ==> modules[i] == old(modules)[i]
      ensures modules[index] == old(modules)[index].(deps := modules[index].deps)
      ensures ok <==> forall k :: 0 <= k < |imports| ==> Resolved(modules, index, imports[k])
      ensures ok ==>
                refusals == old(refusals) && forall i :: |old(modules)| <= i < |modules| ==> Complete(files, paths, modules, i)
      decreases MAX_MODULES - |modules|, 2
    {
      hide AllPlaced, NamesOk, DepsOk, GoodName, Resolved, Complete;
      var k := 0;
      while k < |imports|
        invariant 0 <= k <= |imports| && Valid() && |modules| >= |old(modules)| && old(paths) <= paths
        invariant Unvisited(old(visit), visit)
        invariant forall i :: 0 <= i < |old(modules)| && i != index ==> modules[i] == old(modules)[i]
        invariant modules[index] == old(modules)[index].(deps := modules[index].deps)
        invariant forall j :: 0 <= j < k ==> Resolved(modules, index, imports[j])
        invariant refusals == old(refusals)
        invariant forall i :: |old(modules)| <= i < |modules| ==> Complete(files, paths, modules, i)
      {
        if imports[k].BadName? {
          NotResolved(modules, index, imports[k]);
          return false;
        }
        ghost var before, paths0 := modules, paths;
        var dep := ModuleNamed(imports[k].name);
        if dep < 0 {
          Unresolved(before, modules, index, imports[k]);
          return false;
        }
        ResolvedKept(before, modules, index, imports, k);
        StillResolved(modules, index, imports, k, dep);
        DepAddedOk(modules, index, dep);
        ghost var after := modules[index := modules[index].(deps := modules[index].deps + {dep as nat})];
        AllCompleteKept(files, paths0, before, paths, modules, after, |old(modules)|);
        modules := modules[index := modules[index].(deps := modules[index].deps + {dep as nat})];
        k := k + 1;
      }
      ok := true;
    }

    /** module_named: the module of that name, loading it if it is new. */
    method ModuleNamed(name: string) returns (r: int)
      requires Valid()
      modifies this`modules, this`visit, this`paths, this`refusals
      ensures Valid() && Extends(old(modules), modules) && old(paths) <= paths && Unvisited(old(visit), visit)
      ensures refusals >= old(refusals)
      ensures r >= 0 ==>
                r < |modules| && GoodName(name) && modules[r].name == Lowered(name) && refusals == old(refusals)
      ensures forall i ::
                GoodName(name) && 0 <= i < |old(modules)| && old(modules)[i].name == Lowered(name) ==> r == i && modules == old(modules)
      ensures r >= 0 ==> forall i :: |old(modules)| <= i < |modules| ==> Complete(files, paths, modules, i)
      // a bad name and a path that does not fit 256 bytes load nothing
      ensures !GoodName(name) || ((forall i :: 0 <= i < |old(modules)| ==> old(modules)[i].name != Lowered(name)) &&
                                  |directory| + |Lowered(name)| + 1 >= 256) ==>
                r == -1 && modules == old(modules)
      // the directory of the program comes before that of the system
      ensures r >= |old(modules)| ==>
                var path := directory + Lowered(name);
                r == |old(modules)| < |paths| && paths[r] == if path in files then path else "/system/win32/" + Lowered(name)
      decreases MAX_MODULES - |modules|, 1
    {
      var good, lower := CopyName(name);
      if !good {
        return -1;
      }
      LowerTwice(name);
      hide Complete, AllPlaced, NamesOk, DepsOk;
      var i := 0;
      while i < |modules|
        invariant 0 <= i <= |modules| && modules == old(modules)
        invariant forall j :: 0 <= j < i ==> modules[j].name != lower
      {
        if modules[i].name == lower {
          assert lower != "";
          return i;
        }
        i := i + 1;
      }
      if |directory| + |lower| + 1 >= 256 {
        return -1;
      }
      r := Discover(directory + lower, lower);
      if r == -2 {
        r := Discover("/system/win32/" + lower, lower);
      }
    }

    /** init_order: depth-first, dependencies before the module itself; cycles end
        at the visit flag.  `path` are the modules being visited, and for an
        acyclic graph `rank` decreases along dependencies. */
    method InitOrder(index: nat, ghost path: set<nat>, ghost rank: seq<nat>, ghost acyclic: bool)
      requires Valid() && index < |modules| && OrderOk(modules, visit, initOrder, path)
      requires acyclic ==>
                 && Ranked(modules, rank) && Sorted(modules, rank, visit, initOrder, path)
                 && forall x :: x in path ==> rank[x] > rank[index]
      modifies this`visit, this`initOrder
      ensures Valid() && OrderOk(modules, visit, initOrder, path) && VisitsMore(old(visit), visit) && visit[index]
      ensures acyclic ==> Sorted(modules, rank, visit, initOrder, path)
      ensures old(initOrder) <= initOrder
      decreases Open(visit), 0
    {
      if visit[index] {
        return;
      }
      hide AllPlaced, NamesOk, OrderOk, Sorted;
      EnterOk(modules, visit, initOrder, path, index, rank, acyclic);
      visit := visit[index := true];
      OpenShrinks(old(visit), visit, index);
      VisitDeps(index, path + {index}, rank, acyclic);
      LeaveOrder(modules, visit, initOrder, path, index);
      if acyclic {
        LeaveSorted(modules, visit, initOrder, path, index, rank);
      }
      if index != 0 && modules[index].entry {
        initOrder := initOrder + [index];
      }
    }

    /** The loop of init_order over the dependency mask. */
    method VisitDeps(index: nat, ghost path: set<nat>, ghost rank: seq<nat>, ghost acyclic: bool)
      requires Valid() && index < |modules| && OrderOk(modules, visit, initOrder, path)
      requires acyclic ==>
                 && Ranked(modules, rank) && Sorted(modules, rank, visit, initOrder, path)
                 && forall x :: x in path ==> rank[x] >= rank[index]
      modifies this`visit, this`initOrder
      ensures Valid() && OrderOk(modules, visit, initOrder, path) && VisitsMore(old(visit), visit)
      ensures acyclic ==> Sorted(modules, rank, visit, initOrder, path)
      ensures old(initOrder) <= initOrder && forall j :: j in modules[index].deps ==> j < |modules| && visit[j]
      decreases Open(visit), 1
    {
      hide AllPlaced, NamesOk, OrderOk, Sorted;
      var i := 0;
      while i < |modules|
        invariant 0 <= i <= |modules| && Valid() && OrderOk(modules, visit, initOrder, path)
        invariant acyclic ==> Sorted(modules, rank, visit, initOrder, path)
        invariant VisitsMore(old(visit), visit) && old(initOrder) <= initOrder
        invariant forall j :: 0 <= j < i && j in modules[index].deps ==> visit[j]
      {
        if i in modules[index].deps {
          OpenWithin(old(visit), visit);
          InitOrder(i, path, rank, acyclic);
        }
        i := i + 1;
      }
    }

    /** The last loop of finalize.  Every module enters the order at most once; on
        the first run and without cycles, every listed DLL comes after all listed
        DLLs it depends on, directly or not. */
    method InitAll(ghost rank: seq<nat>, ghost acyclic: bool)
      requires Valid() && OrderOk(modules, visit, initOrder, {})
      requires acyclic ==> Ranked(modules, rank) && Sorted(modules, rank, visit, initOrder, {})
      modifies this`visit, this`initOrder
      ensures Valid() && OrderOk(modules, visit, initOrder, {}) && (forall i :: 0 <= i < |visit| ==> visit[i])
      ensures acyclic ==> Sorted(modules, rank, visit, initOrder, {})
      ensures old(initOrder) <= initOrder
    {
      var i := 0;
      while i < |modules|
        invariant 0 <= i <= |modules| && Valid() && OrderOk(modules, visit, initOrder, {})
        invariant acyclic ==> Sorted(modules, rank, visit, initOrder, {})
        invariant old(initOrder) <= initOrder
        invariant forall j :: 0 <= j < i ==> visit[j]
      {
        InitOrder(i, {}, rank, acyclic);
        i := i + 1;
      }
    }
  }

  // ---- initialisation order --------------------------------------------------

  function Open(visit: seq<bool>): set<nat>
  {
    set i: nat | i < |visit| && !visit[i]
  }

  ghost predicate VisitsMore(a: seq<bool>, b: seq<bool>)
  {
    |a| == |b| && forall i :: 0 <= i < |a| && a[i] ==> b[i]
  }

  lemma OpenShrinks(a: seq<bool>, b: seq<bool>, i: nat)
    requires VisitsMore(a, b) && i < |a| && !a[i] && b[i]
    ensures Open(b) < Open(a)
  {
    assert i in Open(a) && i !in Open(b);
    assert forall j :: j in Open(b) ==> j in Open(a);
  }

  lemma OpenWithin(a: seq<bool>, b: seq<bool>)
    requires VisitsMore(a, b)
    ensures Open(b) <= Open(a)
  {
  }

  /** The order lists exactly the finished DLLs with an entry point, each once. */
  ghost predicate OrderOk(modules: seq<Module>, visit: seq<bool>, order: seq<nat>, path: set<nat>)
  {
    && |visit| == |modules|
    && (forall x :: x in path ==> x < |modules| && visit[x])
    && (forall a, b :: 0 <= a < b < |order| ==> order[a] != order[b])
    && (forall a ::
          0 <= a < |order| ==>
            order[a] < |modules| && visit[order[a]] && order[a] !in path && order[a] != 0 && modules[order[a]].entry)
    && (forall v: nat :: v < |modules| && visit[v] && v !in path && v != 0 && modules[v].entry ==> v in order)
  }

  /** A rank that falls along every dependency: the graph has no cycle. */
  ghost predicate Ranked(modules: seq<Module>, rank: seq<nat>)
  {
    |rank| == |modules| && forall i, d :: 0 <= i < |modules| && d in modules[i].deps ==> d < |modules| && rank[d] < rank[i]
  }

  /** j depends on d, directly or through other modules. */
  ghost predicate Reaches(modules: seq<Module>, rank: seq<nat>, j: nat, d: nat)
    requires Ranked(modules, rank) && j < |modules|
    decreases rank[j]
  {
    exists e :: e in modules[j].deps && e < |modules| && rank[e] < rank[j] && (e == d || Reaches(modules, rank, e, d))
  }

  /** Dependencies of finished modules are finished, and listed dependencies come first. */
  ghost predicate Sorted(modules: seq<Module>, rank: seq<nat>, visit: seq<bool>, order: seq<nat>, path: set<nat>)
    requires Ranked(modules, rank)
  {
    && |visit| == |modules|
    && (forall v: nat, d: nat {:trigger visit[v], d in modules[v].deps} ::
          v < |modules| && visit[v] && v !in path && d in modules[v].deps ==> d < |modules| && visit[d] && d !in path)
    && (forall a, d: nat {:trigger First(modules, rank, order, a, d)} :: First(modules, rank, order, a, d))
  }

  /** If the module listed at position a depends on d, and d is listed at all, it is listed before. */
  ghost predicate First(modules: seq<Module>, rank: seq<nat>, order: seq<nat>, a: int, d: nat)
    requires Ranked(modules, rank)
  {
    0 <= a < |order| && order[a] < |modules| && d < |modules| && d != 0 && modules[d].entry && Reaches(modules, rank, order[a], d) ==>
      d in order[..a]
  }

  /** Everything a finished module depends on is finished. */
  lemma {:induction false} ClosedDown(modules: seq<Module>, rank: seq<nat>, visit: seq<bool>, path: set<nat>, j: nat,
                                      d: nat)
    requires Ranked(modules, rank) && |visit| == |modules| && j < |modules| && Reaches(modules, rank, j, d)
    requires forall v: nat, e: nat {:trigger visit[v], e in modules[v].deps} ::
               v < |modules| && visit[v] && v !in path && e in modules[v].deps ==> e < |modules| && visit[e] && e !in path
    requires visit[j] && j !in path
    ensures d < |modules| && visit[d] && d !in path && rank[d] < rank[j]
    decreases rank[j]
  {
    var e :| e in modules[j].deps && e < |modules| && rank[e] < rank[j] && (e == d || Reaches(modules, rank, e, d));
    if e != d {
      ClosedDown(modules, rank, visit, path, e, d);
    }
  }

  /** Marking a module opens it without finishing it. */
  lemma EnterOk(modules: seq<Module>, visit: seq<bool>, order: seq<nat>, path: set<nat>, index: nat, rank: seq<nat>,
                acyclic: bool)
    requires OrderOk(modules, visit, order, path) && index < |modules| && !visit[index]
    requires acyclic ==> Ranked(modules, rank) && Sorted(modules, rank, visit, order, path)
    ensures OrderOk(modules, visit[index := true], order, path + {index}) && index !in path
    ensures acyclic ==> Sorted(modules, rank, visit[index := true], order, path + {index})
  {
  }

  function Listed(modules: seq<Module>, order: seq<nat>, index: nat): seq<nat>
    requires index < |modules|
  {
    if index != 0 && modules[index].entry then order + [index] else order
  }

  /** After its dependencies a module is finished, and may be listed last. */
  lemma LeaveOrder(modules: seq<Module>, visit: seq<bool>, order: seq<nat>, path: set<nat>, index: nat)
    requires OrderOk(modules, visit, order, path + {index}) && index < |modules| && index !in path
    ensures OrderOk(modules, visit, Listed(modules, order, index), path)
  {
    var order' := Listed(modules, order, index);
    assert index in path + {index};
    forall v: nat | v < |modules| && visit[v] && v !in path && v != 0 && modules[v].entry
      ensures v in order'
    {
      if v == index {
        assert order'[|order|] == v;
      } else {
        assert v !in path + {index};
        assert v in order;
      }
    }
  }

  lemma LeaveSorted(modules: seq<Module>, visit: seq<bool>, order: seq<nat>, path: set<nat>, index: nat, rank: seq<nat>)
    requires OrderOk(modules, visit, order, path + {index}) && index < |modules| && index !in path
    requires forall j :: j in modules[index].deps ==> j < |modules| && visit[j]
    requires Ranked(modules, rank) && Sorted(modules, rank, visit, order, path + {index})
    requires forall x :: x in path ==> rank[x] > rank[index]
    ensures Sorted(modules, rank, visit, Listed(modules, order, index), path)
  {
    var order', path' := Listed(modules, order, index), path + {index};
    assert visit[index] && index in path';
    forall v: nat, d: nat {:trigger visit[v], d in modules[v].deps} | v < |modules| && visit[v] && v !in path && d in modules[v].deps
      ensures d < |modules| && visit[d] && d !in path
    {
      assert v != index ==> v !in path' && d !in path';
      assert v == index ==> rank[d] < rank[index];
    }
    forall a, d: nat
      ensures First(modules, rank, order', a, d)
    {
      if 0 <= a < |order| {
        assert First(modules, rank, order, a, d);
        assert order'[..a] == order[..a];
      } else if a == |order| < |order'| && d < |modules| && d != 0 && modules[d].entry && Reaches(modules, rank, index, d) {
        ClosedDown(modules, rank, visit, path, index, d);
        assert d !in path';
        assert d in order && order'[..a] == order;
      }
    }
  }

  /** Nothing visited, nothing listed: the state before the first finalize. */
  lemma StartOk(modules: seq<Module>, visit: seq<bool>, rank: seq<nat>)
    requires |visit| == |modules| && forall i :: 0 <= i < |visit| ==> !visit[i]
    ensures OrderOk(modules, visit, [], {}) && (Ranked(modules, rank) ==> Sorted(modules, rank, visit, [], {}))
  {
  }

  /** Older modules are left alone. */
  ghost predicate Extends(a: seq<Module>, b: seq<Module>)
  {
    |a| <= |b| && forall i :: 0 <= i < |a| ==> b[i] == a[i]
  }

  /** Visit flags: the old ones, and new modules unvisited. */
  ghost predicate Unvisited(a: seq<bool>, b: seq<bool>)
  {
    |a| <= |b| && (forall i :: 0 <= i < |a| ==> b[i] == a[i]) && forall i :: |a| <= i < |b| ==> !b[i]
  }

  /** The import is a loaded module recorded as a dependency. */
  ghost predicate Resolved(modules: seq<Module>, index: nat, imp: Import)
  {
    && index < |modules| && imp.Dll? && GoodName(imp.name)
    && exists d :: d in modules[index].deps && d < |modules| && modules[d].name == Lowered(imp.name)
  }

  /** A module whose imports are all loaded and recorded. */
  ghost predicate Complete(files: map<string, File>, paths: seq<string>, modules: seq<Module>, i: nat)
  {
    && i < |modules| && i < |paths| && paths[i] in files && files[paths[i]].Image?
    && modules[i].size == files[paths[i]].size && modules[i].entry == files[paths[i]].entry
    && (files[paths[i]].hasImports ==>
          forall k :: 0 <= k < |files[paths[i]].imports| ==> Resolved(modules, i, files[paths[i]].imports[k]))
  }

  lemma AloneComplete(files: map<string, File>, paths: seq<string>, modules: seq<Module>, i: nat)
    requires i < |modules| && i < |paths| && paths[i] in files && files[paths[i]].Image? && !files[paths[i]].hasImports
    requires modules[i].size == files[paths[i]].size && modules[i].entry == files[paths[i]].entry
    ensures Complete(files, paths, modules, i)
  {
  }

  lemma LoadedComplete(files: map<string, File>, paths: seq<string>, modules: seq<Module>, i: nat)
    requires i < |modules| && i < |paths| && paths[i] in files && files[paths[i]].Image?
    requires modules[i].size == files[paths[i]].size && modules[i].entry == files[paths[i]].entry
    requires forall k :: 0 <= k < |files[paths[i]].imports| ==> Resolved(modules, i, files[paths[i]].imports[k])
    ensures Complete(files, paths, modules, i)
  {
  }

  /** Loading more modules, and recording one more dependency, completes no less. */
  lemma AllCompleteKept(files: map<string, File>, paths0: seq<string>, before: seq<Module>, paths: seq<string>,
                        mid: seq<Module>, after: seq<Module>, first: nat)
    requires Extends(before, mid) && paths0 <= paths && |after| == |mid| && |before| == |paths0|
    requires forall i :: 0 <= i < |mid| ==> after[i] == mid[i].(deps := after[i].deps) && mid[i].deps <= after[i].deps
    requires forall i :: first <= i < |before| ==> Complete(files, paths0, before, i)
    requires forall i :: |before| <= i < |mid| ==> Complete(files, paths, mid, i)
    ensures forall i :: first <= i < |after| ==> Complete(files, paths, after, i)
  {
    hide Complete;
    forall i | first <= i < |after|
      ensures Complete(files, paths, after, i)
    {
      if i < |before| {
        CompleteKept(files, paths0, before, paths, after, i);
      } else {
        CompleteKept(files, paths, mid, paths, after, i);
      }
    }
  }

  lemma CompleteKept(files: map<string, File>, paths0: seq<string>, before: seq<Module>, paths: seq<string>,
                     after: seq<Module>, i: nat)
    requires Complete(files, paths0, before, i) && paths0 <= paths && |before| <= |after|
    requires forall j ::
               0 <= j < |before| ==> after[j] == before[j].(deps := after[j].deps) && before[j].deps <= after[j].deps
    ensures Complete(files, paths, after, i)
  {
    var image := files[paths[i]];
    if image.hasImports {
      forall k | 0 <= k < |image.imports|
        ensures Resolved(after, i, image.imports[k])
      {
        assert Resolved(before, i, image.imports[k]);
        var d :| d in before[i].deps && d < |before| && before[d].name == Lowered(image.imports[k].name);
        assert d in after[i].deps && after[d].name == Lowered(image.imports[k].name);
      }
    }
  }

  lemma StillResolved(before: seq<Module>, index: nat, imports: seq<Import>, k: nat, dep: nat)
    requires index < |before| && k < |imports| && imports[k].Dll? && GoodName(imports[k].name)
    requires dep < |before| && before[dep].name == Lowered(imports[k].name)
    requires forall j :: 0 <= j < k ==> Resolved(before, index, imports[j])
    ensures var after := before[index := before[index].(deps := before[index].deps + {dep})];
            forall j :: 0 <= j < k + 1 ==> Resolved(after, index, imports[j])
  {
    var after := before[index := before[index].(deps := before[index].deps + {dep})];
    forall j | 0 <= j < k + 1
      ensures Resolved(after, index, imports[j])
    {
      if j < k {
        assert Resolved(before, index, imports[j]);
        var d :| d in before[index].deps && d < |before| && before[d].name == Lowered(imports[j].name);
        assert d in after[index].deps && after[d].name == Lowered(imports[j].name);
      } else {
        assert dep in after[index].deps && after[dep].name == Lowered(imports[j].name);
      }
    }
  }

  lemma ResolvedKept(before: seq<Module>, after: seq<Module>, index: nat, imports: seq<Import>, k: nat)
    requires Extends(before, after) && k <= |imports| && forall j :: 0 <= j < k ==> Resolved(before, index, imports[j])
    ensures forall j :: 0 <= j < k ==> Resolved(after, index, imports[j])
  {
    forall j | 0 <= j < k
      ensures Resolved(after, index, imports[j])
    {
      assert Resolved(before, index, imports[j]);
      var d :| d in before[index].deps && d < |before| && before[d].name == Lowered(imports[j].name);
      assert d in after[index].deps && after[d].name == Lowered(imports[j].name);
    }
  }

  lemma NotResolved(modules: seq<Module>, index: nat, imp: Import)
    requires imp.BadName?
    ensures !Resolved(modules, index, imp)
  {
  }

  /** A name that module_named could not produce is no dependency. */
  lemma Unresolved(before: seq<Module>, after: seq<Module>, index: nat, imp: Import)
    requires Extends(before, after) && index < |before| && imp.Dll? && DepsOk(before)
    requires GoodName(imp.name) ==> forall i :: 0 <= i < |before| ==> before[i].name != Lowered(imp.name)
    ensures !Resolved(after, index, imp)
  {
  }

  /** A module at a free place and with a new name. */
  lemma AddedOk(modules: seq<Module>, m: Module)
    requires AllPlaced(modules) && NamesOk(modules) && DepsOk(modules) && m.deps == {} && PlaceOk(m.base, m.size)
    requires forall i :: 0 <= i < |modules| ==> Disjoint(m.base, m.size, modules[i].base, modules[i].size)
    requires m.name != "" ==> forall i :: 0 <= i < |modules| ==> modules[i].name != m.name
    ensures AllPlaced(modules + [m]) && NamesOk(modules + [m]) && DepsOk(modules + [m])
  {
    var ms := modules + [m];
    forall i, j | 0 <= i < j < |ms|
      ensures Disjoint(ms[i].base, ms[i].size, ms[j].base, ms[j].size)
      ensures ms[i].name != "" ==> ms[i].name != ms[j].name
    {
    }
    forall i, d | 0 <= i < |ms| && d in ms[i].deps
      ensures d < |ms|
    {
    }
  }

  lemma DepAddedOk(modules: seq<Module>, index: nat, dep: nat)
    requires AllPlaced(modules) && NamesOk(modules) && DepsOk(modules) && index < |modules| && dep < |modules|
    ensures var ms := modules[index := modules[index].(deps := modules[index].deps + {dep})];
            AllPlaced(ms) && NamesOk(ms) && DepsOk(ms)
  {
  }

  // ---- a whole process ---------------------------------------------------------

  const DIRECTORY_MAX: nat := 128

  /** Where the file name of a path starts: after the last slash. */
  function NameStart(path: string): (d: nat)
    ensures d <= |path| && (d > 0 ==> path[d - 1] == '/') && '/' !in path[d..]
  {
    if path == "" then 0
    else if path[|path| - 1] == '/' then |path|
    else
      var d := NameStart(path[..|path| - 1]);
      assert path[d..] == path[..|path| - 1][d..] + [path[|path| - 1]];
      d
  }

  ghost predicate Acyclic(modules: seq<Module>)
  {
    exists rank :: Ranked(modules, rank)
  }

  /** Listed DLLs come after everything they depend on. */
  ghost predicate InOrder(p: PeProcess)
    reads p
  {
    exists rank :: Ranked(p.modules, rank) && Sorted(p.modules, rank, p.visit, p.initOrder, {})
  }

  ghost predicate AllComplete(p: PeProcess)
    reads p
  {
    forall i :: 0 <= i < |p.modules| ==> Complete(p.files, p.paths, p.modules, i)
  }

  /** An image with a first import is a Windows program. */
  predicate Windows(image: File)
    requires image.Image?
  {
    image.hasImports && image.imports != []
  }

  /** pe_load_process up to the mapping.  `links` is the outcome of resolving the start
      symbol, linking and mapping.  In a loaded process every import of every module is
      a loaded module, no two modules overlap or share a name, and each DLL with an
      entry point is initialised once - after all that it depends on, if there is no
      cycle. */
  method LoadProcess(files: map<string, File>, path: string, mapped: set<nat>, links: bool) returns (p: PeProcess?)
    ensures p != null ==>
              links && path in files && files[path].Image? && files[path].entry && NameStart(path) < DIRECTORY_MAX
    ensures p != null ==>
              && fresh(p) && p.Valid() && AllComplete(p) && p.files == files && |p.modules| > 0 && p.paths[0] == path
              && p.modules[0].entry
              && (files[path].hasImports && files[path].imports != [] ==>
                    exists i :: 0 <= i < |p.modules| && p.modules[i].name == "ntdll.dll")
              && OrderOk(p.modules, p.visit, p.initOrder, {}) && (forall i :: 0 <= i < |p.visit| ==> p.visit[i])
              && (Acyclic(p.modules) ==> InOrder(p))
  {
    var granted: bool := *;
    var d := NameStart(path);
    if !granted || d >= DIRECTORY_MAX {
      return null;
    }
    p := new PeProcess(files, path[..d], mapped);
    hide AllPlaced, NamesOk, DepsOk, Resolved, Fits, FreeAt, Sorted, OrderOk, Ranked;
    var main := p.Discover(path, path[d..]);
    if main != 0 {
      return null;
    }
    assert Complete(p.files, p.paths, p.modules, 0);
    if Windows(files[path]) {
      ghost var modules, paths := p.modules, p.paths;
      var nt := p.ModuleNamed("ntdll.dll");
      if nt < 0 {
        return null;
      }
      AllCompleteKept(files, paths, modules, p.paths, p.modules, p.modules, 0);
      Ntdll();
    }
    if !p.modules[0].entry || !links {
      return null;
    }
    ghost var acyclic := Acyclic(p.modules);
    ghost var rank: seq<nat> := if acyclic then var r :| Ranked(p.modules, r); r else [];
    StartOk(p.modules, p.visit, rank);
    p.InitAll(rank, acyclic);
  }

  lemma Ntdll()
    ensures Lowered("ntdll.dll") == "ntdll.dll"
  {
  }
}
