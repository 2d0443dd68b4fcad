/** Lexical path normalisation (kernel/arch/syscall.c): a relative or absolute
    path is folded component by component into a bounded buffer. */
module Paths {

  predicate Sep(c: char)
  {
    c == '/' || c == '\\'
  }

  // ---- the simple form -------------------------------------------------------

  /** Length of the leading run of non-separators. */
  function Word(s: string): (n: nat)
    ensures n <= |s| && (forall i :: 0 <= i < n ==> !Sep(s[i])) && (n < |s| ==> Sep(s[n]))
  {
    if s == "" || Sep(s[0]) then 0 else 1 + Word(s[1..])
  }

  /** The non-empty components of a path. */
  function Parts(s: string): seq<string>
    decreases |s|
  {
    if s == "" then [] else if Sep(s[0]) then Parts(s[1..]) else [s[..Word(s)]] + Parts(s[Word(s)..])
  }

  /** One component against the stack: "." stays, ".." pops, root absorbs. */
  function Step(stack: seq<string>, c: string): seq<string>
  {
    if c == "" || c == "." then stack
    else if c == ".." then (if stack == [] then [] else stack[..|stack| - 1])
    else stack + [c]
  }

  function Fold(stack: seq<string>, parts: seq<string>): seq<string>
    decreases |parts|
  {
    if parts == [] then stack else Fold(Step(stack, parts[0]), parts[1..])
  }

  function Join(stack: seq<string>): string
  {
    if stack == [] then "" else Join(stack[..|stack| - 1]) + "/" + stack[|stack| - 1]
  }

  /** The absolute path of a stack. */
  function Render(stack: seq<string>): string
  {
    if stack == [] then "/" else Join(stack)
  }

  /** Every intermediate path leaves room for the terminator. */
  predicate Fits(stack: seq<string>, parts: seq<string>, max: nat)
    decreases |parts|
  {
    parts == [] || (|Render(Step(stack, parts[0]))| < max && Fits(Step(stack, parts[0]), parts[1..], max))
  }

  /** Components of a normal path. */
  predicate GoodPart(c: string)
  {
    c != "" && c != "." && c != ".." && forall i :: 0 <= i < |c| ==> !Sep(c[i])
  }

  predicate Normal(stack: seq<string>)
  {
    forall i :: 0 <= i < |stack| ==> GoodPart(stack[i])
  }

  lemma {:induction false} PartsOk(s: string)
    ensures forall i ::
              0 <= i < |Parts(s)| ==> Parts(s)[i] != "" && forall k :: 0 <= k < |Parts(s)[i]| ==> !Sep(Parts(s)[i][k])
    decreases |s|
  {
    if s != "" {
      if Sep(s[0]) {
        PartsOk(s[1..]);
      } else {
        PartsOk(s[Word(s)..]);
      }
    }
  }

  lemma {:induction false} FoldNormal(stack: seq<string>, parts: seq<string>)
    requires Normal(stack)
    requires forall i :: 0 <= i < |parts| ==> parts[i] != "" && forall k :: 0 <= k < |parts[i]| ==> !Sep(parts[i][k])
    ensures Normal(Fold(stack, parts))
    decreases |parts|
  {
    if parts != [] {
      FoldNormal(Step(stack, parts[0]), parts[1..]);
    }
  }

  lemma {:induction false} JoinLength(stack: seq<string>)
    requires Normal(stack)
    ensures |Join(stack)| >= 2 * |stack|
  {
    if stack != [] {
      JoinLength(stack[..|stack| - 1]);
    }
  }

  // ---- a normal path is its own normal form ----------------------------------

  lemma {:induction false} WordAll(c: string, rest: string)
    requires (forall i :: 0 <= i < |c| ==> !Sep(c[i])) && (rest == "" || Sep(rest[0]))
    ensures Word(c + rest) == |c|
    decreases |c|
  {
    if c != "" {
      assert (c + rest)[1..] == c[1..] + rest;
      WordAll(c[1..], rest);
    } else {
      assert c + rest == rest;
    }
  }

  lemma PartsWord(c: string, rest: string)
    requires c != "" && (forall i :: 0 <= i < |c| ==> !Sep(c[i])) && (rest == "" || Sep(rest[0]))
    ensures Parts(c + rest) == [c] + Parts(rest)
  {
    var s := c + rest;
    WordAll(c, rest);
    assert s[0] == c[0] && s[..|c|] == c && s[|c|..] == rest;
  }

  lemma PartsSlash(s: string)
    ensures Parts("/" + s) == Parts(s)
  {
    assert ("/" + s)[1..] == s;
  }

  lemma JoinLast(stack: seq<string>, rest: string)
    requires stack != []
    ensures Join(stack) + rest == Join(stack[..|stack| - 1]) + ("/" + (stack[|stack| - 1] + rest))
  {
    Regrouped(Join(stack[..|stack| - 1]), "/", stack[|stack| - 1], rest);
  }

  lemma Regrouped(a: string, b: string, c: string, d: string)
    ensures a + b + c + d == a + (b + (c + d))
  {
  }

  lemma Regroup(stack: seq<string>, parts: seq<string>)
    requires stack != []
    ensures stack[..|stack| - 1] + ([stack[|stack| - 1]] + parts) == stack + parts
  {
  }

  /** Splitting undoes joining. */
  lemma {:induction false} PartsJoin(stack: seq<string>, rest: string)
    requires Normal(stack) && (rest == "" || Sep(rest[0]))
    ensures Parts(Join(stack) + rest) == stack + Parts(rest)
    decreases |stack|
  {
    if stack == [] {
      assert Join(stack) + rest == rest;
      assert stack + Parts(rest) == Parts(rest);
    } else {
      hide Parts, Join;
      var init, c := stack[..|stack| - 1], stack[|stack| - 1];
      JoinLast(stack, rest);
      PartsJoin(init, "/" + (c + rest));
      PartsSlash(c + rest);
      assert GoodPart(c);
      PartsWord(c, rest);
      Regroup(stack, Parts(rest));
    }
  }

  lemma PartsRender(stack: seq<string>)
    requires Normal(stack)
    ensures Parts(Render(stack)) == stack
  {
    if stack == [] {
      assert "/"[1..] == "";
    } else {
      PartsJoin(stack, "");
      assert Join(stack) + "" == Join(stack);
      assert stack + Parts("") == stack;
    }
  }

  /** The normal path of a stack determines the stack. */
  lemma RenderUnique(a: seq<string>, b: seq<string>)
    requires Normal(a) && Normal(b) && Render(a) == Render(b)
    ensures a == b
  {
    PartsRender(a);
    PartsRender(b);
  }

  lemma {:induction false} FoldSame(stack: seq<string>, more: seq<string>, max: nat)
    requires Normal(stack) && Normal(more) && |Render(stack + more)| < max
    ensures Fold(stack, more) == stack + more && Fits(stack, more, max)
    decreases |more|
  {
    if more == [] {
      assert stack + more == stack;
    } else {
      assert GoodPart(more[0]);
      var next := stack + [more[0]];
      assert next + more[1..] == stack + more;
      RenderShorter(next, more[1..]);
      FoldSame(next, more[1..], max);
    }
  }

  lemma {:induction false} RenderShorter(stack: seq<string>, more: seq<string>)
    requires stack != []
    ensures |Render(stack)| <= |Render(stack + more)|
    decreases |more|
  {
    if more == [] {
      assert stack + more == stack;
    } else {
      var init := more[..|more| - 1];
      assert (stack + more)[..|stack + more| - 1] == stack + init;
      RenderShorter(stack, init);
    }
  }

  /** Resolving the result again gives the same path, whatever the base. */
  lemma ResolveTwice(stack: seq<string>, max: nat)
    requires Normal(stack) && |Render(stack)| < max
    ensures Fold([], Parts(Render(stack))) == stack && Fits([], Parts(Render(stack)), max)
  {
    hide Parts, Render, Fold, Fits;
    PartsRender(stack);
    assert [] + stack == stack;
    FoldSame([], stack, max);
  }

  // ---- the buffer ------------------------------------------------------------

  /** The buffer holds the path of the stack as a terminated string. */
  ghost predicate Holds(out: array<char>, len: nat, stack: seq<string>)
    reads out
  {
    len < out.Length && out[..len] == Render(stack) && out[len] == '\0'
  }

  lemma RootLength(stack: seq<string>)
    requires Normal(stack)
    ensures |Render(stack)| <= 1 <==> stack == []
    ensures |Render(stack)| >= 1
  {
    JoinLength(stack);
  }

  /** Where the last component starts. */
  lemma LastSlash(stack: seq<string>)
    requires Normal(stack) && stack != []
    ensures var init, r := stack[..|stack| - 1], Render(stack);
            var p := |Join(init)|;
            && p < |r| && r[p] == '/' && r[..p] == Join(init) && (p == 0 <==> init == [])
            && (forall k :: p < k < |r| ==> r[k] != '/') && (p == 0 ==> r[..1] == "/")
  {
    var init, c := stack[..|stack| - 1], stack[|stack| - 1];
    JoinLength(init);
    assert GoodPart(c);
    var r := Join(init) + "/" + c;
    forall k | |Join(init)| < k < |r|
      ensures r[k] != '/'
    {
      assert r[k] == c[k - |Join(init)| - 1];
    }
  }

  /** path_append_component: one folding step in the buffer; it fails exactly when
      the longer path does not fit. */
  method AppendComponent(out: array<char>, len: nat, c: string, ghost stack: seq<string>) returns (ok: bool, len': nat)
    requires out.Length >= 2 && Holds(out, len, stack) && Normal(stack) && forall i :: 0 <= i < |c| ==> !Sep(c[i])
    modifies out
    ensures ok <==> |Render(Step(stack, c))| < out.Length
    ensures ok ==> Holds(out, len', Step(stack, c)) && Normal(Step(stack, c))
  {
    RootLength(stack);
    len' := len;
    if |c| == 0 || (|c| == 1 && c[0] == '.') {
      assert c == "" || c == ".";
      return true, len;
    }
    if |c| == 2 && c[0] == '.' && c[1] == '.' {
      assert c == "..";
      if len <= 1 {
        out[0], out[1] := '/', '\0';
        return true, 1;
      }
      len' := DropLast(out, len, stack);
      return true, len';
    }
    assert c != "" && c != "." && c != "..";
    assert Step(stack, c) == stack + [c] && (stack + [c])[..|stack|] == stack;
    assert Normal(stack + [c]) by {
      assert GoodPart(c);
    }
    ok, len' := Push(out, len, c, stack);
  }

  /** The ".." branch below the root. */
  method DropLast(out: array<char>, len: nat, ghost stack: seq<string>) returns (l: nat)
    requires Holds(out, len, stack) && Normal(stack) && stack != [] && len > 1
    modifies out
    ensures Holds(out, l, stack[..|stack| - 1])
  {
    LastSlash(stack);
    ghost var r, p := Render(stack), |Join(stack[..|stack| - 1])|;
    assert forall k :: 0 <= k < len ==> out[k] == r[k];
    l := len;
    while l > 1 && out[l - 1] != '/'
      invariant p + 1 <= l <= len && (l > p + 1 ==> out[l - 1] != '/')
    {
      l := l - 1;
    }
    if l > 1 {
      l := l - 1;
    }
    out[l] := '\0';
    assert out[..l] == r[..l];
  }

  /** The branch that adds a component. */
  method Push(out: array<char>, len: nat, c: string, ghost stack: seq<string>) returns (ok: bool, l: nat)
    requires out.Length >= 2 && Holds(out, len, stack) && Normal(stack) && GoodPart(c)
    modifies out
    ensures ok <==> |Render(stack + [c])| < out.Length
    ensures ok ==> Holds(out, l, stack + [c])
  {
    RootLength(stack);
    assert (stack + [c])[..|stack|] == stack;
    ghost var r := Render(stack + [c]);
    l := len;
    assert r == Join(stack) + "/" + c;
    assert len == |Render(stack)| && (stack == [] <==> len <= 1);
    if l > 1 {
      if l + 1 >= out.Length {
        return false, l;
      }
      out[l] := '/';
      l := l + 1;
    }
    if l + |c| >= out.Length {
      return false, l;
    }
    ghost var pre := out[..l];
    assert pre == Join(stack) + "/";
    var i := 0;
    while i < |c|
      invariant 0 <= i <= |c| && l + |c| - i < out.Length && l == |pre| + i
      invariant out[..l] == pre + c[..i]
    {
      out[l] := c[i];
      l := l + 1;
      i := i + 1;
    }
    out[l] := '\0';
    assert c[..i] == c;
    ok := true;
  }

  /** What resolve_path_from copies of the base: as much as fits, without an error. */
  function Cut(base: string, max: nat): string
  {
    if |base| < max then base else if max == 0 then "" else base[..max - 1]
  }

  predicate Absolute(path: string)
  {
    path != "" && path[0] == '/'
  }

  /** resolve_path_from.  `stack0` is the stack of the path the buffer starts with:
      the root for an absolute path or without a base, else what was copied of the
      base.  The result is the fold of the components over that stack, and failure
      means exactly that some intermediate path did not fit. */
  method Resolve(hasBase: bool, base: string, path: string, out: array<char>,
                 ghost stack0: seq<string>) returns (ok: bool, len: nat)
    requires Normal(stack0)
    requires if hasBase && !Absolute(path) && Cut(base, out.Length) != "" then Cut(base, out.Length) == Render(stack0)
        else stack0 == []
    modifies out
    ensures ok <==> out.Length >= 2 && Fits(stack0, Parts(path), out.Length)
    ensures ok ==> Holds(out, len, Fold(stack0, Parts(path))) && Normal(Fold(stack0, Parts(path)))
  {
    len := 0;
    if out.Length < 2 {
      return false, 0;
    }
    out[0], out[1] := '/', '\0';
    len := 1;
    if (path == "" || path[0] != '/') && hasBase {
      len := CopyBase(base, out);
      if len == 0 {
        out[0], out[1] := '/', '\0';
        len := 1;
      }
    }
    ghost var stack := stack0;
    assert Holds(out, len, stack);
    var p := 0;
    assert path[0..] == path;
    while p < |path|
      invariant 0 <= p <= |path| && Holds(out, len, stack) && Normal(stack)
      invariant Fold(stack0, Parts(path)) == Fold(stack, Parts(path[p..]))
      invariant Fits(stack0, Parts(path), out.Length) <==> Fits(stack, Parts(path[p..]), out.Length)
    {
      var start, end := NextComponent(path, p);
      var c := path[start..end];
      StepComponent(path, p, start, end, stack, out.Length);
      ok, len := AppendComponent(out, len, c, stack);
      if !ok {
        return false, len;
      }
      stack := Step(stack, c);
      p := end;
    }
    assert path[p..] == "";
    ok := true;
  }

  /** Copy as much of the base as fits. */
  method CopyBase(base: string, out: array<char>) returns (len: nat)
    requires out.Length >= 2
    modifies out
    ensures len < out.Length && out[..len] == Cut(base, out.Length) && out[len] == '\0'
  {
    len := 0;
    while len < out.Length - 1 && len < |base|
      invariant 0 <= len <= |base| && len <= out.Length - 1 && out[..len] == base[..len]
    {
      out[len] := base[len];
      len := len + 1;
    }
    out[len] := '\0';
  }

  /** The scanning loops of resolve_path_from: skip separators, then take a component. */
  method NextComponent(path: string, p: nat) returns (start: nat, end: nat)
    requires p < |path|
    ensures p <= start <= end <= |path| && p < end
    ensures (forall i :: p <= i < start ==> Sep(path[i])) && (forall i :: start <= i < end ==> !Sep(path[i]))
    ensures end < |path| ==> Sep(path[end])
    ensures start < |path| ==> start < end
  {
    start := p;
    while start < |path| && (path[start] == '/' || path[start] == '\\')
      invariant p <= start <= |path| && forall i :: p <= i < start ==> Sep(path[i])
    {
      start := start + 1;
    }
    end := start;
    while end < |path| && path[end] != '/' && path[end] != '\\'
      invariant start <= end <= |path| && forall i :: start <= i < end ==> !Sep(path[i])
    {
      end := end + 1;
    }
  }

  lemma {:induction false} SkipSeps(path: string, p: nat, start: nat)
    requires p <= start <= |path| && forall i :: p <= i < start ==> Sep(path[i])
    ensures Parts(path[p..]) == Parts(path[start..])
    decreases start - p
  {
    if p < start {
      assert path[p..][1..] == path[p + 1..];
      SkipSeps(path, p + 1, start);
    }
  }

  lemma FoldFirst(stack: seq<string>, c: string, parts: seq<string>, max: nat)
    ensures Fold(stack, [c] + parts) == Fold(Step(stack, c), parts)
    ensures Fits(stack, [c] + parts, max) <==> |Render(Step(stack, c))| < max && Fits(Step(stack, c), parts, max)
  {
    hide Render, Step;
    assert ([c] + parts)[1..] == parts;
  }

  /** One round of the loop is one component of the split. */
  lemma StepComponent(path: string, p: nat, start: nat, end: nat, stack: seq<string>, max: nat)
    requires p <= start <= end <= |path| && (forall i :: p <= i < start ==> Sep(path[i]))
    requires (forall i :: start <= i < end ==> !Sep(path[i]))
    requires (end < |path| ==> Sep(path[end])) && (start < |path| ==> start < end) && |Render(stack)| < max
    ensures var c := path[start..end];
            && Fold(stack, Parts(path[p..])) == Fold(Step(stack, c), Parts(path[end..]))
            && (Fits(stack, Parts(path[p..]), max) <==> |Render(Step(stack, c))| < max && Fits(Step(stack, c), Parts(path[end..]), max))
  {
    hide Parts, Render, Fold, Fits;
    SkipSeps(path, p, start);
    var c, rest := path[start..end], path[end..];
    assert path[start..] == c + rest;
    if start < |path| {
      PartsWord(c, rest);
      FoldFirst(stack, c, Parts(rest), max);
    } else {
      assert c == "" && path[start..] == rest;
    }
  }

  // ---- when it fails -----------------------------------------------------------

  lemma {:induction false} FitsResult(stack: seq<string>, parts: seq<string>, max: nat)
    requires Fits(stack, parts, max) && |Render(stack)| < max
    ensures |Render(Fold(stack, parts))| < max
    decreases |parts|
  {
    if parts != [] {
      FitsResult(Step(stack, parts[0]), parts[1..], max);
    }
  }

  /** The comment says that resolving fails only when the result does not fit.  For a
      path without ".." that is so ... */
  lemma {:induction false} FailsOnResult(stack: seq<string>, parts: seq<string>, max: nat)
    requires Normal(stack) && |Render(stack)| < max
    requires (forall i :: 0 <= i < |parts| ==> parts[i] != ".." && parts[i] != "" && NoSep(parts[i]))
    ensures Fits(stack, parts, max) <==> |Render(Fold(stack, parts))| < max
    decreases |parts|
  {
    if Fits(stack, parts, max) {
      FitsResult(stack, parts, max);
    }
    if parts != [] {
      var next := Step(stack, parts[0]);
      FoldGrows(next, parts[1..]);
      if |Render(next)| < max {
        assert Normal(next) by {
          assert parts[0] != "." ==> GoodPart(parts[0]);
        }
        FailsOnResult(next, parts[1..], max);
      }
    }
  }

  predicate NoSep(c: string)
  {
    forall k :: 0 <= k < |c| ==> !Sep(c[k])
  }

  lemma {:induction false} FoldGrows(stack: seq<string>, parts: seq<string>)
    requires forall i :: 0 <= i < |parts| ==> parts[i] != ".."
    ensures |Render(stack)| <= |Render(Fold(stack, parts))| || stack == []
    decreases |parts|
  {
    if parts != [] {
      var next := Step(stack, parts[0]);
      FoldGrows(next, parts[1..]);
      if stack != [] && next != stack {
        assert next[..|stack|] == stack;
        RenderShorter(stack, [parts[0]]);
      }
    }
  }

  /** ... and otherwise it can fail although the result fits: one long name and "..". */
  lemma FailsInBetween(name: string)
    requires GoodPart(name) && |name| == 248
    ensures !Fits(["usr", "lib"], [name, ".."], CWD_MAX) && Fold(["usr", "lib"], [name, ".."]) == ["usr", "lib"]
    ensures |Render(["usr", "lib"])| < CWD_MAX && |name + "/.."| < CWD_MAX
  {
    var stack := ["usr", "lib", name];
    assert ["usr"][..0] == [] && ["usr", "lib"][..1] == ["usr"] && stack[..2] == ["usr", "lib"];
    assert Join(["usr"]) == "/usr" && Join(["usr", "lib"]) == "/usr/lib";
    assert Join(stack) == "/usr/lib" + "/" + name;
    assert Step(["usr", "lib"], name) == stack && Step(stack, "..") == ["usr", "lib"];
    assert [name, ".."][1..] == [".."] && [".."][1..] == [];
    assert Fold(["usr", "lib"], [name, ".."]) == Fold(stack, [".."]) == Fold(["usr", "lib"], []);
  }

  // ---- working directories and directory descriptors ---------------------------

  const CWD_MAX: nat := 256

  /** An absolute normal path that fits its buffer. */
  predicate GoodPath(p: string)
  {
    Normal(Parts(p)) && p == Render(Parts(p)) && |p| < CWD_MAX
  }

  datatype Answer = Path(path: string) | NotFound | BadDescriptor | NotDirectory | TooLong

  /** The directory a path starts from. */
  function Start(cwd: string, dirs: map<nat, string>, dirfd: Dir, path: string): string
    requires dirfd.Fd? && !Absolute(path) ==> dirfd.fd in dirs
  {
    if Absolute(path) then "/" else if dirfd.Cwd? then cwd else dirs[dirfd.fd]
  }

  datatype Dir = Cwd | Fd(fd: nat)

  lemma GoodStart(p: string)
    requires GoodPath(p)
    ensures p != "" && Cut(p, CWD_MAX) == p
  {
    RootLength(Parts(p));
  }

  lemma Root()
    ensures Parts("/") == [] && GoodPath("/")
  {
    assert "/"[1..] == "";
  }

  /** struct task_files, as far as paths go: the working directory and the path of
      every directory descriptor, each in a buffer of CWD_MAX bytes. */
  class Files {
    var cwd: string
    var dirs: map<nat, string>

    ghost predicate Valid()
      reads this
    {
      GoodPath(cwd) && forall d :: d in dirs ==> GoodPath(dirs[d])
    }

    /** task_set_cwd_root */
    constructor ()
      ensures Valid() && cwd == "/" && dirs == map[]
    {
      Root();
      cwd, dirs := "/", map[];
    }

    /** task_inherit_cwd: the copying loop never stops early. */
    constructor Inherit(parent: Files)
      requires parent.Valid()
      ensures Valid() && cwd == parent.cwd && dirs == map[]
    {
      GoodStart(parent.cwd);
      cwd, dirs := Cut(parent.cwd, CWD_MAX), map[];
    }

    /** resolve_user_path_at, for a path the program passes.  Whatever it answers is an
        absolute normal path that fits, and is the start folded with the components;
        nothing is ever cut off. */
    method ResolveAt(dirfd: Dir, path: string, allowEmpty: bool) returns (r: Answer)
      requires Valid()
      ensures r.Path? ==>
                && (dirfd.Fd? && !Absolute(path) ==> dirfd.fd in dirs)
                && GoodPath(r.path) && Parts(r.path) == Fold(Parts(Start(cwd, dirs, dirfd, path)), Parts(path))
      ensures r == NotFound <==> path == "" && !allowEmpty
      ensures r == BadDescriptor <==>
              |path| < CWD_MAX && !(path == "" && !allowEmpty) && dirfd.Fd? && !Absolute(path) && dirfd.fd !in dirs
      ensures r == TooLong <==>
                || |path| >= CWD_MAX
                || (&& !(path == "" && !allowEmpty) && (dirfd.Fd? && !Absolute(path) ==> dirfd.fd in dirs)
                    && !Fits(Parts(Start(cwd, dirs, dirfd, path)), Parts(path), CWD_MAX))
    {
      if |path| >= CWD_MAX {
        return TooLong;
      }
      if path == "" && !allowEmpty {
        return NotFound;
      }
      var base := cwd;
      if (path == "" || path[0] != '/') && dirfd.Fd? {
        if dirfd.fd !in dirs {
          return BadDescriptor;
        }
        base := dirs[dirfd.fd];
      }
      Root();
      GoodStart(base);
      ghost var stack0 := Parts(Start(cwd, dirs, dirfd, path));
      hide Parts, Fold, Fits, Render, Normal;
      var out := new char[CWD_MAX];
      var ok, len := Resolve(true, base, path, out, stack0);
      if !ok {
        return TooLong;
      }
      PartsRender(Fold(stack0, Parts(path)));
      r := Path(out[..len]);
    }

    /** chdir_resolved: `isDir` is what the file system says about the path. */
    method Enter(resolved: string, isDir: bool) returns (ok: bool)
      requires Valid() && GoodPath(resolved)
      modifies this`cwd
      ensures Valid() && ok == isDir && cwd == if ok then resolved else old(cwd)
    {
      ok := isDir;
      if ok {
        GoodStart(resolved);
        cwd := Cut(resolved, CWD_MAX);
      }
    }

    /** task_fd_set_dir_path on a new descriptor. */
    method SetDirPath(fd: nat, resolved: string)
      requires Valid() && GoodPath(resolved)
      modifies this`dirs
      ensures Valid() && dirs == old(dirs)[fd := resolved]
    {
      GoodStart(resolved);
      dirs := dirs[fd := Cut(resolved, CWD_MAX)];
    }
  }

  datatype Op =
    | Chdir(path: string, isDir: bool)
    | Fchdir(fd: nat, isDir: bool)
    | OpenDir(dirfd: Dir, path: string, fd: nat)
    | DupDir(fd: nat, to: nat)
    | CloseDir(fd: nat)

  /** Any calls that change a working directory or a directory descriptor: both are
      always absolute normal paths that fit, so that every later path means what the
      simple form says. */
  method Run(f: Files, ops: seq<Op>)
    requires f.Valid()
    modifies f
    ensures f.Valid()
  {
    hide Parts, Fold, Fits, GoodPath;
    for k := 0 to |ops|
      invariant f.Valid()
    {
      match ops[k] {
        case Chdir(path, isDir) =>
          var r := f.ResolveAt(Cwd, path, false);
          if r.Path? {
            var _ := f.Enter(r.path, isDir);
          }
        case Fchdir(fd, isDir) =>
          if fd in f.dirs {
            var _ := f.Enter(f.dirs[fd], isDir);
          }
        case OpenDir(dirfd, path, fd) =>
          var r := f.ResolveAt(dirfd, path, false);
          if r.Path? {
            f.SetDirPath(fd, r.path);
          }
        case DupDir(fd, to) =>
          if fd in f.dirs {
            f.SetDirPath(to, f.dirs[fd]);
          }
        case CloseDir(fd) => f.dirs := f.dirs - {fd};
      }
    }
  }
}
