/** The three weighted ready queues of the scheduler (kernel/sched/sched.c).

    The kernel links tasks through their `next` fields; here a link is the index
    of a task slot, NIL where the kernel has a null pointer.  The linked form
    refines three sequences, and the weights bound how long a task can wait. */
module ReadyQueue {
  const MAX_TASKS: nat := 32
  const NIL: int := -1

  const LOW: nat := 0
  const NORMAL: nat := 1
  const HIGH: nat := 2
  const LEVELS: nat := 3
  const HIGH_BURST: nat := 4
  const LOW_FLOOR: nat := 64

  // ---- the simple form -------------------------------------------------------

  /** What the queues hold, front first, and the two counters of ready_pop. */
  datatype Ready = Ready(q: seq<seq<nat>>, streak: nat, starve: nat)

  /** The level ready_push uses for a priority. */
  function Clamp(prio: int): (p: nat)
    ensures p < LEVELS
  {
    if prio < LOW || prio > HIGH then NORMAL else prio
  }

  /** The level ready_pop serves; NIL when all queues are empty. */
  function Level(r: Ready): int
    requires |r.q| == LEVELS
  {
    if r.q[LOW] != [] && r.starve >= LOW_FLOOR then LOW
    else if r.q[HIGH] != [] && (r.streak < HIGH_BURST || r.q[NORMAL] == []) then HIGH
    else if r.q[NORMAL] != [] then NORMAL
    else if r.q[HIGH] != [] then HIGH
    else if r.q[LOW] != [] then LOW
    else NIL
  }

  lemma LevelServes(r: Ready)
    requires |r.q| == LEVELS
    ensures Level(r) == NIL <==> forall p :: 0 <= p < LEVELS ==> r.q[p] == []
    ensures Level(r) != NIL ==> 0 <= Level(r) < LEVELS && r.q[Level(r)] != []
  {
    if Level(r) == NIL {
      assert r.q[0] == [] && r.q[1] == [] && r.q[2] == [];
    }
  }

  function Popped(r: Ready): Ready
    requires |r.q| == LEVELS
  {
    var l := Level(r);
    if l == NIL then r.(streak := 0)
    else Ready(r.q[l := r.q[l][1..]],
               if l == HIGH then r.streak + 1 else 0,
               if l == LOW then 0 else if r.starve < LOW_FLOOR then r.starve + 1 else r.starve)
  }

  function Pushed(r: Ready, t: nat, p: nat): Ready
    requires |r.q| == LEVELS && p < LEVELS
  {
    r.(q := r.q[p := r.q[p] + [t]])
  }

  /** The sequence without the first occurrence of t. */
  function Without(s: seq<nat>, t: nat): seq<nat>
  {
    if s == [] then [] else if s[0] == t then s[1..] else [s[0]] + Without(s[1..], t)
  }

  lemma {:induction false} WithoutAt(s: seq<nat>, t: nat, i: nat)
    requires i < |s| && s[i] == t && t !in s[..i]
    ensures Without(s, t) == s[..i] + s[i + 1..]
  {
    if i > 0 {
      assert s[0] == s[..i][0];
      assert s[1..][..i - 1] == s[..i][1..];
      WithoutAt(s[1..], t, i - 1);
      assert s[..i] == [s[0]] + s[1..][..i - 1];
    }
  }

  /** Removing another task moves t forward by at most one place. */
  lemma {:induction false} WithoutKeeps(s: seq<nat>, u: nat, k: nat) returns (j: nat)
    requires k < |s| && s[k] != u
    ensures j <= k && j < |Without(s, u)| && Without(s, u)[j] == s[k]
  {
    if s[0] == u {
      j := k - 1;
    } else if k == 0 {
      j := 0;
    } else {
      j := WithoutKeeps(s[1..], u, k - 1);
      j := j + 1;
    }
  }

  lemma {:induction false} WithoutAbsent(s: seq<nat>, t: nat)
    requires t !in s
    ensures Without(s, t) == s
  {
    if s != [] {
      WithoutAbsent(s[1..], t);
    }
  }

  /** ready_remove takes the task out of the first queue that holds it. */
  function Removed(r: Ready, t: nat): Ready
    requires |r.q| == LEVELS
  {
    if t in r.q[LOW] then r.(q := r.q[LOW := Without(r.q[LOW], t)])
    else if t in r.q[NORMAL] then r.(q := r.q[NORMAL := Without(r.q[NORMAL], t)])
    else r.(q := r.q[HIGH := Without(r.q[HIGH], t)])
  }

  // ---- bounded waiting -------------------------------------------------------

  /** What can happen to the queues: one dispatch, or a change in between. */
  datatype Event = Dispatch | Push(task: nat, prio: int) | Remove(task: nat)

  function Apply(r: Ready, e: Event): (r': Ready)
    requires |r.q| == LEVELS
    ensures |r'.q| == LEVELS
  {
    match e
    case Dispatch => Popped(r)
    case Push(t, prio) => Pushed(r, t, Clamp(prio))
    case Remove(t) => Removed(r, t)
  }

  function Dispatches(es: seq<Event>): nat
  {
    if es == [] then 0 else (if es[0].Dispatch? then 1 else 0) + Dispatches(es[1..])
  }

  /** Does some dispatch of the run pick t? */
  predicate Runs(r: Ready, es: seq<Event>, t: nat)
    requires |r.q| == LEVELS
    decreases |es|
  {
    es != [] && ((es[0].Dispatch? && Level(r) != NIL && (LevelServes(r); r.q[Level(r)][0] == t)) || Runs(Apply(r, es[0]), es[1..], t))
  }

  /** Dispatches within which a non-empty level is served. */
  function Bound(p: nat): nat
    requires p < LEVELS
  {
    if p == HIGH then 3 else if p == NORMAL then 10 else 65
  }

  /** How many dispatches level p may still have to wait for its turn, whatever
      the other queues do meanwhile. */
  function Patience(p: nat, streak: nat, starve: nat): nat
    requires p < LEVELS
  {
    if p == HIGH then
      1 + (if streak >= HIGH_BURST then 1 else 0)
        + (if starve >= LOW_FLOOR || (streak >= HIGH_BURST && starve + 1 >= LOW_FLOOR) then 1 else 0)
    else if p == NORMAL then
      var left := if streak < HIGH_BURST then HIGH_BURST - streak else 0;
      left + 1 + (if starve + left >= LOW_FLOOR then 5 else 0)
    else
      1 + (if starve < LOW_FLOOR then LOW_FLOOR - starve else 0)
  }

  /** Every dispatch that serves another level uses up some patience. */
  lemma PatienceStep(r: Ready, p: nat)
    requires |r.q| == LEVELS && p < LEVELS && r.q[p] != []
    ensures Level(r) != NIL
    ensures 1 <= Patience(p, r.streak, r.starve) <= Bound(p)
    ensures Level(r) != p ==> Patience(p, Popped(r).streak, Popped(r).starve) < Patience(p, r.streak, r.starve)
  {
  }

  /** No dispatch of the run serves level p although it is never empty. */
  predicate Starved(r: Ready, es: seq<Event>, p: nat)
    requires |r.q| == LEVELS && p < LEVELS
    decreases |es|
  {
    es == [] || ((es[0].Dispatch? ==> r.q[p] != [] && Level(r) != p) && Starved(Apply(r, es[0]), es[1..], p))
  }

  /** A level that stays non-empty is served in any Bound(p) consecutive dispatches. */
  lemma {:induction false} ServedWithinBound(r: Ready, es: seq<Event>, p: nat)
    requires |r.q| == LEVELS && p < LEVELS && Starved(r, es, p)
    ensures Dispatches(es) < Patience(p, r.streak, r.starve)
    ensures Dispatches(es) < Bound(p)
    decreases |es|
  {
    if es != [] {
      ServedWithinBound(Apply(r, es[0]), es[1..], p);
      if es[0].Dispatch? {
        PatienceStep(r, p);
      }
    }
  }

  // ---- the bounds are exact ----------------------------------------------------

  function After(r: Ready, es: seq<Event>): (r': Ready)
    requires |r.q| == LEVELS
    ensures |r'.q| == LEVELS
    decreases |es|
  {
    if es == [] then r else After(Apply(r, es[0]), es[1..])
  }

  /** Only tasks that are not queued are pushed. */
  ghost predicate Legal(r: Ready, es: seq<Event>)
    requires |r.q| == LEVELS
    decreases |es|
  {
    es == [] || ((es[0].Push? ==> !Queued(r.q, es[0].task)) && Legal(Apply(r, es[0]), es[1..]))
  }

  lemma {:induction false} Concat(r: Ready, a: seq<Event>, b: seq<Event>, p: nat)
    requires |r.q| == LEVELS && p < LEVELS
    ensures Starved(r, a + b, p) <==> Starved(r, a, p) && Starved(After(r, a), b, p)
    ensures Legal(r, a + b) <==> Legal(r, a) && Legal(After(r, a), b)
    ensures Dispatches(a + b) == Dispatches(a) + Dispatches(b) && After(r, a + b) == After(After(r, a), b)
    decreases |a|
  {
    if a == [] {
      assert a + b == b;
    } else {
      assert (a + b)[1..] == a[1..] + b;
      Concat(Apply(r, a[0]), a[1..], b, p);
    }
  }

  /** HIGH is served n times, and the task that ran is always ready again. */
  function HighRun(r: Ready, n: nat): seq<Event>
    requires |r.q| == LEVELS
    decreases n
  {
    if n == 0 || r.q[HIGH] == [] then []
    else
      var t := r.q[HIGH][0];
      [Dispatch, Push(t, HIGH)] + HighRun(Apply(Apply(r, Dispatch), Push(t, HIGH)), n - 1)
  }

  /** One such round. */
  lemma HighRound(r: Ready, p: nat)
    requires |r.q| == LEVELS && p < HIGH && r.q[p] != [] && r.q[HIGH] != [] && Distinct(r.q)
    requires (p == NORMAL ==> r.streak < HIGH_BURST) && (p == LOW ==> r.q[NORMAL] == []) && r.starve < LOW_FLOOR
    ensures var t := r.q[HIGH][0];
            var r1 := Apply(r, Dispatch);
            var r2 := Apply(r1, Push(t, HIGH));
            && Level(r) == HIGH && !Queued(r1.q, t) && r1.q[p] == r.q[p]
            && Distinct(r2.q) && r2.q == r.q[HIGH := r.q[HIGH][1..] + [t]] && r2.streak == r.streak + 1
            && r2.starve == r.starve + 1
  {
    var t := r.q[HIGH][0];
    var r1 := Apply(r, Dispatch);
    OnlyIn(r.q, HIGH, 0);
    assert r.q[HIGH][..0] + r.q[HIGH][1..] == r.q[HIGH][1..];
    DistinctDrop(r.q, HIGH, 0);
    NotBefore(r.q[HIGH], 0);
    assert !Queued(r1.q, t);
    DistinctPush(r1.q, HIGH, t);
  }

  lemma {:induction false} HighServed(r: Ready, n: nat, p: nat)
    requires |r.q| == LEVELS && p < HIGH && r.q[p] != [] && r.q[HIGH] != [] && Distinct(r.q)
    requires (p == NORMAL ==> r.streak + n <= HIGH_BURST) && (p == LOW ==> r.q[NORMAL] == [])
    requires r.starve + n <= LOW_FLOOR
    ensures Starved(r, HighRun(r, n), p) && Legal(r, HighRun(r, n)) && Dispatches(HighRun(r, n)) == n
    ensures var r' := After(r, HighRun(r, n));
            && r'.q[LOW] == r.q[LOW] && r'.q[NORMAL] == r.q[NORMAL] && r'.q[HIGH] != [] && Distinct(r'.q)
            && r'.streak == r.streak + n && r'.starve == r.starve + n
    decreases n
  {
    if n > 0 {
      var t := r.q[HIGH][0];
      var r1 := Apply(r, Dispatch);
      var r2 := Apply(r1, Push(t, HIGH));
      HighRound(r, p);
      HighServed(r2, n - 1, p);
      var es := HighRun(r, n);
      assert es[0] == Dispatch && es[1..][0] == Push(t, HIGH) && es[1..][1..] == HighRun(r2, n - 1);
    }
  }

  lemma TightHigh() returns (r: Ready, es: seq<Event>)
    ensures |r.q| == LEVELS && Distinct(r.q) && Legal(r, es) && Starved(r, es, HIGH) && Dispatches(es) == 2
  {
    r := Ready([[0], [1], [2]], HIGH_BURST, LOW_FLOOR - 1);
    es := [Dispatch, Dispatch];
    var r1 := Ready([[0], [], [2]], 0, LOW_FLOOR);
    assert Level(r) == NORMAL && r.q[NORMAL][1..] == [];
    assert Apply(r, Dispatch) == r1 && Level(r1) == LOW;
    assert es[1..] == [Dispatch];
    AfterOne(r1, Dispatch, HIGH);
    assert [Dispatch][1..] == [];
    assert Starved(r1, [Dispatch], HIGH) && Legal(r1, [Dispatch]);
  }

  lemma TightNormal() returns (r: Ready, es: seq<Event>)
    ensures |r.q| == LEVELS && Distinct(r.q) && Legal(r, es) && Starved(r, es, NORMAL) && Dispatches(es) == 9
  {
    r := Ready([[0], [1], [2]], 0, LOW_FLOOR - 4);
    HighServed(r, 4, NORMAL);
    hide HighRun, After, Starved, Legal, Dispatches;
    var rest := PassLow(After(r, HighRun(r, 4)), 0);
    Concat(r, HighRun(r, 4), rest, NORMAL);
    es := HighRun(r, 4) + rest;
  }

  lemma TightLow() returns (r: Ready, es: seq<Event>)
    ensures |r.q| == LEVELS && Distinct(r.q) && Legal(r, es) && Starved(r, es, LOW) && Dispatches(es) == LOW_FLOOR
  {
    r := Ready([[0], [], [1]], 0, 0);
    HighServed(r, LOW_FLOOR, LOW);
    es := HighRun(r, LOW_FLOOR);
  }

  /** The three bounds are exact: a level can be passed over Bound(p) - 1 times, by
      tasks that are queued once each. */
  lemma BoundIsTight(p: nat) returns (r: Ready, es: seq<Event>)
    requires p < LEVELS
    ensures |r.q| == LEVELS && Distinct(r.q) && Legal(r, es) && Starved(r, es, p) && Dispatches(es) == Bound(p) - 1
  {
    hide Distinct, Legal, Starved, Dispatches;
    if p == HIGH {
      r, es := TightHigh();
    } else if p == NORMAL {
      r, es := TightNormal();
    } else {
      r, es := TightLow();
    }
  }

  lemma AfterOne(r: Ready, e: Event, p: nat)
    requires |r.q| == LEVELS && p < LEVELS
    ensures After(r, [e]) == Apply(r, e) && After(r, []) == r && Starved(r, [], p) && Legal(r, [])
    ensures !e.Dispatch? ==>
              Starved(r, [e], p) && Dispatches([e]) == 0 && (Legal(r, [e]) <==> (e.Push? ==> !Queued(r.q, e.task)))
  {
    assert [e][1..] == [];
  }

  /** LOW has waited long enough: NORMAL is passed over by LOW and then by four of HIGH. */
  lemma PassLow(r: Ready, x: nat) returns (es: seq<Event>)
    requires |r.q| == LEVELS && r.q[NORMAL] != [] && r.q[HIGH] != [] && Distinct(r.q) && r.starve >= LOW_FLOOR
    requires r.q[LOW] == [] ==> !Queued(r.q, x)
    ensures Starved(r, es, NORMAL) && Legal(r, es) && Dispatches(es) == 5
  {
    var first := if r.q[LOW] == [] then [Push(x, LOW)] else [];
    var r1 := After(r, first);
    AfterOne(r, Push(x, LOW), NORMAL);
    if r.q[LOW] == [] {
      DistinctPush(r.q, LOW, x);
    }
    var r2 := Apply(r1, Dispatch);
    assert Level(r1) == LOW;
    assert r1.q[LOW][..0] + r1.q[LOW][1..] == r1.q[LOW][1..];
    DistinctDrop(r1.q, LOW, 0);
    HighServed(r2, 4, NORMAL);
    var rest := [Dispatch] + HighRun(r2, 4);
    assert rest[1..] == HighRun(r2, 4);
    Concat(r, first, rest, NORMAL);
    es := first + rest;
  }

  function Unused(s: seq<nat>): (x: nat)
    ensures forall i :: 0 <= i < |s| ==> s[i] < x
  {
    if s == [] then 0 else
      var y := Unused(s[..|s| - 1]);
      if s[|s| - 1] < y then y else s[|s| - 1] + 1
  }

  lemma FreshTask(q: seq<seq<nat>>) returns (x: nat)
    requires |q| == LEVELS
    ensures !Queued(q, x) && forall p, t :: 0 <= p < LEVELS && t in q[p] ==> t < x
  {
    x := Unused(q[0]) + Unused(q[1]) + Unused(q[2]);
  }

  /** How many dispatches of HIGH are left before NORMAL has its turn. */
  function Left(streak: nat): nat
  {
    if streak < HIGH_BURST then HIGH_BURST - streak else 0
  }

  /** The comment promises that a ready NORMAL task waits at most four dispatches.  That
      is so exactly when the LOW floor cannot fall due meanwhile. */
  lemma NormalWaitsFour(r: Ready)
    requires |r.q| == LEVELS && r.q[NORMAL] != [] && Distinct(r.q)
    ensures (forall es :: Legal(r, es) && Starved(r, es, NORMAL) ==> Dispatches(es) <= HIGH_BURST) <==>
            r.starve + Left(r.streak) < LOW_FLOOR
  {
    if r.starve + Left(r.streak) < LOW_FLOOR {
      forall es | Legal(r, es) && Starved(r, es, NORMAL)
        ensures Dispatches(es) <= HIGH_BURST
      {
        ServedWithinBound(r, es, NORMAL);
      }
    } else {
      var es := PassedOver(r);
      assert Legal(r, es) && Starved(r, es, NORMAL) && Dispatches(es) > HIGH_BURST;
    }
  }

  lemma PassedOver(r: Ready) returns (es: seq<Event>)
    requires |r.q| == LEVELS && r.q[NORMAL] != [] && Distinct(r.q) && r.starve + Left(r.streak) >= LOW_FLOOR
    ensures Legal(r, es) && Starved(r, es, NORMAL) && Dispatches(es) > HIGH_BURST
  {
    var x := FreshTask(r.q);
    var first := if r.q[HIGH] == [] then [Push(x, HIGH)] else [];
    var r1 := After(r, first);
    AfterOne(r, Push(x, HIGH), NORMAL);
    if r.q[HIGH] == [] {
      DistinctPush(r.q, HIGH, x);
    }
    var k := if r.starve >= LOW_FLOOR then 0 else LOW_FLOOR - r.starve;
    var second := if k == 0 then [] else HighRun(r1, k);
    if k > 0 {
      HighServed(r1, k, NORMAL);
    }
    var r2 := After(r1, second);
    AfterOne(r1, Dispatch, NORMAL);
    var y := FreshTask(r2.q);
    var third := PassLow(r2, y);
    Concat(r1, second, third, NORMAL);
    Concat(r, first, second + third, NORMAL);
    es := first + (second + third);
  }

  /** One event seen from a waiting task: it is picked, or it moves no further
      back, and a dispatch brings its turn nearer. */
  lemma WaitStep(r: Ready, e: Event, p: nat, k: nat) returns (j: nat)
    requires |r.q| == LEVELS && p < LEVELS && k < |r.q[p]| && e != Remove(r.q[p][k])
    requires !(e.Dispatch? && Level(r) == p && k == 0)
    ensures j <= k && j < |Apply(r, e).q[p]| && Apply(r, e).q[p][j] == r.q[p][k]
    ensures Bound(p) * j + Patience(p, Apply(r, e).streak, Apply(r, e).starve) + (if e.Dispatch? then 1 else 0)
         <= Bound(p) * k + Patience(p, r.streak, r.starve)
  {
    match e
    case Dispatch =>
      PatienceStep(r, p);
      if Level(r) == p {
        j := k - 1;
        assert Bound(p) * j + Bound(p) == Bound(p) * k;
        assert Patience(p, Popped(r).streak, Popped(r).starve) <= Bound(p);
      } else {
        j := k;
      }
    case Push(t, prio) =>
      j := k;
    case Remove(t) =>
      j := k;
      if Apply(r, e).q[p] != r.q[p] {
        j := WithoutKeeps(r.q[p], t, k);
      }
      assert Bound(p) * j <= Bound(p) * k;
  }

  /** A task at position k of its queue is picked within Bound(p) * (k + 1)
      dispatches, whatever is pushed or removed (other than itself) meanwhile. */
  lemma {:induction false} BoundedWait(r: Ready, es: seq<Event>, p: nat, k: nat)
    requires |r.q| == LEVELS && p < LEVELS && k < |r.q[p]|
    requires Remove(r.q[p][k]) !in es
    requires Dispatches(es) >= Bound(p) * (k + 1)
    ensures Runs(r, es, r.q[p][k])
  {
    PatienceStep(r, p);
    assert Bound(p) * (k + 1) == Bound(p) * k + Bound(p);
    PatientWait(r, es, p, k);
  }

  lemma {:induction false} PatientWait(r: Ready, es: seq<Event>, p: nat, k: nat)
    requires |r.q| == LEVELS && p < LEVELS && k < |r.q[p]|
    requires Remove(r.q[p][k]) !in es
    requires Dispatches(es) >= Bound(p) * k + Patience(p, r.streak, r.starve)
    ensures Runs(r, es, r.q[p][k])
    decreases |es|
  {
    PatienceStep(r, p);
    assert es != [];
    if !(es[0].Dispatch? && Level(r) == p && k == 0) {
      var j := WaitStep(r, es[0], p, k);
      PatientWait(Apply(r, es[0]), es[1..], p, j);
    }
  }

  // ---- the linked form -------------------------------------------------------

  /** The list that starts at h, ends at t and runs through `next` is s. */
  ghost predicate Linked(s: seq<nat>, h: int, t: int, next: seq<int>)
  {
    && (forall i :: 0 <= i < |s| ==> s[i] < |next|)
    && (if s == [] then h == NIL && t == NIL
        else h == s[0] && t == s[|s| - 1] && next[t] == NIL)
    && (forall i {:trigger Follows(s, next, i)} :: Follows(s, next, i))
  }

  ghost predicate Follows(s: seq<nat>, next: seq<int>, i: int)
  {
    0 <= i < |s| - 1 && s[i] < |next| ==> next[s[i]] == s[i + 1]
  }

  /** No task is queued twice. */
  ghost predicate Distinct(q: seq<seq<nat>>)
  {
    && (forall p :: 0 <= p < |q| ==> NoDup(q[p]))
    && (forall p, p', t {:trigger t in q[p], t in q[p']} :: 0 <= p < |q| && 0 <= p' < |q| && t in q[p] && t in q[p'] ==> p == p')
  }

  ghost predicate NoDup(s: seq<nat>)
  {
    forall i, j :: 0 <= i < |s| && 0 <= j < |s| && s[i] == s[j] ==> i == j
  }

  ghost predicate Queued(q: seq<seq<nat>>, t: nat)
  {
    exists p :: 0 <= p < |q| && t in q[p]
  }

  /** A list none of whose tasks is touched stays linked. */
  lemma LinkedFrame(s: seq<nat>, h: int, t: int, next: seq<int>, u: nat, v: int)
    requires Linked(s, h, t, next) && u < |next| && u !in s
    ensures Linked(s, h, t, next[u := v])
  {
    var n' := next[u := v];
    forall i
      ensures Follows(s, n', i)
    {
      assert Follows(s, next, i);
    }
  }

  lemma LinkedPush(s: seq<nat>, h: int, t: int, next: seq<int>, u: nat)
    requires Linked(s, h, t, next) && u < |next| && u !in s
    ensures s == [] ==> Linked([u], u, u, next[u := NIL])
    ensures s != [] ==> 0 <= t < |next| && Linked(s + [u], h, u, next[u := NIL][t := u]) && t in s
  {
    if s != [] {
      var s', n' := s + [u], next[u := NIL][t := u];
      forall i
        ensures Follows(s', n', i)
      {
        assert Follows(s, next, i);
      }
    }
  }

  /** The front of a list goes. */
  lemma LinkedPop(s: seq<nat>, h: int, t: int, next: seq<int>)
    requires Linked(s, h, t, next) && NoDup(s) && s != []
    ensures 0 <= h < |next|
    ensures Linked(s[1..], next[h], if next[h] == NIL then NIL else t, next[h := NIL])
  {
    assert Follows(s, next, 0);
    var s', n' := s[1..], next[h := NIL];
    forall i
      ensures Follows(s', n', i)
    {
      assert Follows(s, next, i + 1);
    }
  }

  /** Element i goes: its predecessor is linked to its successor. */
  lemma LinkedRemove(s: seq<nat>, h: int, t: int, next: seq<int>, i: nat)
    requires Linked(s, h, t, next) && NoDup(s) && i < |s|
    ensures var u, prev := s[i], (if i == 0 then NIL else s[i - 1]);
            var next' := if i == 0 then next else next[prev := next[u]];
            Linked(s[..i] + s[i + 1..], if i == 0 then next[u] else h, if t == u then prev else t, next'[u := NIL])
  {
    var s', u := s[..i] + s[i + 1..], s[i];
    var next' := (if i == 0 then next else next[s[i - 1] := next[u]])[u := NIL];
    assert Follows(s, next, i - 1) && Follows(s, next, i);
    forall j
      ensures Follows(s', next', j)
    {
      assert Follows(s, next, j) && Follows(s, next, j + 1);
    }
  }

  lemma DistinctPush(q: seq<seq<nat>>, p: nat, t: nat)
    requires Distinct(q) && p < |q| && !Queued(q, t)
    ensures Distinct(q[p := q[p] + [t]])
  {
    var q' := q[p := q[p] + [t]];
    assert t !in q[p];
    forall a, b, u {:trigger u in q'[a], u in q'[b]} | 0 <= a < |q'| && 0 <= b < |q'| && u in q'[a] && u in q'[b]
      ensures a == b
    {
      assert u != t ==> u in q[a] && u in q[b];
      assert t !in q[a] && t !in q[b];
    }
  }

  /** Dropping elements keeps the queues distinct. */
  lemma DistinctDrop(q: seq<seq<nat>>, p: nat, i: nat)
    requires Distinct(q) && p < |q| && i < |q[p]|
    ensures Distinct(q[p := q[p][..i] + q[p][i + 1..]])
  {
    var q' := q[p := q[p][..i] + q[p][i + 1..]];
    forall a, b, u {:trigger u in q'[a], u in q'[b]} | 0 <= a < |q'| && 0 <= b < |q'| && u in q'[a] && u in q'[b]
      ensures a == b
    {
      assert u in q[a] && u in q[b];
    }
  }

  lemma InRange(s: seq<nat>, h: int, t: int, next: seq<int>)
    requires Linked(s, h, t, next)
    ensures forall i :: 0 <= i < |s| ==> s[i] < |next|
  {
  }

  lemma NotBefore(s: seq<nat>, i: nat)
    requires NoDup(s) && i < |s|
    ensures s[i] !in s[..i] && s[i] !in s[i + 1..]
  {
  }

  lemma EmptyHeads(q: seq<seq<nat>>, head: seq<int>, tail: seq<int>, next: seq<int>)
    requires |head| == |tail| == |q| && forall p :: 0 <= p < |q| ==> Linked(q[p], head[p], tail[p], next)
    ensures forall p ::
              0 <= p < |q| ==> if q[p] == [] then head[p] == NIL else head[p] == q[p][0] && 0 <= head[p] < |next|
  {
  }

  lemma OnlyIn(q: seq<seq<nat>>, p: nat, i: nat)
    requires Distinct(q) && p < |q| && i < |q[p]|
    ensures forall r :: 0 <= r < |q| && r != p ==> q[p][i] !in q[r]
    ensures NoDup(q[p])
  {
    assert q[p][i] in q[p];
  }

  class ReadyQueues {
    var head: seq<int>
    var tail: seq<int>
    var next: seq<int>
    var streak: nat
    var starve: nat
    ghost var q: seq<seq<nat>>

    ghost predicate Valid()
      reads this
    {
      && |head| == |tail| == |q| == LEVELS && |next| == MAX_TASKS
      && (forall p :: 0 <= p < LEVELS ==> Linked(q[p], head[p], tail[p], next))
      && Distinct(q)
    }

    ghost function State(): Ready
      reads this
    {
      Ready(q, streak, starve)
    }

    constructor ()
      ensures Valid() && State() == Ready([[], [], []], 0, 0)
    {
      head, tail, next := [NIL, NIL, NIL], [NIL, NIL, NIL], seq(MAX_TASKS, _ => NIL);
      streak, starve := 0, 0;
      q := [[], [], []];
    }

    /** ready_push, without the reschedule note. */
    method Push(t: nat, prio: int)
      requires Valid() && t < MAX_TASKS && !Queued(q, t)
      modifies this
      ensures Valid() && State() == Pushed(old(State()), t, Clamp(prio))
    {
      var p := Clamp(prio);
      DistinctPush(q, p, t);
      assert t !in q[p];
      LinkedPush(q[p], head[p], tail[p], next, t);
      ghost var n0 := next;
      next := next[t := NIL];
      if tail[p] == NIL {
        head, tail := head[p := t], tail[p := t];
      } else {
        next := next[tail[p] := t];
        tail := tail[p := t];
      }
      forall r | 0 <= r < LEVELS && r != p
        ensures Linked(q[r], head[r], tail[r], next)
      {
        assert t !in q[r];
        LinkedFrame(q[r], head[r], tail[r], n0, t, NIL);
        if q[p] != [] {
          assert old(tail)[p] in q[p];
          LinkedFrame(q[r], head[r], tail[r], n0[t := NIL], old(tail)[p], t);
        }
      }
      q := q[p := q[p] + [t]];
    }

    /** ready_any */
    method Any() returns (any: bool)
      requires Valid()
      ensures any <==> exists p :: 0 <= p < LEVELS && q[p] != []
    {
      var p := 0;
      while p < LEVELS
        invariant 0 <= p <= LEVELS
        invariant forall r :: 0 <= r < p ==> q[r] == []
      {
        if head[p] != NIL {
          return true;
        }
        p := p + 1;
      }
      any := false;
    }

    /** The choice ready_pop makes from the list heads. */
    method ChooseLevel() returns (level: int)
      requires Valid()
      ensures level == Level(State())
      ensures level != NIL ==> 0 <= level < LEVELS && q[level] != []
    {
      EmptyHeads(q, head, tail, next);
      level := NIL;
      if head[LOW] != NIL && starve >= LOW_FLOOR {
        level := LOW;
      } else if head[HIGH] != NIL && (streak < HIGH_BURST || head[NORMAL] == NIL) {
        level := HIGH;
      } else if head[NORMAL] != NIL {
        level := NORMAL;
      } else if head[HIGH] != NIL {
        level := HIGH;
      } else if head[LOW] != NIL {
        level := LOW;
      }
    }

    /** ready_pop, without the idle fallback. */
    method Pop() returns (t: int)
      requires Valid()
      modifies this
      ensures Valid() && State() == Popped(old(State()))
      ensures Level(old(State())) == NIL ==> t == NIL
      ensures Level(old(State())) != NIL ==> old(q)[Level(old(State()))] != [] && t == old(q)[Level(old(State()))][0]
    {
      hide NoDup, Distinct, Linked;
      var level := ChooseLevel();
      if level < 0 {
        streak := 0;
        return NIL;
      }
      if level == HIGH {
        streak := streak + 1;
      } else {
        streak := 0;
      }
      if level == LOW {
        starve := 0;
      } else if starve < LOW_FLOOR {
        starve := starve + 1;
      }
      t := TakeHead(level);
    }

    /** Unlink the front of a non-empty queue. */
    method TakeHead(level: nat) returns (t: nat)
      requires Valid() && level < LEVELS && q[level] != []
      modifies this`head, this`tail, this`next, this`q
      ensures Valid() && t == old(q)[level][0] && q == old(q)[level := old(q)[level][1..]]
    {
      hide NoDup, Distinct, Linked;
      EmptyHeads(q, head, tail, next);
      OnlyIn(q, level, 0);
      LinkedPop(q[level], head[level], tail[level], next);
      DistinctDrop(q, level, 0);
      t := head[level];
      forall r | 0 <= r < LEVELS && r != level
        ensures Linked(q[r], head[r], tail[r], next[t := NIL])
      {
        LinkedFrame(q[r], head[r], tail[r], next, t, NIL);
      }
      head := head[level := next[t]];
      if head[level] == NIL {
        tail := tail[level := NIL];
      }
      next := next[t := NIL];
      assert q[level][..0] + q[level][0 + 1..] == q[level][1..];
      q := q[level := q[level][1..]];
    }

    /** The inner loop of ready_remove: the list cell before `target` in queue p. */
    method FindIn(p: nat, target: nat) returns (found: bool, previous: int, ghost i: nat)
      requires Valid() && p < LEVELS
      ensures found <==> target in q[p]
      ensures found ==> i < |q[p]| && q[p][i] == target && previous == if i == 0 then NIL else q[p][i - 1]
    {
      previous, i := NIL, 0;
      var task := head[p];
      while task != NIL
        invariant i <= |q[p]| && task == if i < |q[p]| then q[p][i] else NIL
        invariant previous == if i == 0 then NIL else q[p][i - 1]
        invariant target !in q[p][..i]
        decreases |q[p]| - i
      {
        if task == target {
          return true, previous, i;
        }
        previous := task;
        assert Follows(q[p], next, i);
        task := next[task];
        i := i + 1;
      }
      found := false;
      assert q[p][..i] == q[p];
    }

    /** ready_remove */
    method Remove(target: nat) returns (found: bool)
      requires Valid() && target < MAX_TASKS
      modifies this
      ensures Valid() && State() == Removed(old(State()), target)
      ensures found <==> Queued(old(q), target)
      ensures !Queued(q, target)
    {
      var p := 0;
      while p < LEVELS
        invariant 0 <= p <= LEVELS && unchanged(this)
        invariant forall r :: 0 <= r < p ==> target !in q[r]
      {
        ghost var i;
        var previous;
        found, previous, i := FindIn(p, target);
        if found {
          Unlink(p, target, previous, i);
          return;
        }
        p := p + 1;
      }
      WithoutAbsent(q[HIGH], target);
      found := false;
    }

    /** Take cell i of queue p, which is `task`, out of its list. */
    method Unlink(p: nat, task: nat, previous: int, ghost i: nat)
      requires Valid() && p < LEVELS && i < |q[p]| && q[p][i] == task
      requires previous == if i == 0 then NIL else q[p][i - 1]
      modifies this
      ensures Valid() && State() == Removed(old(State()), task) && !Queued(q, task)
    {
      hide NoDup, Distinct, Linked;
      ghost var n0, s := next, q[p];
      InRange(q[p], head[p], tail[p], next);
      OnlyIn(q, p, i);
      if i > 0 {
        OnlyIn(q, p, i - 1);
      }
      NotBefore(s, i);
      LinkedRemove(s, head[p], tail[p], next, i);
      DistinctDrop(q, p, i);
      WithoutAt(s, task, i);
      if previous != NIL {
        next := next[previous := next[task]];
      } else {
        head := head[p := next[task]];
      }
      if tail[p] == task {
        tail := tail[p := previous];
      }
      ghost var n1 := next;
      next := next[task := NIL];
      forall r | 0 <= r < LEVELS && r != p
        ensures Linked(q[r], head[r], tail[r], next)
      {
        if i > 0 {
          LinkedFrame(q[r], head[r], tail[r], n0, s[i - 1], n0[task]);
        }
        LinkedFrame(q[r], head[r], tail[r], n1, task, NIL);
      }
      q := q[p := s[..i] + s[i + 1..]];
    }
  }
}
