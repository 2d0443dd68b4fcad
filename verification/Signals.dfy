/** Signal frames (kernel/sched/signal.c): delivery builds a frame on the user
    stack, sigreturn unwinds it, and deliveries nest.

    User memory is a store of typed objects, each with its size.  Bit masks (the
    signal masks and the flags register) are sets of bit numbers. */
module Signals {
  import opened Reservations

  type Bits = set<nat>

  const RED_ZONE: nat := 128
  const FXSAVE_BYTES: nat := 512
  const UCONTEXT_BYTES: nat := 304
  const FRAME_BYTES: nat := 440
  const SIGKILL: nat := 9
  const SIGSEGV: nat := 11
  const SIGSTOP: nat := 19
  const UNBLOCKABLE: Bits := {SIGKILL, SIGSTOP}
  const SIG_DFL: nat := 0
  const SIG_IGN: nat := 1
  const FLAG_TF: nat := 8
  const FLAG_DF: nat := 10

  // ---- registers -------------------------------------------------------------

  /** What the kernel entry saved of ring 3 (struct syscall_frame). */
  datatype Regs = Regs(r8: nat, r9: nat, r10: nat, r11: nat, r12: nat, r13: nat, r14: nat, r15: nat,
                       rdi: nat, rsi: nat, rbp: nat, rbx: nat, rdx: nat, rax: nat, rcx: nat, rsp: nat,
                       rip: nat, rflags: Bits, cs: nat, ss: nat)

  /** struct linux_sigcontext */
  datatype Context = Context(r8: nat, r9: nat, r10: nat, r11: nat, r12: nat, r13: nat, r14: nat, r15: nat,
                             rdi: nat, rsi: nat, rbp: nat, rbx: nat, rdx: nat, rax: nat, rcx: nat, rsp: nat,
                             rip: nat, eflags: Bits, cs: nat, ss: nat, err: nat, trapno: nat, oldmask: Bits, fpstate: nat)

  /** REGS_TO_SC into a zeroed context. */
  function ToContext(f: Regs): Context
  {
    Context(f.r8, f.r9, f.r10, f.r11, f.r12, f.r13, f.r14, f.r15, f.rdi, f.rsi, f.rbp, f.rbx, f.rdx, f.rax, f.rcx,
            f.rsp,
            f.rip, f.rflags, f.cs % 0x1_0000, f.ss % 0x1_0000, 0, 0, {}, 0)
  }

  /** SC_TO_REGS: everything but the segment selectors comes from the context. */
  function ToRegs(f: Regs, sc: Context): Regs
  {
    Regs(sc.r8, sc.r9, sc.r10, sc.r11, sc.r12, sc.r13, sc.r14, sc.r15, sc.rdi, sc.rsi, sc.rbp, sc.rbx, sc.rdx, sc.rax,
         sc.rcx, sc.rsp,
         sc.rip, sc.eflags, f.cs, f.ss)
  }

  /** The FPU image; `mxcsr` is the 32-bit word at offset 24. */
  datatype Fx = Fx(mxcsr: bv32, rest: seq<bv8>)

  const MXCSR_VALID: bv32 := 0xFFFF

  function Sanitized(fx: Fx): Fx
  {
    fx.(mxcsr := fx.mxcsr & MXCSR_VALID)
  }

  lemma SanitizedValid(fx: Fx)
    ensures Sanitized(fx).mxcsr & !MXCSR_VALID == 0
    ensures Sanitized(fx) == fx <==> fx.mxcsr & !MXCSR_VALID == 0
  {
  }

  // ---- the user stack --------------------------------------------------------

  /** struct rt_sigframe, an FPU image, or anything else the program keeps. */
  datatype Object =
    | SigFrame(pretcode: nat, mcontext: Context, sigmask: Bits, signo: nat)
    | FxImage(fx: Fx)
    | Other(bytes: nat)

  function Size(o: Object): nat
  {
    match o
    case SigFrame(_, _, _, _) => FRAME_BYTES
    case FxImage(_) => FXSAVE_BYTES
    case Other(bytes) => bytes
  }

  type Store = map<nat, Object>

  /** Writing an object destroys whatever it overlaps. */
  function Write(store: Store, at: nat, o: Object): Store
  {
    (map a | a in store && (a + Size(store[a]) <= at || at + Size(o) <= a) :: store[a])[at := o]
  }

  function Sub(a: nat, b: nat): nat
    requires a < U64 && b <= U64
  {
    (a + U64 - b) % U64
  }

  function FxAt(rsp: nat): (fx: nat)
    requires rsp < U64
    ensures fx < U64
  {
    var x := Sub(Sub(rsp, RED_ZONE), FXSAVE_BYTES);
    x - x % 64
  }

  function FrameAt(rsp: nat): (frame: nat)
    requires rsp < U64
    ensures frame < U64
  {
    var x := Sub(FxAt(rsp), FRAME_BYTES);
    Sub(x - x % 16, 8)
  }

  lemma SubPlain(a: nat, b: nat)
    requires a < U64 && b <= U64
    ensures Sub(a, b) == if b <= a then a - b else a + U64 - b
  {
  }

  /** What uvm_buffer_ok has checked about a non-empty buffer. */
  predicate Checked(base: nat, bytes: nat)
  {
    USER_VA_MIN <= base && (base + bytes <= USER_VA_MAX || (USER_STACK_LOW <= base && base + bytes <= USER_STACK_TOP))
  }

  lemma Down64(x: nat)
    ensures (x - x % 64) % 64 == 0 && x - x % 64 <= x < x - x % 64 + 64
  {
  }

  lemma Down16(x: nat)
    ensures (x - x % 16) % 16 == 0 && x - x % 16 <= x < x - x % 16 + 16
    ensures x >= 16 ==> x - x % 16 >= 16 && (x - x % 16 - 8) % 16 == 8
  {
  }

  /** Where the FPU image goes, and that a wrapped address is very large. */
  lemma FxPlace(rsp: nat)
    requires rsp < U64
    ensures FxAt(rsp) % 64 == 0
    ensures if rsp >= RED_ZONE + FXSAVE_BYTES then rsp - RED_ZONE - FXSAVE_BYTES - 64 < FxAt(rsp) <= rsp - RED_ZONE - FXSAVE_BYTES
            else FxAt(rsp) > U64 - 1024
  {
    SubPlain(rsp, RED_ZONE);
    SubPlain(Sub(rsp, RED_ZONE), FXSAVE_BYTES);
    Down64(Sub(Sub(rsp, RED_ZONE), FXSAVE_BYTES));
  }

  lemma FramePlace(rsp: nat)
    requires rsp < U64
    ensures var fx := FxAt(rsp);
            if fx >= FRAME_BYTES + 16 then fx - FRAME_BYTES - 24 < FrameAt(rsp) <= fx - FRAME_BYTES - 8 && FrameAt(rsp) % 16 == 8
            else FrameAt(rsp) > U64 - 1024 || FrameAt(rsp) < 16
  {
    hide FxAt;
    var fx := FxAt(rsp);
    SubPlain(fx, FRAME_BYTES);
    var y := Sub(fx, FRAME_BYTES);
    Down16(y);
    SubPlain(y - y % 16, 8);
  }

  /** The layout below the red zone: frame, FPU image, both aligned as the ABI
      asks; an address that wrapped does not pass the buffer check. */
  lemma Geometry(rsp: nat)
    requires rsp < U64 && Checked(FrameAt(rsp), Sub(rsp, FrameAt(rsp)))
    ensures FrameAt(rsp) % 16 == 8 && FxAt(rsp) % 64 == 0
    ensures FrameAt(rsp) + FRAME_BYTES + 8 <= FxAt(rsp) && FxAt(rsp) + FXSAVE_BYTES + RED_ZONE <= rsp
    ensures USER_VA_MIN <= FrameAt(rsp)
    // no lower than the alignment asks for
    ensures rsp < FxAt(rsp) + FXSAVE_BYTES + RED_ZONE + 64 && FxAt(rsp) < FrameAt(rsp) + FRAME_BYTES + 24
  {
    FxPlace(rsp);
    FramePlace(rsp);
    SubPlain(rsp, FrameAt(rsp));
    hide FxAt, FrameAt, Sub;
  }

  /** Saved registers are 64 bits wide. */
  ghost predicate StoreOk(store: Store)
  {
    forall a :: a in store && store[a].SigFrame? ==> store[a].mcontext.rsp < U64
  }

  lemma WriteOk(store: Store, at: nat, o: Object)
    requires StoreOk(store) && (o.SigFrame? ==> o.mcontext.rsp < U64)
    ensures StoreOk(Write(store, at, o))
  {
  }

  // ---- live frames -----------------------------------------------------------

  /** What one delivery saved: the interrupted registers, FPU image and mask. */
  datatype Live = Live(regs: Regs, fx: Fx, mask: Bits)

  function Frame(l: Live): nat
    requires l.regs.rsp < U64
  {
    FrameAt(l.regs.rsp)
  }

  /** The frame and the FPU image lie below the saved stack pointer's red zone. */
  predicate Placed(rsp: nat)
  {
    && rsp < U64 && USER_VA_MIN <= FrameAt(rsp) && FrameAt(rsp) % 16 == 8 && FxAt(rsp) % 64 == 0
    && FrameAt(rsp) + FRAME_BYTES + 8 <= FxAt(rsp) < FrameAt(rsp) + FRAME_BYTES + 24
    && FxAt(rsp) + FXSAVE_BYTES + RED_ZONE <= rsp < FxAt(rsp) + FXSAVE_BYTES + RED_ZONE + 64
  }

  /** The saved state is in memory, where sigreturn will look for it. */
  ghost predicate Held(store: Store, l: Live)
  {
    && Placed(l.regs.rsp)
    && Frame(l) in store && store[Frame(l)].SigFrame?
    && store[Frame(l)].sigmask == l.mask && store[Frame(l)].mcontext.fpstate == FxAt(l.regs.rsp)
    && (forall f: Regs {:trigger ToRegs(f, store[Frame(l)].mcontext)} ::
          ToRegs(f, store[Frame(l)].mcontext) == l.regs.(cs := f.cs, ss := f.ss))
    && FxAt(l.regs.rsp) in store && store[FxAt(l.regs.rsp)] == FxImage(l.fx)
  }

  /** Each inner delivery happened on the stack below the outer frame (the outer
      handler may already have popped its return address). */
  ghost predicate Nested(live: seq<Live>)
  {
    && (forall i :: 0 <= i < |live| ==> Placed(live[i].regs.rsp) && live[i].mask !! UNBLOCKABLE)
    && (forall i, j :: 0 <= i < j < |live| ==> live[j].regs.rsp <= Frame(live[i]) + 8)
  }

  /** The frames that code running at `rsp` has not abandoned: a stack pointer
      above a frame has jumped out of its handler. */
  ghost function Below(live: seq<Live>, rsp: nat): (r: seq<Live>)
    requires forall i :: 0 <= i < |live| ==> live[i].regs.rsp < U64
    ensures |r| <= |live| && r == live[..|r|]
    ensures |r| > 0 ==> rsp <= Frame(r[|r| - 1]) + 8
    ensures |r| < |live| ==> rsp > Frame(live[|r|]) + 8
  {
    if |live| > 0 && rsp > Frame(live[|live| - 1]) + 8 then Below(live[..|live| - 1], rsp) else live
  }

  ghost predicate AllHeld(store: Store, live: seq<Live>)
  {
    forall i :: 0 <= i < |live| ==> Held(store, live[i])
  }

  lemma BelowOk(store: Store, live: seq<Live>, rsp: nat)
    requires Nested(live) && AllHeld(store, live)
    ensures Nested(Below(live, rsp)) && AllHeld(store, Below(live, rsp))
  {
  }

  /** Live frames never overlap. */
  lemma FramesDisjoint(live: seq<Live>, i: nat, j: nat)
    requires Nested(live) && i < j < |live|
    ensures FxAt(live[j].regs.rsp) + FXSAVE_BYTES <= Frame(live[i])
    ensures Frame(live[j]) + FRAME_BYTES <= FxAt(live[j].regs.rsp)
    ensures Frame(live[i]) + FRAME_BYTES <= FxAt(live[i].regs.rsp)
  {
  }

  /** Building a frame below all live ones leaves them intact. */
  lemma WriteKeeps(store: Store, l: Live, at: nat, o: Object)
    requires Held(store, l) && at + Size(o) <= Frame(l) && Size(o) > 0
    ensures Held(Write(store, at, o), l)
  {
    var store' := Write(store, at, o);
    assert store'[Frame(l)] == store[Frame(l)] && store'[FxAt(l.regs.rsp)] == store[FxAt(l.regs.rsp)];
  }

  lemma NewFrame(store: Store, rsp: nat, frame: Object, fx: Fx)
    requires Placed(rsp) && frame.SigFrame?
    ensures var store' := Write(Write(store, FrameAt(rsp), frame), FxAt(rsp), FxImage(fx));
            FrameAt(rsp) in store' && store'[FrameAt(rsp)] == frame && FxAt(rsp) in store' && store'[FxAt(rsp)] == FxImage(fx)
  {
  }

  /** Deliveries below the innermost frame are below all of them. */
  lemma BelowAll(live: seq<Live>, rsp: nat, i: nat)
    requires Nested(live) && i < |live| && rsp <= Frame(live[|live| - 1]) + 8
    ensures rsp <= Frame(live[i]) + 8
  {
    if i < |live| - 1 {
      assert live[|live| - 1].regs.rsp <= Frame(live[i]) + 8;
    }
  }

  /** All live frames survive the next delivery, which is Held itself. */
  lemma DeliverHolds(store: Store, live: seq<Live>, l: Live, frame: Object)
    requires Nested(live) && AllHeld(store, live) && Placed(l.regs.rsp) && l.mask !! UNBLOCKABLE
    requires |live| > 0 ==> l.regs.rsp <= Frame(live[|live| - 1]) + 8
    requires frame.SigFrame? && frame.sigmask == l.mask && frame.mcontext.fpstate == FxAt(l.regs.rsp)
    requires forall f: Regs {:trigger ToRegs(f, frame.mcontext)} ::
               ToRegs(f, frame.mcontext) == l.regs.(cs := f.cs, ss := f.ss)
    ensures var rsp := l.regs.rsp;
            var store' := Write(Write(store, FrameAt(rsp), frame), FxAt(rsp), FxImage(l.fx));
            Nested(live + [l]) && AllHeld(store', live + [l])
  {
    var rsp := l.regs.rsp;
    var store1 := Write(store, FrameAt(rsp), frame);
    var store' := Write(store1, FxAt(rsp), FxImage(l.fx));
    NewFrame(store, rsp, frame, l.fx);
    hide ToRegs, FrameAt, FxAt, Write;
    forall i | 0 <= i < |live|
      ensures Held(store', live[i]) && rsp <= Frame(live[i]) + 8
    {
      BelowAll(live, rsp, i);
      WriteKeeps(store, live[i], FrameAt(rsp), frame);
      WriteKeeps(store1, live[i], FxAt(rsp), FxImage(l.fx));
    }
    assert Held(store', l);
  }

  lemma PushHolds(store: Store, live: seq<Live>, l: Live, sc: Context, frame: Object)
    requires Nested(live) && AllHeld(store, live) && Placed(l.regs.rsp) && l.mask !! UNBLOCKABLE
    requires sc == ToContext(l.regs).(err := sc.err, trapno := sc.trapno)
    requires frame.SigFrame? && frame.sigmask == l.mask
    requires frame.mcontext == sc.(fpstate := FxAt(l.regs.rsp), oldmask := l.mask)
    ensures (forall i :: 0 <= i < |live| ==> live[i].regs.rsp < U64)
    ensures var rsp := l.regs.rsp;
            var store' := Write(Write(store, FrameAt(rsp), frame), FxAt(rsp), FxImage(l.fx));
            Nested(Below(live, rsp) + [l]) && AllHeld(store', Below(live, rsp) + [l])
  {
    BelowOk(store, live, l.regs.rsp);
    hide Nested, AllHeld, Below, Write, FxAt, FrameAt;
    DeliverHolds(store, Below(live, l.regs.rsp), l, frame);
  }

  // ---- the task --------------------------------------------------------------

  datatype Action = Action(handler: nat, restorer: nat, mask: Bits, hasRestorer: bool, nodefer: bool, resethand: bool)

  datatype Outcome = Nothing | Ignored | Terminated(sig: nat) | Handled(sig: nat)

  predicate DefaultIgnored(sig: nat)
  {
    sig in {17, 18, 19, 20, 21, 22, 23, 28}
  }

  predicate UserCode(va: nat)
  {
    USER_VA_MIN <= va < USER_VA_MAX
  }

  ghost predicate IsLowest(s: nat, ready: Bits)
  {
    s in ready && forall r :: r in ready ==> s <= r
  }

  /** A handler the kernel is willing to enter. */
  predicate Catches(act: Action)
  {
    && act.handler > 1
    && act.hasRestorer && USER_VA_MIN <= act.restorer < USER_VA_MAX && USER_VA_MIN <= act.handler < USER_VA_MAX
  }

  class Task {
    var regs: Regs
    var pending: Bits
    var blocked: Bits
    var actions: seq<Action>
    var userFx: Fx
    var store: Store
    ghost var live: seq<Live>

    ghost predicate Valid()
      reads this
    {
      && |actions| == 64 && regs.rsp < U64
      && blocked !! UNBLOCKABLE && (forall s :: s in pending ==> 1 <= s <= 64)
      && StoreOk(store) && Nested(live) && AllHeld(store, live)
    }

    constructor (regs: Regs, fx: Fx, store: Store)
      requires regs.rsp < U64 && StoreOk(store)
      ensures Valid() && blocked == {} && pending == {} && live == []
      ensures this.regs == regs && userFx == fx && this.store == store
      ensures forall i :: 0 <= i < 64 ==> actions[i] == Action(0, 0, {}, false, false, false)
    {
      this.regs, userFx, this.store := regs, fx, store;
      pending, blocked, live := {}, {}, [];
      actions := seq(64, _ => Action(SIG_DFL, 0, {}, false, false, false));
    }

    /** __builtin_ctzll: the lowest deliverable signal. */
    method Lowest(ready: Bits) returns (sig: nat)
      requires ready != {} && forall s :: s in ready ==> 1 <= s <= 64
      ensures sig in ready && forall s :: s in ready ==> sig <= s
    {
      sig := 1;
      while sig !in ready
        invariant 1 <= sig && forall s :: s in ready ==> sig <= s
        decreases 65 - sig
      {
        assert exists s :: s in ready;
        sig := sig + 1;
      }
    }

    /** deliver(), on a syscall or an interrupt return.  `bufferOk` is the answer
        of uvm_buffer_ok for the stack from the new frame up to rsp. */
    method Deliver(err: nat, trapno: nat, bufferOk: bool) returns (out: Outcome)
      requires Valid() && (bufferOk ==> Checked(FrameAt(regs.rsp), Sub(regs.rsp, FrameAt(regs.rsp))))
      modifies this
      ensures Valid() && userFx == old(userFx)
      ensures out == Nothing <==> old(pending) <= old(blocked)
      ensures pending <= old(pending) && (out == Nothing ==> pending == old(pending))
      ensures !out.Handled? ==>
                regs == old(regs) && blocked == old(blocked) && store == old(store) && live == old(live) && actions == old(actions)
      ensures forall s: nat {:trigger IsLowest(s, old(pending) - old(blocked))} ::
                IsLowest(s, old(pending) - old(blocked)) ==>
                var act := old(actions)[s - 1];
                && pending == old(pending) - {s}
                // 0 is SIG_DFL, 1 is SIG_IGN
                && (out == Ignored <==> act.handler == 1 || (act.handler == 0 && s in {17, 18, 19, 20, 21, 22, 23, 28}))
                && (out.Handled? <==> Catches(act) && FrameAt(old(regs).rsp) >= USER_VA_MIN && bufferOk)
                && (out.Terminated? ==> out.sig == if act.handler == 0 then s else 11)
      ensures out.Handled? ==>
                && IsLowest(out.sig, old(pending) - old(blocked))
                && live == Below(old(live), old(regs).rsp) + [Live(old(regs), userFx, old(blocked))]
                && Entered(old(actions)[out.sig - 1], old(regs), regs, out.sig)
                && blocked == (old(blocked) + old(actions)[out.sig - 1].mask
                               + (if old(actions)[out.sig - 1].nodefer then {} else {out.sig})) - {9, 19}
                && Rearmed(old(actions), actions, out.sig)
                && Built(old(store), store, old(regs), regs.rsp, old(actions)[out.sig - 1].restorer, out.sig, old(blocked),
                         userFx, err, trapno)
    {
      var ready := pending - blocked;
      if ready == {} {
        assert forall s :: s in pending && s !in blocked ==> s in ready;
        return Nothing;
      }
      var sig := Lowest(ready);
      pending := pending - {sig};
      var act := actions[sig - 1];
      if act.handler == SIG_IGN {
        return Ignored;
      }
      if act.handler == SIG_DFL {
        if DefaultIgnored(sig) {
          return Ignored;
        }
        return Terminated(sig);
      }
      if !act.hasRestorer || !UserCode(act.restorer) || !UserCode(act.handler) {
        return Terminated(SIGSEGV);
      }
      if FrameAt(regs.rsp) < USER_VA_MIN || !bufferOk {
        return Terminated(SIGSEGV);
      }
      Geometry(regs.rsp);
      PushFrame(sig, act, err, trapno);
      out := Handled(sig);
    }

    /** The part of deliver that writes the frame and redirects the return. */
    method PushFrame(sig: nat, act: Action, err: nat, trapno: nat)
      requires Valid() && 1 <= sig <= 64 && Placed(regs.rsp) && act == actions[sig - 1]
      modifies this`regs, this`blocked, this`actions, this`store, this`live
      ensures Valid() && live == Below(old(live), old(regs).rsp) + [Live(old(regs), userFx, old(blocked))]
      ensures Entered(act, old(regs), regs, sig)
      ensures blocked == (old(blocked) + act.mask + (if act.nodefer then {} else {sig})) - UNBLOCKABLE
      ensures Rearmed(old(actions), actions, sig)
      ensures Built(old(store), store, old(regs), regs.rsp, act.restorer, sig, old(blocked), userFx, err, trapno)
    {
      hide Built, Nested, AllHeld, Below, FxAt, FrameAt, StoreOk;
      var sc := ToContext(regs).(err := err, trapno := trapno);
      SaveFrame(sig, act, sc);
      var frameVa := FrameAt(regs.rsp);
      var mask := act.mask;
      if !act.nodefer {
        mask := mask + {sig};
      }
      blocked := (blocked + mask) - UNBLOCKABLE;
      if act.resethand {
        actions := actions[sig - 1 := act.(handler := SIG_DFL)];
      }
      sc := sc.(rip := act.handler, rsp := frameVa, rdi := sig, rsi := frameVa + 8 + UCONTEXT_BYTES, rdx := frameVa + 8,
                rax := 0,
                eflags := sc.eflags - {FLAG_DF, FLAG_TF});
      regs := ToRegs(regs, sc);
    }

    /** The frame and the FPU image go to user memory. */
    method SaveFrame(sig: nat, act: Action, sc: Context)
      requires Valid() && 1 <= sig <= 64 && Placed(regs.rsp) && sc == ToContext(regs).(err := sc.err, trapno := sc.trapno)
      modifies this`store, this`live
      ensures Valid() && live == Below(old(live), regs.rsp) + [Live(regs, userFx, blocked)]
      ensures Built(old(store), store, regs, FrameAt(regs.rsp), act.restorer, sig, blocked, userFx, sc.err, sc.trapno)
    {
      ghost var l := Live(regs, userFx, blocked);
      hide Built, Nested, AllHeld, Below, Write, FxAt, FrameAt, StoreOk;
      FrameBuilt(store, regs, act.restorer, sig, blocked, userFx, sc.err, sc.trapno);
      var fx, frameVa := FxAt(regs.rsp), FrameAt(regs.rsp);
      var frame := SigFrame(act.restorer, sc.(fpstate := fx, oldmask := blocked), blocked, sig);
      PushHolds(store, live, l, sc, frame);
      WriteOk(store, frameVa, frame);
      store := Write(store, frameVa, frame);
      WriteOk(store, fx, FxImage(userFx));
      store := Write(store, fx, FxImage(userFx));
      live := Below(live, regs.rsp) + [l];
    }

    /** signal_sigreturn.  `uc` and `fx` are what user memory holds at rsp and at
        the context's fpstate; ucOk and fxOk the answers of uvm_buffer_ok. */
    method SigReturn(uc: Ucontext, fx: Fx, ucOk: bool, fxOk: bool) returns (out: Outcome)
      requires Valid() && uc.mcontext.rsp < U64
      requires Reads(store, regs.rsp, uc) && ReadsFx(store, uc.mcontext.fpstate, fx)
      modifies this`regs, this`userFx, this`blocked, this`live
      ensures Valid() && pending == old(pending) && actions == old(actions)
      // coming back from the innermost handler restores what it interrupted
      ensures |old(live)| > 0 && old(regs).rsp == Frame(old(live)[|old(live)| - 1]) + 8 && ucOk && fxOk ==>
                var l := old(live)[|old(live)| - 1];
                && out == Nothing && regs == l.regs.(cs := old(regs).cs, ss := old(regs).ss)
                && userFx == Sanitized(l.fx) && blocked == l.mask && live == old(live)[..|old(live)| - 1]
      ensures live == old(live) || (|old(live)| > 0 && old(regs).rsp == Frame(old(live)[|old(live)| - 1]) + 8 && ucOk && fxOk)
      ensures out == if ucOk && (uc.mcontext.fpstate == 0 || (uc.mcontext.fpstate % 16 == 0 && fxOk)) then Nothing
          else Terminated(SIGSEGV)
      ensures out == Nothing ==> regs == ToRegs(old(regs), uc.mcontext)
      ensures userFx == if out == Nothing && uc.mcontext.fpstate != 0 then Sanitized(fx) else old(userFx)
      // whatever the frame says, the two signals stay unblocked
      ensures out == Nothing ==> blocked == uc.sigmask - UNBLOCKABLE
      ensures out == Nothing && uc.mcontext.fpstate != 0 ==> userFx.mxcsr & !MXCSR_VALID == 0
    {
      hide FrameAt, FxAt, ToRegs, Sanitized, Held, AllHeld, Nested, Reads, ReadsFx, Placed;
      if !ucOk {
        return Terminated(SIGSEGV);
      }
      PopNested(store, live);
      ghost var back := |live| > 0 && regs.rsp == Frame(live[|live| - 1]) + 8;
      if back {
        ReturnsTo(store, live[|live| - 1], regs, uc, fx);
      }
      RegsRsp(regs, uc.mcontext);
      regs := ToRegs(regs, uc.mcontext);
      if uc.mcontext.fpstate != 0 {
        if uc.mcontext.fpstate % 16 != 0 || !fxOk {
          return Terminated(SIGSEGV);
        }
        SanitizedValid(fx);
        userFx := Sanitized(fx);
      }
      blocked := uc.sigmask - UNBLOCKABLE;
      if back {
        live := live[..|live| - 1];
      }
      out := Nothing;
    }

    /** Whatever the program does between kernel entries.  The outermost `keep`
        frames are the ones it leaves alone and may still return to. */
    method Compute(regs': Regs, fx': Fx, store': Store, ghost keep: nat)
      requires Valid() && regs'.rsp < U64 && StoreOk(store') && keep <= |live|
      requires forall i :: 0 <= i < keep ==> Intact(store, store', live[i])
      modifies this`regs, this`userFx, this`store, this`live
      ensures Valid() && regs == regs' && userFx == fx' && store == store' && live == old(live)[..keep]
    {
      live := live[..keep];
      forall i | 0 <= i < |live|
        ensures Held(store', live[i])
      {
        assert Intact(store, store', live[i]) && Held(store, live[i]);
      }
      regs, userFx, store := regs', fx', store';
    }

    /** signal_sigprocmask with a mask given; `how` as in Linux. */
    method SigProcMask(how: nat, mask: Bits) returns (ok: bool, previous: Bits)
      requires Valid()
      modifies this`blocked
      ensures Valid() && previous == old(blocked) && (ok <==> how <= 2)
      ensures blocked == if how == 0 then (previous + mask) - UNBLOCKABLE else if how == 1 then previous - mask
                         else if how == 2 then mask - UNBLOCKABLE else previous
    {
      previous := blocked;
      var next: Bits;
      if how == 0 {
        next := previous + mask;
      } else if how == 1 {
        next := previous - mask;
      } else if how == 2 {
        next := mask;
      } else {
        return false, previous;
      }
      blocked := next - UNBLOCKABLE;
      ok := true;
    }

    /** signal_send to a loaded, live process: drop, kill at once, or leave pending. */
    method Send(sig: nat) returns (out: Outcome)
      requires Valid() && 1 <= sig <= 64
      modifies this`pending
      ensures Valid() && blocked == old(blocked)
      ensures var h := actions[sig - 1].handler;
              && (out == Ignored <==> sig != 9 && (h == 1 || (h == 0 && sig in {17, 18, 19, 20, 21, 22, 23, 28})))
              && (out == Terminated(sig) <==> sig == 9 || (out != Ignored && h == 0 && sig !in blocked))
      ensures pending == if out == Nothing then old(pending) + {sig} else old(pending)
      ensures out == Ignored || out == Terminated(sig) || out == Nothing
    {
      var act := actions[sig - 1];
      if sig != SIGKILL && Discarded(act, sig) {
        return Ignored;
      }
      if sig == SIGKILL || (act.handler == SIG_DFL && sig !in blocked) {
        return Terminated(sig);
      }
      pending := pending + {sig};
      out := Nothing;
    }
  }

  predicate Discarded(act: Action, sig: nat)
  {
    act.handler == SIG_IGN || (act.handler == SIG_DFL && DefaultIgnored(sig))
  }

  /** Only the action of the delivered signal may change: its handler goes back to the
      default (0) when SA_RESETHAND asks for it. */
  ghost predicate Rearmed(actions: seq<Action>, actions': seq<Action>, sig: nat)
  {
    && |actions'| == |actions|
    && forall i :: 0 <= i < |actions| ==>
         actions'[i] == if i == sig - 1 && actions[i].resethand then actions[i].(handler := 0) else actions[i]
  }

  /** What a delivery leaves on the stack: at the new stack pointer, as if the handler had
      been called, the return address and the frame with everything that was interrupted;
      above it the FPU image; both as high below the 128 bytes of the red zone as they
      can be.  Memory that neither overlaps is untouched. */
  ghost predicate Built(store: Store, store': Store, f: Regs, rsp: nat, restorer: nat, sig: nat, mask: Bits, fx: Fx,
                        err: nat, trapno: nat)
  {
    && rsp in store' && store'[rsp].SigFrame?
    && var at := store'[rsp].mcontext.fpstate;
       && store'[rsp] == SigFrame(restorer, Context(f.r8, f.r9, f.r10, f.r11, f.r12, f.r13, f.r14, f.r15, f.rdi, f.rsi, f.rbp,
                                                    f.rbx, f.rdx, f.rax, f.rcx, f.rsp, f.rip, f.rflags, f.cs % 0x1_0000,
                                                    f.ss % 0x1_0000, err, trapno, mask, at), mask, sig)
       && at in store' && store'[at] == FxImage(fx)
       && at % 64 == 0 && at + 512 + 128 <= f.rsp < at + 512 + 128 + 64
       && rsp % 16 == 8 && rsp + 440 + 8 <= at < rsp + 440 + 8 + 16
       && forall a :: a in store && Size(store[a]) > 0 && (a + Size(store[a]) <= rsp || rsp + 440 <= a) &&
                      (a + Size(store[a]) <= at || at + 512 <= a) ==>
            a in store' && store'[a] == store[a]
  }

  lemma FrameBuilt(store: Store, f: Regs, restorer: nat, sig: nat, mask: Bits, fx: Fx, err: nat, trapno: nat)
    requires Placed(f.rsp)
    ensures var sc := ToContext(f).(err := err, trapno := trapno);
            var frame := SigFrame(restorer, sc.(fpstate := FxAt(f.rsp), oldmask := mask), mask, sig);
            Built(store, Write(Write(store, FrameAt(f.rsp), frame), FxAt(f.rsp), FxImage(fx)), f, FrameAt(f.rsp), restorer, sig,
                  mask, fx, err, trapno)
  {
    hide FrameAt, FxAt;
    var sc := ToContext(f).(err := err, trapno := trapno);
    var frame := SigFrame(restorer, sc.(fpstate := FxAt(f.rsp), oldmask := mask), mask, sig);
    var store' := Write(Write(store, FrameAt(f.rsp), frame), FxAt(f.rsp), FxImage(fx));
    NewFrame(store, f.rsp, frame, fx);
  }

  /** The registers with which the handler starts. */
  predicate Entered(act: Action, before: Regs, after: Regs, sig: nat)
  {
    && before.rsp < U64
    && after == before.(rip := act.handler, rsp := FrameAt(before.rsp), rdi := sig,
                        rsi := FrameAt(before.rsp) + 8 + 304,
                        rdx := FrameAt(before.rsp) + 8, rax := 0, rflags := before.rflags - {8, 10})
  }

  /** struct linux_ucontext, as far as sigreturn looks at it. */
  datatype Ucontext = Ucontext(mcontext: Context, sigmask: Bits)

  /** The context read at rsp is that of the frame whose return address was just popped. */
  ghost predicate Reads(store: Store, rsp: nat, uc: Ucontext)
  {
    rsp >= 8 && rsp - 8 in store && store[rsp - 8].SigFrame? ==>
      uc == Ucontext(store[rsp - 8].mcontext, store[rsp - 8].sigmask)
  }

  ghost predicate ReadsFx(store: Store, at: nat, fx: Fx)
  {
    at in store && store[at].FxImage? ==> fx == store[at].fx
  }

  ghost predicate Intact(store: Store, store': Store, l: Live)
  {
    Held(store, l) ==>
      && Frame(l) in store' && store'[Frame(l)] == store[Frame(l)]
      && FxAt(l.regs.rsp) in store' && store'[FxAt(l.regs.rsp)] == store[FxAt(l.regs.rsp)]
  }

  lemma ReturnsTo(store: Store, l: Live, f: Regs, uc: Ucontext, fx: Fx)
    requires Held(store, l) && f.rsp == Frame(l) + 8 && Reads(store, f.rsp, uc)
    requires ReadsFx(store, uc.mcontext.fpstate, fx)
    ensures ToRegs(f, uc.mcontext) == l.regs.(cs := f.cs, ss := f.ss)
    ensures uc.sigmask == l.mask && uc.mcontext.fpstate == FxAt(l.regs.rsp) && fx == l.fx
    ensures uc.mcontext.fpstate % 16 == 0 && uc.mcontext.fpstate != 0
  {
    hide FrameAt, FxAt, ToRegs;
    assert store[Frame(l)].mcontext == uc.mcontext;
    Multiple(FxAt(l.regs.rsp));
  }

  lemma Multiple(x: nat)
    requires x % 64 == 0
    ensures x % 16 == 0
  {
  }

  lemma RegsRsp(f: Regs, sc: Context)
    ensures ToRegs(f, sc).rsp == sc.rsp
  {
  }

  /** Dropping the innermost frame. */
  lemma PopNested(store: Store, live: seq<Live>)
    requires Nested(live) && AllHeld(store, live)
    ensures |live| > 0 ==>
              Placed(live[|live| - 1].regs.rsp) && live[|live| - 1].mask - UNBLOCKABLE == live[|live| - 1].mask
    ensures |live| > 0 ==>
              Nested(live[..|live| - 1]) && AllHeld(store, live[..|live| - 1]) && Held(store, live[|live| - 1])
    ensures |live| > 0 ==> live[|live| - 1].regs.rsp < U64
  {
  }

  // ---- every run -----------------------------------------------------------------

  /** What can happen to a task.  `bufferOk`, `ucOk` and `fxOk` are answers of
      uvm_buffer_ok; `uc` and `fx` are read where user memory holds no frame. */
  datatype Step =
    | Arrive(sig: nat)
    | Return(err: nat, trapno: nat, bufferOk: bool)
    | Compute(regs: Regs, fx: Fx, store: Store)
    | Restore(uc: Ucontext, fx: Fx, ucOk: bool, fxOk: bool)
    | Mask(how: nat, mask: Bits)
    | Install(sig: nat, action: Action)

  ghost predicate WellFormed(s: Step)
  {
    match s
    case Arrive(sig) => 1 <= sig <= 64
    case Return(_, _, _) => true
    case Compute(regs, _, store) => regs.rsp < U64 && StoreOk(store)
    case Restore(uc, _, _, _) => uc.mcontext.rsp < U64
    case Mask(_, _) => true
    case Install(sig, _) => 1 <= sig <= 64
  }

  /** The state of a task, without its memory. */
  datatype Snap = Snap(live: seq<Live>, regs: Regs, fx: Fx, mask: Bits, pending: Bits, actions: seq<Action>)

  ghost function Now(t: Task): Snap
    reads t
  {
    Snap(t.live, t.regs, t.userFx, t.blocked, t.pending, t.actions)
  }

  ghost predicate SnapOk(x: Snap)
  {
    |x.actions| == 64 && x.regs.rsp < U64 && (forall s :: s in x.pending ==> 1 <= s <= 64) && Nested(x.live)
  }

  predicate StackChecked(rsp: nat)
    requires rsp < U64
  {
    Checked(FrameAt(rsp), Sub(rsp, FrameAt(rsp)))
  }

  /** Signal `sig` is the next one, it is caught, and its frame fits the stack. */
  ghost predicate Delivers(x: Snap, sig: nat, bufferOk: bool)
    requires SnapOk(x)
  {
    && IsLowest(sig, x.pending - x.mask) && Catches(x.actions[sig - 1])
    && FrameAt(x.regs.rsp) >= USER_VA_MIN && bufferOk && StackChecked(x.regs.rsp)
  }

  /** The task is about to leave its innermost handler. */
  ghost predicate AtReturn(x: Snap)
    requires SnapOk(x)
  {
    |x.live| > 0 && x.regs.rsp == Frame(x.live[|x.live| - 1]) + 8
  }

  /** The handler of `sig` has been entered: what it interrupts is on the stack, its mask
      is added, and no other action has changed. */
  ghost predicate Caught(x: Snap, sig: nat, y: Snap)
    requires SnapOk(x) && 1 <= sig <= 64
  {
    var act := x.actions[sig - 1];
    && y.live == Below(x.live, x.regs.rsp) + [Live(x.regs, x.fx, x.mask)] && y.fx == x.fx
    && y.pending == x.pending - {sig} && Entered(act, x.regs, y.regs, sig) && Rearmed(x.actions, y.actions, sig)
    && y.mask == (x.mask + act.mask + (if act.nodefer then {} else {sig})) - {9, 19}
  }

  /** The live frames form a stack.  Delivery pushes the state it interrupts, exactly
      when a caught signal is next; sigreturn pops the innermost state and brings it
      back, exactly when the stack pointer is where that handler returns; user code
      can only give up inner handlers, by overwriting their frames; and nothing else
      touches the stack. */
  ghost predicate StackStep(s: Step, x: Snap, y: Snap)
    requires SnapOk(x)
  {
    match s
    case Return(_, _, bufferOk) =>
      if exists sig :: Delivers(x, sig, bufferOk) then exists sig :: Delivers(x, sig, bufferOk) && Caught(x, sig, y)
      else y == x.(pending := y.pending) && y.pending <= x.pending
    case Restore(_, _, ucOk, fxOk) =>
      if AtReturn(x) && ucOk && fxOk then
        var l := x.live[|x.live| - 1];
        y == x.(live := x.live[..|x.live| - 1], regs := l.regs.(cs := x.regs.cs, ss := x.regs.ss),
                fx := Sanitized(l.fx), mask := l.mask)
      else y == x.(regs := y.regs, fx := y.fx, mask := y.mask)
    case Compute(regs, fx, _) => |y.live| <= |x.live| && y == x.(live := x.live[..|y.live|], regs := regs, fx := fx)
    case Arrive(sig) => y == x.(pending := y.pending) && x.pending <= y.pending <= x.pending + {sig}
    case Mask(how, mask) =>
      y == x.(mask := if how == 0 then (x.mask + mask) - {9, 19} else if how == 1 then x.mask - mask
                      else if how == 2 then mask - {9, 19} else x.mask)
    case Install(sig, action) => 1 <= sig <= 64 && y == x.(actions := x.actions[sig - 1 := action])
  }

  /** How many of the outermost frames user code has left alone. */
  ghost function Untouched(store: Store, store': Store, live: seq<Live>): (k: nat)
    ensures k <= |live| && forall i :: 0 <= i < k ==> Intact(store, store', live[i])
  {
    if live == [] then 0 else
      var k := Untouched(store, store', live[..|live| - 1]);
      if k == |live| - 1 && Intact(store, store', live[k]) then k + 1 else k
  }

  /** What sigreturn reads at the stack pointer. */
  function ContextAt(store: Store, rsp: nat, otherwise: Ucontext): (uc: Ucontext)
    ensures Reads(store, rsp, uc)
  {
    if rsp >= 8 && rsp - 8 in store && store[rsp - 8].SigFrame?
    then Ucontext(store[rsp - 8].mcontext, store[rsp - 8].sigmask) else otherwise
  }

  function FxOf(store: Store, at: nat, otherwise: Fx): (fx: Fx)
    ensures ReadsFx(store, at, fx)
  {
    if at in store && store[at].FxImage? then store[at].fx else otherwise
  }

  lemma ContextOk(store: Store, rsp: nat, otherwise: Ucontext)
    requires StoreOk(store) && otherwise.mcontext.rsp < U64
    ensures ContextAt(store, rsp, otherwise).mcontext.rsp < U64
  {
  }

  /** One step keeps the invariant; in particular no step ever blocks SIGKILL or
      SIGSTOP, and no delivery touches a live frame. */
  method Perform(t: Task, s: Step) returns (out: Outcome)
    requires t.Valid() && WellFormed(s)
    modifies t
    ensures t.Valid() && SnapOk(Now(t)) && SnapOk(old(Now(t))) && StackStep(s, old(Now(t)), Now(t))
  {
    hide FrameAt, FxAt, ToRegs, Sanitized, AllHeld, Nested, Sub, Checked, Reads, ReadsFx, Intact, Below, StoreOk,
         ContextAt, FxOf;
    match s {
      case Arrive(sig) => out := t.Send(sig);
      case Return(err, trapno, bufferOk) =>
        out := t.Deliver(err, trapno, bufferOk && StackChecked(t.regs.rsp));
        if out.Handled? {
          assert Delivers(old(Now(t)), out.sig, bufferOk) && Caught(old(Now(t)), out.sig, Now(t));
        }
      case Compute(regs, fx, store) =>
        out := Nothing;
        t.Compute(regs, fx, store, Untouched(t.store, store, t.live));
      case Restore(other, otherFx, ucOk, fxOk) =>
        ContextOk(t.store, t.regs.rsp, other);
        var uc := ContextAt(t.store, t.regs.rsp, other);
        out := t.SigReturn(uc, FxOf(t.store, uc.mcontext.fpstate, otherFx), ucOk, fxOk);
      case Mask(how, mask) =>
        out := Nothing;
        var _, _ := t.SigProcMask(how, mask);
      case Install(sig, action) =>
        out := Nothing;
        t.actions := t.actions[sig - 1 := action];
    }
  }

  /** Consecutive states of one task. */
  ghost predicate Traced(steps: seq<Step>, trace: seq<Snap>)
  {
    && 0 < |trace| <= |steps| + 1
    && (forall k :: 0 <= k < |trace| ==> SnapOk(trace[k]))
    && forall k :: 0 <= k < |trace| - 1 ==> StackStep(steps[k], trace[k], trace[k + 1])
  }

  /** Any sequence of steps of a new task, up to its death. */
  method Run(regs: Regs, fx: Fx, store: Store, steps: seq<Step>) returns (t: Task, ghost trace: seq<Snap>)
    requires regs.rsp < U64 && StoreOk(store) && forall k :: 0 <= k < |steps| ==> WellFormed(steps[k])
    ensures t.Valid() && Traced(steps, trace) && trace[|trace| - 1] == Now(t)
    ensures trace[0].live == [] && trace[0].regs == regs && trace[0].fx == fx && trace[0].mask == {}
  {
    hide Nested, AllHeld, StoreOk, StackStep, WellFormed;
    t := new Task(regs, fx, store);
    trace := [Now(t)];
    assert SnapOk(Now(t)) by {
      EmptyNested();
    }
    for k := 0 to |steps|
      invariant t.Valid() && fresh(t) && |trace| == k + 1 && trace[k] == Now(t) && Traced(steps, trace)
      invariant trace[0].live == [] && trace[0].regs == regs && trace[0].fx == fx && trace[0].mask == {}
    {
      var out := Perform(t, steps[k]);
      trace := trace + [Now(t)];
      if out.Terminated? {
        return;
      }
    }
  }

  lemma EmptyNested()
    ensures Nested([])
  {
  }

  /** The task runs on the stack below frame d. */
  ghost predicate Inside(x: Snap, d: nat)
    requires SnapOk(x)
  {
    d < |x.live| && x.regs.rsp <= Frame(x.live[d]) + 8
  }

  lemma InsideOuter(x: Snap, d: nat, e: nat)
    requires SnapOk(x) && Inside(x, d) && e < d
    ensures Inside(x, e)
  {
    assert Placed(x.live[d].regs.rsp) && x.live[d].regs.rsp <= Frame(x.live[e]) + 8;
  }

  lemma {:induction false} BelowDeep(live: seq<Live>, rsp: nat, d: nat)
    requires Nested(live) && d < |live| && rsp <= Frame(live[d]) + 8
    ensures |Below(live, rsp)| > d
  {
    if rsp > Frame(live[|live| - 1]) + 8 {
      BelowDeep(live[..|live| - 1], rsp, d);
    }
  }

  /** While a task stays inside a handler, no step changes what the handler interrupted. */
  lemma SavedKept(s: Step, x: Snap, y: Snap, d: nat)
    requires SnapOk(x) && SnapOk(y) && StackStep(s, x, y) && Inside(x, d) && d < |y.live|
    ensures y.live[d] == x.live[d]
  {
    if s.Return? {
      BelowDeep(x.live, x.regs.rsp, d);
    }
  }

  lemma {:induction false} SavedThroughout(steps: seq<Step>, trace: seq<Snap>, i: nat, j: nat, d: nat)
    requires Traced(steps, trace) && i <= j < |trace| && forall k :: i <= k <= j ==> Inside(trace[k], d)
    ensures d < |trace[i].live| && d < |trace[j].live| && trace[j].live[d] == trace[i].live[d]
    decreases j
  {
    hide SnapOk, StackStep, Frame;
    assert Inside(trace[i], d) && Inside(trace[j], d);
    if i < j {
      SavedThroughout(steps, trace, i, j - 1, d);
      assert Inside(trace[j - 1], d);
      SavedKept(steps[j - 1], trace[j - 1], trace[j], d);
    }
  }

  /** The matched pair: step i delivers a signal to depth d, the steps up to j run on
      the stack below its frame - more signals, deeper handlers, mask changes, anything -
      and step j is the sigreturn of that handler.  The interrupted registers, FPU image
      and mask are back as if nothing had happened in between. */
  lemma HandlerIsTransparent(steps: seq<Step>, trace: seq<Snap>, i: nat, j: nat, d: nat)
    requires Traced(steps, trace) && i < j < |trace| - 1 && steps[j].Restore? && steps[j].ucOk && steps[j].fxOk
    requires steps[i].Return? && (exists sig :: Delivers(trace[i], sig, steps[i].bufferOk))
    requires |trace[i + 1].live| == d + 1
    requires forall k :: i < k <= j ==> Inside(trace[k], d)
    requires |trace[j].live| == d + 1 && AtReturn(trace[j])
    ensures trace[j + 1].regs == trace[i].regs.(cs := trace[j].regs.cs, ss := trace[j].regs.ss)
    ensures trace[j + 1].fx == Sanitized(trace[i].fx) && trace[j + 1].mask == trace[i].mask
    ensures trace[j + 1].live == trace[i + 1].live[..d]
  {
    hide SnapOk, StackStep, Frame, Delivers, AtReturn, Inside;
    Pushes(steps[i], trace[i], trace[i + 1], d);
    SavedThroughout(steps, trace, i + 1, j, d);
    forall e: nat | e < d
      ensures e < |trace[j].live| && e < |trace[i + 1].live| && trace[j].live[e] == trace[i + 1].live[e]
    {
      forall k | i < k <= j
        ensures Inside(trace[k], e)
      {
        InsideOuter(trace[k], d, e);
      }
      SavedThroughout(steps, trace, i + 1, j, e);
    }
    assert trace[j].live[..d] == trace[i + 1].live[..d];
    Pops(steps[j], trace[j], trace[j + 1], d);
  }

  /** A delivery to depth d saves what it interrupts there. */
  lemma Pushes(s: Step, x: Snap, y: Snap, d: nat)
    requires SnapOk(x) && StackStep(s, x, y) && s.Return? && (exists sig :: Delivers(x, sig, s.bufferOk)) && |y.live| == d + 1
    ensures y.live[d] == Live(x.regs, x.fx, x.mask)
  {
  }

  /** The sigreturn at depth d brings that back. */
  lemma Pops(s: Step, x: Snap, y: Snap, d: nat)
    requires SnapOk(x) && StackStep(s, x, y) && s.Restore? && s.ucOk && s.fxOk && AtReturn(x) && |x.live| == d + 1
    ensures y.regs == x.live[d].regs.(cs := x.regs.cs, ss := x.regs.ss)
    ensures y.fx == Sanitized(x.live[d].fx) && y.mask == x.live[d].mask && y.live == x.live[..d]
  {
  }
}
