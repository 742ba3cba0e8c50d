/** A call gives back the callee's locals as it found them (`src/vm/core.rs`, `src/vm/mod.rs`). */
module Calls {
  import opened Bytes
  import opened Program
  import opened Memory
  import opened Views
  import opened Machine
  import opened Effects
  import opened Step
  import opened Interp
  import opened Frames
  import opened Locals
  import opened Loop
  import Loader

  /** One progs, whose globals and their tail do not touch the local stack. */
  predicate Solo(env: Env, m: Mem) {
    && |env.progs| == 1
    && Clear(m, env.progs[0].gbase, env.progs[0].numGlobals + 3)
  }

  /** Region S and the local stack have not moved (a builtin may have grown the others). */
  predicate SameStackShape(m: Mem, m': Mem) {
    |m'.s| == |m.s| && m'.lsBase == m.lsBase && m'.lsWords == m.lsWords
  }

  /** Byte `a` lies in local-stack memory. */
  predicate OnStack(m: Mem, a: nat) { m.lsBase <= a < m.lsBase + 4 * m.lsWords }

  /** The bytes of region S after what a statement's own operands do: everything except saving and
      restoring locals and copying parameters. */
  function OperandBytes(env: Env, v: View, m: Machine, ps: ProgsState, st: Stmt): (s: seq<byte>)
    requires m.mem.Valid() && HasView(v, m.mem.s)
    ensures |s| == |m.mem.s|
  {
    if st.op.Call? then PassOperands(v, m.mem.s, ps, st.op.argc, st.op.hexen2, st.b, st.c)
    else if st.op.Return? then Copy(v, m.mem.s, st.a, SlotAt(ps.gbase, OFS_RETURN), 3)
    else if IsControl(st.op) then m.mem.s
    else match Straight(env, v, m, ps, st)
      case Done(m1) => m1.mem.s
      case Fault(_) => m.mem.s
  }

  /** A function body that does not write the saved part of the local stack. */
  predicate Respects(env: Env, v: View, m: Machine, ps: ProgsState, st: Stmt)
    requires m.mem.Valid() && HasView(v, m.mem.s)
  {
    forall a :: 0 <= a < |m.mem.s| && StackAt(m.mem, 0) <= a < StackAt(m.mem, m.x.lsTop) ==>
      OperandBytes(env, v, m, ps, st)[a] == m.mem.s[a]
  }

  predicate RespectsNext(env: Env, v: View, m: Machine, d: nat) {
    RunOk(env, v, m, d) ==> Respects(env, v, m, Current(env, m), Next(env, m))
  }

  // ---- what entering a function writes ---------------------------------------------------------

  /** Parameter copies stay within their progs' globals. */
  lemma {:induction false} CopyParamsBytes(s: seq<byte>, copies: seq<ParamCopy>, n: nat, gbase: nat, limit: nat, a: nat)
    requires n <= |copies| && (forall c :: c in copies ==> CopyOk(c, gbase, limit))
    requires a < |s| && !(gbase <= a < gbase + 4 * limit)
    ensures CopyParams(s, copies, n)[a] == s[a]
  {
    if n > 0 {
      CopyParamsBytes(s, copies, n - 1, gbase, limit, a);
      assert copies[n - 1] in copies;
    }
  }

  /** Entering a function leaves the local stack below its new block alone. */
  lemma EnterFuncBytes(m: Machine, f: QcFunc, prnum: nat, index: nat, resumePc: nat, gbase: nat, limit: nat, count: nat, a: nat)
    requires FuncOk(f, gbase, limit, count) && Clear(m.mem, gbase, limit)
    requires OnStack(m.mem, a) && a < StackEnd(m) && a < |m.mem.s|
    ensures EnterFunc(m, f, prnum, index, resumePc).m.mem.s[a] == m.mem.s[a]
  {
    var r := EnterFunc(m, f, prnum, index, resumePc);
    if r.error.None? {
      var saved := Move(m.mem.s, f.localsAddr, StackEnd(m), 4 * f.localsWords);
      CopyParamsBytes(saved, f.copies, |f.copies|, gbase, limit, a);
    }
  }

  /** The new block holds the callee's locals as they were. */
  lemma EnterFuncSaves(m: Machine, f: QcFunc, prnum: nat, index: nat, resumePc: nat, gbase: nat, limit: nat, count: nat, a: nat)
    requires FuncOk(f, gbase, limit, count) && Clear(m.mem, gbase, limit)
    requires m.mem.Valid() && EnterFunc(m, f, prnum, index, resumePc).error.None?
    requires f.localsAddr <= a < f.localsAddr + 4 * f.localsWords
    ensures Shift(a, f.localsAddr, StackEnd(m)) < |m.mem.s| && a < |m.mem.s|
    ensures EnterFunc(m, f, prnum, index, resumePc).m.mem.s[Shift(a, f.localsAddr, StackEnd(m))] == m.mem.s[a]
  {
    var at := StackEnd(m);
    var saved := Move(m.mem.s, f.localsAddr, at, 4 * f.localsWords);
    CopyParamsBytes(saved, f.copies, |f.copies|, gbase, limit, Shift(a, f.localsAddr, at));
  }

  lemma SoloFunc(env: Env, sLen: nat, m: Mem, prnum: nat, index: nat)
    requires EnvOk(env, sLen) && Solo(env, m) && FuncAt(env, prnum, index).Some?
    ensures prnum == 0
    ensures FuncOk(FuncAt(env, prnum, index).value, env.progs[0].gbase, env.progs[0].numGlobals + 3, |env.progs[0].code|)
  {
    assert ProgsOk(env.progs[0], sLen);
    assert Loader.EntryOk(env.progs[0].funcs[index], env.progs[0].gbase, env.progs[0].numGlobals + 3, |env.progs[0].code|);
  }

  // ---- what holds while a call runs ------------------------------------------------------------

  /** The end of the callee's saved locals on the local stack. */
  function KeptEnd(m: Machine, base: seq<Frame>, m0: Machine): nat { StackAt(m.mem, Held(base) + m0.x.localsWords) }

  /** The memory below the callee's saved locals, and those locals, are what they were when it was
      entered. `m0` is the machine just after entering it. */
  predicate CalleeKept(env: Env, base: seq<Frame>, m0: Machine, m: Machine) {
    && m.mem.Valid() && SameStackShape(m0.mem, m.mem) && Solo(env, m.mem)
    && Above(base, m) && LocalsClear(m) && OneProgs(m) && m.x.prnum == 0
    && LocalsAddr(m, |base|) == m0.x.localsAddr && LocalsWords(m, |base|) == m0.x.localsWords
    && forall a :: 0 <= a < |m.mem.s| && StackAt(m.mem, 0) <= a < KeptEnd(m, base, m0) ==>
         m.mem.s[a] == m0.mem.s[a]
  }

  /** What is kept lies below the top of the local stack. */
  lemma KeptBelowTop(base: seq<Frame>, m: Machine)
    requires m.mem.Valid() && Above(base, m)
    ensures Held(base) + LocalsWords(m, |base|) <= m.x.lsTop
  {
    assert m.frames[..|base|] == base;
    SavedBelowTop(m, |base|);
  }

  lemma SameActivationKept(env: Env, base: seq<Frame>, m0: Machine, m: Machine, m': Machine)
    requires CalleeKept(env, base, m0, m) && SameActivation(m, m') && SameShape(m.mem, m'.mem)
    requires forall a :: 0 <= a < |m.mem.s| && StackAt(m.mem, 0) <= a < StackAt(m.mem, m.x.lsTop) ==> m'.mem.s[a] == m.mem.s[a]
    ensures CalleeKept(env, base, m0, m')
  {
    KeptBelowTop(base, m);
    SameActivationKeepsStack(m, m');
    forall i | 0 <= i <= |m'.frames|
      ensures Clear(m'.mem, LocalsAddr(m', i), LocalsWords(m', i))
    {
      assert Clear(m.mem, LocalsAddr(m, i), LocalsWords(m, i));
    }
  }

  lemma EnterKeepsClear(env: Env, m: Machine, prnum: nat, index: nat, resumePc: nat)
    requires EnvOk(env, |m.mem.s|) && Solo(env, m.mem) && LocalsClear(m) && OneProgs(m) && m.x.prnum == 0
    requires Enter(env, m, prnum, index, resumePc).error.None?
    ensures var m' := Enter(env, m, prnum, index, resumePc).m;
      && LocalsClear(m') && OneProgs(m') && m'.x.prnum == 0
      && forall i :: 0 <= i <= |m.frames| ==> LocalsAddr(m', i) == LocalsAddr(m, i) && LocalsWords(m', i) == LocalsWords(m, i)
  {
    SoloFunc(env, |m.mem.s|, m.mem, prnum, index);
    var m' := Enter(env, m, prnum, index, resumePc).m;
    forall i | 0 <= i <= |m'.frames|
      ensures Clear(m'.mem, LocalsAddr(m', i), LocalsWords(m', i))
    {
      if i <= |m.frames| { assert Clear(m.mem, LocalsAddr(m, i), LocalsWords(m, i)); }
    }
  }

  /** Entering leaves the local stack in use alone. */
  lemma EnterBytes(env: Env, m: Machine, prnum: nat, index: nat, resumePc: nat, a: nat)
    requires m.mem.Valid() && StackOk(m) && EnvOk(env, |m.mem.s|) && Solo(env, m.mem) && m.x.prnum == 0
    requires Enter(env, m, prnum, index, resumePc).error.None?
    requires a < |m.mem.s| && StackAt(m.mem, 0) <= a < StackEnd(m)
    ensures Enter(env, m, prnum, index, resumePc).m.mem.s[a] == m.mem.s[a]
  {
    SoloFunc(env, |m.mem.s|, m.mem, prnum, index);
    var f := FuncAt(env, prnum, index).value;
    EnterFuncBytes(m, f, prnum, index, resumePc, env.progs[0].gbase, env.progs[0].numGlobals + 3, |env.progs[0].code|, a);
  }

  /** Entering saves the callee's locals above it. */
  lemma EnterSaves(env: Env, m: Machine, prnum: nat, index: nat, resumePc: nat, a: nat)
    requires m.mem.Valid() && EnvOk(env, |m.mem.s|) && Solo(env, m.mem) && m.x.prnum == 0
    requires Enter(env, m, prnum, index, resumePc).error.None?
    ensures var x := Enter(env, m, prnum, index, resumePc).m.x;
      x.localsAddr <= a < x.localsAddr + 4 * x.localsWords ==>
        && Shift(a, x.localsAddr, StackEnd(m)) < |m.mem.s| && a < |m.mem.s|
        && Enter(env, m, prnum, index, resumePc).m.mem.s[Shift(a, x.localsAddr, StackEnd(m))] == m.mem.s[a]
  {
    SoloFunc(env, |m.mem.s|, m.mem, prnum, index);
    var f := FuncAt(env, prnum, index).value;
    if f.localsAddr <= a < f.localsAddr + 4 * f.localsWords {
      EnterFuncSaves(m, f, prnum, index, resumePc, env.progs[0].gbase, env.progs[0].numGlobals + 3, |env.progs[0].code|, a);
    }
  }

  lemma EnterKept(env: Env, base: seq<Frame>, m0: Machine, m: Machine, prnum: nat, index: nat, resumePc: nat)
    requires CalleeKept(env, base, m0, m) && EnvOk(env, |m.mem.s|)
    requires Enter(env, m, prnum, index, resumePc).error.None?
    ensures CalleeKept(env, base, m0, Enter(env, m, prnum, index, resumePc).m)
  {
    var m' := Enter(env, m, prnum, index, resumePc).m;
    EnterKeepsStack(env, m, prnum, index, resumePc);
    EnterKeepsClear(env, m, prnum, index, resumePc);
    KeptBelowTop(base, m);
    assert m'.frames[..|m.frames|] == m.frames;
    forall a | 0 <= a < |m.mem.s| && StackAt(m.mem, 0) <= a < KeptEnd(m, base, m0)
      ensures m'.mem.s[a] == m0.mem.s[a]
    {
      EnterBytes(env, m, prnum, index, resumePc, a);
    }
  }

  lemma LeaveKept(env: Env, base: seq<Frame>, m0: Machine, m: Machine)
    requires CalleeKept(env, base, m0, m) && |m.frames| > |base|
    ensures CalleeKept(env, base, m0, Leave(env, m))
  {
    LeaveKeepsStack(env, m);
    LeaveKeepsClear(env, m);
    KeptBelowTop(base, m);
    var m' := Leave(env, m);
    assert m.frames[|m.frames| - 1].prnum == m.x.prnum;
    assert LocalsAddr(m', |base|) == LocalsAddr(m, |base|) && LocalsWords(m', |base|) == LocalsWords(m, |base|);
    forall a | 0 <= a < |m.mem.s| && StackAt(m.mem, 0) <= a < KeptEnd(m, base, m0)
      ensures m'.mem.s[a] == m0.mem.s[a]
    {
      LeaveBytes(env, m, a);
    }
  }

  // ---- one step --------------------------------------------------------------------------------

  lemma StraightKept(env: Env, v: View, base: seq<Frame>, m0: Machine, m: Machine, ps: ProgsState, st: Stmt, d: nat)
    requires HasView(v, m.mem.s) && CalleeKept(env, base, m0, m) && Respects(env, v, m, ps, st)
    requires !st.op.Call? && !st.op.Return?
    ensures CalleeKept(env, base, m0, Execute(env, v, m, ps, st, d).out.s)
    ensures CalleeKept(env, base, m0, Execute(env, v, m, ps, st, d).blocked)
  {
    var r := Execute(env, v, m, ps, st, d);
    StaysInActivation(env, v, m, ps, st, d);
    assert r.out.s.mem.s == OperandBytes(env, v, m, ps, st);
    SameActivationKept(env, base, m0, m, r.out.s);
    if !IsControl(st.op) && Straight(env, v, m, ps, st).Done? {
      assert r.blocked.mem.s == OperandBytes(env, v, m, ps, st);
    } else {
      assert r.blocked.mem.s == m.mem.s;
    }
    SameActivationKept(env, base, m0, m, r.blocked);
  }

  /** In a VM with one progs a refused entry changes nothing. */
  lemma RefusedEntry(env: Env, m: Machine, prnum: nat, index: nat, resumePc: nat)
    requires Solo(env, m.mem) && Enter(env, m, prnum, index, resumePc).error.Some?
    ensures Enter(env, m, prnum, index, resumePc).m == m
  {
  }

  lemma EnterAnyKept(env: Env, base: seq<Frame>, m0: Machine, m: Machine, prnum: nat, index: nat, resumePc: nat)
    requires CalleeKept(env, base, m0, m) && EnvOk(env, |m.mem.s|)
    ensures CalleeKept(env, base, m0, Enter(env, m, prnum, index, resumePc).m)
  {
    if Enter(env, m, prnum, index, resumePc).error.None? {
      EnterKept(env, base, m0, m, prnum, index, resumePc);
    } else {
      RefusedEntry(env, m, prnum, index, resumePc);
    }
  }

  lemma DispatchKept(env: Env, base: seq<Frame>, m0: Machine, m: Machine, fv: word)
    requires CalleeKept(env, base, m0, m) && EnvOk(env, |m.mem.s|)
    ensures CalleeKept(env, base, m0, Dispatch(env, m, fv).s)
  {
    DispatchLeads(env, m, fv);
    if CalleeAt(env, fv).QcFn? {
      EnterAnyKept(env, base, m0, m, ProgsOf(fv), IndexOf(fv), m.x.pc + 1);
    } else {
      SameActivationKept(env, base, m0, m, Dispatch(env, m, fv).s);
    }
  }

  /** A call enters a QuakeC function, or stays in the same context. */
  lemma DispatchLeads(env: Env, m: Machine, fv: word)
    ensures var m' := Dispatch(env, m, fv).s;
      if CalleeAt(env, fv).QcFn? then m' == Enter(env, m, ProgsOf(fv), IndexOf(fv), m.x.pc + 1).m
      else m'.mem == m.mem && m'.frames == m.frames && m'.x == m.x.(pc := m'.x.pc)
  {
  }

  lemma CallKept(env: Env, v: View, base: seq<Frame>, m0: Machine, m: Machine, ps: ProgsState, st: Stmt)
    requires HasView(v, m.mem.s) && CalleeKept(env, base, m0, m) && EnvOk(env, |m.mem.s|)
    requires st.op.Call? && Respects(env, v, m, ps, st)
    ensures CalleeKept(env, base, m0, CallStep(env, v, m, ps, st).out.s)
  {
    var s := PassOperands(v, m.mem.s, ps, st.op.argc, st.op.hexen2, st.b, st.c);
    assert s == OperandBytes(env, v, m, ps, st);
    var m1 := WithS(m, s).(argc := st.op.argc);
    SameActivationKept(env, base, m0, m, m1);
    DispatchKept(env, base, m0, m1, G(v, s, st.a));
  }

  /** A return to a function above `base` keeps what `base` saved; the last return gives the callee's
      locals back. */
  lemma ReturnKept(env: Env, v: View, base: seq<Frame>, m0: Machine, m: Machine, ps: ProgsState, st: Stmt, d: nat)
    requires HasView(v, m.mem.s) && CalleeKept(env, base, m0, m) && |base| == d + 1
    requires st.op.Return? && Respects(env, v, m, ps, st)
    ensures var r := ReturnStep(env, v, m, ps, st.a, d);
      && (r.out.Go? ==> CalleeKept(env, base, m0, r.out.s))
      && (r.out.Stop? ==> GivenBack(env, base, m0, r.out.s))
  {
    var m1 := WithS(m, Copy(v, m.mem.s, st.a, SlotAt(ps.gbase, OFS_RETURN), 3));
    assert m1.mem.s == OperandBytes(env, v, m, ps, st);
    SameActivationKept(env, base, m0, m, m1);
    if |m.frames| > |base| {
      LeaveKept(env, base, m0, m1);
    } else {
      assert m1.frames == base;
      LastLeaveGivesBack(env, base, m0, m1);
    }
  }

  /** The bytes the callee's locals had before the call (saved in `m0`), and the local stack below
      them. */
  predicate GivenBytes(base: seq<Frame>, m0: Machine, m: Machine) {
    && |m.mem.s| == |m0.mem.s| && KeptEnd(m, base, m0) <= |m.mem.s|
    && (forall a :: 0 <= a < |m.mem.s| && m0.x.localsAddr <= a < m0.x.localsAddr + 4 * m0.x.localsWords ==>
         m.mem.s[a] == m0.mem.s[Shift(a, m0.x.localsAddr, StackAt(m.mem, Held(base)))])
    && (forall a :: 0 <= a < |m.mem.s| && StackAt(m.mem, 0) <= a < KeptEnd(m, base, m0) ==> m.mem.s[a] == m0.mem.s[a])
  }

  /** The context that made the call runs again: its frames, its registers, its stack and the callee's
      locals. */
  predicate GivenBack(env: Env, base: seq<Frame>, m0: Machine, m: Machine) {
    && base != [] && m.mem.Valid() && SameStackShape(m0.mem, m.mem)
    && StackOk(m) && LocalsClear(m) && OneProgs(m)
    && m.frames == base[..|base| - 1] && m.x == CallerRegs(env, base[|base| - 1], Held(base))
    && GivenBytes(base, m0, m)
  }

  lemma LastLeaveByte(env: Env, base: seq<Frame>, m0: Machine, m: Machine, m': Machine, a: nat)
    requires CalleeKept(env, base, m0, m) && m.frames == base && base != [] && a < |m.mem.s| && m' == Leave(env, m)
    ensures KeptEnd(m, base, m0) <= |m.mem.s|
    ensures m0.x.localsAddr <= a < m0.x.localsAddr + 4 * m0.x.localsWords ==>
              m'.mem.s[a] == m0.mem.s[Shift(a, m0.x.localsAddr, StackAt(m.mem, Held(base)))]
    ensures StackAt(m.mem, 0) <= a < KeptEnd(m, base, m0) ==> m'.mem.s[a] == m0.mem.s[a]
  {
    assert m.frames[..|base|] == base;
    SavedBelowTop(m, |base|);
    LeaveBytes(env, m, a);
  }

  lemma LastLeaveBytes(env: Env, base: seq<Frame>, m0: Machine, m: Machine, m': Machine)
    requires CalleeKept(env, base, m0, m) && m.frames == base && base != [] && m' == Leave(env, m)
    ensures GivenBytes(base, m0, m')
  {
    LastLeaveByte(env, base, m0, m, m', 0);
    assert StackAt(m'.mem, Held(base)) == StackAt(m.mem, Held(base)) && KeptEnd(m', base, m0) == KeptEnd(m, base, m0);
    forall a | 0 <= a < |m.mem.s|
      ensures m0.x.localsAddr <= a < m0.x.localsAddr + 4 * m0.x.localsWords ==>
                m'.mem.s[a] == m0.mem.s[Shift(a, m0.x.localsAddr, StackAt(m.mem, Held(base)))]
      ensures StackAt(m.mem, 0) <= a < KeptEnd(m, base, m0) ==> m'.mem.s[a] == m0.mem.s[a]
    {
      LastLeaveByte(env, base, m0, m, m', a);
    }
  }

  lemma LastLeaveGivesBack(env: Env, base: seq<Frame>, m0: Machine, m: Machine)
    requires CalleeKept(env, base, m0, m) && m.frames == base && base != []
    ensures GivenBack(env, base, m0, Leave(env, m))
  {
    LeaveKeepsStack(env, m);
    LeaveKeepsClear(env, m);
    LastLeaveBytes(env, base, m0, m, Leave(env, m));
  }

  /** Unwinding to the caller, from wherever the call stopped, gives back the same. */
  lemma {:induction false} UnwindGivesBack(env: Env, base: seq<Frame>, m0: Machine, m: Machine)
    requires CalleeKept(env, base, m0, m) && base != []
    ensures GivenBack(env, base, m0, Unwind(env, m, |base| - 1))
    decreases |m.frames|
  {
    if |m.frames| > |base| {
      LeaveKept(env, base, m0, m);
      UnwindGivesBack(env, base, m0, Leave(env, m));
    } else {
      assert m.frames == base;
      LastLeaveGivesBack(env, base, m0, m);
      assert Unwind(env, m, |base| - 1) == Leave(env, m);
    }
  }

  // ---- whole calls -----------------------------------------------------------------------------

  lemma StepKept(env: Env, v: View, base: seq<Frame>, m0: Machine, m: Machine, d: nat)
    requires RunOk(env, v, m, d) && CalleeKept(env, base, m0, m) && |base| == d + 1
    requires Respects(env, v, m, Current(env, m), Next(env, m))
    ensures var r := StepOf(env, v, m, d);
      && (r.out.Go? ==> CalleeKept(env, base, m0, r.out.s))
      && (r.ticks ==> CalleeKept(env, base, m0, r.blocked))
      && (r.out.Stop? && !r.out.exit.Returned? ==> CalleeKept(env, base, m0, r.out.s))
      && (r.out.Stop? && r.out.exit.Returned? ==> GivenBack(env, base, m0, r.out.s))
  {
    StepExecutes(env, v, m, d);
    StepKeepsStack(env, v, m, base, d);
    var ps, st := Current(env, m), Next(env, m);
    if st.op.Call? {
      CallKept(env, v, base, m0, m, ps, st);
    } else if st.op.Return? {
      ReturnKept(env, v, base, m0, m, ps, st, d);
    } else {
      StraightKept(env, v, base, m0, m, ps, st, d);
      StaysInActivation(env, v, m, ps, st, d);
    }
  }

  /** Registers as they were, except that leaving a function may reset the `SWITCH` state. */
  predicate SameRegs(env: Env, x: Exec, x': Exec) {
    x' == if env.switchReset then x.(switchRef := 0, switchKind := SwFloat) else x
  }

  /** After calling a function with locals at `addr`, the caller's context, its part of the local
      stack and the bytes of those locals are as they were. */
  predicate Neutral(env: Env, addr: nat, words: nat, m: Machine, m': Machine) {
    && SameStackShape(m.mem, m'.mem) && StackOk(m')
    && m'.frames == m.frames && SameRegs(env, m.x, m'.x)
    && (forall a :: 0 <= a < |m.mem.s| && addr <= a < addr + 4 * words ==> m'.mem.s[a] == m.mem.s[a])
    && (forall a :: 0 <= a < |m.mem.s| && StackAt(m.mem, 0) <= a < StackEnd(m) ==>
         m'.mem.s[a] == m.mem.s[a])
  }

  /** A machine from which a function can be called in a VM with one progs. */
  predicate Callable(env: Env, v: View, m: Machine) {
    && m.mem.Valid() && EnvOk(env, |m.mem.s|) && ViewOk(v, env, m.mem.s) && Solo(env, m.mem)
    && StackOk(m) && LocalsClear(m) && OneProgs(m) && m.x.prnum == 0
  }

  lemma EnteredKept(env: Env, v: View, m: Machine, prnum: nat, index: nat)
    requires Callable(env, v, m) && Enter(env, m, prnum, index, m.x.pc).error.None?
    ensures var m0 := Enter(env, m, prnum, index, m.x.pc).m;
      && RunOk(env, v, m0, |m.frames|)
      && |m0.frames| == |m.frames| + 1 && CalleeKept(env, m0.frames, m0, m0)
  {
    var m0 := Enter(env, m, prnum, index, m.x.pc).m;
    EnterKeepsOk(env, v, m, prnum, index, m.x.pc, |m.frames|);
    EnterKeepsStack(env, m, prnum, index, m.x.pc);
    EnterKeepsClear(env, m, prnum, index, m.x.pc);
  }

  lemma GivenBackRegs(env: Env, v: View, m: Machine, prnum: nat, index: nat, m': Machine)
    requires Callable(env, v, m) && Enter(env, m, prnum, index, m.x.pc).error.None?
    requires var m0 := Enter(env, m, prnum, index, m.x.pc).m; GivenBack(env, m0.frames, m0, m')
    ensures m'.frames == m.frames && SameRegs(env, m.x, m'.x)
    ensures StackAt(m'.mem, Held(Enter(env, m, prnum, index, m.x.pc).m.frames)) == StackEnd(m)
  {
    var m0 := Enter(env, m, prnum, index, m.x.pc).m;
    assert m0.frames[..|m0.frames| - 1] == m.frames;
  }

  lemma GivenBackLocal(env: Env, v: View, m: Machine, prnum: nat, index: nat, m': Machine, a: nat)
    requires Callable(env, v, m) && Enter(env, m, prnum, index, m.x.pc).error.None?
    requires var m0 := Enter(env, m, prnum, index, m.x.pc).m;
      && GivenBack(env, m0.frames, m0, m') && StackAt(m'.mem, Held(m0.frames)) == StackEnd(m)
      && m0.x.localsAddr <= a < m0.x.localsAddr + 4 * m0.x.localsWords
    ensures a < |m.mem.s| == |m'.mem.s| && m'.mem.s[a] == m.mem.s[a]
  {
    EnterSaves(env, m, prnum, index, m.x.pc, a);
  }

  lemma GivenBackStack(env: Env, v: View, m: Machine, prnum: nat, index: nat, m': Machine, a: nat)
    requires Callable(env, v, m) && Enter(env, m, prnum, index, m.x.pc).error.None?
    requires var m0 := Enter(env, m, prnum, index, m.x.pc).m;
      GivenBack(env, m0.frames, m0, m') && StackAt(m'.mem, Held(m0.frames)) == StackEnd(m)
    requires StackAt(m.mem, 0) <= a < StackEnd(m)
    ensures a < |m.mem.s| == |m'.mem.s| && m'.mem.s[a] == m.mem.s[a]
  {
    EnterBytes(env, m, prnum, index, m.x.pc, a);
  }

  /** What `GivenBack` means for the machine the call was made from. */
  lemma GivenBackIsNeutral(env: Env, v: View, m: Machine, prnum: nat, index: nat, m': Machine)
    requires Callable(env, v, m) && Enter(env, m, prnum, index, m.x.pc).error.None?
    requires var m0 := Enter(env, m, prnum, index, m.x.pc).m; GivenBack(env, m0.frames, m0, m')
    ensures var m0 := Enter(env, m, prnum, index, m.x.pc).m; Neutral(env, m0.x.localsAddr, m0.x.localsWords, m, m')
  {
    GivenBackRegs(env, v, m, prnum, index, m');
    var x := Enter(env, m, prnum, index, m.x.pc).m.x;
    forall a | 0 <= a < |m.mem.s|
      ensures x.localsAddr <= a < x.localsAddr + 4 * x.localsWords ==> m'.mem.s[a] == m.mem.s[a]
      ensures StackAt(m.mem, 0) <= a < StackEnd(m) ==> m'.mem.s[a] == m.mem.s[a]
    {
      if x.localsAddr <= a < x.localsAddr + 4 * x.localsWords { GivenBackLocal(env, v, m, prnum, index, m', a); }
      if StackAt(m.mem, 0) <= a < StackEnd(m) { GivenBackStack(env, v, m, prnum, index, m', a); }
    }
  }

  /** What a run of a called function leads to: however it stops, returning or unwinding to the caller
      is neutral. */
  predicate EndsNeutral(env: Env, m: Machine, m0: Machine, r: RunResult<Machine, Exit>) {
    match r
    case Exited(Returned, m', _) => Neutral(env, m0.x.localsAddr, m0.x.localsWords, m, m')
    case Exited(_, m', _) =>
      |m'.frames| > |m.frames| && Neutral(env, m0.x.localsAddr, m0.x.localsWords, m, Unwind(env, m', |m.frames|))
    case Spent(m') =>
      |m'.frames| > |m.frames| && Neutral(env, m0.x.localsAddr, m0.x.localsWords, m, Unwind(env, m', |m.frames|))
  }

  lemma KeptEndsNeutral(env: Env, v: View, m: Machine, prnum: nat, index: nat, t: Machine)
    requires Callable(env, v, m) && Enter(env, m, prnum, index, m.x.pc).error.None?
    requires var m0 := Enter(env, m, prnum, index, m.x.pc).m; CalleeKept(env, m0.frames, m0, t)
    ensures var m0 := Enter(env, m, prnum, index, m.x.pc).m;
      |t.frames| > |m.frames| && Neutral(env, m0.x.localsAddr, m0.x.localsWords, m, Unwind(env, t, |m.frames|))
  {
    var m0 := Enter(env, m, prnum, index, m.x.pc).m;
    UnwindGivesBack(env, m0.frames, m0, t);
    GivenBackIsNeutral(env, v, m, prnum, index, Unwind(env, t, |m.frames|));
  }

  lemma KeepsAtCall(env: Env, v: View, m0: Machine, t: Machine, d: nat)
    requires RunOk(env, v, t, d) && |m0.frames| == d + 1 && CalleeKept(env, m0.frames, m0, t)
    requires RespectsNext(env, v, t, d)
    ensures KeepsAt(StepsOf(env, v, d), (x: Machine) => CalleeKept(env, m0.frames, m0, x), t)
  {
    StepKept(env, v, m0.frames, m0, t, d);
  }

  lemma StopEndsNeutral(env: Env, v: View, m: Machine, prnum: nat, index: nat, t: Machine, left: nat)
    requires Callable(env, v, m) && Enter(env, m, prnum, index, m.x.pc).error.None?
    requires RunOk(env, v, t, |m.frames|) && RespectsNext(env, v, t, |m.frames|) && StepOf(env, v, t, |m.frames|).out.Stop?
    requires var m0 := Enter(env, m, prnum, index, m.x.pc).m;
      |m0.frames| == |m.frames| + 1 && CalleeKept(env, m0.frames, m0, t)
    ensures var out := StepOf(env, v, t, |m.frames|).out;
      EndsNeutral(env, m, Enter(env, m, prnum, index, m.x.pc).m, Exited(out.exit, out.s, left))
  {
    var m0 := Enter(env, m, prnum, index, m.x.pc).m;
    var out := StepOf(env, v, t, |m.frames|).out;
    StepKept(env, v, m0.frames, m0, t, |m.frames|);
    if out.exit.Returned? {
      GivenBackIsNeutral(env, v, m, prnum, index, out.s);
    } else {
      KeptEndsNeutral(env, v, m, prnum, index, out.s);
    }
  }

  lemma KeptThroughout(env: Env, v: View, m0: Machine, d: nat)
    requires |m0.frames| == d + 1
    requires forall t :: Reaches(StepsOf(env, v, d), m0, t) ==> RespectsNext(env, v, t, d)
    ensures var rel := (x: Machine) => CalleeKept(env, m0.frames, m0, x);
      forall t :: Reaches(StepsOf(env, v, d), m0, t) && StepsOf(env, v, d).ok(t) && rel(t) ==> KeepsAt(StepsOf(env, v, d), rel, t)
  {
    var rel := (x: Machine) => CalleeKept(env, m0.frames, m0, x);
    forall t | Reaches(StepsOf(env, v, d), m0, t) && StepsOf(env, v, d).ok(t) && rel(t)
      ensures KeepsAt(StepsOf(env, v, d), rel, t)
    {
      KeepsAtCall(env, v, m0, t, d);
    }
  }

  lemma RunEndsNeutral(env: Env, v: View, m: Machine, prnum: nat, index: nat, m0: Machine, budget: nat)
    requires Callable(env, v, m) && Enter(env, m, prnum, index, m.x.pc).error.None? && m0 == Enter(env, m, prnum, index, m.x.pc).m
    requires Sound(StepsOf(env, v, |m.frames|)) && RunOk(env, v, m0, |m.frames|)
    requires |m0.frames| == |m.frames| + 1 && CalleeKept(env, m0.frames, m0, m0)
    requires forall t :: Reaches(StepsOf(env, v, |m.frames|), m0, t) ==> RespectsNext(env, v, t, |m.frames|)
    ensures EndsNeutral(env, m, m0, Run(StepsOf(env, v, |m.frames|), m0, budget))
  {
    var l := StepsOf(env, v, |m.frames|);
    var rel := (x: Machine) => CalleeKept(env, m0.frames, m0, x);
    KeptThroughout(env, v, m0, |m.frames|);
    RunKeeps(l, rel, m0, budget);
    match Run(l, m0, budget)
    case Spent(m') => KeptEndsNeutral(env, v, m, prnum, index, m');
    case Exited(exit, m', left) =>
      var t :| l.ok(t) && rel(t) && Reaches(l, m0, t) && l.step(t).out == Stop(exit, m');
      StopEndsNeutral(env, v, m, prnum, index, t, left);
  }

  /** Calling a function whose body does not write the saved part of the local stack gives the
      caller back its context, its stack and the function's locals, however the run stops and
      whatever functions it calls on the way, recursive or not. */
  lemma CallIsNeutral(env: Env, v: View, m: Machine, prnum: nat, index: nat, budget: nat)
    requires Callable(env, v, m) && Enter(env, m, prnum, index, m.x.pc).error.None?
    requires forall t :: Reaches(StepsOf(env, v, |m.frames|), Enter(env, m, prnum, index, m.x.pc).m, t) ==>
               RespectsNext(env, v, t, |m.frames|)
    ensures Sound(StepsOf(env, v, |m.frames|)) && RunOk(env, v, Enter(env, m, prnum, index, m.x.pc).m, |m.frames|)
    ensures var m0 := Enter(env, m, prnum, index, m.x.pc).m;
      EndsNeutral(env, m, m0, Run(StepsOf(env, v, |m.frames|), m0, budget))
  {
    InterpreterSound(env, v, |m.frames|);
    EnteredKept(env, v, m, prnum, index);
    RunEndsNeutral(env, v, m, prnum, index, Enter(env, m, prnum, index, m.x.pc).m, budget);
  }
}
