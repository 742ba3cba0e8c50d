/** Host calls give back the local stack and the callee's locals, byte by byte, whatever builtins and
    nested calls run on the way (`src/vm/mod.rs`, `src/vm/core.rs`). */
module HostStack {
  import opened Bytes
  import opened Program
  import opened Memory
  import opened Views
  import opened Machine
  import opened Step
  import opened Frames
  import opened Locals
  import opened Calls
  import opened Loop
  import opened Host
  import opened VmEngine
  import opened StackSafe

  // ---- the local stack in use ------------------------------------------------------------------

  /** Region S is where it was, and so are the bytes of the local stack in use. */
  predicate StackKept(m: Machine, m': Machine) {
    && SameStackShape(m.mem, m'.mem)
    && forall a :: 0 <= a < |m.mem.s| && StackAt(m.mem, 0) <= a < StackEnd(m) ==> m'.mem.s[a] == m.mem.s[a]
  }

  /** The same context goes on from `m'`, with its part of the local stack. */
  predicate GoesOn(env: Env, v: View, m: Machine, m': Machine) {
    Resumes(env, m, m') && Laid(env, v, m'.mem) && StackKept(m, m')
  }

  lemma GoesOnStill(env: Env, v: View, m: Machine, m1: Machine, m2: Machine)
    requires GoesOn(env, v, m, m1) && GoesOn(env, v, m1, m2)
    ensures GoesOn(env, v, m, m2)
  {
    assert StackEnd(m1) == StackEnd(m);
  }

  lemma StillCallable(env: Env, v: View, m: Machine, m': Machine)
    requires Callable(env, v, m) && GoesOn(env, v, m, m')
    ensures Callable(env, v, m')
  {
    forall i | 0 <= i <= |m'.frames|
      ensures Clear(m'.mem, LocalsAddr(m', i), LocalsWords(m', i))
    {
      assert Clear(m.mem, LocalsAddr(m, i), LocalsWords(m, i));
    }
  }

  /** What a call keeps for its caller lies in the part of the local stack in use. */
  lemma StillKept(env: Env, v: View, base: seq<Frame>, m0: Machine, m: Machine, m': Machine)
    requires CalleeKept(env, base, m0, m) && GoesOn(env, v, m, m')
    ensures CalleeKept(env, base, m0, m')
  {
    KeptBelowTop(base, m);
    forall i | 0 <= i <= |m'.frames|
      ensures Clear(m'.mem, LocalsAddr(m', i), LocalsWords(m', i))
    {
      assert Clear(m.mem, LocalsAddr(m, i), LocalsWords(m, i));
    }
  }

  // ---- hosts -----------------------------------------------------------------------------------

  /** A builtin's memory change moves no region S and leaves the local stack in use alone. */
  ghost predicate PoliteAct(g: Engine, act: Act) {
    act.Poke? ==> forall m {:trigger Poked(g, m, act.f)} :: StackKept(m, Poked(g, m, act.f))
  }

  ghost predicate PoliteActs(g: Engine, acts: seq<Act>) {
    forall i :: 0 <= i < |acts| ==> PoliteAct(g, acts[i])
  }

  /** A host whose builtins write anything but the QuakeC they were called from. */
  ghost predicate Polite(g: Engine, c: HostConfig) {
    forall slot, m :: c.builtin(slot, m).Provided? ==> PoliteActs(g, c.builtin(slot, m).acts)
  }

  /** A stretch of a call keeps what its caller saved, or gives it back. */
  ghost predicate StretchKept(env: Env, g: Engine, d: nat, base: seq<Frame>, m0: Machine, m: Machine, budget: nat) {
    Sound(g.loop(d)) && g.loop(d).ok(m) && CalleeKept(env, base, m0, m) && |base| == d + 1 ==>
      KeptOrBack(env, base, m0, Run(g.loop(d), m, budget))
  }

  ghost predicate KeepsStacks(env: Env, g: Engine, lsBase: nat) {
    forall d, base, m0: Machine, m, budget {:trigger StretchKept(env, g, d, base, m0, m, budget)} ::
      m0.mem.lsBase == lsBase ==> StretchKept(env, g, d, base, m0, m, budget)
  }

  /** The reserved globals are there, and all globals lie below the local stack. */
  predicate GlobalsBelow(ps: ProgsState, lsBase: nat) { ps.numGlobals >= 28 && ps.gbase + 4 * (ps.numGlobals + 3) <= lsBase }

  /** A VM with one progs whose interpreter keeps what is saved on the local stack, under a polite host. */
  ghost predicate Safe(env: Env, v: View, g: Engine, c: HostConfig, lsBase: nat) {
    && Interprets(env, v, g) && Lawful(g) && HostOk(g, c) && Polite(g, c)
    && |env.progs| == 1 && GlobalsBelow(env.progs[0], lsBase) && KeepsStacks(env, g, lsBase)
  }

  /** With safe code the interpreter does. */
  lemma SafeCodeIsSafe(env: Env, v: View, c: HostConfig, lsBase: nat)
    requires |env.progs| == 1 && SafeCode(v, env.progs[0], lsBase)
    requires HostOk(QcEngine(env, v), c) && Polite(QcEngine(env, v), c)
    ensures Safe(env, v, QcEngine(env, v), c, lsBase)
  {
    EngineInterprets(env, v);
    EngineIsLawful(env, v);
    var g := QcEngine(env, v);
    forall d: nat, base, m0: Machine, m, budget: nat | m0.mem.lsBase == lsBase
      ensures StretchKept(env, g, d, base, m0, m, budget)
    {
      if g.loop(d).ok(m) && CalleeKept(env, base, m0, m) && |base| == d + 1 { SafeRunKept(env, v, base, m0, m, d, budget); }
    }
  }

  // ---- arguments -------------------------------------------------------------------------------

  lemma PassArgAway(s: seq<byte>, at: nat, x: Arg, a: nat)
    requires a < |s| && Nth(at, 3) <= a
    ensures PassArg(s, at, x)[a] == s[a]
  {
    var s1 := Set(Whole, s, at, x.x);
    var s2 := Set(Whole, s1, Nth(at, 1), x.y);
    SetElsewhere(Whole, s, at, x.x, a);
    SetElsewhere(Whole, s1, Nth(at, 1), x.y, a);
    SetElsewhere(Whole, s2, Nth(at, 2), x.z, a);
  }

  lemma {:induction false} PassArgsAway(s: seq<byte>, at: nat, args: seq<Arg>, n: nat, a: nat)
    requires n <= |args| && a < |s| && Nth(at, 3 * n) <= a
    ensures PassArgs(s, at, args, n)[a] == s[a]
  {
    if n > 0 {
      PassArgsAway(s, at, args, n - 1, a);
      PassArgAway(PassArgs(s, at, args, n - 1), Nth(at, 3 * (n - 1)), args[n - 1], a);
    }
  }

  /** Arguments go to the PARM slots, below the local stack. */
  lemma BeganGoesOn(env: Env, v: View, g: Engine, c: HostConfig, vm: Vm, prnum: nat, args: seq<Arg>)
    requires Safe(env, v, g, c, vm.m.mem.lsBase) && g.sane(vm.m.mem) && |args| <= 8
    ensures GoesOn(env, v, vm.m, Began(g, vm, prnum, args).m)
  {
    var at := SlotAt(GlobalsBase(env, prnum), OFS_PARM0);
    var m := Began(g, vm, prnum, args).m;
    assert m.mem == vm.m.mem.(s := PassArgs(vm.m.mem.s, at, args, |args|));
    forall a | 0 <= a < |vm.m.mem.s| && StackAt(vm.m.mem, 0) <= a < StackEnd(vm.m)
      ensures m.mem.s[a] == vm.m.mem.s[a]
    {
      PassArgsAway(vm.m.mem.s, at, args, |args|, a);
    }
  }

  // ---- one stretch of the interpreter ----------------------------------------------------------

  /** Where one stretch of a call leads: its caller's memory is kept, or given back. */
  predicate NextKept(env: Env, base: seq<Frame>, m0: Machine, n: Next) {
    if n.Ended? then GivenBack(env, base, m0, n.o.vm.m) else CalleeKept(env, base, m0, n.vm.m)
  }

  lemma UnwoundGivesBack(env: Env, v: View, g: Engine, base: seq<Frame>, m0: Machine, vm: Vm, d: nat, error: Option<ErrorKind>)
    requires Interprets(env, v, g) && Lawful(g) && g.sane(vm.m.mem)
    requires CalleeKept(env, base, m0, vm.m) && |base| == d + 1
    ensures GivenBack(env, base, m0, Unwound(g, vm, d, error).vm.m)
  {
    UnwindGivesBack(env, base, m0, vm.m);
  }

  lemma NextFromKept(env: Env, v: View, g: Engine, base: seq<Frame>, m0: Machine, vm: Vm, d: nat,
                     r: RunResult<Machine, Exit>, more: nat)
    requires Interprets(env, v, g) && Lawful(g) && g.sane(r.s.mem)
    requires KeptOrBack(env, base, m0, r) && |base| == d + 1
    ensures NextKept(env, base, m0, NextFrom(g, vm, d, r, more))
  {
    match r
    case Spent(m') =>
      if more == 0 { UnwoundGivesBack(env, v, g, base, m0, vm.(m := m', budget := 0), d, Some(Runaway)); }
    case Exited(exit, m', left) =>
      if exit.FaultExit? {
        UnwoundGivesBack(env, v, g, base, m0, vm.(m := m', budget := more + left), d, Some(exit.kind));
      }
  }

  lemma NextOfKept(env: Env, v: View, g: Engine, c: HostConfig, base: seq<Frame>, m0: Machine, vm: Vm, d: nat)
    requires Safe(env, v, g, c, m0.mem.lsBase) && g.loop(d).ok(vm.m)
    requires CalleeKept(env, base, m0, vm.m) && |base| == d + 1
    ensures NextKept(env, base, m0, NextOf(g, c, vm, d))
  {
    var chunk := ChunkOf(c, vm.budget);
    assert StretchKept(env, g, d, base, m0, vm.m, chunk);
    assert RunLaw(g, d, vm.m, chunk);
    NextFromKept(env, v, g, base, m0, vm, d, Run(g.loop(d), vm.m, chunk), vm.budget - chunk);
  }

  // ---- calls -----------------------------------------------------------------------------------

  /** From wherever it stops, running to the end of a call gives its caller's memory back. */
  lemma ExecuteGivesBack(env: Env, v: View, g: Engine, c: HostConfig, base: seq<Frame>, m0: Machine, vm: Vm, d: nat)
    requires Safe(env, v, g, c, m0.mem.lsBase) && g.loop(d).ok(vm.m) && 0 < vm.nesting <= c.reentry
    requires CalleeKept(env, base, m0, vm.m) && |base| == d + 1
    ensures GivenBack(env, base, m0, ExecuteInner(g, c, vm, d).vm.m)
    decreases Room(c, vm), vm.budget, 0, 0
  {
    NextOfKept(env, v, g, c, base, m0, vm, d);
    var n := NextOf(g, c, vm, d);
    if n.Again? {
      ExecuteGivesBack(env, v, g, c, base, m0, n.vm, d);
    } else if n.AtBuiltin? {
      AfterBuiltinGivesBack(env, v, g, c, base, m0, n.vm, n.slot, d);
    }
  }

  lemma AfterBuiltinGivesBack(env: Env, v: View, g: Engine, c: HostConfig, base: seq<Frame>, m0: Machine, vm: Vm, slot: nat, d: nat)
    requires Safe(env, v, g, c, m0.mem.lsBase) && g.sane(vm.m.mem) && 0 < vm.nesting <= c.reentry && MayGoOn(g, d, vm.m)
    requires CalleeKept(env, base, m0, vm.m) && |base| == d + 1
    ensures GivenBack(env, base, m0, AfterBuiltinExit(g, c, vm, slot, d).vm.m)
    decreases Room(c, vm), vm.budget, 4, 0
  {
    var t := BuiltinGoesOn(env, v, g, c, vm, slot, d);
    StillKept(env, v, base, m0, vm.m, t);
    var r := RunBuiltin(g, c, vm, slot, d);
    if r.Continue? {
      ExecuteGivesBack(env, v, g, c, base, m0, r.vm, d);
    } else {
      UnwindGivesBack(env, base, m0, t);
    }
  }

  /** How a builtin ends, given where its acts led. */
  lemma BuiltinEnds(g: Engine, c: HostConfig, vm: Vm, slot: nat, d: nat)
    requires Lawful(g) && HostOk(g, c) && g.sane(vm.m.mem) && 0 < vm.nesting <= c.reentry && StackOk(vm.m)
    ensures var r, b := RunBuiltin(g, c, vm, slot, d), c.builtin(slot, vm.m);
      && (b.Missing? ==> r.Fail? && r.vm.m == g.unwind(vm.m, d))
      && (b.Provided? ==>
            var t := RunActs(g, c, vm, b.acts).vm.m; r.vm.m == if r.Continue? then t else g.unwind(t, d))
  {
  }

  /** A builtin leads to a machine its caller goes on from, or that is unwound. */
  lemma BuiltinGoesOn(env: Env, v: View, g: Engine, c: HostConfig, vm: Vm, slot: nat, d: nat) returns (t: Machine)
    requires Safe(env, v, g, c, vm.m.mem.lsBase) && Callable(env, v, vm.m) && 0 < vm.nesting <= c.reentry
    ensures GoesOn(env, v, vm.m, t)
    ensures var r := RunBuiltin(g, c, vm, slot, d); r.vm.m == if r.Continue? then t else g.unwind(t, d)
    decreases Room(c, vm), vm.budget, 2, 0
  {
    BuiltinEnds(g, c, vm, slot, d);
    match c.builtin(slot, vm.m)
    case Missing => t := vm.m;
    case Provided(acts, end) =>
      ActsGoOn(env, v, g, c, vm, acts);
      t := RunActs(g, c, vm, acts).vm.m;
  }

  lemma ActsGoOn(env: Env, v: View, g: Engine, c: HostConfig, vm: Vm, acts: seq<Act>)
    requires Safe(env, v, g, c, vm.m.mem.lsBase) && Callable(env, v, vm.m) && 0 < vm.nesting <= c.reentry
    requires PoliteActs(g, acts)
    ensures GoesOn(env, v, vm.m, RunActs(g, c, vm, acts).vm.m)
    decreases Room(c, vm), vm.budget, 1, |acts|
  {
    if acts != [] {
      assert PoliteAct(g, acts[0]);
      match acts[0]
      case Poke(f) =>
        var vm1 := vm.(m := Poked(g, vm.m, f));
        StillCallable(env, v, vm.m, vm1.m);
        ActsGoOn(env, v, g, c, vm1, acts[1..]);
        GoesOnStill(env, v, vm.m, vm1.m, RunActs(g, c, vm, acts).vm.m);
      case CallBack(target, args, ignoreError) =>
        var o := CallInner(g, c, vm, target(vm.m), args(vm.m));
        CallGoesOn(env, v, g, c, vm, target(vm.m), args(vm.m));
        if o.error.None? || ignoreError {
          StillCallable(env, v, vm.m, o.vm.m);
          ActsGoOn(env, v, g, c, o.vm, acts[1..]);
          GoesOnStill(env, v, vm.m, o.vm.m, RunActs(g, c, vm, acts).vm.m);
        }
    }
  }

  lemma CallGoesOn(env: Env, v: View, g: Engine, c: HostConfig, vm: Vm, fv: word, args: seq<Arg>)
    requires Safe(env, v, g, c, vm.m.mem.lsBase) && Callable(env, v, vm.m) && vm.nesting <= c.reentry
    ensures GoesOn(env, v, vm.m, CallInner(g, c, vm, fv, args).vm.m)
    decreases Room(c, vm), vm.budget, 0, 0
  {
    if vm.nesting < c.reentry && |args| <= 8 {
      var vm0 := if vm.nesting == 0 then vm.(budget := c.runaway) else vm;
      var callee := g.callee(fv);
      var prnum := if callee.QcFn? then vm.m.x.prnum else ProgsOf(fv);
      var vm1 := Began(g, vm0, prnum, args);
      BeganGoesOn(env, v, g, c, vm0, prnum, args);
      StillCallable(env, v, vm.m, vm1.m);
      CalleeGoesOn(env, v, g, c, vm1, callee, fv);
      CallUnfolds(g, c, vm, vm0, fv, args, prnum);
      var o := CallCallee(g, c, vm1, callee, fv);
      GoesOnStill(env, v, vm.m, vm1.m, o.vm.m);
      ArgcAside(env, v, vm.m, o.vm.m, vm.m.argc);
    }
  }

  lemma ArgcAside(env: Env, v: View, m: Machine, m': Machine, argc: nat)
    requires GoesOn(env, v, m, m')
    ensures GoesOn(env, v, m, m'.(argc := argc))
  {
  }

  lemma CalleeGoesOn(env: Env, v: View, g: Engine, c: HostConfig, vm: Vm, callee: Callee, fv: word)
    requires Safe(env, v, g, c, vm.m.mem.lsBase) && Callable(env, v, vm.m) && 0 < vm.nesting <= c.reentry
    requires callee == CalleeAt(env, fv)
    ensures GoesOn(env, v, vm.m, CallCallee(g, c, vm, callee, fv).vm.m)
    decreases Room(c, vm), vm.budget, 3, 0
  {
    match callee
    case QcFn => QcGivesBack(env, v, g, c, vm, fv);
    case BuiltinFn(slot) => BuiltinCallGoesOn(env, v, g, c, vm, slot, fv);
    case _ =>
  }

  lemma BuiltinCallGoesOn(env: Env, v: View, g: Engine, c: HostConfig, vm: Vm, slot: nat, fv: word)
    requires Safe(env, v, g, c, vm.m.mem.lsBase) && Callable(env, v, vm.m) && 0 < vm.nesting <= c.reentry
    requires ProgsOf(fv) == 0
    ensures GoesOn(env, v, vm.m, CallBuiltin(g, c, vm, slot, fv).vm.m)
    decreases Room(c, vm), vm.budget, 2, 1
  {
    assert vm.m.(x := vm.m.x.(prnum := ProgsOf(fv))) == vm.m;
    var t := BuiltinGoesOn(env, v, g, c, vm, slot, |vm.m.frames|);
    assert Unwind(env, t, |vm.m.frames|) == t;
  }

  /** Calling QuakeC gives back the local stack in use and, if the function was entered, its locals. */
  lemma QcGivesBack(env: Env, v: View, g: Engine, c: HostConfig, vm: Vm, fv: word)
    requires Safe(env, v, g, c, vm.m.mem.lsBase) && Callable(env, v, vm.m) && 0 < vm.nesting <= c.reentry
    ensures GoesOn(env, v, vm.m, CallQc(g, c, vm, fv).vm.m)
    ensures var e := Enter(env, vm.m, ProgsOf(fv), IndexOf(fv), vm.m.x.pc);
      e.error.None? ==> Neutral(env, e.m.x.localsAddr, e.m.x.localsWords, vm.m, CallQc(g, c, vm, fv).vm.m)
    decreases Room(c, vm), vm.budget, 1, 0
  {
    var d := |vm.m.frames|;
    var e := Enter(env, vm.m, ProgsOf(fv), IndexOf(fv), vm.m.x.pc);
    if e.error.None? {
      EnteredKept(env, v, vm.m, ProgsOf(fv), IndexOf(fv));
      assert EnterLaw(g, vm.m, ProgsOf(fv), IndexOf(fv));
      var vm1 := vm.(m := e.m, entryDepth := d);
      ExecuteGivesBack(env, v, g, c, e.m.frames, e.m, vm1, d);
      GivenBackIsNeutral(env, v, vm.m, ProgsOf(fv), IndexOf(fv), ExecuteInner(g, c, vm1, d).vm.m);
    } else {
      RefusedEntry(env, vm.m, ProgsOf(fv), IndexOf(fv), vm.m.x.pc);
    }
  }

  // ---- host calls ------------------------------------------------------------------------------

  /** A machine with a call's arguments in place. */
  function Passed(env: Env, v: View, m: Machine, args: seq<Arg>): Machine {
    QcEngine(env, v).passArgs(m, m.x.prnum, args).(argc := |args|)
  }

  /** What a call from the host gives its caller back: the local stack in use, byte by byte, and the
      locals of the function it called as they were when its arguments had been passed. */
  ghost predicate CallGivesBack(env: Env, v: View, c: HostConfig, vm: Vm, fv: word, args: seq<Arg>, m': Machine) {
    var e := Enter(env, Passed(env, v, vm.m, args), ProgsOf(fv), IndexOf(fv), vm.m.x.pc);
    && GoesOn(env, v, vm.m, m') && m'.argc == vm.m.argc
    && (CalleeAt(env, fv).QcFn? && |args| <= 8 && vm.nesting < c.reentry && e.error.None? ==>
          Neutral(env, e.m.x.localsAddr, e.m.x.localsWords, Passed(env, v, vm.m, args), m'))
  }

  lemma SafeCallGivesBack(env: Env, v: View, g: Engine, c: HostConfig, vm: Vm, fv: word, args: seq<Arg>)
    requires Safe(env, v, g, c, vm.m.mem.lsBase) && Callable(env, v, vm.m) && vm.nesting <= c.reentry
    ensures CallGivesBack(env, v, c, vm, fv, args, CallInner(g, c, vm, fv, args).vm.m)
  {
    CallGoesOn(env, v, g, c, vm, fv, args);
    if CalleeAt(env, fv).QcFn? && |args| <= 8 && vm.nesting < c.reentry {
      QcCallGivesBack(env, v, g, c, vm, fv, args);
    }
  }

  /** A host call with safe code under a polite host gives this back however it ends (by returning, a
      fault, an abort, the end of the budget, too deep a nesting), after any number of builtins and
      calls back from them, and however the budget is handed out. */
  lemma HostCallGivesBack(env: Env, v: View, c: HostConfig, vm: Vm, fv: word, args: seq<Arg>)
    requires Callable(env, v, vm.m) && SafeCode(v, env.progs[0], vm.m.mem.lsBase)
    requires HostOk(QcEngine(env, v), c) && Polite(QcEngine(env, v), c) && vm.nesting <= c.reentry
    ensures Lawful(QcEngine(env, v))
    ensures CallGivesBack(env, v, c, vm, fv, args, CallInner(QcEngine(env, v), c, vm, fv, args).vm.m)
  {
    SafeCodeIsSafe(env, v, c, vm.m.mem.lsBase);
    SafeCallGivesBack(env, v, QcEngine(env, v), c, vm, fv, args);
  }

  lemma QcCallIs(env: Env, v: View, g: Engine, c: HostConfig, vm: Vm, vm1: Vm, fv: word, args: seq<Arg>)
    requires Interprets(env, v, g) && Lawful(g) && HostOk(g, c) && g.sane(vm.m.mem) && StackOk(vm.m)
    requires vm.nesting < c.reentry && |args| <= 8 && CalleeAt(env, fv).QcFn?
    requires vm1 == Began(g, if vm.nesting == 0 then vm.(budget := c.runaway) else vm, vm.m.x.prnum, args)
    ensures CallInner(g, c, vm, fv, args).vm.m == CallQc(g, c, vm1, fv).vm.m.(argc := vm.m.argc)
    ensures vm1.m == Passed(env, v, vm.m, args)
  {
    var vm0 := if vm.nesting == 0 then vm.(budget := c.runaway) else vm;
    CallUnfolds(g, c, vm, vm0, fv, args, vm.m.x.prnum);
  }

  lemma NeutralAside(env: Env, addr: nat, words: nat, m: Machine, m': Machine, argc: nat)
    requires Neutral(env, addr, words, m, m')
    ensures Neutral(env, addr, words, m, m'.(argc := argc))
  {
  }

  lemma QcCallGivesBack(env: Env, v: View, g: Engine, c: HostConfig, vm: Vm, fv: word, args: seq<Arg>)
    requires Safe(env, v, g, c, vm.m.mem.lsBase) && Callable(env, v, vm.m) && vm.nesting < c.reentry && |args| <= 8
    requires CalleeAt(env, fv).QcFn?
    ensures var m := Passed(env, v, vm.m, args);
      var e := Enter(env, m, ProgsOf(fv), IndexOf(fv), m.x.pc);
      e.error.None? ==>
        Neutral(env, e.m.x.localsAddr, e.m.x.localsWords, m, CallInner(g, c, vm, fv, args).vm.m)
  {
    var vm0 := if vm.nesting == 0 then vm.(budget := c.runaway) else vm;
    var vm1 := Began(g, vm0, vm.m.x.prnum, args);
    BeganGoesOn(env, v, g, c, vm0, vm.m.x.prnum, args);
    StillCallable(env, v, vm.m, vm1.m);
    QcCallIs(env, v, g, c, vm, vm1, fv, args);
    QcGivesBack(env, v, g, c, vm1, fv);
    var e := Enter(env, vm1.m, ProgsOf(fv), IndexOf(fv), vm1.m.x.pc);
    if e.error.None? {
      NeutralAside(env, e.m.x.localsAddr, e.m.x.localsWords, vm1.m, CallQc(g, c, vm1, fv).vm.m, vm.m.argc);
    }
  }
}
