/** Where threads can be suspended: whatever builtin a host call comes to sees a machine whose QuakeC can
    be captured whole (`src/vm/threads.rs`, `src/vm/mod.rs`). */
module Suspension {
  import opened Bytes
  import opened Program
  import opened Memory
  import opened Views
  import opened Machine
  import opened Step
  import opened Interp
  import opened Frames
  import opened Locals
  import opened Loop
  import opened Threads
  import opened Host
  import opened VmEngine
  import Loader
  import Resume

  // ---- whole runs ------------------------------------------------------------------------------

  /** A run keeps activations where their functions are. */
  lemma RunKeepsSited(env: Env, v: View, m: Machine, d: nat, budget: nat)
    requires RunOk(env, v, m, d) && Sited(env, m)
    ensures Sound(StepsOf(env, v, d)) && Sited(env, Run(StepsOf(env, v, d), m, budget).s)
  {
    InterpreterSound(env, v, d);
    var l := StepsOf(env, v, d);
    var rel := (t: Machine) => Sited(env, t);
    forall t | l.ok(t) && rel(t)
      ensures KeepsAt(l, rel, t) && rel(l.step(t).out.s)
    {
      StepKeepsSited(env, v, t, d);
    }
    RunKeeps(l, rel, m, budget);
  }

  /** A machine laid out for its programs, every activation above the bottom one entered by a call. */
  predicate Fit(env: Env, v: View, m: Machine) { Laid(env, v, m.mem) && StackOk(m) && Sited(env, m) }

  lemma FuncInside(env: Env, sLen: nat, prnum: nat, index: nat)
    requires EnvOk(env, sLen) && FuncAt(env, prnum, index).Some?
    ensures var f := FuncAt(env, prnum, index).value; f.localsAddr + 4 * f.localsWords <= sLen
  {
    assert ProgsOk(env.progs[prnum], sLen);
    assert Loader.EntryOk(env.progs[prnum].funcs[index], env.progs[prnum].gbase, env.progs[prnum].numGlobals + 3, |env.progs[prnum].code|);
  }

  /** The same contexts, in any memory laid out for the programs, are as fit. */
  lemma ResumesFit(env: Env, v: View, m: Machine, m': Machine)
    requires Fit(env, v, m) && Resumes(env, m, m') && Laid(env, v, m'.mem)
    ensures Fit(env, v, m')
  {
    forall j | 0 < j <= |m'.frames|
      ensures SitedAt(env, m', j)
    {
      assert SitedAt(env, m, j);
      FuncInside(env, |m'.mem.s|, ActAt(m, j).prnum, ActAt(m, j).func);
    }
  }

  lemma EnterFit(env: Env, v: View, m: Machine, prnum: nat, index: nat)
    requires Fit(env, v, m) && Laid(env, v, Enter(env, m, prnum, index, m.x.pc).m.mem)
    ensures Fit(env, v, Enter(env, m, prnum, index, m.x.pc).m)
  {
    EnterKeepsSited(env, m, prnum, index, m.x.pc);
    EnterKeepsStack(env, m, prnum, index, m.x.pc);
  }

  /** Function `index` is QuakeC in both progs, with the same locals. */
  predicate SameLocals(env: Env, prnum: nat, other: nat, index: nat) {
    var f, g := FuncAt(env, prnum, index), FuncAt(env, other, index);
    f.Some? && g.Some? && g.value.localsAddr == f.value.localsAddr && g.value.localsWords == f.value.localsWords
  }

  /** A machine as a builtin of progs `prnum` sees it when the host calls it directly. */
  function SeenBy(m: Machine, prnum: nat): Machine { m.(x := m.x.(prnum := prnum)) }

  /** The context such a builtin interrupts stays fit exactly when nothing runs, or the builtin's progs
      has, under the number of the running function, a function with the same locals. */
  lemma DirectBuiltinFitExactly(env: Env, v: View, m: Machine, prnum: nat)
    requires Fit(env, v, m)
    ensures Fit(env, v, SeenBy(m, prnum)) <==> m.frames == [] || SameLocals(env, m.x.prnum, prnum, m.x.func)
  {
    var m' := SeenBy(m, prnum);
    if m.frames != [] {
      assert SitedAt(env, m, |m.frames|);
      if Sited(env, m') { assert SitedAt(env, m', |m'.frames|); }
      if SameLocals(env, m.x.prnum, prnum, m.x.func) {
        forall j | 0 < j <= |m'.frames|
          ensures SitedAt(env, m', j)
        {
          assert SitedAt(env, m, j);
        }
      }
    }
  }

  // ---- a thread that is not captured -----------------------------------------------------------

  /** Two progs: function 2 of the first is QuakeC with one local word; function 1 of the second is a
      builtin, and it has no function 2. */
  function TwoProgs(): Env {
    Env([ProgsState(4, 40, [Poisoned, Stmt(Return, 4, 4, 4), Sentinel], [NullFn, NullFn, QcFn],
                    [None, None, Some(QcFunc(1, 132, 1, []))], []),
         ProgsState(244, 28, [Sentinel], [NullFn, BuiltinFn(0)], [None, None], [])],
        8, false, false, 0, (n: nat, a: word, b: word) => 0, (a: word, b: word) => false,
        (a: word, b: word) => false, (a: word) => 0, (i: int) => 0)
  }

  /** That function is running. */
  function RunningFirst(): Machine {
    var mem := Mem(Zeros(368), Zeros(16), 368, 16, 0, 1, [EntSlot(true, false, 0.0, 1)], [], 0, 384, 176, 16);
    Machine(mem, StrTab([], 0, []), [Frame(0, NO_FUNCTION, 0, 0, 0, SwFloat, 0, 0, 0)],
            Exec(1, 2, 0, 0, 1, 0, SwFloat, 132, 1), 0)
  }

  lemma TwoProgsOk(env: Env, a: ProgsState, b: ProgsState)
    requires env == TwoProgs() && a == env.progs[0] && b == env.progs[1]
    ensures EnvOk(env, 368)
  {
    ReturnsFirst(a.gbase, a.numGlobals + 3, |a.code|);
    assert ProgsOk(a, 368);
    assert ProgsOk(b, 368);
  }

  lemma RunningIsFit(env: Env, m: Machine)
    requires env == TwoProgs() && m == RunningFirst()
    ensures Fit(env, Whole, m) && Suspendable(env, m, 0)
  {
    TwoProgsOk(env, env.progs[0], env.progs[1]);
    assert Times(1, 16) == 16 by { assert Times(0, 16) == 0; }
    assert m.frames[..1] == m.frames && m.frames[..0] == [];
    assert SitedAt(env, m, 1);
  }

  /** The QuakeC that runs there can be suspended by a builtin it calls. A builtin of the second progs
      that the host calls meanwhile finds nothing to suspend. */
  lemma DirectBuiltinMissesThread(env: Env, m: Machine, fv: word, resume: (word, word, word), selfAt: seq<nat>)
    requires env == TwoProgs() && m == RunningFirst() && fv == 0x100_0001
    ensures Fit(env, Whole, m) && CalleeAt(env, fv) == BuiltinFn(0)
    ensures Snapshot(env, m, 0, resume, selfAt).Some?
    ensures !Suspendable(env, SeenBy(m, ProgsOf(fv)), 0) && Snapshot(env, SeenBy(m, ProgsOf(fv)), 0, resume, selfAt).None?
  {
    RunningIsFit(env, m);
    Resume.SnapshotTaken(env, m, 0, resume, selfAt);
    DirectBuiltinFitExactly(env, Whole, m, ProgsOf(fv));
    var m' := SeenBy(m, ProgsOf(fv));
    var c := ChainFrom(m', 0);
    assert c[0] == OfExec(m'.x) && FuncAt(env, 1, 2).None?;
    assert CaptureLocals(env, m'.mem.s, c, 1).None? by {
      assert CaptureLocals(env, m'.mem.s, c, 0) == Some([]);
      assert !Seen(c, 0);
    }
  }

  /** With one progs it always stays fit. */
  lemma DirectBuiltinFit(env: Env, v: View, m: Machine, prnum: nat)
    requires |env.progs| == 1 && Fit(env, v, m) && prnum == 0
    ensures Fit(env, v, SeenBy(m, prnum))
  {
    if m.frames != [] { assert SitedAt(env, m, |m.frames|); }
    DirectBuiltinFitExactly(env, v, m, prnum);
  }

  // ---- what builtins see -----------------------------------------------------------------------

  /** The host without its builtins, except where they are called at a machine `seen` accepts. */
  function Guarded(c: HostConfig, seen: Machine -> bool): HostConfig {
    c.(builtin := (slot: nat, m: Machine) => if seen(m) then c.builtin(slot, m) else Missing)
  }

  /** `c'` has the builtins of `c` at every fit machine. */
  ghost predicate SameAtFit(env: Env, v: View, c: HostConfig, c': HostConfig) {
    && c' == c.(builtin := c'.builtin)
    && forall slot: nat, m: Machine :: Fit(env, v, m) ==> c'.builtin(slot, m) == c.builtin(slot, m)
  }

  /** A VM with one progs under a host, and under another with the same builtins at fit machines. */
  ghost predicate Watched(env: Env, v: View, g: Engine, c: HostConfig, c': HostConfig) {
    g == QcEngine(env, v) && Lawful(g) && HostOk(g, c) && |env.progs| == 1 && SameAtFit(env, v, c, c')
  }

  /** Where a stretch of the interpreter leads does not depend on the builtins. */
  lemma SameStretch(g: Engine, c: HostConfig, c': HostConfig, vm: Vm, d: nat)
    requires Lawful(g) && HostOk(g, c) && c'.chunk == c.chunk && g.loop(d).ok(vm.m) && StackOk(vm.m) && d < |vm.m.frames|
    ensures g.sane(Run(g.loop(d), vm.m, ChunkOf(c, vm.budget)).s.mem)
    ensures var r := Run(g.loop(d), vm.m, ChunkOf(c, vm.budget));
      var n := NextFrom(g, vm, d, r, vm.budget - ChunkOf(c, vm.budget));
      && NextOf(g, c, vm, d) == n && NextOf(g, c', vm, d) == n && (!n.Ended? ==> n.vm.m == r.s)
  {
    assert RunLaw(g, d, vm.m, ChunkOf(c, vm.budget));
  }

  lemma NextFit(env: Env, v: View, g: Engine, c: HostConfig, c': HostConfig, vm: Vm, d: nat)
    requires Watched(env, v, g, c, c') && g.loop(d).ok(vm.m) && Fit(env, v, vm.m) && d < |vm.m.frames|
    ensures var n := NextOf(g, c, vm, d);
      NextOf(g, c', vm, d) == n && (!n.Ended? ==> Fit(env, v, n.vm.m))
  {
    SameStretch(g, c, c', vm, d);
    RunKeepsSited(env, v, vm.m, d, ChunkOf(c, vm.budget));
  }

  lemma ExecuteGuarded(env: Env, v: View, g: Engine, c: HostConfig, c': HostConfig, vm: Vm, d: nat)
    requires Watched(env, v, g, c, c') && g.loop(d).ok(vm.m) && 0 < vm.nesting <= c.reentry
    requires Fit(env, v, vm.m) && d < |vm.m.frames|
    ensures ExecuteInner(g, c', vm, d) == ExecuteInner(g, c, vm, d)
    decreases Room(c, vm), vm.budget, 0, 0
  {
    NextFit(env, v, g, c, c', vm, d);
    var n := NextOf(g, c, vm, d);
    if n.Again? {
      ExecuteGuarded(env, v, g, c, c', n.vm, d);
    } else if n.AtBuiltin? {
      AfterBuiltinGuarded(env, v, g, c, c', n.vm, n.slot, d);
    }
  }

  lemma AfterBuiltinGuarded(env: Env, v: View, g: Engine, c: HostConfig, c': HostConfig, vm: Vm, slot: nat, d: nat)
    requires Watched(env, v, g, c, c') && 0 < vm.nesting <= c.reentry && MayGoOn(g, d, vm.m)
    requires Fit(env, v, vm.m) && d < |vm.m.frames|
    ensures AfterBuiltinExit(g, c', vm, slot, d) == AfterBuiltinExit(g, c, vm, slot, d)
    decreases Room(c, vm), vm.budget, 4, 0
  {
    BuiltinGuarded(env, v, g, c, c', vm, slot, d);
    var r := RunBuiltin(g, c, vm, slot, d);
    if r.Continue? {
      MayContinue(g, d, vm.m, r.vm.m);
      ResumesFit(env, v, vm.m, r.vm.m);
      ExecuteGuarded(env, v, g, c, c', r.vm, d);
      AfterContinues(g, c, vm, slot, d, r);
      AfterContinues(g, c', vm, slot, d, r);
    } else {
      AfterStops(g, c, vm, slot, d, r);
      AfterStops(g, c', vm, slot, d, r);
    }
  }

  lemma BuiltinGuarded(env: Env, v: View, g: Engine, c: HostConfig, c': HostConfig, vm: Vm, slot: nat, d: nat)
    requires Watched(env, v, g, c, c') && 0 < vm.nesting <= c.reentry && Fit(env, v, vm.m)
    ensures RunBuiltin(g, c', vm, slot, d) == RunBuiltin(g, c, vm, slot, d)
    decreases Room(c, vm), vm.budget, 2, 0
  {
    var b := c.builtin(slot, vm.m);
    assert c'.builtin(slot, vm.m) == b;
    if b.Provided? { ActsGuarded(env, v, g, c, c', vm, b.acts); }
  }

  lemma ActsGuarded(env: Env, v: View, g: Engine, c: HostConfig, c': HostConfig, vm: Vm, acts: seq<Act>)
    requires Watched(env, v, g, c, c') && 0 < vm.nesting <= c.reentry && Fit(env, v, vm.m)
    ensures RunActs(g, c', vm, acts) == RunActs(g, c, vm, acts)
    decreases Room(c, vm), vm.budget, 1, |acts|
  {
    if acts != [] {
      match acts[0]
      case Poke(f) =>
        ResumesFit(env, v, vm.m, Poked(g, vm.m, f));
        ActsGuarded(env, v, g, c, c', vm.(m := Poked(g, vm.m, f)), acts[1..]);
      case CallBack(target, args, ignoreError) =>
        CallGuarded(env, v, g, c, c', vm, target(vm.m), args(vm.m));
        var o := CallInner(g, c, vm, target(vm.m), args(vm.m));
        if o.error.None? || ignoreError {
          ResumesFit(env, v, vm.m, o.vm.m);
          ActsGuarded(env, v, g, c, c', o.vm, acts[1..]);
        }
    }
  }

  lemma CallGuarded(env: Env, v: View, g: Engine, c: HostConfig, c': HostConfig, vm: Vm, fv: word, args: seq<Arg>)
    requires Watched(env, v, g, c, c') && vm.nesting <= c.reentry && Fit(env, v, vm.m)
    ensures CallInner(g, c', vm, fv, args) == CallInner(g, c, vm, fv, args)
    decreases Room(c, vm), vm.budget, 0, 0
  {
    if vm.nesting < c.reentry && |args| <= 8 {
      var vm0 := if vm.nesting == 0 then vm.(budget := c.runaway) else vm;
      var prnum := if g.callee(fv).QcFn? then vm.m.x.prnum else ProgsOf(fv);
      var vm1 := Began(g, vm0, prnum, args);
      ResumesFit(env, v, vm.m, vm1.m);
      CalleeGuarded(env, v, g, c, c', vm1, g.callee(fv), fv);
      CallUnfolds(g, c, vm, vm0, fv, args, prnum);
      CallUnfolds(g, c', vm, vm0, fv, args, prnum);
    }
  }

  lemma CalleeGuarded(env: Env, v: View, g: Engine, c: HostConfig, c': HostConfig, vm: Vm, callee: Callee, fv: word)
    requires Watched(env, v, g, c, c') && 0 < vm.nesting <= c.reentry && Fit(env, v, vm.m)
    requires callee == CalleeAt(env, fv)
    ensures CallCallee(g, c', vm, callee, fv) == CallCallee(g, c, vm, callee, fv)
    decreases Room(c, vm), vm.budget, 3, 0
  {
    match callee
    case QcFn => QcGuarded(env, v, g, c, c', vm, fv);
    case BuiltinFn(slot) =>
      DirectBuiltinFit(env, v, vm.m, ProgsOf(fv));
      BuiltinGuarded(env, v, g, c, c', vm.(m := SeenBy(vm.m, ProgsOf(fv))), slot, |vm.m.frames|);
    case _ =>
  }

  lemma QcGuarded(env: Env, v: View, g: Engine, c: HostConfig, c': HostConfig, vm: Vm, fv: word)
    requires Watched(env, v, g, c, c') && 0 < vm.nesting <= c.reentry && Fit(env, v, vm.m)
    ensures CallQc(g, c', vm, fv) == CallQc(g, c, vm, fv)
    decreases Room(c, vm), vm.budget, 1, 0
  {
    assert EnterLaw(g, vm.m, ProgsOf(fv), IndexOf(fv));
    var d := |vm.m.frames|;
    var e := g.enter(vm.m, ProgsOf(fv), IndexOf(fv));
    if e.error.None? {
      EnterFit(env, v, vm.m, ProgsOf(fv), IndexOf(fv));
      ExecuteGuarded(env, v, g, c, c', vm.(m := e.m, entryDepth := d), d);
    }
  }

  /** The QuakeC of the machine can be suspended from every engine boundary below it. */
  predicate Captures(env: Env, m: Machine) { forall d :: 0 <= d < |m.frames| ==> Suspendable(env, m, d) }

  lemma GuardSeesFit(env: Env, v: View, c: HostConfig, seen: Machine -> bool)
    requires forall m: Machine :: Fit(env, v, m) ==> seen(m)
    ensures SameAtFit(env, v, c, Guarded(c, seen))
  {
  }

  /** From a fit VM (an idle one, say), every builtin that a host call comes to, at whatever depth of
      nested calls, sees a machine whose QuakeC can be suspended, from any boundary: taking all builtins
      away from other machines changes nothing. */
  lemma BuiltinsSeeSuspendable(env: Env, v: View, c: HostConfig, vm: Vm, fv: word, args: seq<Arg>)
    requires |env.progs| == 1 && Fit(env, v, vm.m) && HostOk(QcEngine(env, v), c) && vm.nesting <= c.reentry
    ensures Lawful(QcEngine(env, v))
    ensures CallInner(QcEngine(env, v), Guarded(c, (m: Machine) => Captures(env, m)), vm, fv, args)
            == CallInner(QcEngine(env, v), c, vm, fv, args)
  {
    EngineIsLawful(env, v);
    var seen := (m: Machine) => Captures(env, m);
    GuardSeesFit(env, v, c, seen);
    CallGuarded(env, v, QcEngine(env, v), c, Guarded(c, seen), vm, fv, args);
  }

  /** A VM on which no QuakeC runs is fit. */
  lemma IdleIsFit(env: Env, v: View, m: Machine)
    requires Laid(env, v, m.mem) && Idle(m)
    ensures Fit(env, v, m)
  {
  }
}
