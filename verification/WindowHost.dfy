/** Host calls through the window (`src/vm/interp.rs`, `src/vm/mod.rs`): in a VM the window fits, a call
    from the host, with the builtins and the nested calls it makes, is the same whether the interpreter
    runs through the window or on the whole of memory. */
module WindowHost {
  import opened Bytes
  import opened Program
  import opened Memory
  import opened Views
  import opened Machine
  import opened Step
  import opened Interp
  import opened Frames
  import opened Loop
  import opened Host
  import opened VmEngine
  import opened WindowRun
  import Chunks

  // ---- the two interpreters --------------------------------------------------------------------

  /** The interpreter on the whole of memory, and through the window. */
  ghost predicate BothViews(env: Env, g: Engine, g': Engine) {
    g == QcEngine(env, Whole) && g' == QcEngine(env, Window) && Lawful(g) && Lawful(g')
  }

  /** Memory is laid out for the progs, and the window fits. */
  predicate Fits(env: Env, mem: Mem) { Laid(env, Whole, mem) && WindowFits(env, mem.s) }

  lemma FitsBoth(env: Env, mem: Mem)
    requires Fits(env, mem)
    ensures Laid(env, Window, mem)
  {
    WindowViewOk(env, mem.s);
  }

  /** Memory that any part of a call leaves fits again. */
  lemma StaysFit(env: Env, mem: Mem, mem': Mem)
    requires Fits(env, mem) && Laid(env, Window, mem')
    ensures Fits(env, mem')
  {
    StillFits(env, mem.s, mem'.s);
  }

  lemma PokedAlike(env: Env, g: Engine, g': Engine, m: Machine, f: Machine -> Machine)
    requires BothViews(env, g, g') && Fits(env, m.mem)
    ensures Poked(g', m, f) == Poked(g, m, f) && Fits(env, Poked(g, m, f).mem)
  {
    FitsBoth(env, m.mem);
    var t := f(m);
    if Untouched(m, t) {
      StillFits(env, m.mem.s, t.mem.s);
      if Laid(env, Whole, t.mem) { FitsBoth(env, t.mem); }
      if Laid(env, Window, t.mem) { StaysFit(env, m.mem, t.mem); }
    }
  }

  lemma UnwoundAlike(env: Env, g: Engine, g': Engine, vm: Vm, d: nat, error: Option<ErrorKind>)
    requires BothViews(env, g, g') && g.sane(vm.m.mem) && g'.sane(vm.m.mem)
    ensures Unwound(g', vm, d, error) == Unwound(g, vm, d, error)
  {
  }

  lemma FinishedAlike(env: Env, g: Engine, g': Engine, vm: Vm, end: End, d: nat)
    requires BothViews(env, g, g') && g.sane(vm.m.mem) && g'.sane(vm.m.mem)
    ensures Finished(g', vm, end, d) == Finished(g, vm, end, d)
  {
    match end
    case EndOk =>
    case EndAbort(ret) => UnwoundAlike(env, g, g', vm.(abortRet := Some(ret)), d, None);
    case EndError(_) => UnwoundAlike(env, g, g', vm, d, None);
  }

  // ---- one stretch -----------------------------------------------------------------------------

  /** Stopping for a builtin leaves the contexts' `SWITCH` state alone. */
  lemma BuiltinExitSwitches(env: Env, m: Machine, d: nat)
    requires RunOk(env, Whole, m, d)
    requires StepOf(env, Whole, m, d).out.Stop? && StepOf(env, Whole, m, d).out.exit.BuiltinExit?
    ensures var t := StepOf(env, Whole, m, d).out.s; t.frames == m.frames && t.x.switchRef == m.x.switchRef
  {
    FetchIsNext(env, Whole, m, d);
  }

  lemma BuiltinExitFits(env: Env, m: Machine, d: nat)
    requires FitsWindow(env, m, d)
    requires StepOf(env, Whole, m, d).out.Stop? && StepOf(env, Whole, m, d).out.exit.BuiltinExit?
    ensures FitsWindow(env, StepOf(env, Whole, m, d).out.s, d)
  {
    BuiltinExitGoesOn(env, Whole, d, m);
    BuiltinExitSwitches(env, m, d);
    KeepsShapeAt(env, Whole, m.mem, d, m);
  }

  lemma StepFits(env: Env, m: Machine, d: nat)
    requires FitsWindow(env, m, d)
    ensures KeepsAt(StepsOf(env, Whole, d), (t: Machine) => FitsWindow(env, t, d), m)
  {
    StepsAgreeAt(env, m, d);
  }

  /** Where a run may go on, the window still fits. */
  lemma RunFits(env: Env, m: Machine, d: nat, budget: nat)
    requires FitsWindow(env, m, d) && Sound(StepsOf(env, Whole, d))
    ensures var r := Run(StepsOf(env, Whole, d), m, budget);
      r.Spent? || r.exit.BuiltinExit? ==> FitsWindow(env, r.s, d)
  {
    var l := StepsOf(env, Whole, d);
    var rel := (t: Machine) => FitsWindow(env, t, d);
    forall t | l.ok(t) && rel(t)
      ensures KeepsAt(l, rel, t)
    {
      StepFits(env, t, d);
    }
    RunKeeps(l, rel, m, budget);
    var r := Run(l, m, budget);
    if r.Exited? && r.exit.BuiltinExit? {
      var t :| l.ok(t) && rel(t) && l.step(t).out == Stop(r.exit, r.s);
      BuiltinExitFits(env, t, d);
    }
  }

  /** A stretch of the interpreter leads to the same place, where the window still fits. */
  lemma NextAlike(env: Env, g: Engine, g': Engine, c: HostConfig, vm: Vm, d: nat)
    requires BothViews(env, g, g') && HostOk(g, c) && FitsWindow(env, vm.m, d) && StackOk(vm.m) && d < |vm.m.frames|
    ensures g'.loop(d).ok(vm.m)
    ensures var n := NextOf(g, c, vm, d);
      NextOf(g', c, vm, d) == n && (!n.Ended? ==> FitsWindow(env, n.vm.m, d))
  {
    var chunk := ChunkOf(c, vm.budget);
    WindowEquivalence(env, vm.m, d, chunk);
    RunFits(env, vm.m, d, chunk);
    Chunks.NextIs(g, c, vm, d);
    Chunks.NextIs(g', c, vm, d);
    NextFromAlike(env, g, g', vm, d, Run(g.loop(d), vm.m, chunk), vm.budget - chunk);
  }

  lemma NextFromAlike(env: Env, g: Engine, g': Engine, vm: Vm, d: nat, r: RunResult<Machine, Exit>, more: nat)
    requires BothViews(env, g, g') && g.sane(r.s.mem) && g'.sane(r.s.mem)
    ensures var n := NextFrom(g, vm, d, r, more);
      && NextFrom(g', vm, d, r, more) == n
      && (n.Again? ==> r.Spent? && n.vm.m == r.s) && (n.AtBuiltin? ==> r.Exited? && r.exit.BuiltinExit? && n.vm.m == r.s)
  {
  }

  // ---- whole calls -----------------------------------------------------------------------------

  /** The contexts a builtin gives back still fit. */
  lemma ResumesFits(env: Env, m: Machine, m': Machine, d: nat)
    requires SwitchesFit(m, d) && Resumes(env, m, m')
    ensures SwitchesFit(m', d)
  {
  }

  lemma ExecuteAlike(env: Env, g: Engine, g': Engine, c: HostConfig, vm: Vm, d: nat)
    requires BothViews(env, g, g') && HostOk(g, c) && 0 < vm.nesting <= c.reentry
    requires FitsWindow(env, vm.m, d) && StackOk(vm.m) && d < |vm.m.frames|
    ensures g'.loop(d).ok(vm.m) && ExecuteInner(g', c, vm, d) == ExecuteInner(g, c, vm, d)
    decreases Room(c, vm), vm.budget, 0, 0
  {
    NextAlike(env, g, g', c, vm, d);
    var n := NextOf(g, c, vm, d);
    if n.Again? {
      ExecuteAlike(env, g, g', c, n.vm, d);
    } else if n.AtBuiltin? {
      AfterBuiltinAlike(env, g, g', c, n.vm, n.slot, d);
    }
  }

  lemma AfterBuiltinAlike(env: Env, g: Engine, g': Engine, c: HostConfig, vm: Vm, slot: nat, d: nat)
    requires BothViews(env, g, g') && HostOk(g, c) && 0 < vm.nesting <= c.reentry
    requires FitsWindow(env, vm.m, d) && StackOk(vm.m) && d < |vm.m.frames| && MayGoOn(g, d, vm.m) && MayGoOn(g', d, vm.m)
    ensures g'.sane(vm.m.mem) && AfterBuiltinExit(g', c, vm, slot, d) == AfterBuiltinExit(g, c, vm, slot, d)
    decreases Room(c, vm), vm.budget, 4, 0
  {
    FitsBoth(env, vm.m.mem);
    BuiltinAlike(env, g, g', c, vm, slot, d);
    var r := RunBuiltin(g, c, vm, slot, d);
    if r.Continue? {
      MayContinue(g, d, vm.m, r.vm.m);
      StaysFit(env, vm.m.mem, r.vm.m.mem);
      ResumesFits(env, vm.m, r.vm.m, d);
      ExecuteAlike(env, g, g', c, r.vm, d);
      AfterContinues(g, c, vm, slot, d, r);
      AfterContinues(g', c, vm, slot, d, r);
    } else {
      AfterStops(g, c, vm, slot, d, r);
      AfterStops(g', c, vm, slot, d, r);
    }
  }

  lemma BuiltinAlike(env: Env, g: Engine, g': Engine, c: HostConfig, vm: Vm, slot: nat, d: nat)
    requires BothViews(env, g, g') && HostOk(g, c) && 0 < vm.nesting <= c.reentry
    requires Fits(env, vm.m.mem) && StackOk(vm.m)
    ensures g'.sane(vm.m.mem) && RunBuiltin(g', c, vm, slot, d) == RunBuiltin(g, c, vm, slot, d)
    decreases Room(c, vm), vm.budget, 2, 0
  {
    FitsBoth(env, vm.m.mem);
    match c.builtin(slot, vm.m)
    case Missing => UnwoundAlike(env, g, g', vm, d, None);
    case Provided(acts, end) =>
      ActsAlike(env, g, g', c, vm, acts);
      var o := RunActs(g, c, vm, acts);
      BuiltinUnfolds(g, c, vm, slot, d, acts, end, o);
      BuiltinUnfolds(g', c, vm, slot, d, acts, end, o);
      UnwoundAlike(env, g, g', o.vm, d, None);
      FinishedAlike(env, g, g', o.vm, end(o.vm.m), d);
  }

  lemma ActsAlike(env: Env, g: Engine, g': Engine, c: HostConfig, vm: Vm, acts: seq<Act>)
    requires BothViews(env, g, g') && HostOk(g, c) && 0 < vm.nesting <= c.reentry
    requires Fits(env, vm.m.mem) && StackOk(vm.m)
    ensures g'.sane(vm.m.mem) && RunActs(g', c, vm, acts) == RunActs(g, c, vm, acts)
    decreases Room(c, vm), vm.budget, 1, |acts|
  {
    FitsBoth(env, vm.m.mem);
    if acts != [] {
      match acts[0]
      case Poke(f) =>
        PokedAlike(env, g, g', vm.m, f);
        ActsAlike(env, g, g', c, vm.(m := Poked(g, vm.m, f)), acts[1..]);
      case CallBack(target, args, ignoreError) =>
        var fv, xs := target(vm.m), args(vm.m);
        CallBackUnfolds(g, c, vm, acts, fv, xs);
        CallBackUnfolds(g', c, vm, acts, fv, xs);
        CallAlike(env, g, g', c, vm, fv, xs);
        var o := CallInner(g, c, vm, fv, xs);
        if o.error.None? || ignoreError {
          StaysFit(env, vm.m.mem, o.vm.m.mem);
          ActsAlike(env, g, g', c, o.vm, acts[1..]);
        }
    }
  }

  lemma CallAlike(env: Env, g: Engine, g': Engine, c: HostConfig, vm: Vm, fv: word, args: seq<Arg>)
    requires BothViews(env, g, g') && HostOk(g, c) && vm.nesting <= c.reentry
    requires Fits(env, vm.m.mem) && StackOk(vm.m)
    ensures g'.sane(vm.m.mem) && CallInner(g', c, vm, fv, args) == CallInner(g, c, vm, fv, args)
    decreases Room(c, vm), vm.budget, 0, 0
  {
    FitsBoth(env, vm.m.mem);
    if vm.nesting < c.reentry && |args| <= 8 {
      var vm0 := if vm.nesting == 0 then vm.(budget := c.runaway) else vm;
      var prnum := if CalleeAt(env, fv).QcFn? then vm.m.x.prnum else ProgsOf(fv);
      BeganAlike(env, g, g', vm0, prnum, args);
      var vm1 := Began(g, vm0, prnum, args);
      CalleeAlike(env, g, g', c, vm1, CalleeAt(env, fv), fv);
      CallUnfolds(g, c, vm, vm0, fv, args, prnum);
      CallUnfolds(g', c, vm, vm0, fv, args, prnum);
      CallOverAlike(g, g', vm0, CallCallee(g, c, vm1, CalleeAt(env, fv), fv));
    }
  }

  lemma BeganAlike(env: Env, g: Engine, g': Engine, vm: Vm, prnum: nat, args: seq<Arg>)
    requires BothViews(env, g, g') && Fits(env, vm.m.mem)
    ensures g'.sane(vm.m.mem) && Began(g', vm, prnum, args) == Began(g, vm, prnum, args)
    ensures Fits(env, Began(g, vm, prnum, args).m.mem)
  {
    FitsBoth(env, vm.m.mem);
    StaysFit(env, vm.m.mem, Began(g', vm, prnum, args).m.mem);
  }

  lemma CallOverAlike(g: Engine, g': Engine, vm: Vm, o: Host.Outcome)
    requires g.sane(o.vm.m.mem) && g'.sane(o.vm.m.mem)
    ensures CallOver(g', vm, o) == CallOver(g, vm, o)
  {
  }

  lemma CalleeAlike(env: Env, g: Engine, g': Engine, c: HostConfig, vm: Vm, callee: Callee, fv: word)
    requires BothViews(env, g, g') && HostOk(g, c) && 0 < vm.nesting <= c.reentry
    requires Fits(env, vm.m.mem) && StackOk(vm.m)
    ensures g'.sane(vm.m.mem) && CallCallee(g', c, vm, callee, fv) == CallCallee(g, c, vm, callee, fv)
    decreases Room(c, vm), vm.budget, 3, 0
  {
    FitsBoth(env, vm.m.mem);
    match callee
    case QcFn => QcAlike(env, g, g', c, vm, fv);
    case BuiltinFn(slot) =>
      DirectUnfolds(g, c, vm, slot, fv);
      DirectUnfolds(g', c, vm, slot, fv);
      BuiltinAlike(env, g, g', c, AsSeen(vm, fv), slot, |vm.m.frames|);
    case _ =>
  }

  /** A function's first context has no `SWITCH` state, and its caller's is below the boundary. */
  lemma EnteredFits(env: Env, m: Machine, prnum: nat, index: nat, e: EnterResult, d: nat)
    requires Fits(env, m.mem) && e == Enter(env, m, prnum, index, m.x.pc) && e.error.None? && d == |m.frames|
    requires RunOk(env, Whole, e.m, d)
    ensures FitsWindow(env, e.m, d)
  {
  }

  lemma QcAlike(env: Env, g: Engine, g': Engine, c: HostConfig, vm: Vm, fv: word)
    requires BothViews(env, g, g') && HostOk(g, c) && 0 < vm.nesting <= c.reentry
    requires Fits(env, vm.m.mem) && StackOk(vm.m)
    ensures g'.sane(vm.m.mem) && CallQc(g', c, vm, fv) == CallQc(g, c, vm, fv)
    decreases Room(c, vm), vm.budget, 1, 0
  {
    FitsBoth(env, vm.m.mem);
    assert EnterLaw(g, vm.m, ProgsOf(fv), IndexOf(fv));
    var d := |vm.m.frames|;
    var e := g.enter(vm.m, ProgsOf(fv), IndexOf(fv));
    if e.error.None? {
      EnteredFits(env, vm.m, ProgsOf(fv), IndexOf(fv), e, d);
      ExecuteAlike(env, g, g', c, vm.(m := e.m, entryDepth := d), d);
    }
  }

  /** In a VM the window fits, a call from the host leaves the same machine, the same budget and the same
      error whether the interpreter runs through the window or not, whatever builtins and nested calls
      it makes. */
  lemma HostCallIgnoresWindow(env: Env, c: HostConfig, vm: Vm, fv: word, args: seq<Arg>)
    requires HostOk(QcEngine(env, Whole), c) && Laid(env, Whole, vm.m.mem) && WindowFits(env, vm.m.mem.s)
    requires vm.nesting <= c.reentry && StackOk(vm.m)
    ensures Lawful(QcEngine(env, Whole)) && Lawful(QcEngine(env, Window)) && Laid(env, Window, vm.m.mem)
    ensures CallInner(QcEngine(env, Window), c, vm, fv, args) == CallInner(QcEngine(env, Whole), c, vm, fv, args)
  {
    EngineIsLawful(env, Whole);
    EngineIsLawful(env, Window);
    CallAlike(env, QcEngine(env, Whole), QcEngine(env, Window), c, vm, fv, args);
  }
}
