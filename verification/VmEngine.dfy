/** The interpreter meets the laws host calls rely on, so everything proved of host calls holds of
    this VM (`src/vm/mod.rs`, `src/vm/interp.rs`, `src/vm/core.rs`). */
module VmEngine {
  import opened Bytes
  import opened Program
  import opened Memory
  import opened Views
  import opened Machine
  import opened Effects
  import opened Step
  import opened Interp
  import opened Frames
  import opened Loop
  import opened Host
  import Chunks

  /** Memory laid out for the loaded progs. */
  predicate Laid(env: Env, v: View, mem: Mem) {
    mem.Valid() && EnvOk(env, |mem.s|) && ViewOk(v, env, mem.s)
  }

  /** Writes one argument's three words. */
  function PassArg(s: seq<byte>, at: nat, a: Arg): (r: seq<byte>)
    ensures |r| == |s|
  {
    Set(Whole, Set(Whole, Set(Whole, s, at, a.x), Nth(at, 1), a.y), Nth(at, 2), a.z)
  }

  /** Writes the first `n` arguments to consecutive PARM slots starting at `at`. */
  function PassArgs(s: seq<byte>, at: nat, args: seq<Arg>, n: nat): (r: seq<byte>)
    requires n <= |args|
    ensures |r| == |s|
  {
    if n == 0 then s else PassArg(PassArgs(s, at, args, n - 1), Nth(at, 3 * (n - 1)), args[n - 1])
  }

  function GlobalsBase(env: Env, prnum: nat): nat { if prnum < |env.progs| then env.progs[prnum].gbase else 0 }

  /** The VM's interpreter, running the progs of `env` through view `v`. */
  function QcEngine(env: Env, v: View): Engine {
    Engine(
      env,
      (mem: Mem) => Laid(env, v, mem),
      (d: nat) => StepsOf(env, v, d),
      (m: Machine, prnum: nat, index: nat) => Enter(env, m, prnum, index, m.x.pc),
      (m: Machine, d: nat) => Unwind(env, m, d),
      (fv: word) => CalleeAt(env, fv),
      (m: Machine, prnum: nat, args: seq<Arg>) =>
        WithS(m, PassArgs(m.mem.s, SlotAt(GlobalsBase(env, prnum), OFS_PARM0), args, |args|)))
  }

  /** A step is the interpreter's, or a fault instead of it. */
  ghost predicate FollowsAt(env: Env, v: View, d: nat, l: Steps<Machine, Exit>, m: Machine) {
    && (l.ok(m) <==> RunOk(env, v, m, d))
    && (l.ok(m) ==> l.step(m) == StepOf(env, v, m, d) || Refused(l.step(m), m))
  }

  predicate Refused(r: Result, m: Machine) { !r.ticks && r.out.Stop? && r.out.exit.FaultExit? && r.out.s == m }

  ghost predicate CountsExits(l: Steps<Machine, Exit>) {
    forall x: Exit {:trigger l.counted(x)} :: l.counted(x) <==> !x.FaultExit?
  }

  /** An engine that is this VM's, except that it may refuse statements. */
  ghost predicate Interprets(env: Env, v: View, g: Engine) {
    && g == QcEngine(env, v).(loop := g.loop)
    && (forall d {:trigger Sound(g.loop(d))} :: Sound(g.loop(d)) && CountsExits(g.loop(d)))
    && (forall d, m {:trigger FollowsAt(env, v, d, g.loop(d), m)} :: FollowsAt(env, v, d, g.loop(d), m))
  }

  lemma SameShapeLaid(env: Env, v: View, mem: Mem, mem': Mem)
    requires Laid(env, v, mem) && SameShape(mem, mem')
    ensures Laid(env, v, mem')
  {
  }

  // ---- what a run of the interpreter leaves ----------------------------------------------------

  /** A step keeps the shape of memory. */
  lemma KeepsShapeAt(env: Env, v: View, mem: Mem, d: nat, t: Machine)
    requires RunOk(env, v, t, d) && SameShape(mem, t.mem)
    ensures var r := StepOf(env, v, t, d); SameShape(mem, r.out.s.mem) && SameShape(mem, r.blocked.mem)
  {
  }

  lemma RunKeepsShape(env: Env, v: View, g: Engine, d: nat, m: Machine, budget: nat)
    requires Interprets(env, v, g) && RunOk(env, v, m, d)
    ensures Sound(g.loop(d)) && g.loop(d).ok(m) && SameShape(m.mem, Run(g.loop(d), m, budget).s.mem)
  {
    var l := g.loop(d);
    assert Sound(g.loop(d)) && FollowsAt(env, v, d, g.loop(d), m);
    var rel := (t: Machine) => SameShape(m.mem, t.mem);
    forall t | l.ok(t) && rel(t)
      ensures KeepsAt(l, rel, t) && rel(l.step(t).out.s)
    {
      assert FollowsAt(env, v, d, g.loop(d), t);
      KeepsShapeAt(env, v, m.mem, d, t);
    }
    RunKeeps(l, rel, m, budget);
  }

  /** A call that stops for a builtin has advanced to a statement that exists. */
  lemma BuiltinExitGoesOn(env: Env, v: View, d: nat, m: Machine)
    requires RunOk(env, v, m, d)
    requires StepOf(env, v, m, d).out.Stop? && StepOf(env, v, m, d).out.exit.BuiltinExit?
    ensures RunOk(env, v, StepOf(env, v, m, d).out.s, d)
  {
    FetchIsNext(env, v, m, d);
    FallsInside(env, m, |m.mem.s|);
    SameFramesOk(env, v, m, StepOf(env, v, m, d).out.s, d);
  }

  lemma ResumesOk(env: Env, v: View, d: nat, m: Machine, t: Machine)
    requires RunOk(env, v, m, d) && Resumes(env, m, t) && Laid(env, v, t.mem)
    ensures RunOk(env, v, t, d)
  {
  }

  /** A run that stops for a builtin stops at a machine that may go on. */
  lemma BuiltinExitMayGoOn(env: Env, v: View, g: Engine, d: nat, m: Machine, budget: nat)
    requires Interprets(env, v, g) && Sound(g.loop(d)) && g.loop(d).ok(m)
    requires var r := Run(g.loop(d), m, budget); r.Exited? && r.exit.BuiltinExit?
    ensures RunOk(env, v, Run(g.loop(d), m, budget).s, d)
  {
    var l := g.loop(d);
    var r := Run(l, m, budget);
    var rel := (t: Machine) => true;
    RunKeeps(l, rel, m, budget);
    var t :| l.ok(t) && l.step(t).out == Stop(r.exit, r.s);
    assert FollowsAt(env, v, d, g.loop(d), t);
    BuiltinExitGoesOn(env, v, d, t);
  }

  lemma OkMayGoOn(env: Env, v: View, g: Engine, d: nat, m: Machine)
    requires Interprets(env, v, g) && RunOk(env, v, m, d)
    ensures MayGoOn(g, d, m)
  {
    forall t | Resumes(env, m, t) && g.sane(t.mem)
      ensures g.loop(d).ok(t)
    {
      ResumesOk(env, v, d, m, t);
      assert FollowsAt(env, v, d, g.loop(d), t);
    }
  }

  lemma RunMeetsLaw(env: Env, v: View, g: Engine, d: nat, m: Machine, budget: nat)
    requires Interprets(env, v, g)
    ensures Sound(g.loop(d)) && RunLaw(g, d, m, budget)
  {
    assert Sound(g.loop(d)) && FollowsAt(env, v, d, g.loop(d), m);
    if g.loop(d).ok(m) {
      var r := Run(g.loop(d), m, budget);
      RunKeepsShape(env, v, g, d, m, budget);
      SameShapeLaid(env, v, m.mem, r.s.mem);
      if r.Exited? && r.exit.BuiltinExit? {
        BuiltinExitMayGoOn(env, v, g, d, m, budget);
        OkMayGoOn(env, v, g, d, r.s);
      }
    }
  }

  /** A step, or a fault instead of it, keeps the frames below. */
  lemma FollowedKeepsStack(env: Env, v: View, g: Engine, d: nat, t: Machine, base: seq<Frame>)
    requires Interprets(env, v, g) && g.loop(d).ok(t) && Above(base, t) && |base| == d + 1
    ensures KeepsAt(g.loop(d), (x: Machine) => Above(base, x), t)
    ensures var out := g.loop(d).step(t).out;
      out.Stop? ==> if out.exit.Returned? then Popped(env, base, out.s) else Above(base, out.s)
  {
    assert FollowsAt(env, v, d, g.loop(d), t);
    StepKeepsStack(env, v, t, base, d);
  }

  lemma RunMeetsStackLaw(env: Env, v: View, g: Engine, d: nat, m: Machine, base: seq<Frame>, budget: nat)
    requires Interprets(env, v, g)
    ensures Sound(g.loop(d)) && StackLaw(g, d, m, base, budget)
  {
    assert Sound(g.loop(d)) && FollowsAt(env, v, d, g.loop(d), m);
    var l := g.loop(d);
    if l.ok(m) && Above(base, m) && |base| == d + 1 {
      RunKeepsShape(env, v, g, d, m, budget);
      var rel := (t: Machine) => Above(base, t);
      forall t | l.ok(t) && rel(t)
        ensures KeepsAt(l, rel, t)
      {
        FollowedKeepsStack(env, v, g, d, t, base);
      }
      RunKeeps(l, rel, m, budget);
      match Run(l, m, budget)
      case Spent(_) =>
      case Exited(exit, m', left) =>
        var t :| l.ok(t) && rel(t) && l.step(t).out == Stop(exit, m');
        FollowedKeepsStack(env, v, g, d, t, base);
    }
  }

  // ---- entering, leaving, passing arguments ----------------------------------------------------

  /** Entering saves the caller's registers in a new frame. */
  lemma EnterPushes(env: Env, m: Machine, prnum: nat, index: nat)
    requires Enter(env, m, prnum, index, m.x.pc).error.None?
    ensures var r := Enter(env, m, prnum, index, m.x.pc);
      && |r.m.frames| == |m.frames| + 1 && r.m.frames[..|m.frames|] == m.frames
      && SavesCaller(m, r.m.frames[|m.frames|])
  {
  }

  lemma EnterMeetsLaw(env: Env, v: View, g: Engine, m: Machine, prnum: nat, index: nat)
    requires Interprets(env, v, g)
    ensures EnterLaw(g, m, prnum, index)
  {
    var r := Enter(env, m, prnum, index, m.x.pc);
    if Laid(env, v, m.mem) { SameShapeLaid(env, v, m.mem, r.m.mem); }
    if r.error.None? {
      EnterPushes(env, m, prnum, index);
      if Laid(env, v, m.mem) { EnterKeepsOk(env, v, m, prnum, index, m.x.pc, |m.frames|); }
      assert FollowsAt(env, v, |m.frames|, g.loop(|m.frames|), r.m);
      if StackOk(m) { EnterKeepsStack(env, m, prnum, index, m.x.pc); }
    }
  }

  /** Unwinding to `d` frames gives the caller of the function entered there its registers back. */
  lemma {:induction false} UnwindPops(env: Env, m: Machine, d: nat)
    requires StackOk(m) && d < |m.frames|
    ensures Popped(env, m.frames[..d + 1], Unwind(env, m, d))
    decreases |m.frames|
  {
    LeaveKeepsStack(env, m);
    var m' := Leave(env, m);
    if |m.frames| > d + 1 {
      UnwindPops(env, m', d);
      assert m'.frames[..d + 1] == m.frames[..d + 1];
      assert Unwind(env, m, d) == Unwind(env, m', d);
    } else {
      assert Unwind(env, m, d) == Unwind(env, m', d) == m';
      assert m.frames[..d + 1] == m.frames;
    }
  }

  lemma UnwindMeetsLaw(env: Env, v: View, g: Engine, m: Machine, d: nat)
    requires Interprets(env, v, g)
    ensures UnwindLaw(g, m, d)
  {
    if StackOk(m) && d < |m.frames| { UnwindPops(env, m, d); }
    if Laid(env, v, m.mem) { SameShapeLaid(env, v, m.mem, Unwind(env, m, d).mem); }
  }

  lemma ArgsMeetLaw(env: Env, v: View, g: Engine, m: Machine, prnum: nat, args: seq<Arg>)
    requires Interprets(env, v, g)
    ensures ArgsLaw(g, m, prnum, args)
  {
  }

  lemma AllRunsMeetLaws(env: Env, v: View, g: Engine)
    requires Interprets(env, v, g) && forall d {:trigger Sound(g.loop(d))} :: Sound(g.loop(d))
    ensures forall d: nat, m, budget: nat :: RunLaw(g, d, m, budget)
    ensures forall d: nat, m, base, budget: nat :: StackLaw(g, d, m, base, budget)
  {
    forall d: nat, m, budget: nat
      ensures RunLaw(g, d, m, budget)
    {
      RunMeetsLaw(env, v, g, d, m, budget);
    }
    forall d: nat, m, base, budget: nat
      ensures StackLaw(g, d, m, base, budget)
    {
      RunMeetsStackLaw(env, v, g, d, m, base, budget);
    }
  }

  lemma AllContextsMeetLaws(env: Env, v: View, g: Engine)
    requires Interprets(env, v, g)
    ensures forall m, prnum: nat, index: nat :: EnterLaw(g, m, prnum, index)
    ensures forall m, d: nat :: UnwindLaw(g, m, d)
    ensures forall m, prnum: nat, args :: ArgsLaw(g, m, prnum, args)
  {
    forall m, prnum: nat, index: nat
      ensures EnterLaw(g, m, prnum, index)
    {
      EnterMeetsLaw(env, v, g, m, prnum, index);
    }
    forall m, d: nat
      ensures UnwindLaw(g, m, d)
    {
      UnwindMeetsLaw(env, v, g, m, d);
    }
    forall m, prnum: nat, args
      ensures ArgsLaw(g, m, prnum, args)
    {
      ArgsMeetLaw(env, v, g, m, prnum, args);
    }
  }

  /** An interpreter that may refuse statements meets all the laws host calls rely on. */
  lemma InterpretsIsLawful(env: Env, v: View, g: Engine)
    requires Interprets(env, v, g)
    ensures Lawful(g)
  {
    AllRunsMeetLaws(env, v, g);
    AllContextsMeetLaws(env, v, g);
  }

  lemma EngineInterprets(env: Env, v: View)
    ensures Interprets(env, v, QcEngine(env, v))
  {
    forall d: nat
      ensures Sound(QcEngine(env, v).loop(d)) && CountsExits(QcEngine(env, v).loop(d))
    {
      InterpreterSound(env, v, d);
    }
  }

  /** The interpreter itself refuses none, through either view. */
  lemma EngineIsLawful(env: Env, v: View)
    ensures Lawful(QcEngine(env, v))
  {
    EngineInterprets(env, v);
    InterpretsIsLawful(env, v, QcEngine(env, v));
  }

  /** A call from the host, or from a builtin QuakeC called, leaves frames, registers, arguments and
      the local stack in use as they were, however it ends: by returning, by a fault, an abort, the
      end of the budget, or too deep a nesting. */
  lemma HostCallIsNeutral(env: Env, v: View, c: HostConfig, vm: Host.Vm, fv: word, args: seq<Arg>)
    requires HostOk(QcEngine(env, v), c) && Laid(env, v, vm.m.mem) && vm.nesting <= c.reentry && StackOk(vm.m)
    ensures Lawful(QcEngine(env, v))
    ensures var o := CallInner(QcEngine(env, v), c, vm, fv, args);
      && Resumes(env, vm.m, o.vm.m) && o.vm.m.argc == vm.m.argc && Laid(env, v, o.vm.m.mem)
      && o.vm.nesting == vm.nesting && o.vm.entryDepth == vm.entryDepth
      && (vm.nesting > 0 ==> o.vm.budget <= vm.budget)
  {
    EngineIsLawful(env, v);
  }

  /** Handing out the budget in chunks changes nothing a host call does. */
  lemma HostCallIgnoresChunks(env: Env, v: View, c: HostConfig, vm: Host.Vm, fv: word, args: seq<Arg>)
    requires Laid(env, v, vm.m.mem) && vm.nesting <= c.reentry && StackOk(vm.m)
    ensures Lawful(QcEngine(env, v))
    ensures CallInner(QcEngine(env, v), c.(chunk := Some(BUDGET_CHUNK)), vm, fv, args)
            == CallInner(QcEngine(env, v), c.(chunk := None), vm, fv, args)
  {
    EngineIsLawful(env, v);
    Chunks.ChunksInvisible(QcEngine(env, v), c.(chunk := Some(BUDGET_CHUNK)), vm, fv, args);
  }
}
