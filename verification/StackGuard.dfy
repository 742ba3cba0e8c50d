/** Host calls of any one-progs code (`src/vm/mod.rs`, `src/vm/core.rs`): what they give back while no
    statement writes the part of the local stack that saves callers' locals. The check is made statement
    by statement, so stores through pointers may go anywhere else. */
module StackGuard {
  import opened Bytes
  import opened Program
  import opened Memory
  import opened Views
  import opened Machine
  import opened Step
  import opened Interp
  import opened Frames
  import opened Locals
  import opened Calls
  import opened Loop
  import opened Host
  import opened VmEngine
  import opened StackSafe
  import opened HostStack

  /** A statement, unless it would write saved locals. */
  function GuardedStep(env: Env, v: View, m: Machine, d: nat): Result {
    if RespectsNext(env, v, m, d) then StepAny(env, v, m, d) else Trap(m, BadPointerWrite)
  }

  /** The interpreter with that check before each statement. */
  function GuardedSteps(env: Env, v: View, d: nat): Steps<Machine, Exit> {
    Steps((m: Machine) => RunOk(env, v, m, d), (m: Machine) => GuardedStep(env, v, m, d),
          (m: Machine) => RankOf(env, m), (x: Exit) => !x.FaultExit?)
  }

  function GuardedEngine(env: Env, v: View): Engine { QcEngine(env, v).(loop := (d: nat) => GuardedSteps(env, v, d)) }

  /** A statement that waits for budget is checked again with the same result. */
  lemma BlockedRespects(env: Env, v: View, m: Machine, d: nat)
    requires RunOk(env, v, m, d) && StepOf(env, v, m, d).ticks && RespectsNext(env, v, m, d)
    ensures RespectsNext(env, v, StepOf(env, v, m, d).blocked, d)
  {
    FetchIsNext(env, v, m, d);
  }

  lemma GuardedSoundAt(env: Env, v: View, m: Machine, d: nat)
    requires RunOk(env, v, m, d)
    ensures SoundAt(GuardedSteps(env, v, d), m)
  {
    StepSound(env, v, m, d);
    if RespectsNext(env, v, m, d) && StepOf(env, v, m, d).ticks { BlockedRespects(env, v, m, d); }
  }

  lemma GuardedInterprets(env: Env, v: View)
    ensures Interprets(env, v, GuardedEngine(env, v))
  {
    forall d: nat
      ensures Sound(GuardedEngine(env, v).loop(d)) && CountsExits(GuardedEngine(env, v).loop(d))
    {
      forall m | RunOk(env, v, m, d)
        ensures SoundAt(GuardedSteps(env, v, d), m)
      {
        GuardedSoundAt(env, v, m, d);
      }
    }
  }

  lemma GuardedStepKept(env: Env, v: View, base: seq<Frame>, m0: Machine, t: Machine, d: nat)
    requires RunOk(env, v, t, d) && CalleeKept(env, base, m0, t) && |base| == d + 1
    ensures KeepsAt(GuardedSteps(env, v, d), (x: Machine) => CalleeKept(env, base, m0, x), t)
    ensures var out := GuardedStep(env, v, t, d).out;
      out.Stop? ==> if out.exit.Returned? then GivenBack(env, base, m0, out.s) else CalleeKept(env, base, m0, out.s)
  {
    if RespectsNext(env, v, t, d) { StepKept(env, v, base, m0, t, d); }
  }

  lemma GuardedStretch(env: Env, v: View, d: nat, base: seq<Frame>, m0: Machine, m: Machine, budget: nat)
    requires Sound(GuardedSteps(env, v, d)) && RunOk(env, v, m, d) && CalleeKept(env, base, m0, m) && |base| == d + 1
    ensures KeptOrBack(env, base, m0, Run(GuardedSteps(env, v, d), m, budget))
  {
    var l := GuardedSteps(env, v, d);
    var rel := (x: Machine) => CalleeKept(env, base, m0, x);
    forall t | l.ok(t) && rel(t)
      ensures KeepsAt(l, rel, t)
    {
      GuardedStepKept(env, v, base, m0, t, d);
    }
    RunKeeps(l, rel, m, budget);
    match Run(l, m, budget)
    case Spent(_) =>
    case Exited(exit, m', _) =>
      var t :| l.ok(t) && rel(t) && l.step(t).out == Stop(exit, m');
      GuardedStepKept(env, v, base, m0, t, d);
  }

  /** The guard keeps every stack, whatever the code. */
  lemma GuardedIsSafe(env: Env, v: View, c: HostConfig, lsBase: nat)
    requires |env.progs| == 1 && GlobalsBelow(env.progs[0], lsBase)
    requires HostOk(QcEngine(env, v), c) && Polite(QcEngine(env, v), c)
    ensures Safe(env, v, GuardedEngine(env, v), c, lsBase)
  {
    GuardedInterprets(env, v);
    InterpretsIsLawful(env, v, GuardedEngine(env, v));
    StaysPolite(env, v, c);
    var g := GuardedEngine(env, v);
    forall d: nat, base, m0: Machine, m, budget: nat | m0.mem.lsBase == lsBase
      ensures StretchKept(env, g, d, base, m0, m, budget)
    {
      if Sound(g.loop(d)) && g.loop(d).ok(m) && CalleeKept(env, base, m0, m) && |base| == d + 1 {
        GuardedStretch(env, v, d, base, m0, m, budget);
      }
    }
  }

  lemma StaysPolite(env: Env, v: View, c: HostConfig)
    requires Polite(QcEngine(env, v), c)
    ensures Polite(GuardedEngine(env, v), c)
  {
    var g, g' := QcEngine(env, v), GuardedEngine(env, v);
    forall slot: nat, m: Machine | c.builtin(slot, m).Provided?
      ensures PoliteActs(g', c.builtin(slot, m).acts)
    {
      var acts := c.builtin(slot, m).acts;
      assert PoliteActs(g, acts);
      forall i | 0 <= i < |acts|
        ensures PoliteAct(g', acts[i])
      {
        assert PoliteAct(g, acts[i]);
        if acts[i].Poke? {
          forall t: Machine
            ensures StackKept(t, Poked(g', t, acts[i].f))
          {
            assert Poked(g', t, acts[i].f) == Poked(g, t, acts[i].f);
          }
        }
      }
    }
  }

  /** Under the guard a call of any code gives its caller back the local stack in use and its own
      locals, however it ends. */
  lemma GuardedCallGivesBack(env: Env, v: View, c: HostConfig, vm: Vm, fv: word, args: seq<Arg>)
    requires Callable(env, v, vm.m) && GlobalsBelow(env.progs[0], vm.m.mem.lsBase)
    requires HostOk(QcEngine(env, v), c) && Polite(QcEngine(env, v), c) && vm.nesting <= c.reentry
    ensures Lawful(GuardedEngine(env, v))
    ensures CallGivesBack(env, v, c, vm, fv, args, CallInner(GuardedEngine(env, v), c, vm, fv, args).vm.m)
  {
    GuardedIsSafe(env, v, c, vm.m.mem.lsBase);
    SafeCallGivesBack(env, v, GuardedEngine(env, v), c, vm, fv, args);
  }

  lemma GuardedIsLawful(env: Env, v: View)
    ensures Lawful(QcEngine(env, v)) && Lawful(GuardedEngine(env, v))
  {
    EngineIsLawful(env, v);
    GuardedInterprets(env, v);
    InterpretsIsLawful(env, v, GuardedEngine(env, v));
  }

  /** The guard makes no difference to a call: it comes to no statement the guard would stop. */
  ghost predicate GuardIdle(env: Env, v: View, c: HostConfig, vm: Vm, fv: word, args: seq<Arg>)
    requires HostOk(QcEngine(env, v), c) && Laid(env, v, vm.m.mem) && vm.nesting <= c.reentry && StackOk(vm.m)
  {
    GuardedIsLawful(env, v);
    CallInner(GuardedEngine(env, v), c, vm, fv, args) == CallInner(QcEngine(env, v), c, vm, fv, args)
  }

  /** Such a call gives the same back: any code may run, storing through pointers anywhere but into what
      the local stack saves. */
  lemma RespectfulCallGivesBack(env: Env, v: View, c: HostConfig, vm: Vm, fv: word, args: seq<Arg>)
    requires Callable(env, v, vm.m) && GlobalsBelow(env.progs[0], vm.m.mem.lsBase)
    requires HostOk(QcEngine(env, v), c) && Polite(QcEngine(env, v), c) && vm.nesting <= c.reentry
    requires GuardIdle(env, v, c, vm, fv, args)
    ensures Lawful(QcEngine(env, v))
    ensures CallGivesBack(env, v, c, vm, fv, args, CallInner(QcEngine(env, v), c, vm, fv, args).vm.m)
  {
    GuardedIsLawful(env, v);
    GuardedCallGivesBack(env, v, c, vm, fv, args);
  }
}
