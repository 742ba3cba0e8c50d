/** Building a VM and running it: what every operation relies on holds of a VM just built, and keeps
    holding (`src/vm/mod.rs`). */
module Boot {
  import opened Bytes
  import opened Program
  import opened Memory
  import opened Entities
  import opened Views
  import opened Machine
  import opened Step
  import opened Interp
  import opened Frames
  import opened Locals
  import opened Calls
  import opened Loop
  import opened StackSafe
  import opened Link
  import opened Threads
  import opened Host
  import opened VmEngine
  import opened HostStack
  import opened StackGuard
  import Loader
  import Space
  import Suspension

  // ---- the VM just built -----------------------------------------------------------------------

  /** What a VM is built from: a file with its strings and globals, its limits and its builtins. */
  datatype Config = Config(file: File, strings: seq<byte>, globals: seq<word>, entityFields: word, limits: Space.Limits, builtins: Builtins)

  predicate ConfigOk(c: Config) { FileOk(c.file) && |c.globals| == c.file.numGlobals }

  function PlanFor(c: Config): Option<Space.Layout>
    requires ConfigOk(c)
  {
    Space.PlanLayout(|c.strings|, |c.globals|, c.entityFields, c.limits)
  }

  /** The memory of the VM just built. */
  function BootMemory(c: Config): Mem
    requires ConfigOk(c) && PlanFor(c).Some?
  {
    Space.InitialIsSound(c.strings, c.globals, c.entityFields, c.limits);
    Space.InitialMemory(PlanFor(c).value, c.strings, c.globals, c.limits.heapBytes)
  }

  /** The context nothing has called yet. */
  const Outermost: Exec := Exec(0, NO_FUNCTION, 0, 0, 0, 0, SwFloat, 0, 0)

  function BootMachine(c: Config): Machine
    requires ConfigOk(c) && PlanFor(c).Some?
  {
    Machine(BootMemory(c), StrTab([], 0, []), [], Outermost, 0)
  }

  function BootProgs(c: Config): ProgsState
    requires ConfigOk(c) && PlanFor(c).Some?
  {
    Space.PlanIsSound(|c.strings|, |c.globals|, c.entityFields, c.limits);
    Linked(c.file, PlanFor(c).value.gbase, c.builtins)
  }

  /** The environment runs the file the VM was built from. */
  predicate Boots(env: Env, c: Config)
    requires ConfigOk(c) && PlanFor(c).Some?
  {
    |env.progs| == 1 && env.progs[0].(shared := []) == BootProgs(c)
  }

  lemma BootLayout(c: Config)
    requires ConfigOk(c) && PlanFor(c).Some?
    ensures var m, ps := BootMemory(c), BootProgs(c);
      && m.Valid() && ps.gbase + 4 * (ps.numGlobals + 3) == m.lsBase
      && m.lsBase + 4 * m.lsWords + 4 == |m.s|
  {
    Space.PlanIsSound(|c.strings|, |c.globals|, c.entityFields, c.limits);
    Space.InitialIsSound(c.strings, c.globals, c.entityFields, c.limits);
  }

  lemma BootProgsOk(env: Env, c: Config, sLen: nat)
    requires ConfigOk(c) && PlanFor(c).Some? && Boots(env, c) && |BootMemory(c).s| <= sLen
    ensures EnvOk(env, sLen)
  {
    BootLayout(c);
    LinkedIsOk(c.file, BootProgs(c).gbase, c.builtins, sLen);
    SharedAside(env.progs[0], BootProgs(c), sLen);
  }

  /** A memory an idle VM of these programs can run in. */
  predicate Roomy(env: Env, v: View, mem: Mem) { Laid(env, v, mem) && Solo(env, mem) }

  lemma IdleIsCallable(env: Env, v: View, m: Machine)
    requires Roomy(env, v, m.mem) && m.frames == [] && m.x == Outermost
    ensures Idle(m) && Callable(env, v, m)
  {
  }

  /** A VM just built, whatever the file holds: its memory is laid out for its program, no QuakeC runs,
      the accounting of the local stack is right, and any function can be called. */
  lemma BootIsReady(env: Env, c: Config)
    requires ConfigOk(c) && PlanFor(c).Some? && Boots(env, c)
    ensures var m := BootMachine(c);
      Laid(env, Whole, m.mem) && Idle(m) && StackOk(m) && Solo(env, m.mem) && Callable(env, Whole, m) && Sited(env, m)
  {
    BootLayout(c);
    BootProgsOk(env, c, |BootMemory(c).s|);
    IdleIsCallable(env, Whole, BootMachine(c));
  }

  // ---- every reachable memory ------------------------------------------------------------------

  /** The memory after any sequence of operations that resize or write it. */
  function MemoryAfter(c: Config, ops: seq<MemOp>): (m: Mem)
    requires ConfigOk(c) && PlanFor(c).Some?
    ensures m.Valid()
  {
    BootLayout(c);
    ApplyAll(BootMemory(c), ops)
  }

  /** In every memory a VM can reach, each address below 2^31 belongs to at most one region and a
      successful write changes exactly the addressed bytes. */
  lemma WritesExactly(c: Config, ops: seq<MemOp>, p: word, bytes: seq<byte>, q: int)
    requires ConfigOk(c) && PlanFor(c).Some?
    ensures var m := MemoryAfter(c, ops);
      && !(q < |m.s| && InEntity(m, q)) && !(q < |m.s| && InHeap(m, q)) && !(InEntity(m, q) && InHeap(m, q))
      && (Mapped(m, q) ==> q < 0x8000_0000)
      && (CheckWrite(m, p, |bytes|).Writable? ==>
            var m' := Put(m, p, bytes);
            && Mapped(m', q) == Mapped(m, q) && (p <= q < p + |bytes| ==> Mapped(m, q))
            && (Mapped(m, q) ==> At(m', q) == if p <= q < p + |bytes| then bytes[q - p] else At(m, q)))
  {
    BootLayout(c);
    RunKeepsRegionsApart(BootMemory(c), ops, q);
    var m := MemoryAfter(c, ops);
    if CheckWrite(m, p, |bytes|).Writable? { PutChangesExactly(m, p, bytes, q); }
  }

  lemma StillRoomy(env: Env, v: View, m: Mem, m': Mem)
    requires Roomy(env, v, m) && m'.Valid() && SameFrame(m, m') && EnvOk(env, |m'.s|)
    ensures Roomy(env, v, m')
  {
  }

  /** Any function can be called in every memory a VM can reach. */
  lemma ReachedIsReady(env: Env, c: Config, ops: seq<MemOp>)
    requires ConfigOk(c) && PlanFor(c).Some? && Boots(env, c)
    ensures Callable(env, Whole, BootMachine(c).(mem := MemoryAfter(c, ops)))
  {
    BootIsReady(env, c);
    var m, m' := BootMemory(c), MemoryAfter(c, ops);
    RunKeepsRegionsApart(m, ops, 0);
    BootProgsOk(env, c, |m'.s|);
    StillRoomy(env, Whole, m, m');
    IdleIsCallable(env, Whole, BootMachine(c).(mem := m'));
  }

  // ---- sessions --------------------------------------------------------------------------------

  /** Code whose stores end before the local stack, with the reserved globals: what is left of `SafeCode`
      for a VM just built. */
  predicate Tame(c: Config)
    requires ConfigOk(c) && PlanFor(c).Some?
  {
    var ps := BootProgs(c);
    ps.numGlobals >= 28 && forall i :: 0 <= i < |ps.code| ==> SafeStmt(ps, ps.code[i], BootMemory(c).lsBase)
  }

  lemma TameIsSafe(env: Env, c: Config)
    requires ConfigOk(c) && PlanFor(c).Some? && Boots(env, c) && Tame(c)
    ensures SafeCode(Whole, env.progs[0], BootMemory(c).lsBase)
  {
    BootLayout(c);
    var ps, boot := env.progs[0], BootProgs(c);
    forall i | 0 <= i < |ps.code|
      ensures SafeStmt(ps, ps.code[i], BootMemory(c).lsBase)
    {
      assert SafeStmt(boot, boot.code[i], BootMemory(c).lsBase);
    }
  }

  datatype HostCall = HostCall(fv: word, args: seq<Arg>)

  /** The VM after a sequence of host calls, whatever errors they raise. */
  function Session(g: Engine, h: HostConfig, vm: Vm, calls: seq<HostCall>): Vm
    requires Lawful(g) && HostOk(g, h) && g.sane(vm.m.mem) && vm.nesting <= h.reentry && StackOk(vm.m)
    decreases |calls|
  {
    if calls == [] then vm else Session(g, h, CallInner(g, h, vm, calls[0].fv, calls[0].args).vm, calls[1..])
  }

  lemma {:induction false} SessionGoesOn(env: Env, v: View, g: Engine, h: HostConfig, vm: Vm, calls: seq<HostCall>)
    requires Safe(env, v, g, h, vm.m.mem.lsBase) && Callable(env, v, vm.m) && vm.nesting <= h.reentry
    ensures GoesOn(env, v, vm.m, Session(g, h, vm, calls).m)
    decreases |calls|
  {
    if calls != [] {
      var vm1 := CallInner(g, h, vm, calls[0].fv, calls[0].args).vm;
      CallGoesOn(env, v, g, h, vm, calls[0].fv, calls[0].args);
      StillCallable(env, v, vm.m, vm1.m);
      SessionGoesOn(env, v, g, h, vm1, calls[1..]);
      GoesOnStill(env, v, vm.m, vm1.m, Session(g, h, vm1, calls[1..]).m);
    }
  }

  lemma SessionReady(env: Env, c: Config, g: Engine, h: HostConfig, vm: Vm, calls: seq<HostCall>)
    requires ConfigOk(c) && PlanFor(c).Some? && Boots(env, c) && vm.m == BootMachine(c) && vm.nesting == 0 && 0 < h.reentry
    requires Safe(env, Whole, g, h, vm.m.mem.lsBase)
    ensures Laid(env, Whole, vm.m.mem) && StackOk(vm.m)
    ensures var m := Session(g, h, vm, calls).m; Idle(m) && Callable(env, Whole, m) && Suspension.Fit(env, Whole, m)
  {
    BootIsReady(env, c);
    SessionGoesOn(env, Whole, g, h, vm, calls);
    var m := Session(g, h, vm, calls).m;
    StillCallable(env, Whole, vm.m, m);
    Suspension.IdleIsFit(env, Whole, m);
  }

  /** From a VM just built, with such code and a polite host: after any sequence of host calls, each
      ending however it may, no QuakeC runs, every function can be called, and the QuakeC running in the
      next call can be suspended. */
  lemma SessionStaysReady(env: Env, c: Config, h: HostConfig, vm: Vm, calls: seq<HostCall>)
    requires ConfigOk(c) && PlanFor(c).Some? && Boots(env, c) && Tame(c)
    requires vm.m == BootMachine(c) && vm.nesting == 0 && 0 < h.reentry
    requires HostOk(QcEngine(env, Whole), h) && Polite(QcEngine(env, Whole), h)
    ensures Lawful(QcEngine(env, Whole)) && Laid(env, Whole, vm.m.mem) && StackOk(vm.m)
    ensures var m := Session(QcEngine(env, Whole), h, vm, calls).m;
      Idle(m) && Callable(env, Whole, m) && Suspension.Fit(env, Whole, m)
  {
    TameIsSafe(env, c);
    SafeCodeIsSafe(env, Whole, h, vm.m.mem.lsBase);
    SessionReady(env, c, QcEngine(env, Whole), h, vm, calls);
  }

  /** With any code it stays so when statements that would write saved locals are stopped. */
  lemma GuardedSessionStaysReady(env: Env, c: Config, h: HostConfig, vm: Vm, calls: seq<HostCall>)
    requires ConfigOk(c) && PlanFor(c).Some? && Boots(env, c) && BootProgs(c).numGlobals >= 28
    requires vm.m == BootMachine(c) && vm.nesting == 0 && 0 < h.reentry
    requires HostOk(QcEngine(env, Whole), h) && Polite(QcEngine(env, Whole), h)
    ensures Lawful(GuardedEngine(env, Whole)) && Laid(env, Whole, vm.m.mem) && StackOk(vm.m)
    ensures var m := Session(GuardedEngine(env, Whole), h, vm, calls).m;
      Idle(m) && Callable(env, Whole, m) && Suspension.Fit(env, Whole, m)
  {
    BootLayout(c);
    GuardedIsSafe(env, Whole, h, vm.m.mem.lsBase);
    SessionReady(env, c, GuardedEngine(env, Whole), h, vm, calls);
  }
}
