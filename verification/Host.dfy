/** Calls from the host, and the loop around the interpreter (`src/vm/mod.rs`): budgets handed out in
    chunks, builtins that call back, and errors that unwind to the nearest engine boundary.

    The interpreter itself appears here only through the laws `Lawful` lists. */
module Host {
  import opened Bytes
  import opened Program
  import opened Memory
  import opened Machine
  import opened Step
  import opened Frames
  import opened Loop

  // ---- the interpreter as the host sees it -----------------------------------------------------

  /** The interpreter's operations. `sane` says the memory is laid out for the loaded progs;
      `passArgs` writes PARM slots of a progs. */
  datatype Engine = Engine(
    env: Env,
    sane: Mem -> bool,
    loop: nat -> Steps<Machine, Exit>,
    enter: (Machine, nat, nat) -> EnterResult,
    unwind: (Machine, nat) -> Machine,
    callee: word -> Callee,
    passArgs: (Machine, nat, seq<Arg>) -> Machine)

  /** One argument: three words. */
  datatype Arg = Arg(x: word, y: word, z: word)

  /** What a host may change between two stretches of QuakeC: anything in memory, whose first region
      keeps its size, and nothing in the execution contexts. */
  predicate Untouched(m: Machine, m': Machine) {
    m'.frames == m.frames && m'.x == m.x && m'.mem.lsWords == m.mem.lsWords && |m'.mem.s| == |m.mem.s|
  }

  /** The same context goes on: leaving a function called in between may have reset its `SWITCH`
      state, and nothing else. */
  predicate Resumes(env: Env, m: Machine, m': Machine) {
    && m'.frames == m.frames && m'.mem.lsWords == m.mem.lsWords
    && (m'.x == m.x || (env.switchReset && m'.x == m.x.(switchRef := 0, switchKind := SwFloat)))
    && (StackOk(m) ==> StackOk(m'))
  }

  /** The loop above `d` frames may go on from `m`, whatever a builtin has done to memory. */
  ghost predicate MayGoOn(g: Engine, d: nat, m: Machine) {
    forall t {:trigger Resumes(g.env, m, t)} :: Resumes(g.env, m, t) && g.sane(t.mem) ==> g.loop(d).ok(t)
  }

  ghost predicate RunLaw(g: Engine, d: nat, m: Machine, budget: nat)
    requires Sound(g.loop(d))
  {
    g.loop(d).ok(m) ==>
      match Run(g.loop(d), m, budget)
      case Spent(m') => g.sane(m'.mem)
      case Exited(exit, m', left) =>
        && g.sane(m'.mem)
        && (exit.BuiltinExit? ==> left < budget)
        && (exit.BuiltinExit? ==> MayGoOn(g, d, m'))
  }

  ghost predicate StackLaw(g: Engine, d: nat, m: Machine, base: seq<Frame>, budget: nat)
    requires Sound(g.loop(d))
  {
    g.loop(d).ok(m) && Above(base, m) && |base| == d + 1 ==>
      match Run(g.loop(d), m, budget)
      case Spent(m') => Above(base, m') && m'.mem.lsWords == m.mem.lsWords
      case Exited(exit, m', left) =>
        && m'.mem.lsWords == m.mem.lsWords
        && (if exit.Returned? then Popped(g.env, base, m') else Above(base, m'))
  }

  /** The last frame of `base` has been popped: its caller runs again. */
  ghost predicate Popped(env: Env, base: seq<Frame>, m: Machine) {
    && base != [] && StackOk(m)
    && m.frames == base[..|base| - 1] && m.x == CallerRegs(env, base[|base| - 1], Held(base))
  }

  /** The frame entering a function leaves for its caller. */
  predicate SavesCaller(m: Machine, f: Frame) {
    && f.resumePc == m.x.pc && f.func == m.x.func && f.prnum == m.x.prnum && f.pushed == m.x.pushed
    && f.switchRef == m.x.switchRef && f.switchKind == m.x.switchKind
    && f.localsAddr == m.x.localsAddr && f.localsWords == m.x.localsWords
  }

  ghost predicate EnterLaw(g: Engine, m: Machine, prnum: nat, index: nat) {
    var r := g.enter(m, prnum, index);
    && (g.sane(m.mem) ==> g.sane(r.m.mem))
    && (r.error.Some? ==> Untouched(m, r.m) && r.m.argc == m.argc)
    && (r.error.None? ==>
          && r.m.argc == m.argc && r.m.mem.lsWords == m.mem.lsWords
          && |r.m.frames| == |m.frames| + 1 && r.m.frames[..|m.frames|] == m.frames
          && SavesCaller(m, r.m.frames[|m.frames|])
          && (g.sane(m.mem) ==> g.loop(|m.frames|).ok(r.m))
          && (StackOk(m) ==> StackOk(r.m)))
  }

  ghost predicate UnwindLaw(g: Engine, m: Machine, d: nat) {
    var u := g.unwind(m, d);
    && (g.sane(m.mem) ==> g.sane(u.mem)) && u.argc == m.argc && u.mem.lsWords == m.mem.lsWords
    && (|m.frames| <= d ==> u == m)
    && (StackOk(m) && d < |m.frames| ==> Popped(g.env, m.frames[..d + 1], u))
  }

  ghost predicate ArgsLaw(g: Engine, m: Machine, prnum: nat, args: seq<Arg>) {
    var t := g.passArgs(m, prnum, args);
    Untouched(m, t) && t.argc == m.argc && (g.sane(m.mem) ==> g.sane(t.mem))
  }

  /** What the host relies on. */
  ghost predicate Lawful(g: Engine) {
    && (forall d {:trigger Sound(g.loop(d))} :: Sound(g.loop(d)))
    && (forall d, m, budget :: RunLaw(g, d, m, budget))
    && (forall d, m, base, budget :: StackLaw(g, d, m, base, budget))
    && (forall m, prnum, index :: EnterLaw(g, m, prnum, index))
    && (forall m, d :: UnwindLaw(g, m, d))
    && (forall m, prnum, args :: ArgsLaw(g, m, prnum, args))
  }

  // ---- builtins --------------------------------------------------------------------------------

  /** What a builtin does, one act at a time: change memory, or call a function value (which may be
      QuakeC), whose error it passes on or ignores. */
  datatype Act =
    | Poke(f: Machine -> Machine)
    | CallBack(target: Machine -> word, args: Machine -> seq<Arg>, ignoreError: bool)

  /** How a builtin ends, given the machine its acts led to. */
  datatype End = EndOk | EndAbort(ret: Arg) | EndError(kind: ErrorKind)

  datatype Builtin = Missing | Provided(acts: seq<Act>, end: Machine -> End)

  /** The host: its builtins (which see the machine when they are called), the limits, and how much
      budget the interpreter gets at once when there is a deadline (`None`: all of it). */
  datatype HostConfig = HostConfig(
    builtin: (nat, Machine) -> Builtin, reentry: nat, runaway: nat, chunk: Option<nat>)

  const BUDGET_CHUNK: nat := 0x1_0000

  /** A memory change is applied as far as it keeps the layout and the contexts. */
  function Poked(g: Engine, m: Machine, f: Machine -> Machine): (r: Machine)
    ensures Untouched(m, r) && (g.sane(m.mem) ==> g.sane(r.mem))
  {
    if Untouched(m, f(m)) && g.sane(f(m).mem) then f(m) else m
  }

  // ---- calls -----------------------------------------------------------------------------------

  /** The VM's host-side state. */
  datatype Vm = Vm(m: Machine, budget: nat, nesting: nat, abortRet: Option<Arg>, entryDepth: nat)

  /** The VM after something ran, and the error it raised, if any. */
  datatype Outcome = Outcome(vm: Vm, error: Option<ErrorKind>)

  /** After a builtin: go on, or return from the boundary (an `abort`). */
  datatype Flow = Continue(vm: Vm) | Aborted(vm: Vm) | Fail(vm: Vm, kind: ErrorKind)

  function ChunkOf(c: HostConfig, budget: nat): nat {
    if c.chunk.Some? && c.chunk.value < budget then c.chunk.value else budget
  }

  /** Host calls in progress that may still be nested. */
  function Room(c: HostConfig, vm: Vm): nat { if vm.nesting <= c.reentry then c.reentry - vm.nesting else 0 }

  predicate HostOk(g: Engine, c: HostConfig) {
    c.chunk.Some? ==> c.chunk.value >= 2
  }

  /** Unwinds to the engine boundary at `d` frames. */
  function Unwound(g: Engine, vm: Vm, d: nat, error: Option<ErrorKind>): (o: Outcome)
    requires Lawful(g) && g.sane(vm.m.mem)
    ensures o.error == error && o.vm == vm.(m := o.vm.m) && g.sane(o.vm.m.mem)
    ensures o.vm.m.mem.lsWords == vm.m.mem.lsWords
    ensures |vm.m.frames| <= d ==> o.vm.m == vm.m
    ensures StackOk(vm.m) && d < |vm.m.frames| ==> Popped(g.env, vm.m.frames[..d + 1], o.vm.m)
  {
    assert UnwindLaw(g, vm.m, d);
    Outcome(vm.(m := g.unwind(vm.m, d)), error)
  }

  /** What a builtin that ran all its acts ends with: an error or an abort unwinds to `d` frames. */
  function Finished(g: Engine, vm: Vm, end: End, d: nat): (r: Flow)
    requires Lawful(g) && g.sane(vm.m.mem)
    ensures r.vm == vm.(m := r.vm.m, abortRet := r.vm.abortRet) && g.sane(r.vm.m.mem)
    ensures r.vm.m.mem.lsWords == vm.m.mem.lsWords
    ensures r.Continue? || |vm.m.frames| <= d ==> r.vm.m == vm.m
    ensures !r.Continue? && StackOk(vm.m) && d < |vm.m.frames| ==> Popped(g.env, vm.m.frames[..d + 1], r.vm.m)
  {
    match end
    case EndOk => Continue(vm)
    case EndAbort(ret) => Aborted(Unwound(g, vm.(abortRet := Some(ret)), d, None).vm)
    case EndError(kind) => Fail(Unwound(g, vm, d, None).vm, kind)
  }

  /** Where one stretch of the interpreter leads. */
  datatype Next = Again(vm: Vm) | AtBuiltin(vm: Vm, slot: nat) | Ended(o: Outcome)

  /** What follows from the result of one run of the interpreter, with `more` budget beyond what it
      was given. The count a chunk ran out on is taken again when the statement runs. */
  function NextFrom(g: Engine, vm: Vm, d: nat, r: RunResult<Machine, Exit>, more: nat): Next
    requires Lawful(g) && g.sane(r.s.mem)
  {
    match r
    case Spent(m') =>
      if more == 0 then Ended(Unwound(g, vm.(m := m', budget := 0), d, Some(Runaway)))
      else Again(vm.(m := m', budget := more + 1))
    case Exited(exit, m', left) =>
      var vm1 := vm.(m := m', budget := more + left);
      match exit
      case Returned => Ended(Outcome(vm1, None))
      case FaultExit(kind) => Ended(Unwound(g, vm1, d, Some(kind)))
      case BuiltinExit(slot, func) => AtBuiltin(vm1, slot)
  }

  /** Runs the interpreter once, on one chunk of the budget, until the frame stack is back at `d`
      frames, a builtin is to be called, or the chunk is spent. */
  function NextOf(g: Engine, c: HostConfig, vm: Vm, d: nat): (n: Next)
    requires Lawful(g) && HostOk(g, c) && g.loop(d).ok(vm.m)
    requires StackOk(vm.m) && d < |vm.m.frames|
    ensures n.Again? ==>
              && n.vm == vm.(m := n.vm.m, budget := n.vm.budget) && n.vm.budget < vm.budget
              && g.loop(d).ok(n.vm.m)
    ensures n.AtBuiltin? ==>
              && n.vm == vm.(m := n.vm.m, budget := n.vm.budget) && n.vm.budget < vm.budget
              && g.sane(n.vm.m.mem) && MayGoOn(g, d, n.vm.m)
    ensures !n.Ended? ==> Above(vm.m.frames[..d + 1], n.vm.m) && n.vm.m.mem.lsWords == vm.m.mem.lsWords
    ensures n.Ended? ==>
              && n.o.vm == vm.(m := n.o.vm.m, budget := n.o.vm.budget) && n.o.vm.budget <= vm.budget
              && g.sane(n.o.vm.m.mem) && n.o.vm.m.mem.lsWords == vm.m.mem.lsWords
              && Popped(g.env, vm.m.frames[..d + 1], n.o.vm.m)
  {
    var base := vm.m.frames[..d + 1];
    var chunk := ChunkOf(c, vm.budget);
    var r := Run(g.loop(d), vm.m, chunk);
    assert RunLaw(g, d, vm.m, chunk) && StackLaw(g, d, vm.m, base, chunk);
    assert !(r.Exited? && r.exit.Returned?) ==> r.s.frames[..d + 1] == base;
    NextFrom(g, vm, d, r, vm.budget - chunk)
  }

  /** Runs until the frame stack is back at `d` frames: the interpreter in chunks of budget, builtins
      in between. However it ends, the caller of the bottom function runs again. */
  function ExecuteInner(g: Engine, c: HostConfig, vm: Vm, d: nat): (o: Outcome)
    requires Lawful(g) && HostOk(g, c) && g.loop(d).ok(vm.m) && 0 < vm.nesting <= c.reentry
    requires StackOk(vm.m) && d < |vm.m.frames|
    ensures o.vm.budget <= vm.budget && o.vm.nesting == vm.nesting && o.vm.entryDepth == vm.entryDepth
    ensures g.sane(o.vm.m.mem) && o.vm.m.mem.lsWords == vm.m.mem.lsWords
    ensures Popped(g.env, vm.m.frames[..d + 1], o.vm.m)
    decreases Room(c, vm), vm.budget, 0, 0
  {
    var n := NextOf(g, c, vm, d);
    if n.Ended? then n.o
    else
      assert n.vm.m.frames[..d + 1] == vm.m.frames[..d + 1];
      if n.Again? then ExecuteInner(g, c, n.vm, d) else AfterBuiltinExit(g, c, n.vm, n.slot, d)
  }

  /** Calls the builtin the interpreter stopped at, and goes on running. */
  function AfterBuiltinExit(g: Engine, c: HostConfig, vm: Vm, slot: nat, d: nat): (o: Outcome)
    requires Lawful(g) && HostOk(g, c) && g.sane(vm.m.mem) && 0 < vm.nesting <= c.reentry
    requires StackOk(vm.m) && d < |vm.m.frames|
    requires MayGoOn(g, d, vm.m)
    ensures o.vm.budget <= vm.budget && o.vm.nesting == vm.nesting && o.vm.entryDepth == vm.entryDepth
    ensures g.sane(o.vm.m.mem) && o.vm.m.mem.lsWords == vm.m.mem.lsWords
    ensures Popped(g.env, vm.m.frames[..d + 1], o.vm.m)
    decreases Room(c, vm), vm.budget, 4, 0
  {
    match RunBuiltin(g, c, vm, slot, d)
    case Continue(vm2) => ExecuteInner(g, c, vm2, d)
    case Aborted(vm2) => Outcome(vm2, None)
    case Fail(vm2, kind) => Outcome(vm2, Some(kind))
  }

  /** Calls a builtin; an error or an abort unwinds to `d` frames. */
  function RunBuiltin(g: Engine, c: HostConfig, vm: Vm, slot: nat, d: nat): (r: Flow)
    requires Lawful(g) && HostOk(g, c) && g.sane(vm.m.mem) && 0 < vm.nesting <= c.reentry
    requires StackOk(vm.m)
    ensures r.vm.budget <= vm.budget && r.vm.nesting == vm.nesting && r.vm.entryDepth == vm.entryDepth
    ensures g.sane(r.vm.m.mem) && r.vm.m.mem.lsWords == vm.m.mem.lsWords
    ensures r.Continue? || |vm.m.frames| <= d ==> Resumes(g.env, vm.m, r.vm.m)
    ensures !r.Continue? && d < |vm.m.frames| ==> Popped(g.env, vm.m.frames[..d + 1], r.vm.m)
    decreases Room(c, vm), vm.budget, 2, 0
  {
    match c.builtin(slot, vm.m)
    case Missing => Fail(Unwound(g, vm, d, None).vm, NotImplemented)
    case Provided(acts, end) =>
      var o := RunActs(g, c, vm, acts);
      if o.error.Some? then Fail(Unwound(g, o.vm, d, None).vm, o.error.value)
      else Finished(g, o.vm, end(o.vm.m), d)
  }

  /** A builtin's acts, in order, until one fails. */
  function RunActs(g: Engine, c: HostConfig, vm: Vm, acts: seq<Act>): (o: Outcome)
    requires Lawful(g) && HostOk(g, c) && g.sane(vm.m.mem) && 0 < vm.nesting <= c.reentry
    requires StackOk(vm.m)
    ensures o.vm.budget <= vm.budget && o.vm.nesting == vm.nesting && o.vm.entryDepth == vm.entryDepth
    ensures g.sane(o.vm.m.mem) && Resumes(g.env, vm.m, o.vm.m)
    decreases Room(c, vm), vm.budget, 1, |acts|
  {
    if acts == [] then Outcome(vm, None)
    else match acts[0]
      case Poke(f) => RunActs(g, c, vm.(m := Poked(g, vm.m, f)), acts[1..])
      case CallBack(target, args, ignoreError) =>
        var o := CallInner(g, c, vm, target(vm.m), args(vm.m));
        if o.error.Some? && !ignoreError then o else RunActs(g, c, o.vm, acts[1..])
  }

  /** Calls a function value with arguments; a top-level call starts the budget. However it ends, the
      context it was made from goes on: the frames, the registers and the local stack in use are
      what they were. */
  function CallInner(g: Engine, c: HostConfig, vm: Vm, fv: word, args: seq<Arg>): (o: Outcome)
    requires Lawful(g) && HostOk(g, c) && g.sane(vm.m.mem) && vm.nesting <= c.reentry
    requires StackOk(vm.m)
    ensures vm.nesting > 0 ==> o.vm.budget <= vm.budget
    ensures o.vm.nesting == vm.nesting && o.vm.entryDepth == vm.entryDepth
    ensures g.sane(o.vm.m.mem) && Resumes(g.env, vm.m, o.vm.m) && o.vm.m.argc == vm.m.argc
    decreases Room(c, vm), vm.budget, 0, 0
  {
    if vm.nesting >= c.reentry then Outcome(vm, Some(Reentrancy))
    else
      var vm0 := if vm.nesting == 0 then vm.(budget := c.runaway) else vm;
      if |args| > 8 then Outcome(vm0, Some(TooManyArguments))
      else
        var callee := g.callee(fv);
        var o := CallCallee(g, c, Began(g, vm0, if callee.QcFn? then vm0.m.x.prnum else ProgsOf(fv), args), callee, fv);
        CallOver(g, vm0, o)
  }

  /** The VM with a call's arguments in place, nested one deeper. */
  function Began(g: Engine, vm: Vm, prnum: nat, args: seq<Arg>): (r: Vm)
    requires Lawful(g) && g.sane(vm.m.mem)
    ensures r == vm.(m := r.m, nesting := vm.nesting + 1) && g.sane(r.m.mem)
    ensures Untouched(vm.m, r.m) && (StackOk(vm.m) ==> StackOk(r.m))
  {
    assert ArgsLaw(g, vm.m, prnum, args);
    var m := g.passArgs(vm.m, prnum, args).(argc := |args|);
    assert g.sane(m.mem);
    vm.(m := m, nesting := vm.nesting + 1)
  }

  /** The end of a call made from `vm`: its caller's argument count and nesting are back. */
  function CallOver(g: Engine, vm: Vm, o: Outcome): (r: Outcome)
    requires g.sane(o.vm.m.mem)
    ensures r.error == o.error && g.sane(r.vm.m.mem) && r.vm.m == o.vm.m.(argc := vm.m.argc)
    ensures r.vm == o.vm.(nesting := vm.nesting, m := r.vm.m, abortRet := None)
  {
    var m := o.vm.m.(argc := vm.m.argc);
    assert g.sane(m.mem);
    Outcome(o.vm.(nesting := vm.nesting, m := m, abortRet := None), o.error)
  }

  /** Runs the callee of a call whose arguments are in place. */
  function CallCallee(g: Engine, c: HostConfig, vm: Vm, callee: Callee, fv: word): (o: Outcome)
    requires Lawful(g) && HostOk(g, c) && g.sane(vm.m.mem) && 0 < vm.nesting <= c.reentry
    requires StackOk(vm.m)
    ensures o.vm.budget <= vm.budget && o.vm.nesting == vm.nesting && o.vm.entryDepth == vm.entryDepth
    ensures g.sane(o.vm.m.mem) && Resumes(g.env, vm.m, o.vm.m)
    decreases Room(c, vm), vm.budget, 3, 0
  {
    match callee
    case QcFn => CallQc(g, c, vm, fv)
    case BuiltinFn(slot) => CallBuiltin(g, c, vm, slot, fv)
    case NullFn => Outcome(vm, Some(NullFunction))
    case MissingFn => Outcome(vm, Some(NotImplemented))
    case InvalidFn => Outcome(vm, Some(InvalidFunction))
  }

  /** Calling QuakeC: an engine boundary of its own. */
  function CallQc(g: Engine, c: HostConfig, vm: Vm, fv: word): (o: Outcome)
    requires Lawful(g) && HostOk(g, c) && g.sane(vm.m.mem) && 0 < vm.nesting <= c.reentry
    requires StackOk(vm.m)
    ensures o.vm.budget <= vm.budget && o.vm.nesting == vm.nesting && o.vm.entryDepth == vm.entryDepth
    ensures g.sane(o.vm.m.mem) && Resumes(g.env, vm.m, o.vm.m)
    decreases Room(c, vm), vm.budget, 1, 0
  {
    assert EnterLaw(g, vm.m, ProgsOf(fv), IndexOf(fv));
    var d := |vm.m.frames|;
    var e := g.enter(vm.m, ProgsOf(fv), IndexOf(fv));
    if e.error.Some? then Outcome(vm.(m := e.m), e.error)
    else
      var o := ExecuteInner(g, c, vm.(m := e.m, entryDepth := d), d);
      PoppedResumes(g.env, vm.m, e.m, o.vm.m);
      Outcome(o.vm.(entryDepth := vm.entryDepth), o.error)
  }

  /** Calling a builtin from the host: it sees its own progs. */
  function CallBuiltin(g: Engine, c: HostConfig, vm: Vm, slot: nat, fv: word): (o: Outcome)
    requires Lawful(g) && HostOk(g, c) && g.sane(vm.m.mem) && 0 < vm.nesting <= c.reentry
    requires StackOk(vm.m)
    ensures o.vm.budget <= vm.budget && o.vm.nesting == vm.nesting && o.vm.entryDepth == vm.entryDepth
    ensures g.sane(o.vm.m.mem) && Resumes(g.env, vm.m, o.vm.m)
    decreases Room(c, vm), vm.budget, 2, 1
  {
    var m1 := vm.m.(x := vm.m.x.(prnum := ProgsOf(fv)));
    assert g.sane(m1.mem);
    var r := RunBuiltin(g, c, vm.(m := m1), slot, |vm.m.frames|);
    var m2 := r.vm.m.(x := r.vm.m.x.(prnum := vm.m.x.prnum));
    assert g.sane(m2.mem);
    Outcome(r.vm.(m := m2), if r.Fail? then Some(r.kind) else None)
  }

  /** Popping the frame a call pushed gives the caller's context back. */
  lemma PoppedResumes(env: Env, m: Machine, entered: Machine, m': Machine)
    requires StackOk(m) && StackOk(entered)
    requires |entered.frames| == |m.frames| + 1 && entered.frames[..|m.frames|] == m.frames
    requires SavesCaller(m, entered.frames[|m.frames|])
    requires Popped(env, entered.frames[..|m.frames| + 1], m') && m'.mem.lsWords == m.mem.lsWords
    ensures Resumes(env, m, m')
  {
    assert entered.frames[..|m.frames| + 1] == entered.frames;
    assert entered.frames[..|entered.frames| - 1] == m.frames;
  }

  /** What a call does besides running its callee. */
  lemma CallUnfolds(g: Engine, c: HostConfig, vm: Vm, vm0: Vm, fv: word, args: seq<Arg>, prnum: nat)
    requires Lawful(g) && HostOk(g, c) && g.sane(vm.m.mem) && vm.nesting < c.reentry && StackOk(vm.m) && |args| <= 8
    requires vm0 == if vm.nesting == 0 then vm.(budget := c.runaway) else vm
    requires prnum == if g.callee(fv).QcFn? then vm.m.x.prnum else ProgsOf(fv)
    ensures CallInner(g, c, vm, fv, args) == CallOver(g, vm0, CallCallee(g, c, Began(g, vm0, prnum, args), g.callee(fv), fv))
  {
  }

  /** What a builtin does after its acts takes no budget. */
  lemma BuiltinUnfolds(g: Engine, c: HostConfig, vm: Vm, slot: nat, d: nat, acts: seq<Act>, end: Machine -> End, o: Outcome)
    requires Lawful(g) && HostOk(g, c) && g.sane(vm.m.mem) && 0 < vm.nesting <= c.reentry && StackOk(vm.m)
    requires c.builtin(slot, vm.m) == Provided(acts, end) && o == RunActs(g, c, vm, acts)
    ensures var r := RunBuiltin(g, c, vm, slot, d);
      && r.vm.budget == o.vm.budget
      && r == if o.error.Some? then Fail(Unwound(g, o.vm, d, None).vm, o.error.value) else Finished(g, o.vm, end(o.vm.m), d)
  {
  }

  /** What calling back does, and the budget it leaves for the acts after it. */
  lemma CallBackUnfolds(g: Engine, c: HostConfig, vm: Vm, acts: seq<Act>, fv: word, args: seq<Arg>)
    requires Lawful(g) && HostOk(g, c) && g.sane(vm.m.mem) && 0 < vm.nesting <= c.reentry && StackOk(vm.m)
    requires acts != [] && acts[0].CallBack? && fv == acts[0].target(vm.m) && args == acts[0].args(vm.m)
    ensures var o, r := CallInner(g, c, vm, fv, args), RunActs(g, c, vm, acts);
      && r.vm.budget <= o.vm.budget <= vm.budget
      && r == if o.error.Some? && !acts[0].ignoreError then o else RunActs(g, c, o.vm, acts[1..])
  {
  }

  /** The VM as a builtin the host calls sees it. */
  function AsSeen(vm: Vm, fv: word): Vm { vm.(m := vm.m.(x := vm.m.x.(prnum := ProgsOf(fv)))) }

  lemma DirectUnfolds(g: Engine, c: HostConfig, vm: Vm, slot: nat, fv: word)
    requires Lawful(g) && HostOk(g, c) && g.sane(vm.m.mem) && 0 < vm.nesting <= c.reentry && StackOk(vm.m)
    ensures g.sane(AsSeen(vm, fv).m.mem) && StackOk(AsSeen(vm, fv).m)
    ensures var r, o := RunBuiltin(g, c, AsSeen(vm, fv), slot, |vm.m.frames|), CallBuiltin(g, c, vm, slot, fv);
      && o.error == (if r.Fail? then Some(r.kind) else None)
      && o.vm == r.vm.(m := r.vm.m.(x := r.vm.m.x.(prnum := vm.m.x.prnum)))
  {
    assert g.sane(AsSeen(vm, fv).m.mem);
  }

  lemma MayContinue(g: Engine, d: nat, m: Machine, m': Machine)
    requires MayGoOn(g, d, m) && Resumes(g.env, m, m') && g.sane(m'.mem)
    ensures g.loop(d).ok(m')
  {
  }

  /** What follows a builtin that ended with `r`. */
  lemma AfterContinues(g: Engine, c: HostConfig, vm: Vm, slot: nat, d: nat, r: Flow)
    requires Lawful(g) && HostOk(g, c) && g.sane(vm.m.mem) && 0 < vm.nesting <= c.reentry
    requires StackOk(vm.m) && d < |vm.m.frames| && MayGoOn(g, d, vm.m)
    requires r == RunBuiltin(g, c, vm, slot, d) && r.Continue?
    ensures 0 < r.vm.nesting <= c.reentry && g.loop(d).ok(r.vm.m) && StackOk(r.vm.m) && d < |r.vm.m.frames|
    ensures AfterBuiltinExit(g, c, vm, slot, d) == ExecuteInner(g, c, r.vm, d)
  {
  }

  lemma AfterStops(g: Engine, c: HostConfig, vm: Vm, slot: nat, d: nat, r: Flow)
    requires Lawful(g) && HostOk(g, c) && g.sane(vm.m.mem) && 0 < vm.nesting <= c.reentry
    requires StackOk(vm.m) && d < |vm.m.frames| && MayGoOn(g, d, vm.m)
    requires r == RunBuiltin(g, c, vm, slot, d) && !r.Continue?
    ensures AfterBuiltinExit(g, c, vm, slot, d) == Outcome(r.vm, if r.Fail? then Some(r.kind) else None)
  {
  }
}
