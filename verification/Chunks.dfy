/** The budget may be handed out in chunks: host calls do not notice (`src/vm/mod.rs`). */
module Chunks {
  import opened Bytes
  import opened Program
  import opened Machine
  import opened Step
  import opened Frames
  import opened Loop
  import opened Host

  /** The same host, handing out every budget whole. */
  function Undivided(c: HostConfig): HostConfig { c.(chunk := None) }

  /** Calling a function gives the same machine, error and remaining budget however the budget is
      handed out, for any program, builtins that call back included. */
  lemma {:induction false} ChunksInvisible(g: Engine, c: HostConfig, vm: Vm, fv: word, args: seq<Arg>)
    requires Lawful(g) && HostOk(g, c) && g.sane(vm.m.mem) && vm.nesting <= c.reentry && StackOk(vm.m)
    ensures CallInner(g, Undivided(c), vm, fv, args) == CallInner(g, c, vm, fv, args)
    decreases Room(c, vm), vm.budget, 0, 0
  {
    var vm0 := if vm.nesting == 0 then vm.(budget := c.runaway) else vm;
    if vm.nesting < c.reentry && |args| <= 8 {
      var callee := g.callee(fv);
      var argsPr := if callee.QcFn? then vm0.m.x.prnum else ProgsOf(fv);
      assert ArgsLaw(g, vm0.m, argsPr, args);
      var m1 := g.passArgs(vm0.m, argsPr, args).(argc := |args|);
      assert g.sane(m1.mem);
      ChunksInvisibleToCallee(g, c, vm0.(m := m1, nesting := vm.nesting + 1), callee, fv);
    }
  }

  lemma {:induction false} ChunksInvisibleToCallee(g: Engine, c: HostConfig, vm: Vm, callee: Callee, fv: word)
    requires Lawful(g) && HostOk(g, c) && g.sane(vm.m.mem) && 0 < vm.nesting <= c.reentry && StackOk(vm.m)
    ensures CallCallee(g, Undivided(c), vm, callee, fv) == CallCallee(g, c, vm, callee, fv)
    decreases Room(c, vm), vm.budget, 3, 0
  {
    match callee {
      case QcFn => ChunksInvisibleToQc(g, c, vm, fv);
      case BuiltinFn(slot) =>
        var m1 := vm.m.(x := vm.m.x.(prnum := ProgsOf(fv)));
        assert g.sane(m1.mem);
        ChunksInvisibleToBuiltin(g, c, vm.(m := m1), slot, |vm.m.frames|);
      case _ =>
    }
  }

  lemma {:induction false} ChunksInvisibleToQc(g: Engine, c: HostConfig, vm: Vm, fv: word)
    requires Lawful(g) && HostOk(g, c) && g.sane(vm.m.mem) && 0 < vm.nesting <= c.reentry && StackOk(vm.m)
    ensures CallQc(g, Undivided(c), vm, fv) == CallQc(g, c, vm, fv)
    decreases Room(c, vm), vm.budget, 1, 0
  {
    assert EnterLaw(g, vm.m, ProgsOf(fv), IndexOf(fv));
    var d := |vm.m.frames|;
    var e := g.enter(vm.m, ProgsOf(fv), IndexOf(fv));
    if e.error.None? {
      ChunksInvisibleToRun(g, c, vm.(m := e.m, entryDepth := d), d);
    }
  }

  lemma {:induction false} ChunksInvisibleToBuiltin(g: Engine, c: HostConfig, vm: Vm, slot: nat, d: nat)
    requires Lawful(g) && HostOk(g, c) && g.sane(vm.m.mem) && 0 < vm.nesting <= c.reentry && StackOk(vm.m)
    ensures RunBuiltin(g, Undivided(c), vm, slot, d) == RunBuiltin(g, c, vm, slot, d)
    decreases Room(c, vm), vm.budget, 2, 0
  {
    match c.builtin(slot, vm.m)
    case Missing =>
    case Provided(acts, end) => ChunksInvisibleToActs(g, c, vm, acts);
  }

  lemma {:induction false} ChunksInvisibleToActs(g: Engine, c: HostConfig, vm: Vm, acts: seq<Act>)
    requires Lawful(g) && HostOk(g, c) && g.sane(vm.m.mem) && 0 < vm.nesting <= c.reentry && StackOk(vm.m)
    ensures RunActs(g, Undivided(c), vm, acts) == RunActs(g, c, vm, acts)
    decreases Room(c, vm), vm.budget, 1, |acts|
  {
    if acts != [] {
      match acts[0]
      case Poke(f) => ChunksInvisibleToActs(g, c, vm.(m := Poked(g, vm.m, f)), acts[1..]);
      case CallBack(target, args, ignoreError) =>
        ChunksInvisible(g, c, vm, target(vm.m), args(vm.m));
        var o := CallInner(g, c, vm, target(vm.m), args(vm.m));
        if !(o.error.Some? && !ignoreError) { ChunksInvisibleToActs(g, c, o.vm, acts[1..]); }
    }
  }

  /** A run on part of a budget tells what a run on all of it gives. */
  lemma RunOnChunk(l: Steps<Machine, Exit>, m: Machine, chunk: nat, budget: nat)
    requires Sound(l) && l.ok(m) && 1 <= chunk <= budget
    ensures match Run(l, m, chunk)
            case Spent(m') => l.ok(m') && Run(l, m, budget) == Run(l, m', budget - (chunk - 1))
            case Exited(exit, m', left) => Run(l, m, budget) == Exited(exit, m', left + (budget - chunk))
  {
    SplitBudget(l, m, chunk, budget);
  }

  lemma NextIs(g: Engine, c: HostConfig, vm: Vm, d: nat)
    requires Lawful(g) && HostOk(g, c) && g.loop(d).ok(vm.m) && StackOk(vm.m) && d < |vm.m.frames|
    ensures var chunk := ChunkOf(c, vm.budget);
      && g.sane(Run(g.loop(d), vm.m, chunk).s.mem)
      && NextOf(g, c, vm, d) == NextFrom(g, vm, d, Run(g.loop(d), vm.m, chunk), vm.budget - chunk)
  {
    assert RunLaw(g, d, vm.m, ChunkOf(c, vm.budget));
  }

  lemma SpentUnchanged(g: Engine, vm: Vm, d: nat, chunk: nat)
    requires Lawful(g) && g.loop(d).ok(vm.m) && 1 <= chunk < vm.budget && Run(g.loop(d), vm.m, chunk).Spent?
    requires g.sane(Run(g.loop(d), vm.m, chunk).s.mem)
    ensures var n := NextFrom(g, vm, d, Run(g.loop(d), vm.m, chunk), vm.budget - chunk);
      && n.Again? && g.loop(d).ok(n.vm.m)
      && Run(g.loop(d), vm.m, vm.budget) == Run(g.loop(d), n.vm.m, n.vm.budget)
  {
    RunOnChunk(g.loop(d), vm.m, chunk, vm.budget);
  }

  lemma ExitUnchanged(g: Engine, vm: Vm, d: nat, chunk: nat)
    requires Lawful(g) && g.loop(d).ok(vm.m) && 1 <= chunk < vm.budget && Run(g.loop(d), vm.m, chunk).Exited?
    requires g.sane(Run(g.loop(d), vm.m, chunk).s.mem) && g.sane(Run(g.loop(d), vm.m, vm.budget).s.mem)
    ensures NextFrom(g, vm, d, Run(g.loop(d), vm.m, chunk), vm.budget - chunk)
            == NextFrom(g, vm, d, Run(g.loop(d), vm.m, vm.budget), 0)
  {
    RunOnChunk(g.loop(d), vm.m, chunk, vm.budget);
  }

  /** One stretch on a chunk of the budget and one on all of it end alike. */
  lemma NextUnchanged(g: Engine, c: HostConfig, vm: Vm, d: nat)
    requires Lawful(g) && HostOk(g, c) && g.loop(d).ok(vm.m) && StackOk(vm.m) && d < |vm.m.frames|
    requires Run(g.loop(d), vm.m, ChunkOf(c, vm.budget)).Exited? || vm.budget <= ChunkOf(c, vm.budget)
    ensures NextOf(g, Undivided(c), vm, d) == NextOf(g, c, vm, d)
  {
    var chunk := ChunkOf(c, vm.budget);
    if chunk < vm.budget {
      NextIs(g, c, vm, d);
      NextIs(g, Undivided(c), vm, d);
      ExitUnchanged(g, vm, d, chunk);
    }
  }

  /** When the chunk is spent, the whole budget goes on as if that chunk had been spent before. */
  lemma NextAgain(g: Engine, c: HostConfig, vm: Vm, d: nat)
    requires Lawful(g) && HostOk(g, c) && g.loop(d).ok(vm.m) && StackOk(vm.m) && d < |vm.m.frames|
    requires Run(g.loop(d), vm.m, ChunkOf(c, vm.budget)).Spent? && ChunkOf(c, vm.budget) < vm.budget
    ensures NextOf(g, c, vm, d).Again?
    ensures var vm' := NextOf(g, c, vm, d).vm;
      && g.loop(d).ok(vm'.m) && StackOk(vm'.m) && d < |vm'.m.frames|
      && NextOf(g, Undivided(c), vm, d) == NextOf(g, Undivided(c), vm', d)
  {
    NextIs(g, c, vm, d);
    SpentUnchanged(g, vm, d, ChunkOf(c, vm.budget));
    NextIs(g, Undivided(c), vm, d);
    NextIs(g, Undivided(c), NextOf(g, c, vm, d).vm, d);
  }

  lemma {:induction false} ChunksInvisibleToRun(g: Engine, c: HostConfig, vm: Vm, d: nat)
    requires Lawful(g) && HostOk(g, c) && g.loop(d).ok(vm.m) && 0 < vm.nesting <= c.reentry
    requires StackOk(vm.m) && d < |vm.m.frames|
    ensures ExecuteInner(g, Undivided(c), vm, d) == ExecuteInner(g, c, vm, d)
    decreases Room(c, vm), vm.budget, 0, 0
  {
    var n := NextOf(g, c, vm, d);
    if n.Again? {
      NextIs(g, c, vm, d);
      NextAgain(g, c, vm, d);
      ChunksInvisibleToRun(g, c, n.vm, d);
    } else {
      NextIs(g, c, vm, d);
      NextUnchanged(g, c, vm, d);
      if n.AtBuiltin? { ChunksInvisibleAfterExit(g, c, n.vm, n.slot, d); }
    }
  }

  lemma {:induction false} ChunksInvisibleAfterExit(g: Engine, c: HostConfig, vm: Vm, slot: nat, d: nat)
    requires Lawful(g) && HostOk(g, c) && g.sane(vm.m.mem) && 0 < vm.nesting <= c.reentry
    requires StackOk(vm.m) && d < |vm.m.frames|
    requires MayGoOn(g, d, vm.m)
    ensures AfterBuiltinExit(g, Undivided(c), vm, slot, d) == AfterBuiltinExit(g, c, vm, slot, d)
    decreases Room(c, vm), vm.budget, 4, 0
  {
    ChunksInvisibleToBuiltin(g, c, vm, slot, d);
    match RunBuiltin(g, c, vm, slot, d)
    case Continue(vm2) => ChunksInvisibleToRun(g, c, vm2, d);
    case _ =>
  }
}
