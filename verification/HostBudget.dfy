/** What the budget of a host call means (`src/vm/mod.rs`): it has no effect while any is left, across
    builtins and nested calls, and it is spent at one statement, the same for every budget. */
module HostBudget {
  import opened Bytes
  import opened Program
  import opened Machine
  import opened Step
  import opened Frames
  import opened Loop
  import opened Host
  import opened Chunks

  /** The VM with `k` more budget. */
  function More(vm: Vm, k: nat): Vm { vm.(budget := vm.budget + k) }

  function MoreOf(o: Host.Outcome, k: nat): Host.Outcome { Outcome(More(o.vm, k), o.error) }

  /** Budget is left at the end, or was when there was `k` more of it. */
  predicate Ample(left: nat, left': nat, k: nat) { left > 0 || left' > k }

  /** A budget is never spent on an exit: the statement that exits is counted with some left. */
  lemma {:induction false} ExitLeavesBudget<S(!new), X>(l: Steps<S, X>, s: S, budget: nat)
    requires Sound(l) && l.ok(s) && budget > 0
    ensures Run(l, s, budget).Exited? ==> Run(l, s, budget).left > 0
    ensures Run(l, s, budget).Spent? ==> l.step(Run(l, s, budget).s).ticks
    decreases budget, l.rank(s)
  {
    RunUnfolds(l, s, budget);
    var r := l.step(s);
    if !(r.ticks && budget <= 1) && r.out.Go? {
      ExitLeavesBudget(l, r.out.s, if r.ticks then budget - 1 else budget);
    }
  }

  /** A run exits on a budget exactly when it exits with more left than was added to the budget. */
  lemma RunWithMore<S(!new), X>(l: Steps<S, X>, s: S, budget: nat, k: nat)
    requires Sound(l) && l.ok(s) && budget > 0
    ensures var r, r' := Run(l, s, budget), Run(l, s, budget + k);
      && (r.Exited? ==> r.left > 0 && r' == Exited(r.exit, r.s, r.left + k))
      && (r.Spent? && r'.Exited? ==> r'.left <= k)
  {
    SplitBudget(l, s, budget, budget + k);
    ExitLeavesBudget(l, s, budget);
    var r := Run(l, s, budget);
    if r.Spent? { RunUnfolds(l, r.s, k + 1); }
  }

  /** Two hosts that differ at most in the budget they start calls with, which they hand out whole. */
  ghost predicate SameHost(c: HostConfig, c': HostConfig) { c.chunk.None? && c' == c.(runaway := c'.runaway) }

  /** A stretch with budget left leads to the same place as with more of it. */
  lemma NextWithMore(g: Engine, c: HostConfig, c': HostConfig, vm: Vm, d: nat, k: nat)
    requires Lawful(g) && SameHost(c, c') && g.loop(d).ok(vm.m) && StackOk(vm.m) && d < |vm.m.frames| && vm.budget > 0
    ensures var n, n' := NextOf(g, c, vm, d), NextOf(g, c', More(vm, k), d);
      && !n.Again? && !n'.Again?
      && (n.AtBuiltin? || (n'.AtBuiltin? && n'.vm.budget > k) ==> n.AtBuiltin? && n.vm.budget > 0 && n' == AtBuiltin(More(n.vm, k), n.slot))
      && (n.Ended? && n.o.vm.budget > 0 ==> n' == Ended(MoreOf(n.o, k)))
      && (n'.Ended? && n'.o.vm.budget > k ==> n.Ended? && n' == Ended(MoreOf(n.o, k)))
  {
    NextIs(g, c, vm, d);
    NextIs(g, c', More(vm, k), d);
    RunWithMore(g.loop(d), vm.m, vm.budget, k);
  }

  lemma ExecuteWithMore(g: Engine, c: HostConfig, c': HostConfig, vm: Vm, d: nat, k: nat)
    requires Lawful(g) && SameHost(c, c') && g.loop(d).ok(vm.m) && 0 < vm.nesting <= c.reentry
    requires StackOk(vm.m) && d < |vm.m.frames|
    requires Ample(ExecuteInner(g, c, vm, d).vm.budget, ExecuteInner(g, c', More(vm, k), d).vm.budget, k)
    ensures ExecuteInner(g, c', More(vm, k), d) == MoreOf(ExecuteInner(g, c, vm, d), k)
    decreases Room(c, vm), vm.budget, 0, 0
  {
    NextWithMore(g, c, c', vm, d, k);
    var n := NextOf(g, c, vm, d);
    if n.AtBuiltin? { AfterBuiltinWithMore(g, c, c', n.vm, n.slot, d, k); }
  }

  lemma AfterBuiltinWithMore(g: Engine, c: HostConfig, c': HostConfig, vm: Vm, slot: nat, d: nat, k: nat)
    requires Lawful(g) && SameHost(c, c') && g.sane(vm.m.mem) && 0 < vm.nesting <= c.reentry
    requires StackOk(vm.m) && d < |vm.m.frames| && MayGoOn(g, d, vm.m)
    requires Ample(AfterBuiltinExit(g, c, vm, slot, d).vm.budget, AfterBuiltinExit(g, c', More(vm, k), slot, d).vm.budget, k)
    ensures AfterBuiltinExit(g, c', More(vm, k), slot, d) == MoreOf(AfterBuiltinExit(g, c, vm, slot, d), k)
    decreases Room(c, vm), vm.budget, 4, 0
  {
    BuiltinWithMore(g, c, c', vm, slot, d, k);
    var r := RunBuiltin(g, c, vm, slot, d);
    if r.Continue? { ExecuteWithMore(g, c, c', r.vm, d, k); }
  }

  function MoreFlow(r: Flow, k: nat): Flow {
    match r
    case Continue(vm) => Continue(More(vm, k))
    case Aborted(vm) => Aborted(More(vm, k))
    case Fail(vm, kind) => Fail(More(vm, k), kind)
  }

  lemma FinishedWithMore(g: Engine, vm: Vm, end: End, d: nat, k: nat)
    requires Lawful(g) && g.sane(vm.m.mem)
    ensures Finished(g, More(vm, k), end, d) == MoreFlow(Finished(g, vm, end, d), k)
    ensures Unwound(g, More(vm, k), d, None) == MoreOf(Unwound(g, vm, d, None), k)
  {
  }

  lemma BuiltinWithMore(g: Engine, c: HostConfig, c': HostConfig, vm: Vm, slot: nat, d: nat, k: nat)
    requires Lawful(g) && SameHost(c, c') && g.sane(vm.m.mem) && 0 < vm.nesting <= c.reentry && StackOk(vm.m)
    requires Ample(RunBuiltin(g, c, vm, slot, d).vm.budget, RunBuiltin(g, c', More(vm, k), slot, d).vm.budget, k)
    ensures RunBuiltin(g, c', More(vm, k), slot, d) == MoreFlow(RunBuiltin(g, c, vm, slot, d), k)
    decreases Room(c, vm), vm.budget, 2, 0
  {
    match c.builtin(slot, vm.m)
    case Missing => FinishedWithMore(g, vm, EndOk, d, k);
    case Provided(acts, end) =>
      var o := RunActs(g, c, vm, acts);
      BuiltinUnfolds(g, c, vm, slot, d, acts, end, o);
      BuiltinUnfolds(g, c', More(vm, k), slot, d, acts, end, RunActs(g, c', More(vm, k), acts));
      ActsWithMore(g, c, c', vm, acts, k);
      FinishedWithMore(g, o.vm, end(o.vm.m), d, k);
  }

  lemma ActsWithMore(g: Engine, c: HostConfig, c': HostConfig, vm: Vm, acts: seq<Act>, k: nat)
    requires Lawful(g) && SameHost(c, c') && g.sane(vm.m.mem) && 0 < vm.nesting <= c.reentry && StackOk(vm.m)
    requires Ample(RunActs(g, c, vm, acts).vm.budget, RunActs(g, c', More(vm, k), acts).vm.budget, k)
    ensures RunActs(g, c', More(vm, k), acts) == MoreOf(RunActs(g, c, vm, acts), k)
    decreases Room(c, vm), vm.budget, 1, |acts|
  {
    if acts != [] {
      match acts[0]
      case Poke(f) =>
        var vm1 := vm.(m := Poked(g, vm.m, f));
        assert More(vm1, k) == More(vm, k).(m := Poked(g, vm.m, f));
        ActsWithMore(g, c, c', vm1, acts[1..], k);
      case CallBack(target, args, ignoreError) =>
        var fv, xs := target(vm.m), args(vm.m);
        CallBackUnfolds(g, c, vm, acts, fv, xs);
        CallBackUnfolds(g, c', More(vm, k), acts, fv, xs);
        var o := CallInner(g, c, vm, fv, xs);
        NestedCallWithMore(g, c, c', vm, fv, xs, k);
        if o.error.None? || ignoreError { ActsWithMore(g, c, c', o.vm, acts[1..], k); }
    }
  }

  lemma NestedCallWithMore(g: Engine, c: HostConfig, c': HostConfig, vm: Vm, fv: word, args: seq<Arg>, k: nat)
    requires Lawful(g) && SameHost(c, c') && g.sane(vm.m.mem) && 0 < vm.nesting <= c.reentry && StackOk(vm.m)
    requires Ample(CallInner(g, c, vm, fv, args).vm.budget, CallInner(g, c', More(vm, k), fv, args).vm.budget, k)
    ensures CallInner(g, c', More(vm, k), fv, args) == MoreOf(CallInner(g, c, vm, fv, args), k)
    decreases Room(c, vm), vm.budget, 0, 0
  {
    if vm.nesting < c.reentry && |args| <= 8 { CallBodyWithMore(g, c, c', vm, vm, More(vm, k), fv, args, k); }
  }

  /** `vm` and `vm'` are where a call is made, `was` has the budget it starts with. */
  lemma CallBodyWithMore(g: Engine, c: HostConfig, c': HostConfig, vm: Vm, was: Vm, vm': Vm, fv: word, args: seq<Arg>, k: nat)
    requires Lawful(g) && SameHost(c, c') && g.sane(vm.m.mem) && vm.nesting < c.reentry && StackOk(vm.m) && |args| <= 8
    requires was == if vm.nesting == 0 then vm.(budget := c.runaway) else vm
    requires More(was, k) == if vm.nesting == 0 then vm'.(budget := c'.runaway) else vm'
    requires vm' == vm.(budget := vm'.budget)
    requires Ample(CallInner(g, c, vm, fv, args).vm.budget, CallInner(g, c', vm', fv, args).vm.budget, k)
    ensures CallInner(g, c', vm', fv, args) == MoreOf(CallInner(g, c, vm, fv, args), k)
    decreases Room(c, vm), 0, 0, 0
  {
    var prnum := if g.callee(fv).QcFn? then vm.m.x.prnum else ProgsOf(fv);
    CallUnfolds(g, c, vm, was, fv, args, prnum);
    CallUnfolds(g, c', vm', More(was, k), fv, args, prnum);
    var began := Began(g, was, prnum, args);
    assert Began(g, More(was, k), prnum, args) == More(began, k);
    CalleeWithMore(g, c, c', began, g.callee(fv), fv, k);
  }

  lemma CalleeWithMore(g: Engine, c: HostConfig, c': HostConfig, vm: Vm, callee: Callee, fv: word, k: nat)
    requires Lawful(g) && SameHost(c, c') && g.sane(vm.m.mem) && 0 < vm.nesting <= c.reentry && StackOk(vm.m)
    requires Ample(CallCallee(g, c, vm, callee, fv).vm.budget, CallCallee(g, c', More(vm, k), callee, fv).vm.budget, k)
    ensures CallCallee(g, c', More(vm, k), callee, fv) == MoreOf(CallCallee(g, c, vm, callee, fv), k)
    decreases Room(c, vm), vm.budget, 3, 0
  {
    match callee
    case QcFn => QcWithMore(g, c, c', vm, fv, k);
    case BuiltinFn(slot) => DirectBuiltinWithMore(g, c, c', vm, slot, fv, k);
    case _ =>
  }

  lemma DirectBuiltinWithMore(g: Engine, c: HostConfig, c': HostConfig, vm: Vm, slot: nat, fv: word, k: nat)
    requires Lawful(g) && SameHost(c, c') && g.sane(vm.m.mem) && 0 < vm.nesting <= c.reentry && StackOk(vm.m)
    requires Ample(CallBuiltin(g, c, vm, slot, fv).vm.budget, CallBuiltin(g, c', More(vm, k), slot, fv).vm.budget, k)
    ensures CallBuiltin(g, c', More(vm, k), slot, fv) == MoreOf(CallBuiltin(g, c, vm, slot, fv), k)
    decreases Room(c, vm), vm.budget, 2, 1
  {
    DirectUnfolds(g, c, vm, slot, fv);
    DirectUnfolds(g, c', More(vm, k), slot, fv);
    assert AsSeen(More(vm, k), fv) == More(AsSeen(vm, fv), k);
    BuiltinWithMore(g, c, c', AsSeen(vm, fv), slot, |vm.m.frames|, k);
  }

  lemma QcWithMore(g: Engine, c: HostConfig, c': HostConfig, vm: Vm, fv: word, k: nat)
    requires Lawful(g) && SameHost(c, c') && g.sane(vm.m.mem) && 0 < vm.nesting <= c.reentry && StackOk(vm.m)
    requires Ample(CallQc(g, c, vm, fv).vm.budget, CallQc(g, c', More(vm, k), fv).vm.budget, k)
    ensures CallQc(g, c', More(vm, k), fv) == MoreOf(CallQc(g, c, vm, fv), k)
    decreases Room(c, vm), vm.budget, 1, 0
  {
    assert EnterLaw(g, vm.m, ProgsOf(fv), IndexOf(fv));
    var d := |vm.m.frames|;
    var e := g.enter(vm.m, ProgsOf(fv), IndexOf(fv));
    if e.error.None? { ExecuteWithMore(g, c, c', vm.(m := e.m, entryDepth := d), d, k); }
  }

  // ---- a spent budget is an error --------------------------------------------------------------

  /** Builtins that pass on the errors of the calls they make. */
  ghost predicate PassesErrors(c: HostConfig) {
    forall slot, m {:trigger c.builtin(slot, m)} :: c.builtin(slot, m).Provided? ==> Passes(c.builtin(slot, m).acts)
  }

  predicate Passes(acts: seq<Act>) {
    acts == [] || ((acts[0].CallBack? ==> !acts[0].ignoreError) && Passes(acts[1..]))
  }

  /** The budget was spent on the way only if the error says so. */
  predicate SpentSays(before: nat, after: nat, error: Option<ErrorKind>) {
    before > 0 && after == 0 ==> error == Some(Runaway)
  }

  function ErrorOf(r: Flow): Option<ErrorKind> { if r.Fail? then Some(r.kind) else None }

  lemma NextSpent(g: Engine, c: HostConfig, vm: Vm, d: nat)
    requires Lawful(g) && HostOk(g, c) && g.loop(d).ok(vm.m) && StackOk(vm.m) && d < |vm.m.frames| && vm.budget > 0
    ensures var n := NextOf(g, c, vm, d);
      if n.Ended? then SpentSays(vm.budget, n.o.vm.budget, n.o.error) else n.vm.budget > 0
  {
    NextIs(g, c, vm, d);
    ExitLeavesBudget(g.loop(d), vm.m, ChunkOf(c, vm.budget));
  }

  lemma ExecuteSpent(g: Engine, c: HostConfig, vm: Vm, d: nat)
    requires Lawful(g) && HostOk(g, c) && PassesErrors(c) && g.loop(d).ok(vm.m) && 0 < vm.nesting <= c.reentry
    requires StackOk(vm.m) && d < |vm.m.frames| && vm.budget > 0
    ensures var o := ExecuteInner(g, c, vm, d); SpentSays(vm.budget, o.vm.budget, o.error)
    decreases Room(c, vm), vm.budget, 0, 0
  {
    NextSpent(g, c, vm, d);
    var n := NextOf(g, c, vm, d);
    if n.Again? {
      ExecuteSpent(g, c, n.vm, d);
    } else if n.AtBuiltin? {
      AfterBuiltinSpent(g, c, n.vm, n.slot, d);
    }
  }

  lemma AfterBuiltinSpent(g: Engine, c: HostConfig, vm: Vm, slot: nat, d: nat)
    requires Lawful(g) && HostOk(g, c) && PassesErrors(c) && g.sane(vm.m.mem) && 0 < vm.nesting <= c.reentry
    requires StackOk(vm.m) && d < |vm.m.frames| && MayGoOn(g, d, vm.m) && vm.budget > 0
    ensures var o := AfterBuiltinExit(g, c, vm, slot, d); SpentSays(vm.budget, o.vm.budget, o.error)
    decreases Room(c, vm), vm.budget, 4, 0
  {
    BuiltinSpent(g, c, vm, slot, d);
    var r := RunBuiltin(g, c, vm, slot, d);
    if r.Continue? { ExecuteSpent(g, c, r.vm, d); }
  }

  lemma BuiltinSpent(g: Engine, c: HostConfig, vm: Vm, slot: nat, d: nat)
    requires Lawful(g) && HostOk(g, c) && PassesErrors(c) && g.sane(vm.m.mem) && 0 < vm.nesting <= c.reentry
    requires StackOk(vm.m) && vm.budget > 0
    ensures var r := RunBuiltin(g, c, vm, slot, d); SpentSays(vm.budget, r.vm.budget, ErrorOf(r))
    decreases Room(c, vm), vm.budget, 2, 0
  {
    match c.builtin(slot, vm.m)
    case Missing =>
    case Provided(acts, end) =>
      ActsSpent(g, c, vm, acts);
      BuiltinUnfolds(g, c, vm, slot, d, acts, end, RunActs(g, c, vm, acts));
  }

  lemma ActsSpent(g: Engine, c: HostConfig, vm: Vm, acts: seq<Act>)
    requires Lawful(g) && HostOk(g, c) && PassesErrors(c) && g.sane(vm.m.mem) && 0 < vm.nesting <= c.reentry
    requires StackOk(vm.m) && vm.budget > 0 && Passes(acts)
    ensures var o := RunActs(g, c, vm, acts); SpentSays(vm.budget, o.vm.budget, o.error)
    decreases Room(c, vm), vm.budget, 1, |acts|
  {
    if acts != [] {
      match acts[0]
      case Poke(f) => ActsSpent(g, c, vm.(m := Poked(g, vm.m, f)), acts[1..]);
      case CallBack(target, args, _) =>
        var fv, xs := target(vm.m), args(vm.m);
        CallBackUnfolds(g, c, vm, acts, fv, xs);
        NestedCallSpent(g, c, vm, fv, xs);
        var o := CallInner(g, c, vm, fv, xs);
        if o.error.None? { ActsSpent(g, c, o.vm, acts[1..]); }
    }
  }

  lemma NestedCallSpent(g: Engine, c: HostConfig, vm: Vm, fv: word, args: seq<Arg>)
    requires Lawful(g) && HostOk(g, c) && PassesErrors(c) && g.sane(vm.m.mem) && 0 < vm.nesting <= c.reentry
    requires StackOk(vm.m) && vm.budget > 0
    ensures var o := CallInner(g, c, vm, fv, args); SpentSays(vm.budget, o.vm.budget, o.error)
    decreases Room(c, vm), vm.budget, 0, 0
  {
    if vm.nesting < c.reentry && |args| <= 8 { CallBodySpent(g, c, vm, vm, fv, args); }
  }

  /** `vm` is where a call is made, `was` has the budget it starts with. */
  lemma CallBodySpent(g: Engine, c: HostConfig, vm: Vm, was: Vm, fv: word, args: seq<Arg>)
    requires Lawful(g) && HostOk(g, c) && PassesErrors(c) && g.sane(vm.m.mem) && vm.nesting < c.reentry
    requires StackOk(vm.m) && |args| <= 8 && was.budget > 0
    requires was == if vm.nesting == 0 then vm.(budget := c.runaway) else vm
    ensures var o := CallInner(g, c, vm, fv, args); SpentSays(was.budget, o.vm.budget, o.error)
    decreases Room(c, vm), 0, 0, 0
  {
    var prnum := if g.callee(fv).QcFn? then vm.m.x.prnum else ProgsOf(fv);
    CallUnfolds(g, c, vm, was, fv, args, prnum);
    CalleeSpent(g, c, Began(g, was, prnum, args), g.callee(fv), fv);
  }

  lemma CalleeSpent(g: Engine, c: HostConfig, vm: Vm, callee: Callee, fv: word)
    requires Lawful(g) && HostOk(g, c) && PassesErrors(c) && g.sane(vm.m.mem) && 0 < vm.nesting <= c.reentry
    requires StackOk(vm.m) && vm.budget > 0
    ensures var o := CallCallee(g, c, vm, callee, fv); SpentSays(vm.budget, o.vm.budget, o.error)
    decreases Room(c, vm), vm.budget, 3, 0
  {
    match callee
    case QcFn => QcSpent(g, c, vm, fv);
    case BuiltinFn(slot) =>
      DirectUnfolds(g, c, vm, slot, fv);
      BuiltinSpent(g, c, AsSeen(vm, fv), slot, |vm.m.frames|);
    case _ =>
  }

  lemma QcSpent(g: Engine, c: HostConfig, vm: Vm, fv: word)
    requires Lawful(g) && HostOk(g, c) && PassesErrors(c) && g.sane(vm.m.mem) && 0 < vm.nesting <= c.reentry
    requires StackOk(vm.m) && vm.budget > 0
    ensures var o := CallQc(g, c, vm, fv); SpentSays(vm.budget, o.vm.budget, o.error)
    decreases Room(c, vm), vm.budget, 1, 0
  {
    assert EnterLaw(g, vm.m, ProgsOf(fv), IndexOf(fv));
    var d := |vm.m.frames|;
    var e := g.enter(vm.m, ProgsOf(fv), IndexOf(fv));
    if e.error.None? { ExecuteSpent(g, c, vm.(m := e.m, entryDepth := d), d); }
  }

  // ---- calls from outside ----------------------------------------------------------------------

  /** A call from outside with a budget of `b`, handed out whole. */
  function CallWith(g: Engine, c: HostConfig, vm: Vm, fv: word, args: seq<Arg>, b: nat): (o: Host.Outcome)
    requires Lawful(g) && g.sane(vm.m.mem) && vm.nesting == 0 < c.reentry && StackOk(vm.m) && |args| <= 8
    ensures o.vm.budget <= b
  {
    var c1 := c.(chunk := None, runaway := b);
    CallUnfolds(g, c1, vm, vm.(budget := b), fv, args, if g.callee(fv).QcFn? then vm.m.x.prnum else ProgsOf(fv));
    CallInner(g, c1, vm, fv, args)
  }

  lemma CallWithMore(g: Engine, c: HostConfig, vm: Vm, fv: word, args: seq<Arg>, b: nat, k: nat)
    requires Lawful(g) && g.sane(vm.m.mem) && vm.nesting == 0 < c.reentry && StackOk(vm.m) && |args| <= 8
    requires Ample(CallWith(g, c, vm, fv, args, b).vm.budget, CallWith(g, c, vm, fv, args, b + k).vm.budget, k)
    ensures CallWith(g, c, vm, fv, args, b + k) == MoreOf(CallWith(g, c, vm, fv, args, b), k)
  {
    var c1, c2 := c.(chunk := None, runaway := b), c.(chunk := None, runaway := b + k);
    CallBodyWithMore(g, c1, c2, vm, vm.(budget := b), vm, fv, args, k);
  }

  /** Budgets run out with an error, when builtins pass errors on. */
  lemma SpentIsRunaway(g: Engine, c: HostConfig, vm: Vm, fv: word, args: seq<Arg>, b: nat)
    requires Lawful(g) && PassesErrors(c) && g.sane(vm.m.mem) && vm.nesting == 0 < c.reentry && StackOk(vm.m) && |args| <= 8
    requires b > 0 && CallWith(g, c, vm, fv, args, b).vm.budget == 0
    ensures CallWith(g, c, vm, fv, args, b).error == Some(Runaway)
  {
    CallBodySpent(g, c.(chunk := None, runaway := b), vm, vm.(budget := b), fv, args);
  }

  /** A call that ends with some of its budget left has used a number of statements that does not depend
      on the budget: with any budget above that it is the same call, ending the same way at the same
      machine, and with any budget up to it the call spends it all. So there is one statement, across
      builtins and nested calls, at which budgets run out. */
  lemma BudgetUsed(g: Engine, c: HostConfig, vm: Vm, fv: word, args: seq<Arg>, b: nat, b': nat)
    requires Lawful(g) && g.sane(vm.m.mem) && vm.nesting == 0 < c.reentry && StackOk(vm.m) && |args| <= 8
    requires CallWith(g, c, vm, fv, args, b).vm.budget > 0
    ensures var o, o' := CallWith(g, c, vm, fv, args, b), CallWith(g, c, vm, fv, args, b');
      var used := b - o.vm.budget;
      && (b' > used ==> o' == Outcome(o.vm.(budget := b' - used), o.error))
      && (b' <= used ==> o'.vm.budget == 0)
  {
    var o, o' := CallWith(g, c, vm, fv, args, b), CallWith(g, c, vm, fv, args, b');
    if b <= b' {
      CallWithMore(g, c, vm, fv, args, b, b' - b);
    } else if o'.vm.budget > 0 || o.vm.budget > b - b' {
      CallWithMore(g, c, vm, fv, args, b', b - b');
    }
  }

  /** With budget `b` the call spends it all, and says so if builtins pass errors on. */
  ghost predicate Spends(g: Engine, c: HostConfig, vm: Vm, fv: word, args: seq<Arg>, b: nat)
    requires Lawful(g) && g.sane(vm.m.mem) && vm.nesting == 0 < c.reentry && StackOk(vm.m) && |args| <= 8
  {
    var o := CallWith(g, c, vm, fv, args, b);
    o.vm.budget == 0 && (b > 0 && PassesErrors(c) ==> o.error == Some(Runaway))
  }

  /** The call takes `used` statements and ends as `end` says, with what is left of its budget. */
  ghost predicate Takes(g: Engine, c: HostConfig, vm: Vm, fv: word, args: seq<Arg>, used: nat, end: Host.Outcome)
    requires Lawful(g) && g.sane(vm.m.mem) && vm.nesting == 0 < c.reentry && StackOk(vm.m) && |args| <= 8
  {
    forall b: nat {:trigger CallWith(g, c, vm, fv, args, b)} ::
      if b > used then CallWith(g, c, vm, fv, args, b) == Outcome(end.vm.(budget := b - used), end.error)
      else Spends(g, c, vm, fv, args, b)
  }

  lemma SpendsAll(g: Engine, c: HostConfig, vm: Vm, fv: word, args: seq<Arg>, b: nat)
    requires Lawful(g) && g.sane(vm.m.mem) && vm.nesting == 0 < c.reentry && StackOk(vm.m) && |args| <= 8
    requires CallWith(g, c, vm, fv, args, b).vm.budget == 0
    ensures Spends(g, c, vm, fv, args, b)
  {
    if b > 0 && PassesErrors(c) { SpentIsRunaway(g, c, vm, fv, args, b); }
  }

  /** What the budget of a call from outside means, for every call: either the call takes a fixed number
      of statements, ends the same way at the same machine with every budget above it, and runs away
      with every budget up to it; or it runs away with every budget. */
  lemma BudgetExactly(g: Engine, c: HostConfig, vm: Vm, fv: word, args: seq<Arg>)
    requires Lawful(g) && g.sane(vm.m.mem) && vm.nesting == 0 < c.reentry && StackOk(vm.m) && |args| <= 8
    ensures (exists used, end :: Takes(g, c, vm, fv, args, used, end)) || (forall b: nat :: Spends(g, c, vm, fv, args, b))
  {
    if enough: nat :| CallWith(g, c, vm, fv, args, enough).vm.budget > 0 {
      var end := CallWith(g, c, vm, fv, args, enough);
      var used: nat := enough - end.vm.budget;
      forall b: nat
        ensures if b > used then CallWith(g, c, vm, fv, args, b) == Outcome(end.vm.(budget := b - used), end.error)
                else Spends(g, c, vm, fv, args, b)
      {
        BudgetUsed(g, c, vm, fv, args, enough, b);
        if b <= used { SpendsAll(g, c, vm, fv, args, b); }
      }
      assert Takes(g, c, vm, fv, args, used, end);
    } else {
      forall b: nat
        ensures Spends(g, c, vm, fv, args, b)
      {
        SpendsAll(g, c, vm, fv, args, b);
      }
    }
  }
}
