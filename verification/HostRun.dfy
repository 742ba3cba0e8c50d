/** Host calls as the source has them (`src/vm/mod.rs`): loops and nested calls over one core, the
    budget, the nesting depth and the argument count updated in place. */
module HostRun {
  import opened Bytes
  import opened Program
  import opened Memory
  import opened Views
  import opened Machine
  import opened Step
  import opened Interp
  import opened Frames
  import opened VmEngine
  import opened CoreRun
  import opened Host
  import L = Loop

  /** What follows one run of the interpreter. */
  datatype Turn = TurnAgain | TurnBuiltin(slot: nat) | TurnEnded(error: Option<ErrorKind>)

  datatype BuiltinFlow = FlowContinue | FlowReturn | FlowFail(kind: ErrorKind)

  // ---- the engine, operation by operation ------------------------------------------------------

  ghost predicate LoopIs(g: Engine, env: Env, view: View, d: nat) { g.loop(d) == StepsOf(env, view, d) }
  ghost predicate SaneIs(g: Engine, env: Env, view: View, mem: Mem) { g.sane(mem) == Laid(env, view, mem) }
  ghost predicate UnwindIs(g: Engine, env: Env, m: Machine, d: nat) { g.unwind(m, d) == Unwind(env, m, d) }
  ghost predicate CalleeIs(g: Engine, env: Env, fv: word) { g.callee(fv) == CalleeAt(env, fv) }
  ghost predicate EnterIs(g: Engine, env: Env, m: Machine, prnum: nat, index: nat) {
    g.enter(m, prnum, index) == Enter(env, m, prnum, index, m.x.pc)
  }
  ghost predicate ArgsIs(g: Engine, env: Env, m: Machine, prnum: nat, args: seq<Arg>) {
    g.passArgs(m, prnum, args) == WithS(m, PassArgs(m.mem.s, SlotAt(GlobalsBase(env, prnum), OFS_PARM0), args, |args|))
  }

  /** `g` is the interpreter running the progs of `env` through `view`. */
  ghost predicate Drives(g: Engine, env: Env, view: View) {
    && (forall d {:trigger LoopIs(g, env, view, d)} :: LoopIs(g, env, view, d))
    && (forall mem {:trigger SaneIs(g, env, view, mem)} :: SaneIs(g, env, view, mem))
    && (forall m, d {:trigger UnwindIs(g, env, m, d)} :: UnwindIs(g, env, m, d))
    && (forall fv {:trigger CalleeIs(g, env, fv)} :: CalleeIs(g, env, fv))
    && (forall m, prnum, index {:trigger EnterIs(g, env, m, prnum, index)} :: EnterIs(g, env, m, prnum, index))
    && (forall m, prnum, args {:trigger ArgsIs(g, env, m, prnum, args)} :: ArgsIs(g, env, m, prnum, args))
  }

  /** The run `NextOf` makes, on `chunk` of the budget. */
  lemma RunFrom(g: Engine, c: HostConfig, vm: Host.Vm, d: nat, chunk: nat) returns (r: L.RunResult<Machine, Exit>)
    requires Lawful(g) && HostOk(g, c) && g.loop(d).ok(vm.m) && StackOk(vm.m) && d < |vm.m.frames|
    requires chunk == ChunkOf(c, vm.budget)
    ensures r == L.Run(g.loop(d), vm.m, chunk) && g.sane(r.s.mem)
    ensures NextOf(g, c, vm, d) == NextFrom(g, vm, d, r, vm.budget - chunk)
  {
    r := L.Run(g.loop(d), vm.m, chunk);
    assert RunLaw(g, d, vm.m, chunk);
  }

  lemma Rest<T>(s: seq<T>, i: nat)
    requires i < |s|
    ensures s[i..] != [] && s[i..][1..] == s[i + 1..]
  {
  }

  class HostVm {
    const env: Env
    const view: View
    const config: HostConfig
    ghost const g: Engine
    var core: Core
    var budget: nat
    var nesting: nat
    var abortRet: Option<Arg>
    var entryDepth: nat

    constructor (env: Env, view: View, config: HostConfig, m: Machine)
      ensures this.env == env && this.view == view && this.config == config
      ensures Valid() && fresh(Footprint()) && Value() == Host.Vm(m, 0, 0, None, 0)
      ensures g == QcEngine(env, view) && Lawful(g)
    {
      this.env, this.view, this.config := env, view, config;
      g := QcEngine(env, view);
      core := new Core(m);
      budget, nesting, abortRet, entryDepth := 0, 0, None, 0;
      new;
      EngineIsLawful(env, view);
    }

    ghost function Footprint(): set<object>
      reads this
    {
      {this, core, core.s, core.e, core.h}
    }

    ghost predicate Valid()
      reads this
    {
      core.Apart() && Drives(g, env, view)
    }

    function Value(): (vm: Host.Vm)
      reads this, core, core.s, core.e, core.h
    {
      Host.Vm(core.Value(), budget, nesting, abortRet, entryDepth)
    }

    /** The core is the same, or a new one. */
    twostate predicate Kept()
      reads this
    {
      core == old(core) || (fresh(core) && fresh(core.s) && fresh(core.e) && fresh(core.h))
    }

    /** Changes memory as far as it keeps the layout and the contexts. */
    method Poke(f: Machine -> Machine)
      requires Valid()
      modifies this`core
      ensures Valid() && Kept()
      ensures Value() == old(Value()).(m := Poked(g, old(core.Value()), f))
    {
      var m := core.Value();
      assert SaneIs(g, env, view, f(m).mem);
      if Untouched(m, f(m)) && Laid(env, view, f(m).mem) {
        core := new Core(f(m));
      }
    }

    /** Unwinds to the engine boundary at `d` frames. */
    method Unwind(d: nat, ghost error: Option<ErrorKind>)
      requires Valid() && Lawful(g) && g.sane(core.Memory())
      modifies core, core.s
      ensures Unwound(g, old(Value()), d, error) == Outcome(Value(), error)
    {
      assert UnwindIs(g, env, core.Value(), d);
      core.UnwindTo(env, d);
    }

    /** What follows from the way one run on `chunk` of the budget ended. */
    method Settle(end: Taken, chunk: nat, d: nat, ghost vm: Host.Vm, ghost r: L.RunResult<Machine, Exit>) returns (turn: Turn)
      requires Valid() && Lawful(g) && g.sane(core.Memory())
      requires !end.On? && chunk <= budget && (end.Off? ==> end.left <= chunk)
      requires Value() == vm.(m := core.Value())
      requires r == if end.NoBudget? then L.Spent(core.Value()) else L.Exited(end.exit, core.Value(), end.left)
      modifies this`budget, core, core.s
      ensures NextFrom(g, vm, d, r, old(budget) - chunk) ==
              match turn
              case TurnAgain => Again(Value())
              case TurnBuiltin(slot) => AtBuiltin(Value(), slot)
              case TurnEnded(error) => Ended(Outcome(Value(), error))
    {
      match end
      case NoBudget =>
        if budget <= chunk {
          budget := 0;
          Unwind(d, Some(Runaway));
          return TurnEnded(Some(Runaway));
        }
        budget := budget - chunk + 1;
        return TurnAgain;
      case Off(exit, left) =>
        budget := budget - chunk + left;
        if exit.Returned? { return TurnEnded(None); }
        if exit.BuiltinExit? { return TurnBuiltin(exit.slot); }
        Unwind(d, Some(exit.kind));
        return TurnEnded(Some(exit.kind));
    }

    // ---- nested calls --------------------------------------------------------------------------

    /** Where the loop above `d` frames may go on. */
    ghost predicate MayRun(d: nat)
      reads this, core, core.s, core.e, core.h
    {
      && Valid() && Lawful(g) && HostOk(g, config) && 0 < nesting <= config.reentry
      && g.loop(d).ok(core.Value()) && StackOk(core.Value()) && d < |core.frames|
    }

    /** Where a builtin may run. */
    ghost predicate MayCall()
      reads this, core, core.s, core.e, core.h
    {
      && Valid() && Lawful(g) && HostOk(g, config) && 0 < nesting <= config.reentry
      && g.sane(core.Memory()) && StackOk(core.Value())
    }

    /** Runs the interpreter once, on one chunk of the budget. */
    method RunOnce(d: nat) returns (turn: Turn)
      requires Valid() && Lawful(g) && HostOk(g, config) && g.loop(d).ok(core.Value())
      requires StackOk(core.Value()) && d < |core.frames|
      modifies this`budget, core, core.s, core.e, core.h
      ensures NextOf(g, config, old(Value()), d) ==
              match turn
              case TurnAgain => Again(Value())
              case TurnBuiltin(slot) => AtBuiltin(Value(), slot)
              case TurnEnded(error) => Ended(Outcome(Value(), error))
    {
      var chunk := ChunkOf(config, budget);
      ghost var vm := Value();
      ghost var r := RunFrom(g, config, vm, d, chunk);
      var end := RunChunk(d, chunk, r);
      turn := Settle(end, chunk, d, vm, r);
    }

    /** The interpreter's loop on one chunk of the budget. */
    method RunChunk(d: nat, chunk: nat, ghost r: L.RunResult<Machine, Exit>) returns (end: Taken)
      requires Valid() && L.Sound(g.loop(d)) && g.loop(d).ok(core.Value()) && r == L.Run(g.loop(d), core.Value(), chunk)
      modifies core, core.s, core.e, core.h
      ensures Valid() && !end.On? && (end.Off? ==> end.left <= chunk)
      ensures r == if end.NoBudget? then L.Spent(core.Value()) else L.Exited(end.exit, core.Value(), end.left)
    {
      assert LoopIs(g, env, view, d);
      end := core.Run(env, view, d, chunk);
    }

    /** Runs the interpreter until the frame stack is back at `d` frames. */
    method Execute(d: nat, ghost o: Host.Outcome) returns (error: Option<ErrorKind>)
      requires MayRun(d) && o == ExecuteInner(g, config, Value(), d)
      modifies this, core, core.s, core.e, core.h
      ensures Valid() && Kept()
      ensures o == Outcome(Value(), error)
      decreases Room(config, Value()), budget, 6, 0
    {
      var over := false;
      error := None;
      while !over
        invariant Valid() && Kept()
        invariant nesting == old(nesting) && budget <= old(budget)
        invariant !over ==> MayRun(d) && o == ExecuteInner(g, config, Value(), d)
        invariant over ==> o == Outcome(Value(), error)
        decreases !over, budget
      {
        over, error := Round(d, o);
      }
    }

    /** One turn of `Execute`: a run of the interpreter, and the builtin it stopped at. */
    method Round(d: nat, ghost o: Host.Outcome) returns (over: bool, error: Option<ErrorKind>)
      requires MayRun(d) && o == ExecuteInner(g, config, Value(), d)
      modifies this, core, core.s, core.e, core.h
      ensures Valid() && Kept()
      ensures nesting == old(nesting) && budget <= old(budget)
      ensures !over ==> MayRun(d) && budget < old(budget) && o == ExecuteInner(g, config, Value(), d)
      ensures over ==> o == Outcome(Value(), error)
      decreases Room(config, Value()), budget, 5, 0
    {
      var turn := RunOnce(d);
      match turn
      case TurnEnded(err) => return true, err;
      case TurnAgain => return false, None;
      case TurnBuiltin(slot) => over, error := CallAtExit(slot, d, o);
    }

    /** Calls the builtin the interpreter stopped at. */
    method CallAtExit(slot: nat, d: nat, ghost o: Host.Outcome) returns (over: bool, error: Option<ErrorKind>)
      requires MayCall() && d < |core.frames| && MayGoOn(g, d, core.Value())
      requires o == AfterBuiltinExit(g, config, Value(), slot, d)
      modifies this, core, core.s, core.e, core.h
      ensures Valid() && Kept()
      ensures budget <= old(budget) && nesting == old(nesting)
      ensures !over ==> MayRun(d) && o == ExecuteInner(g, config, Value(), d)
      ensures over ==> o == Outcome(Value(), error)
      decreases Room(config, Value()), budget, 4, 0
    {
      var flow := RunBuiltin(slot, d, Host.RunBuiltin(g, config, Value(), slot, d));
      return !flow.FlowContinue?, if flow.FlowFail? then Some(flow.kind) else None;
    }

    /** Calls a builtin; an error or an abort unwinds to `d` frames. */
    method RunBuiltin(slot: nat, d: nat, ghost f: Flow) returns (flow: BuiltinFlow)
      requires MayCall() && f == Host.RunBuiltin(g, config, Value(), slot, d)
      modifies this, core, core.s, core.e, core.h
      ensures Valid() && Kept()
      ensures f == match flow
                   case FlowContinue => Continue(Value())
                   case FlowReturn => Aborted(Value())
                   case FlowFail(kind) => Fail(Value(), kind)
      decreases Room(config, Value()), budget, 2, 0
    {
      match config.builtin(slot, core.Value())
      case Missing => flow := FailAt(NotImplemented, d);
      case Provided(acts, end) =>
        ghost var o := Host.RunActs(g, config, Value(), acts);
        var error := RunActs(acts, o);
        flow := Conclude(error, end, d, o);
    }

    /** What follows a builtin's acts: their error, or the builtin's own end. */
    method Conclude(error: Option<ErrorKind>, end: Machine -> End, d: nat, ghost o: Host.Outcome) returns (flow: BuiltinFlow)
      requires Valid() && Lawful(g) && g.sane(core.Memory()) && o == Outcome(Value(), error)
      modifies this`abortRet, core, core.s
      ensures Valid()
      ensures (if error.Some? then Fail(Unwound(g, o.vm, d, None).vm, error.value) else Finished(g, o.vm, end(o.vm.m), d)) ==
              match flow
              case FlowContinue => Continue(Value())
              case FlowReturn => Aborted(Value())
              case FlowFail(kind) => Fail(Value(), kind)
    {
      if error.Some? {
        flow := FailAt(error.value, d);
      } else {
        flow := Finish(end(core.Value()), d);
      }
    }

    /** An error of a builtin unwinds to `d` frames. */
    method FailAt(kind: ErrorKind, d: nat) returns (flow: BuiltinFlow)
      requires Valid() && Lawful(g) && g.sane(core.Memory())
      modifies core, core.s
      ensures Valid() && flow == FlowFail(kind) && Value() == Unwound(g, old(Value()), d, None).vm
    {
      Unwind(d, None);
      return FlowFail(kind);
    }

    /** What a builtin that ran all its acts ends with. */
    method Finish(end: End, d: nat) returns (flow: BuiltinFlow)
      requires Valid() && Lawful(g) && g.sane(core.Memory())
      modifies this`abortRet, core, core.s
      ensures Valid()
      ensures Finished(g, old(Value()), end, d) ==
              match flow
              case FlowContinue => Continue(Value())
              case FlowReturn => Aborted(Value())
              case FlowFail(kind) => Fail(Value(), kind)
    {
      match end
      case EndOk => return FlowContinue;
      case EndAbort(ret) =>
        abortRet := Some(ret);
        Unwind(d, None);
        return FlowReturn;
      case EndError(kind) => flow := FailAt(kind, d);
    }

    /** A builtin's acts, in order, until one fails. */
    method RunActs(acts: seq<Act>, ghost o: Host.Outcome) returns (error: Option<ErrorKind>)
      requires MayCall() && o == Host.RunActs(g, config, Value(), acts)
      modifies this, core, core.s, core.e, core.h
      ensures Valid() && Kept()
      ensures o == Outcome(Value(), error)
      decreases Room(config, Value()), budget, 1, |acts|
    {
      var i := 0;
      error := None;
      while i < |acts| && error.None?
        invariant i <= |acts|
        invariant Valid() && Kept()
        invariant nesting == old(nesting) && budget <= old(budget)
        invariant error.None? ==> MayCall() && o == Host.RunActs(g, config, Value(), acts[i..])
        invariant error.Some? ==> o == Outcome(Value(), error)
      {
        Rest(acts, i);
        error := RunAct(acts[i..], o);
        i := i + 1;
      }
    }

    /** The first of a builtin's remaining acts. */
    method RunAct(acts: seq<Act>, ghost o: Host.Outcome) returns (error: Option<ErrorKind>)
      requires MayCall() && acts != [] && o == Host.RunActs(g, config, Value(), acts)
      modifies this, core, core.s, core.e, core.h
      ensures Valid() && Kept()
      ensures nesting == old(nesting) && budget <= old(budget)
      ensures error.None? ==> MayCall() && o == Host.RunActs(g, config, Value(), acts[1..])
      ensures error.Some? ==> o == Outcome(Value(), error)
      decreases Room(config, Value()), budget, 0, 1
    {
      match acts[0]
      case Poke(f) =>
        Poke(f);
        return None;
      case CallBack(target, args, ignoreError) =>
        var fv, list := target(core.Value()), args(core.Value());
        error := Call(fv, list, CallInner(g, config, Value(), fv, list));
        if ignoreError { error := None; }
    }

    /** Writes a call's arguments to the PARM slots of progs `prnum`. */
    method WriteArgs(prnum: nat, args: seq<Arg>)
      requires Valid()
      modifies core.s
      ensures core.Value() == g.passArgs(old(core.Value()), prnum, args)
    {
      assert ArgsIs(g, env, core.Value(), prnum, args);
      var at := SlotAt(GlobalsBase(env, prnum), OFS_PARM0);
      for i := 0 to |args|
        invariant core.s[..] == PassArgs(old(core.s[..]), at, args, i)
      {
        var slot := Nth(at, 3 * i);
        core.SetWord(Whole, slot, args[i].x);
        core.SetWord(Whole, Nth(slot, 1), args[i].y);
        core.SetWord(Whole, Nth(slot, 2), args[i].z);
      }
    }

    /** A top-level call starts the budget its nested calls share. */
    method StartBudget()
      modifies this`budget
      ensures Value() == if nesting == 0 then old(Value()).(budget := config.runaway) else old(Value())
    {
      if nesting == 0 { budget := config.runaway; }
    }

    /** Puts a call's arguments in place and nests one deeper. */
    method BeginCall(prnum: nat, args: seq<Arg>)
      requires Valid() && Lawful(g) && HostOk(g, config) && nesting < config.reentry
      requires g.sane(core.Memory()) && StackOk(core.Value())
      modifies this`nesting, core`argc, core.s
      ensures Value() == Began(g, old(Value()), prnum, args) && MayCall()
    {
      assert ArgsLaw(g, core.Value(), prnum, args);
      WriteArgs(prnum, args);
      core.argc := |args|;
      nesting := nesting + 1;
    }

    /** Gives the caller its argument count and nesting back. */
    method EndCall(savedArgc: nat, savedNesting: nat, ghost vm: Host.Vm, ghost error: Option<ErrorKind>)
      requires Valid() && vm.nesting == savedNesting && vm.m.argc == savedArgc && g.sane(core.Memory())
      modifies this`nesting, this`abortRet, core`argc
      ensures CallOver(g, vm, Outcome(old(Value()), error)) == Outcome(Value(), error)
    {
      nesting := savedNesting;
      core.argc := savedArgc;
      abortRet := None;
    }

    /** Calls a function value with arguments; a top-level call starts the budget. */
    method Call(fv: word, args: seq<Arg>, ghost o: Host.Outcome) returns (error: Option<ErrorKind>)
      requires Valid() && Lawful(g) && HostOk(g, config) && nesting <= config.reentry
      requires g.sane(core.Memory()) && StackOk(core.Value())
      requires o == CallInner(g, config, Value(), fv, args)
      modifies this, core, core.s, core.e, core.h
      ensures Valid() && Kept()
      ensures o == Outcome(Value(), error)
      decreases Room(config, Value()), budget, 0, 0
    {
      if nesting >= config.reentry { return Some(Reentrancy); }
      assert CalleeIs(g, env, fv);
      var callee := CalleeAt(env, fv);
      ghost var before := Value();
      StartBudget();
      if |args| > 8 { return Some(TooManyArguments); }
      var prnum := if callee.QcFn? then core.x.prnum else ProgsOf(fv);
      CallUnfolds(g, config, before, Value(), fv, args, prnum);
      error := CallNested(callee, fv, prnum, args, o);
    }

    /** The call itself, one deeper: arguments in place, the callee run, the caller's state back. */
    method CallNested(callee: Callee, fv: word, prnum: nat, args: seq<Arg>, ghost o: Host.Outcome) returns (error: Option<ErrorKind>)
      requires Valid() && Lawful(g) && HostOk(g, config) && nesting < config.reentry
      requires g.sane(core.Memory()) && StackOk(core.Value())
      requires o == CallOver(g, Value(), CallCallee(g, config, Began(g, Value(), prnum, args), callee, fv))
      modifies this, core, core.s, core.e, core.h
      ensures Valid() && Kept()
      ensures o == Outcome(Value(), error)
      decreases Room(config, Value()) - 1, budget, 9, 0
    {
      var savedArgc, savedNesting := core.argc, nesting;
      ghost var vm := Value();
      BeginCall(prnum, args);
      error := RunCallee(callee, fv, CallCallee(g, config, Value(), callee, fv));
      EndCall(savedArgc, savedNesting, vm, error);
    }

    /** Runs the callee of a call whose arguments are in place. */
    method RunCallee(callee: Callee, fv: word, ghost o: Host.Outcome) returns (error: Option<ErrorKind>)
      requires MayCall() && o == CallCallee(g, config, Value(), callee, fv)
      modifies this, core, core.s, core.e, core.h
      ensures Valid() && Kept()
      ensures o == Outcome(Value(), error)
      decreases Room(config, Value()), budget, 8, 0
    {
      match callee
      case QcFn => error := RunQc(fv, o);
      case BuiltinFn(slot) => error := RunHostBuiltin(slot, fv, o);
      case NullFn => error := Some(NullFunction);
      case MissingFn => error := Some(NotImplemented);
      case InvalidFn => error := Some(InvalidFunction);
    }

    /** Enters a QuakeC function from the host. */
    method EnterFromHost(fv: word) returns (error: Option<ErrorKind>)
      requires MayCall()
      modifies core, core.s
      ensures var r := g.enter(old(core.Value()), ProgsOf(fv), IndexOf(fv));
        core.Value() == r.m && error == r.error
    {
      assert EnterIs(g, env, core.Value(), ProgsOf(fv), IndexOf(fv));
      error := core.EnterQc(env, ProgsOf(fv), IndexOf(fv), core.x.pc);
    }

    /** Calling QuakeC: an engine boundary of its own. */
    method RunQc(fv: word, ghost o: Host.Outcome) returns (error: Option<ErrorKind>)
      requires MayCall() && o == CallQc(g, config, Value(), fv)
      modifies this, core, core.s, core.e, core.h
      ensures Valid() && Kept()
      ensures o == Outcome(Value(), error)
      decreases Room(config, Value()), budget, 7, 0
    {
      var d := |core.frames|;
      assert EnterLaw(g, core.Value(), ProgsOf(fv), IndexOf(fv));
      error := EnterFromHost(fv);
      if error.Some? { return; }
      var savedEntry := entryDepth;
      entryDepth := d;
      error := Execute(d, ExecuteInner(g, config, Value(), d));
      entryDepth := savedEntry;
    }

    /** Calling a builtin from the host: it sees its own progs. */
    method RunHostBuiltin(slot: nat, fv: word, ghost o: Host.Outcome) returns (error: Option<ErrorKind>)
      requires MayCall() && o == CallBuiltin(g, config, Value(), slot, fv)
      modifies this, core, core.s, core.e, core.h
      ensures Valid() && Kept()
      ensures o == Outcome(Value(), error)
      decreases Room(config, Value()), budget, 7, 0
    {
      var savedPrnum := core.x.prnum;
      core.x := core.x.(prnum := ProgsOf(fv));
      var flow := RunBuiltin(slot, |core.frames|, Host.RunBuiltin(g, config, Value(), slot, |core.frames|));
      core.x := core.x.(prnum := savedPrnum);
      return if flow.FlowFail? then Some(flow.kind) else None;
    }

    /** A call from the host, or from a builtin. However it ends, the context it was made from goes
        on: its frames, registers, arguments and local stack are what they were. */
    method CallFunction(fv: word, args: seq<Arg>) returns (error: Option<ErrorKind>)
      requires Valid() && Lawful(g) && HostOk(g, config) && nesting <= config.reentry
      requires g.sane(core.Memory()) && StackOk(core.Value())
      modifies this, core, core.s, core.e, core.h
      ensures Valid() && Kept()
      ensures CallInner(g, config, old(Value()), fv, args) == Outcome(Value(), error)
      ensures Resumes(g.env, old(core.Value()), core.Value()) && core.argc == old(core.argc)
      ensures nesting == old(nesting) && entryDepth == old(entryDepth) && g.sane(core.Memory())
    {
      error := Call(fv, args, CallInner(g, config, Value(), fv, args));
    }
  }
}
