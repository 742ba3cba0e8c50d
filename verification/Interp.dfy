/** The interpreter loop (`src/vm/interp.rs`): it terminates, and stays inside the program. */
module Interp {
  import opened Bytes
  import opened Program
  import opened Memory
  import opened Views
  import opened Machine
  import opened Effects
  import opened Step
  import opened Loop
  import Loader

  // ---- one step keeps the machine well-formed --------------------------------------------------

  /** How far the program counter is from the end of its code. */
  function Remaining(env: Env, m: Machine): nat
    requires CtxOk(env, m.x.prnum, m.x.pc)
  {
    |env.progs[m.x.prnum].code| - m.x.pc
  }

  /** The code's last statement is a trap, so a statement that falls through has a successor. */
  lemma FallsInside(env: Env, m: Machine, sLen: nat)
    requires EnvOk(env, sLen) && CtxOk(env, m.x.prnum, m.x.pc)
    requires Next(env, m).op != JumpOutOfRange
    ensures CtxOk(env, m.x.prnum, m.x.pc + 1)
  {
    assert ProgsOk(env.progs[m.x.prnum], sLen);
  }

  lemma NextOk(env: Env, m: Machine, sLen: nat)
    requires EnvOk(env, sLen) && CtxOk(env, m.x.prnum, m.x.pc)
    ensures var ps := Current(env, m); StmtOk(Next(env, m), ps.gbase, ps.numGlobals + 3, |ps.code|)
  {
    assert ProgsOk(env.progs[m.x.prnum], sLen);
  }

  lemma FetchIsNext(env: Env, v: View, m: Machine, d: nat)
    requires RunOk(env, v, m, d)
    ensures Fetch(v, Current(env, m).code, m.x.pc) == Some(Next(env, m))
  {
  }

  /** Same memory shape, same frames: only the current context needs checking. */
  lemma SameFramesOk(env: Env, v: View, m: Machine, m': Machine, d: nat)
    requires RunOk(env, v, m, d) && SameShape(m.mem, m'.mem) && m'.frames == m.frames
    requires CtxOk(env, m'.x.prnum, m'.x.pc)
    ensures RunOk(env, v, m', d)
  {
  }

  lemma EnterKeepsOk(env: Env, v: View, m: Machine, prnum: nat, index: nat, resumePc: nat, d: nat)
    requires m.mem.Valid() && EnvOk(env, |m.mem.s|) && ViewOk(v, env, m.mem.s)
    requires d <= |m.frames|
    requires forall i :: d < i < |m.frames| ==> CtxOk(env, m.frames[i].prnum, m.frames[i].resumePc)
    requires d < |m.frames| ==> CtxOk(env, m.x.prnum, resumePc)
    requires Enter(env, m, prnum, index, resumePc).error.None?
    ensures RunOk(env, v, Enter(env, m, prnum, index, resumePc).m, d)
  {
    var m' := Enter(env, m, prnum, index, resumePc).m;
    assert ProgsOk(env.progs[prnum], |m.mem.s|);
    assert Loader.EntryOk(env.progs[prnum].funcs[index], env.progs[prnum].gbase, env.progs[prnum].numGlobals + 3, |env.progs[prnum].code|);
    assert CtxOk(env, m'.x.prnum, m'.x.pc);
    assert m'.frames[..|m.frames|] == m.frames;
  }

  lemma LeaveKeepsOk(env: Env, v: View, m: Machine, d: nat)
    requires RunOk(env, v, m, d) && |m.frames| - 1 > d
    ensures RunOk(env, v, Leave(env, m), d)
  {
    var f := m.frames[|m.frames| - 1];
    assert CtxOk(env, f.prnum, f.resumePc);
    assert Leave(env, m).x.prnum == f.prnum && Leave(env, m).x.pc == f.resumePc;
  }

  lemma StraightKeepsOk(env: Env, v: View, m: Machine, d: nat)
    requires RunOk(env, v, m, d) && !IsControl(Next(env, m).op)
    requires Straight(env, v, m, Current(env, m), Next(env, m)).Done?
    ensures var m' := AtPc(Straight(env, v, m, Current(env, m), Next(env, m)).m, m.x.pc + 1);
      RunOk(env, v, m', d) && m'.x.prnum == m.x.prnum && m'.x.pc == m.x.pc + 1
  {
    var m1 := Straight(env, v, m, Current(env, m), Next(env, m)).m;
    FallsInside(env, m, |m.mem.s|);
    SameFramesOk(env, v, m, AtPc(m1, m.x.pc + 1), d);
  }

  lemma DispatchKeepsOk(env: Env, v: View, m: Machine, fv: word, d: nat)
    requires RunOk(env, v, m, d) && CtxOk(env, m.x.prnum, m.x.pc + 1) && Dispatch(env, m, fv).Go?
    ensures RunOk(env, v, Dispatch(env, m, fv).s, d)
  {
    EnterKeepsOk(env, v, m, ProgsOf(fv), IndexOf(fv), m.x.pc + 1, d);
  }

  lemma CallKeepsOk(env: Env, v: View, m: Machine, d: nat)
    requires RunOk(env, v, m, d) && Next(env, m).op.Call?
    requires CallStep(env, v, m, Current(env, m), Next(env, m)).out.Go?
    ensures RunOk(env, v, CallStep(env, v, m, Current(env, m), Next(env, m)).out.s, d)
  {
    var ps, st := Current(env, m), Next(env, m);
    var s := PassOperands(v, m.mem.s, ps, st.op.argc, st.op.hexen2, st.b, st.c);
    var m1 := WithS(m, s).(argc := st.op.argc);
    FallsInside(env, m, |m.mem.s|);
    SameFramesOk(env, v, m, m1, d);
    DispatchKeepsOk(env, v, m1, G(v, s, st.a), d);
  }

  lemma ReturnKeepsOk(env: Env, v: View, m: Machine, d: nat)
    requires RunOk(env, v, m, d) && Next(env, m).op.Return?
    requires ReturnStep(env, v, m, Current(env, m), Next(env, m).a, d).out.Go?
    ensures RunOk(env, v, ReturnStep(env, v, m, Current(env, m), Next(env, m).a, d).out.s, d)
  {
    var m1 := WithS(m, Copy(v, m.mem.s, Next(env, m).a, SlotAt(Current(env, m).gbase, OFS_RETURN), 3));
    SameFramesOk(env, v, m, m1, d);
    LeaveKeepsOk(env, v, m1, d);
  }

  /** What a step that goes on leads to: a well-formed machine, closer to the end of its code unless
      the step was counted. */
  predicate Progress(env: Env, v: View, m: Machine, d: nat, r: Result) {
    r.out.Go? ==>
      && RunOk(env, v, r.out.s, d)
      && (!r.ticks ==> r.out.s.x.prnum == m.x.prnum && r.out.s.x.pc == m.x.pc + 1)
  }

  /** A jump lands where its operand says, inside the code. */
  lemma BranchKeepsOk(env: Env, v: View, m: Machine, d: nat, r: Result)
    requires RunOk(env, v, m, d)
    requires Next(env, m).op.Branch? || Next(env, m).op.Goto? || Next(env, m).op.Switch? || Next(env, m).op.Case? || Next(env, m).op.CaseRange?
    requires r == Control(env, v, m, Current(env, m), Next(env, m), d)
    ensures Progress(env, v, m, d, r)
  {
    NextOk(env, m, |m.mem.s|);
    FallsInside(env, m, |m.mem.s|);
    if r.out.Go? {
      assert SameShape(m.mem, r.out.s.mem) && r.out.s.frames == m.frames && CtxOk(env, r.out.s.x.prnum, r.out.s.x.pc);
      SameFramesOk(env, v, m, r.out.s, d);
    }
  }

  lemma StepKeepsOk(env: Env, v: View, m: Machine, d: nat)
    requires RunOk(env, v, m, d)
    ensures Progress(env, v, m, d, StepOf(env, v, m, d))
  {
    FetchIsNext(env, v, m, d);
    var op := Next(env, m).op;
    if !IsControl(op) {
      if Straight(env, v, m, Current(env, m), Next(env, m)).Done? { StraightKeepsOk(env, v, m, d); }
    } else if op.Call? {
      if CallStep(env, v, m, Current(env, m), Next(env, m)).out.Go? { CallKeepsOk(env, v, m, d); }
    } else if op.Return? {
      if ReturnStep(env, v, m, Current(env, m), Next(env, m).a, d).out.Go? { ReturnKeepsOk(env, v, m, d); }
    } else {
      BranchKeepsOk(env, v, m, d, Control(env, v, m, Current(env, m), Next(env, m), d));
    }
  }

  /** The statement's effect before it is counted has been had already: it is no `SWITCH`, or one whose
      registers are set. */
  predicate Settled(m: Machine, st: Stmt) {
    st.op.Switch? ==> m.x.switchRef == st.a && m.x.switchKind == st.op.kind
  }

  /** A counted statement the budget stopped runs again as if it had not started: a `SWITCH` has set its
      registers, which changes nothing the second time. It was free of effects exactly when it was no
      `SWITCH` or its registers held those values. */
  lemma RetryIsFresh(env: Env, v: View, m: Machine, d: nat)
    requires RunOk(env, v, m, d) && StepOf(env, v, m, d).ticks
    ensures RunOk(env, v, StepOf(env, v, m, d).blocked, d)
    ensures StepOf(env, v, StepOf(env, v, m, d).blocked, d) == StepOf(env, v, m, d)
    ensures StepOf(env, v, m, d).blocked == m <==> Settled(m, Next(env, m))
    ensures Next(env, m).op.Switch? ==>
      StepOf(env, v, m, d).blocked == m.(x := m.x.(switchRef := Next(env, m).a, switchKind := Next(env, m).op.kind))
  {
    FetchIsNext(env, v, m, d);
    var st := Next(env, m);
    if st.op.Switch? {
      var b := m.(x := m.x.(switchRef := st.a, switchKind := st.op.kind));
      assert StepOf(env, v, m, d).blocked == b;
      SameFramesOk(env, v, m, b, d);
      FetchIsNext(env, v, b, d);
      assert Next(env, b) == st;
    } else {
      assert StepOf(env, v, m, d).blocked == m;
    }
  }

  lemma ExitTicks(env: Env, v: View, m: Machine, d: nat)
    requires RunOk(env, v, m, d)
    ensures var r := StepOf(env, v, m, d); r.out.Stop? && !r.out.exit.FaultExit? ==> r.ticks
  {
  }

  // ---- the loop --------------------------------------------------------------------------------

  /** A step of any machine; one that is not well-formed traps. */
  function StepAny(env: Env, v: View, m: Machine, d: nat): Result {
    if RunOk(env, v, m, d) then StepOf(env, v, m, d) else Trap(m, JumpOutOfRangeErr)
  }

  function RankOf(env: Env, m: Machine): nat {
    if CtxOk(env, m.x.prnum, m.x.pc) then Remaining(env, m) else 0
  }

  /** The interpreter: it runs until the frame stack returns to `d` frames, a builtin must be called,
      a fault, or the end of its budget. */
  function StepsOf(env: Env, v: View, d: nat): Steps<Machine, Exit> {
    Steps((m: Machine) => RunOk(env, v, m, d), (m: Machine) => StepAny(env, v, m, d),
          (m: Machine) => RankOf(env, m), (x: Exit) => !x.FaultExit?)
  }

  /** What the loop relies on, statement by statement. */
  lemma StepSound(env: Env, v: View, m: Machine, d: nat)
    requires RunOk(env, v, m, d)
    ensures var r := StepAny(env, v, m, d);
      && (r.out.Go? ==> RunOk(env, v, r.out.s, d) && (!r.ticks ==> RankOf(env, r.out.s) < RankOf(env, m)))
      && (r.ticks ==> RunOk(env, v, r.blocked, d) && StepAny(env, v, r.blocked, d) == r)
      && (r.out.Stop? && !r.out.exit.FaultExit? ==> r.ticks)
  {
    StepKeepsOk(env, v, m, d);
    ExitTicks(env, v, m, d);
    if StepOf(env, v, m, d).ticks { RetryIsFresh(env, v, m, d); }
  }

  /** Every run of the interpreter terminates, by the measure of budget and statements left, and its
      program counter never leaves the code. */
  lemma InterpreterSound(env: Env, v: View, d: nat)
    ensures Sound(StepsOf(env, v, d))
  {
    var l := StepsOf(env, v, d);
    forall m | l.ok(m)
      ensures SoundAt(l, m)
    {
      StepSound(env, v, m, d);
    }
  }
}
