/** The local stack: what calls save and returns restore (`src/vm/core.rs`). */
module Frames {
  import opened Bytes
  import opened Program
  import opened Memory
  import opened Views
  import opened Machine
  import opened Effects
  import opened Step
  import opened Interp
  import opened Loop
  import Loader

  // ---- accounting ------------------------------------------------------------------------------

  /** Words the contexts saved in `frames` hold: their locals and what they pushed. */
  function Held(frames: seq<Frame>): nat {
    if frames == [] then 0
    else var f := frames[|frames| - 1]; Held(frames[..|frames| - 1]) + f.localsWords + f.pushed
  }

  /** Frame `i`'s callee saved its locals right above what the contexts up to it hold. */
  predicate SavedAbove(frames: seq<Frame>, i: nat) {
    i < |frames| && frames[i].localsAt == Held(frames[..i + 1])
  }

  /** Local-stack words in use are exactly those held by all contexts, and each callee's locals were
      saved right above what its caller holds. */
  predicate StackOk(m: Machine) {
    && m.x.lsTop == Held(m.frames) + m.x.localsWords
    && m.x.lsTop + m.x.pushed <= m.mem.lsWords
    && forall i :: 0 <= i < |m.frames| ==> SavedAbove(m.frames, i)
  }

  lemma HeldGrows(frames: seq<Frame>, i: nat)
    requires i <= |frames|
    ensures Held(frames[..i]) <= Held(frames)
    decreases |frames|
  {
    if i < |frames| {
      assert frames[..|frames| - 1][..i] == frames[..i];
      HeldGrows(frames[..|frames| - 1], i);
    } else {
      assert frames[..i] == frames;
    }
  }

  lemma EnterKeepsStack(env: Env, m: Machine, prnum: nat, index: nat, resumePc: nat)
    requires StackOk(m)
    ensures StackOk(Enter(env, m, prnum, index, resumePc).m)
  {
    var r := Enter(env, m, prnum, index, resumePc);
    if r.error.None? {
      var f := r.m.frames[|m.frames|];
      assert r.m.frames == m.frames + [f];
      assert r.m.frames[..|r.m.frames| - 1] == m.frames;
      forall i | 0 <= i < |r.m.frames|
        ensures SavedAbove(r.m.frames, i)
      {
        if i < |m.frames| {
          assert SavedAbove(m.frames, i);
          assert r.m.frames[..i + 1] == m.frames[..i + 1];
        } else {
          assert r.m.frames[..i + 1] == r.m.frames;
        }
      }
    }
  }

  lemma LeaveKeepsStack(env: Env, m: Machine)
    requires StackOk(m) && m.frames != []
    ensures StackOk(Leave(env, m))
    ensures Leave(env, m).x == CallerRegs(env, m.frames[|m.frames| - 1], Held(m.frames))
    ensures Leave(env, m).x.lsTop + Leave(env, m).x.pushed == Held(m.frames)
  {
    var n := |m.frames| - 1;
    var m' := Leave(env, m);
    assert m.frames[..n + 1] == m.frames;
    forall i | 0 <= i < n
      ensures SavedAbove(m'.frames, i)
    {
      assert SavedAbove(m.frames, i);
      assert m'.frames[..i + 1] == m.frames[..i + 1];
    }
  }

  // ---- what a step does to the stack -----------------------------------------------------------

  /** Contexts agree up to what a statement may change while its function keeps running. */
  predicate SameActivation(m: Machine, m': Machine) {
    && m'.frames == m.frames
    && m'.x == m.x.(pc := m'.x.pc, pushed := m'.x.pushed, switchRef := m'.x.switchRef, switchKind := m'.x.switchKind)
    && m'.mem.lsWords == m.mem.lsWords
    && (m'.x.pushed == m.x.pushed || m.x.lsTop + m'.x.pushed < m.mem.lsWords)
  }

  lemma SameActivationKeepsStack(m: Machine, m': Machine)
    requires StackOk(m) && SameActivation(m, m')
    ensures StackOk(m')
  {
  }

  /** A statement that neither calls nor returns stays in its activation. */
  lemma StaysInActivation(env: Env, v: View, m: Machine, ps: ProgsState, st: Stmt, d: nat)
    requires m.mem.Valid() && HasView(v, m.mem.s) && !st.op.Call? && !st.op.Return?
    ensures var r := Execute(env, v, m, ps, st, d);
      && SameActivation(m, r.blocked) && SameActivation(m, r.out.s)
      && (r.out.Stop? ==> r.out.exit.FaultExit?)
  {
  }

  /** What dispatching a call leaves the stack like: a new activation, or the same one when a builtin
      is to be called or the call faults. */
  lemma EnterPushesOne(env: Env, m: Machine, prnum: nat, index: nat, resumePc: nat)
    ensures var r := Enter(env, m, prnum, index, resumePc);
      && (r.error.Some? ==> SameActivation(m, r.m))
      && (r.error.None? ==> |r.m.frames| == |m.frames| + 1 && r.m.frames[..|m.frames|] == m.frames)
      && (StackOk(m) ==> StackOk(r.m))
  {
    if StackOk(m) { EnterKeepsStack(env, m, prnum, index, resumePc); }
  }

  lemma DispatchEnters(env: Env, m: Machine, fv: word)
    ensures var out := Dispatch(env, m, fv);
      && (out.Stop? ==> SameActivation(m, out.s) && !out.exit.Returned?)
      && (out.Go? ==>
            && |out.s.frames| == |m.frames| + 1
            && out.s.frames[..|m.frames|] == m.frames
            && (StackOk(m) ==> StackOk(out.s)))
  {
    if CalleeAt(env, fv).QcFn? {
      var p, i, pc := ProgsOf(fv), IndexOf(fv), m.x.pc + 1;
      EnterPushesOne(env, m, p, i, pc);
      DispatchIsEnter(env, m, fv, Enter(env, m, p, i, pc));
    }
  }

  lemma DispatchIsEnter(env: Env, m: Machine, fv: word, r: EnterResult)
    requires CalleeAt(env, fv).QcFn? && r == Enter(env, m, ProgsOf(fv), IndexOf(fv), m.x.pc + 1)
    ensures Dispatch(env, m, fv) == if r.error.Some? then Stop(FaultExit(r.error.value), r.m) else Go(r.m)
  {
  }

  lemma CallEnters(env: Env, v: View, m: Machine, ps: ProgsState, st: Stmt, base: seq<Frame>)
    requires HasView(v, m.mem.s) && st.op.Call? && Above(base, m)
    ensures var r := CallStep(env, v, m, ps, st);
      Above(base, r.out.s) && (r.out.Stop? ==> !r.out.exit.Returned?)
  {
    var s := PassOperands(v, m.mem.s, ps, st.op.argc, st.op.hexen2, st.b, st.c);
    var m1 := WithS(m, s).(argc := st.op.argc);
    DispatchEnters(env, m1, G(v, s, st.a));
  }

  /** What a return leaves the stack like: the caller's activation, its registers those it had. */
  lemma ReturnLeaves(env: Env, v: View, m: Machine, ps: ProgsState, oa: nat, d: nat)
    requires HasView(v, m.mem.s) && StackOk(m) && m.frames != []
    ensures var r := ReturnStep(env, v, m, ps, oa, d);
      && r.out.s.frames == m.frames[..|m.frames| - 1]
      && (r.out.Go? <==> |m.frames| - 1 > d)
      && (r.out.Stop? ==> r.out.exit == Returned)
      && StackOk(r.out.s) && r.out.s.x == CallerRegs(env, m.frames[|m.frames| - 1], Held(m.frames))
  {
    LeaveKeepsStack(env, WithS(m, Copy(v, m.mem.s, oa, SlotAt(ps.gbase, OFS_RETURN), 3)));
  }

  /** While the function entered above `d` frames runs, everything below it stays as it was. */
  predicate Above(base: seq<Frame>, m: Machine) {
    StackOk(m) && base <= m.frames
  }

  /** A step is the execution of its statement. */
  lemma StepExecutes(env: Env, v: View, m: Machine, d: nat)
    requires RunOk(env, v, m, d)
    ensures StepOf(env, v, m, d) == Execute(env, v, m, Current(env, m), Next(env, m), d)
    ensures Next(env, m).op.Call? ==> StepOf(env, v, m, d) == CallStep(env, v, m, Current(env, m), Next(env, m))
    ensures Next(env, m).op.Return? ==> StepOf(env, v, m, d) == ReturnStep(env, v, m, Current(env, m), Next(env, m).a, d)
  {
    FetchIsNext(env, v, m, d);
  }

  /** Every step keeps the accounting and the caller's frames; the run returns only by popping the
      last frame of `base`, which gives the caller its registers back. */
  predicate KeepsStack(env: Env, r: Result, base: seq<Frame>) {
    && Above(base, r.blocked)
    && (r.out.Go? || !r.out.exit.Returned? ==> Above(base, r.out.s))
    && (r.out.Stop? && r.out.exit.Returned? ==>
          base != [] && StackOk(r.out.s) && r.out.s.frames == base[..|base| - 1]
          && r.out.s.x == CallerRegs(env, base[|base| - 1], Held(base)))
  }

  lemma ExecuteKeepsStack(env: Env, v: View, m: Machine, ps: ProgsState, st: Stmt, base: seq<Frame>, d: nat)
    requires m.mem.Valid() && HasView(v, m.mem.s) && Above(base, m) && |base| == d + 1
    requires !st.op.Call? && !st.op.Return?
    ensures KeepsStack(env, Execute(env, v, m, ps, st, d), base)
  {
    StaysInActivation(env, v, m, ps, st, d);
  }

  lemma ReturnKeepsStack(env: Env, v: View, m: Machine, ps: ProgsState, oa: nat, base: seq<Frame>, d: nat)
    requires HasView(v, m.mem.s) && Above(base, m) && |base| == d + 1
    ensures KeepsStack(env, ReturnStep(env, v, m, ps, oa, d), base)
  {
    ReturnLeaves(env, v, m, ps, oa, d);
    if |m.frames| - 1 <= d { assert m.frames == base; }
  }

  lemma StepKeepsStack(env: Env, v: View, m: Machine, base: seq<Frame>, d: nat)
    requires RunOk(env, v, m, d) && Above(base, m) && |base| == d + 1
    ensures KeepsStack(env, StepOf(env, v, m, d), base)
  {
    StepExecutes(env, v, m, d);
    var ps, st := Current(env, m), Next(env, m);
    if st.op.Call? {
      CallEnters(env, v, m, ps, st, base);
    } else if st.op.Return? {
      ReturnKeepsStack(env, v, m, ps, st.a, base, d);
    } else {
      ExecuteKeepsStack(env, v, m, ps, st, base, d);
    }
  }
}
