/** A run through the window is the run through all of region S (`src/vm/interp.rs`). */
module WindowRun {
  import opened Bytes
  import opened Program
  import opened Memory
  import opened Views
  import opened Machine
  import opened Effects
  import opened Step
  import opened Interp
  import opened Loop
  import W = Window
  import Loader

  /** The window fits the VM: every progs' operands lie in it, its code is padded, and the two PARM
      slots `CALLnH` copies to lie in it. */
  predicate WindowFits(env: Env, s: seq<byte>) {
    && |s| >= WINDOW
    && forall i {:trigger W.ProgsFit(env.progs[i])} :: 0 <= i < |env.progs| ==>
         W.ProgsFit(env.progs[i]) && W.ParmSlotsFit(env.progs[i])
  }

  /** Every `SWITCH` a context may resume refers to a global in the window. */
  predicate SwitchesFit(m: Machine, d: nat) {
    && Unmasked(m.x.switchRef, 3)
    && forall i {:trigger Unmasked(m.frames[i].switchRef, 3)} :: d < i < |m.frames| ==> Unmasked(m.frames[i].switchRef, 3)
  }

  predicate FitsWindow(env: Env, m: Machine, d: nat) {
    RunOk(env, Whole, m, d) && WindowFits(env, m.mem.s) && SwitchesFit(m, d)
  }

  /** Whether the window fits depends on the progs, and on the size of memory. */
  lemma StillFits(env: Env, s: seq<byte>, s': seq<byte>)
    requires WindowFits(env, s) && |s'| >= WINDOW
    ensures WindowFits(env, s')
  {
    forall i | 0 <= i < |env.progs|
      ensures W.ProgsFit(env.progs[i]) && W.ParmSlotsFit(env.progs[i])
    {
      assert W.ProgsFit(env.progs[i]);
    }
  }

  /** Where the window fits, all code can be fetched through it. */
  lemma WindowViewOk(env: Env, s: seq<byte>)
    requires WindowFits(env, s)
    ensures ViewOk(Window, env, s)
  {
    forall i | 0 <= i < |env.progs|
      ensures |env.progs[i].code| == Loader.CODE_WINDOW
    {
      assert W.ProgsFit(env.progs[i]);
    }
  }

  /** A well-formed machine the window fits is also well-formed for the window. */
  lemma WindowRunOk(env: Env, m: Machine, d: nat)
    requires FitsWindow(env, m, d)
    ensures RunOk(env, Window, m, d)
  {
    WindowViewOk(env, m.mem.s);
  }

  lemma StatementReadable(env: Env, m: Machine, d: nat)
    requires FitsWindow(env, m, d)
    ensures W.Readable(m, Current(env, m), Next(env, m)) && W.ParmSlotsFit(Current(env, m))
  {
    NextOk(env, m, |m.mem.s|);
  }

  lemma VectorsAgree(env: Env, s: seq<byte>, a: nat, b: nat)
    requires |s| >= WINDOW && Unmasked(a, 3) && Unmasked(b, 3)
    ensures VectorEq(env, Window, s, a, b) == VectorEq(env, Whole, s, a, b)
    ensures VectorLe(env, Window, s, a, b) == VectorLe(env, Whole, s, a, b)
    ensures G(Window, s, a) == G(Whole, s, a) && G(Window, s, b) == G(Whole, s, b)
  {
    W.SameWords(s, a);
    W.SameWords(s, b);
    W.SameVecAt(s, a);
    W.SameVecAt(s, b);
  }

  lemma CasesAgree(env: Env, m: Machine, oa: nat, ob: nat)
    requires m.mem.Valid() && |m.mem.s| >= WINDOW
    requires Unmasked(m.x.switchRef, 3) && Unmasked(oa, 3)
    ensures CaseHits(env, Window, m, oa) == CaseHits(env, Whole, m, oa)
    ensures Unmasked(ob, 3) ==> CaseRangeHits(env, Window, m, oa, ob) == CaseRangeHits(env, Whole, m, oa, ob)
  {
    VectorsAgree(env, m.mem.s, m.x.switchRef, oa);
    VectorsAgree(env, m.mem.s, oa, m.x.switchRef);
    if Unmasked(ob, 3) { VectorsAgree(env, m.mem.s, m.x.switchRef, ob); }
  }

  lemma PassOperandsAgrees(s: seq<byte>, ps: ProgsState, argc: nat, hexen2: bool, ob: nat, oc: nat)
    requires |s| >= WINDOW && W.ParmSlotsFit(ps)
    requires hexen2 ==> Unmasked(ob, 3) && Unmasked(oc, 3)
    ensures PassOperands(Window, s, ps, argc, hexen2, ob, oc) == PassOperands(Whole, s, ps, argc, hexen2, ob, oc)
  {
    if hexen2 {
      SameCopy(s, oc, SlotAt(ps.gbase, OFS_PARM1), 3);
      var t := if argc >= 2 then Copy(Whole, s, oc, SlotAt(ps.gbase, OFS_PARM1), 3) else s;
      SameCopy(t, ob, SlotAt(ps.gbase, OFS_PARM0), 3);
    }
  }

  /** A global operand the loader gives statements of this progs. */
  predicate Legal(ps: ProgsState, o: nat) { OnWord(o, ps.gbase, ps.numGlobals + 3) }

  /** `CALLnH` passes the same operands through either view, for all legal operands and in every memory
      of `n` bytes. */
  ghost predicate OperandsPassAlike(ps: ProgsState, n: nat) {
    forall s: seq<byte>, argc, ob, oc {:trigger PassOperands(Window, s, ps, argc, true, ob, oc)} ::
      |s| == n && Legal(ps, ob) && Legal(ps, oc) && n >= WINDOW ==>
        PassOperands(Window, s, ps, argc, true, ob, oc) == PassOperands(Whole, s, ps, argc, true, ob, oc)
  }

  lemma AlignedMask(o: nat)
    requires o % 4 == 0
    ensures o % MASKED + 4 <= MASKED
  {
  }

  lemma MaskedWordStaysBelow(s: seq<byte>, o: nat, w: word, k: nat)
    requires |s| >= WINDOW && o % 4 == 0 && MASKED <= k < |s|
    ensures Set(Window, s, o, w)[k] == s[k]
  {
    AlignedMask(o);
  }

  lemma AlignedNth(o: nat, k: nat)
    requires o % 4 == 0
    ensures Nth(o, k) % 4 == 0
  {
  }

  /** A masked copy writes nothing past the masked offsets. */
  lemma {:induction false} MaskedCopyStaysBelow(s: seq<byte>, src: nat, dst: nat, words: nat, k: nat)
    requires |s| >= WINDOW && dst % 4 == 0 && MASKED <= k < |s|
    ensures Copy(Window, s, src, dst, words)[k] == s[k]
  {
    if words > 0 {
      var n := words - 1;
      var at := Nth(dst, n);
      MaskedCopyStaysBelow(s, src, dst, n, k);
      var w := CopyNext(Window, s, src, dst, n, Copy(Window, s, src, dst, n));
      AlignedNth(dst, n);
      MaskedWordStaysBelow(Copy(Window, s, src, dst, n), at, w, k);
    }
  }

  /** The condition `window_fits` leaves out, exactly: for a progs it accepts, wherever its aligned
      globals are, `CALLnH` is the same through the window if and only if its two PARM slots lie in
      it. */
  lemma ParmSlotsExactly(ps: ProgsState, n: nat)
    requires n >= WINDOW && W.ProgsFit(ps) && ps.gbase % 4 == 0
    ensures OperandsPassAlike(ps, n) <==> W.ParmSlotsFit(ps)
  {
    if W.ParmSlotsFit(ps) {
      forall s: seq<byte>, argc, ob, oc | |s| == n && Legal(ps, ob) && Legal(ps, oc)
        ensures PassOperands(Window, s, ps, argc, true, ob, oc) == PassOperands(Whole, s, ps, argc, true, ob, oc)
      {
        PassOperandsAgrees(s, ps, argc, true, ob, oc);
      }
    } else {
      SlotsDiffer(ps, Splice(Zeros(n), ps.gbase + 8, [1]));
      assert WordSlot(ps.gbase, 0) == ps.gbase;
    }
  }

  /** The operands differ for a progs `window_fits` accepts whose slots lie past the mask: it calls with
      its first global, three words of which the last is not zero. */
  lemma SlotsDiffer(ps: ProgsState, s: seq<byte>)
    requires |s| >= WINDOW && W.ProgsFit(ps) && ps.gbase % 4 == 0
    requires !W.ParmSlotsFit(ps) && s == Splice(Zeros(|s|), ps.gbase + 8, [1])
    ensures PassOperands(Window, s, ps, 2, true, ps.gbase, ps.gbase) != PassOperands(Whole, s, ps, 2, true, ps.gbase, ps.gbase)
  {
    var o: nat := ps.gbase;
    var p0, p1 := SlotAt(o, OFS_PARM0), SlotAt(o, OFS_PARM1);
    var k: nat := p1 + 8;
    SlotsPastMask(o);
    PassedWhole(s, o, p0, p1, k);
    PassedMasked(s, o, p0, p1, k);
    PassesTwo(Window, s, ps, o);
    PassesTwo(Whole, s, ps, o);
    assert s[o + 8] == 1 && s[k] == 0;
  }

  lemma SlotsPastMask(o: nat)
    requires o % 4 == 0 && o + 20 < MASKED && o + OFS_PARM1 + 12 > MASKED
    ensures SlotAt(o, OFS_PARM0) % 4 == 0 && SlotAt(o, OFS_PARM1) % 4 == 0
    ensures MASKED <= SlotAt(o, OFS_PARM1) + 8 < SlotAt(o, OFS_PARM1) + 12 <= WINDOW
  {
  }

  lemma PassesTwo(v: View, s: seq<byte>, ps: ProgsState, o: nat)
    requires HasView(v, s)
    ensures PassOperands(v, s, ps, 2, true, o, o)
            == Copy(v, Copy(v, s, o, SlotAt(ps.gbase, OFS_PARM1), 3), o, SlotAt(ps.gbase, OFS_PARM0), 3)
  {
  }

  lemma PassedWhole(s: seq<byte>, o: nat, p0: nat, p1: nat, k: nat)
    requires o + 12 <= p0 && p0 + 12 == p1 && p1 + 12 <= |s| && k == p1 + 8
    ensures Copy(Whole, Copy(Whole, s, o, p1, 3), o, p0, 3)[k] == s[o + 8]
  {
    LastWordCopied(s, o, p1, 0);
    CopyElsewhere(Copy(Whole, s, o, p1, 3), o, p0, 3, k);
  }

  lemma PassedMasked(s: seq<byte>, o: nat, p0: nat, p1: nat, k: nat)
    requires |s| >= WINDOW && p0 % 4 == 0 && p1 % 4 == 0 && MASKED <= k < |s|
    ensures Copy(Window, Copy(Window, s, o, p1, 3), o, p0, 3)[k] == s[k]
  {
    MaskedCopyStaysBelow(s, o, p1, 3, k);
    MaskedCopyStaysBelow(Copy(Window, s, o, p1, 3), o, p0, 3, k);
  }

  lemma CallsAgree(env: Env, m: Machine, ps: ProgsState, st: Stmt, s: seq<byte>)
    requires |m.mem.s| >= WINDOW && st.op.Call? && Unmasked(st.a, 1) && |s| == |m.mem.s|
    requires s == PassOperands(Window, m.mem.s, ps, st.op.argc, st.op.hexen2, st.b, st.c)
    requires s == PassOperands(Whole, m.mem.s, ps, st.op.argc, st.op.hexen2, st.b, st.c)
    ensures CallStep(env, Window, m, ps, st) == CallStep(env, Whole, m, ps, st)
  {
    SameWord(s, st.a);
  }

  lemma CallAgrees(env: Env, m: Machine, d: nat)
    requires FitsWindow(env, m, d) && Next(env, m).op.Call?
    ensures CallStep(env, Window, m, Current(env, m), Next(env, m)) == CallStep(env, Whole, m, Current(env, m), Next(env, m))
  {
    StatementReadable(env, m, d);
    var ps, st := Current(env, m), Next(env, m);
    PassOperandsAgrees(m.mem.s, ps, st.op.argc, st.op.hexen2, st.b, st.c);
    CallsAgree(env, m, ps, st, PassOperands(Whole, m.mem.s, ps, st.op.argc, st.op.hexen2, st.b, st.c));
  }

  lemma ReturnAgrees(env: Env, m: Machine, d: nat)
    requires FitsWindow(env, m, d) && Next(env, m).op.Return?
    ensures ReturnStep(env, Window, m, Current(env, m), Next(env, m).a, d) == ReturnStep(env, Whole, m, Current(env, m), Next(env, m).a, d)
  {
    StatementReadable(env, m, d);
    SameCopy(m.mem.s, Next(env, m).a, SlotAt(Current(env, m).gbase, OFS_RETURN), 3);
  }

  lemma OperandsUnmasked(env: Env, m: Machine, d: nat)
    requires FitsWindow(env, m, d) && (Next(env, m).op.Case? || Next(env, m).op.CaseRange? || Next(env, m).op.Branch?)
    ensures m.mem.Valid() && |m.mem.s| >= WINDOW && Unmasked(m.x.switchRef, 3) && Unmasked(Next(env, m).a, 3)
    ensures Next(env, m).op.CaseRange? ==> Unmasked(Next(env, m).b, 3)
  {
    StatementReadable(env, m, d);
    W.TestedOperandFits(m, Current(env, m), Next(env, m));
  }

  /** Selections, given which operands are unmasked. */
  lemma CaseAgrees(env: Env, m: Machine, ps: ProgsState, st: Stmt, d: nat)
    requires m.mem.Valid() && |m.mem.s| >= WINDOW && Unmasked(m.x.switchRef, 3) && Unmasked(st.a, 3) && st.op.Case?
    ensures Control(env, Window, m, ps, st, d) == Control(env, Whole, m, ps, st, d)
  {
    CasesAgree(env, m, st.a, st.b);
  }

  lemma CaseRangeAgrees(env: Env, m: Machine, ps: ProgsState, st: Stmt, d: nat)
    requires m.mem.Valid() && |m.mem.s| >= WINDOW && Unmasked(m.x.switchRef, 3) && Unmasked(st.a, 3) && Unmasked(st.b, 3) && st.op.CaseRange?
    ensures Control(env, Window, m, ps, st, d) == Control(env, Whole, m, ps, st, d)
  {
    CasesAgree(env, m, st.a, st.b);
  }

  lemma BranchAgrees(env: Env, m: Machine, d: nat)
    requires FitsWindow(env, m, d) && Next(env, m).op.Branch?
    ensures Control(env, Window, m, Current(env, m), Next(env, m), d) == Control(env, Whole, m, Current(env, m), Next(env, m), d)
  {
    OperandsUnmasked(env, m, d);
    SameWord(m.mem.s, Next(env, m).a);
  }

  lemma JumpsAgree(env: Env, m: Machine, d: nat)
    requires FitsWindow(env, m, d)
    requires IsControl(Next(env, m).op) && !Next(env, m).op.Call? && !Next(env, m).op.Return?
    ensures Control(env, Window, m, Current(env, m), Next(env, m), d) == Control(env, Whole, m, Current(env, m), Next(env, m), d)
  {
    match Next(env, m).op
    case Case => OperandsUnmasked(env, m, d); CaseAgrees(env, m, Current(env, m), Next(env, m), d);
    case CaseRange => OperandsUnmasked(env, m, d); CaseRangeAgrees(env, m, Current(env, m), Next(env, m), d);
    case Branch(_) => BranchAgrees(env, m, d);
    case Goto =>
    case Switch(_) =>
  }

  /** One statement does the same through either view. */
  lemma StepAgrees(env: Env, m: Machine, d: nat)
    requires FitsWindow(env, m, d) && RunOk(env, Window, m, d)
    ensures StepOf(env, Window, m, d) == StepOf(env, Whole, m, d)
  {
    FetchIsNext(env, Window, m, d);
    FetchIsNext(env, Whole, m, d);
    StatementReadable(env, m, d);
    var ps, st := Current(env, m), Next(env, m);
    if !IsControl(st.op) {
      W.StraightAgrees(env, m, ps, st);
    } else if st.op.Call? {
      CallAgrees(env, m, d);
    } else if st.op.Return? {
      ReturnAgrees(env, m, d);
    } else {
      JumpsAgree(env, m, d);
    }
  }

  // ---- the fit is kept -------------------------------------------------------------------------

  lemma CallKeepsSwitches(env: Env, m: Machine, d: nat)
    requires FitsWindow(env, m, d) && Next(env, m).op.Call?
    requires CallStep(env, Whole, m, Current(env, m), Next(env, m)).out.Go?
    ensures SwitchesFit(CallStep(env, Whole, m, Current(env, m), Next(env, m)).out.s, d)
  {
  }

  lemma ReturnKeepsSwitches(env: Env, m: Machine, d: nat)
    requires FitsWindow(env, m, d) && Next(env, m).op.Return?
    requires ReturnStep(env, Whole, m, Current(env, m), Next(env, m).a, d).out.Go?
    ensures SwitchesFit(ReturnStep(env, Whole, m, Current(env, m), Next(env, m).a, d).out.s, d)
  {
    var f := m.frames[|m.frames| - 1];
    assert Unmasked(f.switchRef, 3) || |m.frames| - 1 <= d;
  }

  lemma JumpKeepsSwitches(env: Env, m: Machine, d: nat)
    requires FitsWindow(env, m, d)
    requires IsControl(Next(env, m).op) && !Next(env, m).op.Call? && !Next(env, m).op.Return?
    requires Control(env, Whole, m, Current(env, m), Next(env, m), d).out.Go?
    ensures SwitchesFit(Control(env, Whole, m, Current(env, m), Next(env, m), d).out.s, d)
  {
    StatementReadable(env, m, d);
  }

  lemma StepKeepsFit(env: Env, m: Machine, d: nat)
    requires FitsWindow(env, m, d) && StepOf(env, Whole, m, d).out.Go?
    ensures FitsWindow(env, StepOf(env, Whole, m, d).out.s, d)
  {
    StepKeepsOk(env, Whole, m, d);
    FetchIsNext(env, Whole, m, d);
    var st := Next(env, m);
    if !IsControl(st.op) {
    } else if st.op.Call? {
      CallKeepsSwitches(env, m, d);
    } else if st.op.Return? {
      ReturnKeepsSwitches(env, m, d);
    } else {
      JumpKeepsSwitches(env, m, d);
    }
  }

  // ---- whole runs ------------------------------------------------------------------------------

  lemma StepsAgreeAt(env: Env, m: Machine, d: nat)
    requires FitsWindow(env, m, d)
    ensures RunOk(env, Window, m, d) && StepAny(env, Window, m, d) == StepAny(env, Whole, m, d)
    ensures StepAny(env, Whole, m, d).out.Go? ==> FitsWindow(env, StepAny(env, Whole, m, d).out.s, d)
  {
    WindowRunOk(env, m, d);
    StepAgrees(env, m, d);
    if StepOf(env, Whole, m, d).out.Go? { StepKeepsFit(env, m, d); }
  }

  lemma StepsAgree(env: Env, d: nat)
    ensures forall m :: FitsWindow(env, m, d) ==>
              AgreeAt(StepsOf(env, Window, d), StepsOf(env, Whole, d), (t: Machine) => FitsWindow(env, t, d), m)
  {
    forall m | FitsWindow(env, m, d)
      ensures AgreeAt(StepsOf(env, Window, d), StepsOf(env, Whole, d), (t: Machine) => FitsWindow(env, t, d), m)
    {
      StepsAgreeAt(env, m, d);
    }
  }

  /** For every loaded program the window fits, every starting state and every budget: a run through
      the window ends with the same memory, registers and exit, and as much budget left. */
  lemma WindowEquivalence(env: Env, m: Machine, d: nat, budget: nat)
    requires FitsWindow(env, m, d)
    ensures Sound(StepsOf(env, Window, d)) && Sound(StepsOf(env, Whole, d)) && RunOk(env, Window, m, d)
    ensures Run(StepsOf(env, Window, d), m, budget) == Run(StepsOf(env, Whole, d), m, budget)
  {
    InterpreterSound(env, Window, d);
    InterpreterSound(env, Whole, d);
    StepsAgree(env, d);
    Simulation(StepsOf(env, Window, d), StepsOf(env, Whole, d), (t: Machine) => FitsWindow(env, t, d), m, budget);
  }
}
