/** A thread that cannot be rebuilt leaves the VM as it was (`src/vm/threads.rs`). */
module ResumeFails {
  import opened Bytes
  import opened Program
  import opened Memory
  import opened Views
  import opened Machine
  import opened Step
  import opened Frames
  import opened Locals
  import opened Calls
  import opened Threads
  import opened Host
  import opened VmEngine

  // ---- frames and registers --------------------------------------------------------------------

  /** A rebuilt context may claim more pushed words than there are; it is left without using them. */
  function NoPush(m: Machine): Machine { m.(x := m.x.(pushed := 0)) }

  /** `m` was reached by entering functions from `m1`. */
  predicate EnteredFrom(m1: Machine, m: Machine) {
    && m1.frames <= m.frames && m.mem.lsWords == m1.mem.lsWords && StackOk(NoPush(m))
    && (m.frames == m1.frames ==> m.x == m1.x)
    && (|m.frames| > |m1.frames| ==> SavesCaller(m1, m.frames[|m1.frames|]))
  }

  /** The first `k` activations of a chain were entered from `m1`, as far as that went. */
  predicate EnteredSome(m1: Machine, r: EnterResult, k: nat) {
    EnteredFrom(m1, r.m) && (r.error.None? ==> |r.m.frames| == |m1.frames| + k)
  }

  lemma {:induction false} RebuildEnters(env: Env, m1: Machine, chain: seq<Activation>, k: nat)
    requires StackOk(m1) && k <= |chain|
    ensures EnteredSome(m1, Rebuild(env, m1, chain, k), k)
  {
    if k > 0 {
      var p: nat := k - 1;
      RebuildEnters(env, m1, chain, p);
      RebuildEntersNext(env, m1, chain, p, Rebuild(env, m1, chain, p));
      assert Succ(p) == k;
    }
  }

  lemma RebuildEntersNext(env: Env, m1: Machine, chain: seq<Activation>, p: nat, r: EnterResult)
    requires p < |chain| && r == Rebuild(env, m1, chain, p) && EnteredSome(m1, r, p)
    ensures EnteredSome(m1, Rebuild(env, m1, chain, Succ(p)), Succ(p))
  {
    if r.error.None? {
      RebuildStep(env, m1, chain, p, r);
      EnterDressedFrom(env, m1, r.m, chain[p], ResumePc(m1, chain, p));
    } else {
      RebuildStops(env, m1, chain, p, r);
    }
  }

  /** An activation that cannot be entered ends the rebuilding. */
  lemma RebuildStops(env: Env, m1: Machine, chain: seq<Activation>, p: nat, r: EnterResult)
    requires p < |chain| && r == Rebuild(env, m1, chain, p) && r.error.Some?
    ensures Rebuild(env, m1, chain, Succ(p)) == r
  {
  }

  /** A function can only be entered when what its caller pushed fits. */
  lemma EnteredFits(env: Env, m: Machine, prnum: nat, index: nat, pc: nat)
    requires StackOk(NoPush(m)) && Enter(env, m, prnum, index, pc).error.None?
    ensures StackOk(m)
  {
  }

  lemma DressedStackOk(m: Machine, a: Activation)
    requires StackOk(m)
    ensures StackOk(NoPush(Dress(m, a)))
  {
  }

  lemma EnteredNext(m1: Machine, m: Machine, m': Machine, f: Frame)
    requires EnteredFrom(m1, m) && m'.frames == m.frames + [f] && m'.mem.lsWords == m.mem.lsWords && StackOk(NoPush(m'))
    requires m.frames == m1.frames ==> SavesCaller(m1, f)
    ensures EnteredFrom(m1, m')
  {
  }

  lemma EnterDressedFrom(env: Env, m1: Machine, m: Machine, a: Activation, pc: nat)
    requires EnteredFrom(m1, m) && (m.frames == m1.frames ==> pc == m1.x.pc)
    ensures EnteredFrom(m1, EnterDressed(env, m, a, pc).m)
    ensures EnterDressed(env, m, a, pc).error.None? ==> |EnterDressed(env, m, a, pc).m.frames| == |m.frames| + 1
  {
    var e := Enter(env, m, a.prnum, a.func, pc);
    if e.error.None? {
      EnteredFits(env, m, a.prnum, a.func, pc);
      EnterKeepsStack(env, m, a.prnum, a.func, pc);
      DressedStackOk(e.m, a);
      EnteredNext(m1, m, Dress(e.m, a), e.m.frames[|m.frames|]);
    }
  }

  /** Leaving functions does not look at pushed words. */
  lemma UnwindIgnoresPush(env: Env, m: Machine, d: nat)
    requires d < |m.frames|
    ensures Unwind(env, m, d) == Unwind(env, NoPush(m), d)
  {
    assert Leave(env, m) == Leave(env, NoPush(m));
    assert Unwind(env, m, d) == Unwind(env, Leave(env, m), d);
    assert Unwind(env, NoPush(m), d) == Unwind(env, Leave(env, NoPush(m)), d);
  }

  /** Unwinding gives the context the chain was entered from its registers back. */
  lemma UnwoundResumes(env: Env, m1: Machine, m: Machine)
    requires StackOk(m1) && EnteredFrom(m1, m)
    ensures Resumes(env, m1, Unwind(env, m, |m1.frames|))
  {
    var d := |m1.frames|;
    if |m.frames| > d {
      UnwindIgnoresPush(env, m, d);
      UnwindPops(env, NoPush(m), d);
      PoppedCaller(env, m1, m.frames[..d + 1], Unwind(env, m, d));
      UnwindKeepsWords(env, m, d);
    } else {
      assert m.frames == m1.frames;
    }
  }

  lemma UnwindKeepsWords(env: Env, m: Machine, d: nat)
    ensures Unwind(env, m, d).mem.lsWords == m.mem.lsWords
  {
  }

  lemma PoppedCaller(env: Env, m1: Machine, base: seq<Frame>, m: Machine)
    requires StackOk(m1) && |base| == |m1.frames| + 1 && base[..|m1.frames|] == m1.frames
    requires SavesCaller(m1, base[|m1.frames|]) && Popped(env, base, m)
    ensures m.frames == m1.frames && StackOk(m)
    ensures m.x == m1.x || (env.switchReset && m.x == m1.x.(switchRef := 0, switchKind := SwFloat))
  {
  }

  /** A thread that cannot be rebuilt leaves frames, registers and the local stack in use as they were,
      for any programs and any thread. */
  lemma FailedResumeResumes(env: Env, m1: Machine, t: Thread)
    requires StackOk(m1) && Threads.Resume(env, m1, t).error.Some?
    ensures Resumes(env, m1, Threads.Resume(env, m1, t).m)
  {
    RebuildEnters(env, m1, t.chain, |t.chain|);
    UnwoundResumes(env, m1, Rebuild(env, m1, t.chain, |t.chain|).m);
  }

  // ---- memory ----------------------------------------------------------------------------------

  /** Entering the function writes byte `a` only as one of its own locals. */
  predicate Spares(f: QcFunc, a: nat) {
    forall c :: c in f.copies && c.dst <= a < c.dst + 4 ==> f.localsAddr <= a < f.localsAddr + 4 * f.localsWords
  }

  predicate ChainSpares(env: Env, chain: seq<Activation>, a: nat) {
    forall i :: 0 <= i < |chain| ==> ActSpares(env, chain[i], a)
  }

  predicate ActSpares(env: Env, act: Activation, a: nat) {
    FuncAt(env, act.prnum, act.func).Some? ==> Spares(FuncAt(env, act.prnum, act.func).value, a)
  }

  /** Byte `a` is not local-stack memory above what machine `m` uses. */
  predicate InUse(m: Machine, a: nat) { a < |m.mem.s| && !(StackEnd(m) <= a < m.mem.lsBase + 4 * m.mem.lsWords) }

  lemma {:induction false} CopiesSpare(s: seq<byte>, copies: seq<ParamCopy>, n: nat, a: nat)
    requires n <= |copies| && a < |s| && forall c :: c in copies ==> !(c.dst <= a < c.dst + 4)
    ensures CopyParams(s, copies, n)[a] == s[a]
  {
    if n > 0 {
      CopiesSpare(s, copies, n - 1, a);
      assert copies[n - 1] in copies;
    }
  }

  lemma EnterFuncSpares(m: Machine, f: QcFunc, prnum: nat, index: nat, pc: nat, a: nat)
    requires InUse(m, a) && Spares(f, a) && !(f.localsAddr <= a < f.localsAddr + 4 * f.localsWords)
    requires m.mem.Valid() && EnterFunc(m, f, prnum, index, pc).error.None?
    ensures EnterFunc(m, f, prnum, index, pc).m.mem.s[a] == m.mem.s[a]
  {
    var at := StackEnd(m);
    var saved := Move(m.mem.s, f.localsAddr, at, 4 * f.localsWords);
    CopiesSpare(saved, f.copies, |f.copies|, a);
  }

  /** A byte in use the function's locals do not cover is left alone. */
  lemma EnterSpares(env: Env, m: Machine, prnum: nat, index: nat, pc: nat, a: nat)
    requires m.mem.Valid() && |env.progs| == 1 && m.x.prnum == 0 && InUse(m, a)
    requires FuncAt(env, prnum, index).Some? && Spares(FuncAt(env, prnum, index).value, a)
    requires Enter(env, m, prnum, index, pc).error.None?
    ensures var r := Enter(env, m, prnum, index, pc).m;
      !(r.x.localsAddr <= a < r.x.localsAddr + 4 * r.x.localsWords) ==> r.mem.s[a] == m.mem.s[a]
  {
    var f := FuncAt(env, prnum, index).value;
    if !(f.localsAddr <= a < f.localsAddr + 4 * f.localsWords) { EnterFuncSpares(m, f, prnum, index, pc, a); }
  }

  // ---- what unwinding would restore ------------------------------------------------------------

  lemma {:induction false} RestoredSame(m: Machine, m': Machine, i: nat, a: nat)
    requires m.mem.Valid() && StackOk(m) && StackOk(m') && m'.mem == m.mem && m'.frames == m.frames
    requires m'.x.localsAddr == m.x.localsAddr && m'.x.localsWords == m.x.localsWords
    requires i <= |m.frames| + 1 && a < |m.mem.s|
    ensures Restored(m', i, a) == Restored(m, i, a)
    decreases |m.frames| + 1 - i
  {
    if i <= |m.frames| && !Covers(m, i, a) { RestoredSame(m, m', i + 1, a); }
  }

  lemma EnteredCovers(m: Machine, m': Machine, f: Frame, i: nat, a: nat)
    requires m'.frames == m.frames + [f] && f.localsAddr == m.x.localsAddr && f.localsWords == m.x.localsWords
    requires i <= |m.frames|
    ensures Covers(m', i, a) == Covers(m, i, a) && LocalsAddr(m', i) == LocalsAddr(m, i) && m'.frames[..i] == m.frames[..i]
  {
  }

  /** Entering a function keeps the locals its callers saved. */
  lemma SavedByteEntered(env: Env, m: Machine, prnum: nat, index: nat, pc: nat, m': Machine, i: nat, a: nat)
    requires m.mem.Valid() && StackOk(m) && EnvOk(env, |m.mem.s|) && Solo(env, m.mem) && m.x.prnum == 0
    requires Enter(env, m, prnum, index, pc).error.None? && m' == Enter(env, m, prnum, index, pc).m && StackOk(m')
    requires i <= |m.frames| && Covers(m, i, a) && Covers(m', i, a)
    requires LocalsAddr(m', i) == LocalsAddr(m, i) && m'.frames[..i] == m.frames[..i]
    ensures SavedByte(m', i, a) == SavedByte(m, i, a)
  {
    var at := Shift(a, LocalsAddr(m, i), SavedAt(m, i));
    SavedInUse(m, i, a, at);
    EnterBytes(env, m, prnum, index, pc, at);
    SavedByteIs(m, i, a, at);
    SavedByteIs(m', i, a, at);
  }

  lemma SavedInUse(m: Machine, i: nat, a: nat, at: nat)
    requires m.mem.Valid() && StackOk(m) && i <= |m.frames| && Covers(m, i, a) && at == Shift(a, LocalsAddr(m, i), SavedAt(m, i))
    ensures at < |m.mem.s| && StackAt(m.mem, 0) <= at < StackEnd(m)
  {
    SavedBelowTop(m, i);
  }

  lemma SavedByteIs(m: Machine, i: nat, a: nat, at: nat)
    requires m.mem.Valid() && StackOk(m) && i <= |m.frames| && Covers(m, i, a) && at == Shift(a, LocalsAddr(m, i), SavedAt(m, i))
    ensures at < |m.mem.s| && SavedByte(m, i, a) == m.mem.s[at]
  {
    SavedBelowTop(m, i);
  }

  /** Entering a function changes nothing that unwinding would restore. */
  lemma {:induction false} RestoredAfterEnter(env: Env, m: Machine, prnum: nat, index: nat, pc: nat, m': Machine, i: nat, a: nat)
    requires m.mem.Valid() && StackOk(m) && EnvOk(env, |m.mem.s|) && Solo(env, m.mem) && m.x.prnum == 0 && InUse(m, a)
    requires Enter(env, m, prnum, index, pc).error.None? && m' == Enter(env, m, prnum, index, pc).m && StackOk(m')
    requires FuncAt(env, prnum, index).Some? && Spares(FuncAt(env, prnum, index).value, a)
    requires i <= |m.frames| + 1
    ensures Restored(m', i, a) == Restored(m, i, a)
    decreases |m.frames| + 1 - i
  {
    if i == |m.frames| + 1 {
      RestoredTop(env, m, prnum, index, pc, m', a);
    } else {
      EnteredCovers(m, m', m'.frames[|m.frames|], i, a);
      if Covers(m, i, a) {
        SavedByteEntered(env, m, prnum, index, pc, m', i, a);
      } else {
        RestoredAfterEnter(env, m, prnum, index, pc, m', i + 1, a);
      }
    }
  }

  lemma RestoredTop(env: Env, m: Machine, prnum: nat, index: nat, pc: nat, m': Machine, a: nat)
    requires m.mem.Valid() && StackOk(m) && EnvOk(env, |m.mem.s|) && Solo(env, m.mem) && m.x.prnum == 0 && InUse(m, a)
    requires Enter(env, m, prnum, index, pc).error.None? && m' == Enter(env, m, prnum, index, pc).m && StackOk(m')
    requires FuncAt(env, prnum, index).Some? && Spares(FuncAt(env, prnum, index).value, a)
    ensures Restored(m', |m.frames| + 1, a) == m.mem.s[a]
  {
    var n := |m'.frames|;
    if Covers(m', n, a) {
      EnterSaves(env, m, prnum, index, pc, a);
      assert m'.frames[..n] == m'.frames;
      assert SavedAt(m', n) == StackEnd(m);
    } else {
      EnterSpares(env, m, prnum, index, pc, a);
    }
  }

  // ---- rebuilding ------------------------------------------------------------------------------

  /** `m` was reached from `m1` by entering functions, and unwinding would give byte `a` back. */
  predicate GivesBack(env: Env, m1: Machine, m: Machine, a: nat)
    requires m1.mem.Valid() && a < |m1.mem.s|
  {
    && EnteredFrom(m1, m) && SameShape(m1.mem, m.mem)
    && LocalsClear(NoPush(m)) && OneProgs(NoPush(m)) && m.x.prnum == 0
    && Restored(NoPush(m), |m1.frames| + 1, a) == m1.mem.s[a]
  }

  lemma ClearWithPush(m: Machine)
    ensures LocalsClear(NoPush(m)) <==> LocalsClear(m)
    ensures OneProgs(NoPush(m)) <==> OneProgs(m)
  {
    if LocalsClear(m) {
      forall i | 0 <= i <= |m.frames|
        ensures Clear(NoPush(m).mem, LocalsAddr(NoPush(m), i), LocalsWords(NoPush(m), i))
      {
        assert Clear(m.mem, LocalsAddr(m, i), LocalsWords(m, i));
      }
    }
    if LocalsClear(NoPush(m)) {
      forall i | 0 <= i <= |m.frames|
        ensures Clear(m.mem, LocalsAddr(m, i), LocalsWords(m, i))
      {
        assert Clear(NoPush(m).mem, LocalsAddr(NoPush(m), i), LocalsWords(NoPush(m), i));
      }
    }
  }

  /** The stack in use only grows. */
  lemma EndGrows(m1: Machine, m: Machine)
    requires StackOk(m1) && EnteredFrom(m1, m)
    ensures m1.x.lsTop + m1.x.pushed <= m.x.lsTop + m.x.pushed
  {
    var d := |m1.frames|;
    if |m.frames| > d {
      HeldStep(m.frames, d);
      HeldGrows(m.frames, d + 1);
      assert m.frames[..d] == m1.frames;
    } else {
      assert m.frames == m1.frames;
    }
  }

  lemma DressedGivesBack(env: Env, m1: Machine, m: Machine, act: Activation, a: nat)
    requires m1.mem.Valid() && a < |m1.mem.s| && SameShape(m1.mem, m.mem) && EnteredFrom(m1, Dress(m, act))
    requires StackOk(m) && LocalsClear(m) && OneProgs(m) && m.x.prnum == 0
    requires Restored(m, |m1.frames| + 1, a) == m1.mem.s[a]
    ensures GivesBack(env, m1, Dress(m, act), a)
  {
    var m' := Dress(m, act);
    ClearWithPush(m);
    assert LocalsClear(NoPush(m')) by {
      forall i | 0 <= i <= |m'.frames|
        ensures Clear(NoPush(m').mem, LocalsAddr(NoPush(m'), i), LocalsWords(NoPush(m'), i))
      {
        assert Clear(m.mem, LocalsAddr(m, i), LocalsWords(m, i));
      }
    }
    RestoredSame(m, NoPush(m'), |m1.frames| + 1, a);
  }

  lemma EnteredGivesBack(env: Env, v: View, m1: Machine, m: Machine, act: Activation, pc: nat, a: nat)
    requires Callable(env, v, m1) && InUse(m1, a) && ActSpares(env, act, a) && GivesBack(env, m1, m, a)
    requires Enter(env, m, act.prnum, act.func, pc).error.None? && StackOk(m)
    requires StackOk(Enter(env, m, act.prnum, act.func, pc).m)
    ensures var e := Enter(env, m, act.prnum, act.func, pc).m;
      && LocalsClear(e) && OneProgs(e) && e.x.prnum == 0
      && Restored(e, |m1.frames| + 1, a) == m1.mem.s[a]
  {
    ClearWithPush(m);
    EndGrows(m1, m);
    EnterKeepsClear(env, m, act.prnum, act.func, pc);
    RestoredSame(NoPush(m), m, |m1.frames| + 1, a);
    RestoredAfterEnter(env, m, act.prnum, act.func, pc, Enter(env, m, act.prnum, act.func, pc).m, |m1.frames| + 1, a);
  }

  lemma EnterDressedGivesBack(env: Env, v: View, m1: Machine, m: Machine, act: Activation, pc: nat, a: nat)
    requires Callable(env, v, m1) && InUse(m1, a) && ActSpares(env, act, a) && GivesBack(env, m1, m, a)
    requires m.frames == m1.frames ==> pc == m1.x.pc
    ensures GivesBack(env, m1, EnterDressed(env, m, act, pc).m, a)
  {
    var e := Enter(env, m, act.prnum, act.func, pc);
    if e.error.None? {
      assert StackOk(m);
      EnterKeepsStack(env, m, act.prnum, act.func, pc);
      EnterDressedFrom(env, m1, m, act, pc);
      EnteredGivesBack(env, v, m1, m, act, pc, a);
      DressedGivesBack(env, m1, e.m, act, a);
    } else {
      RefusedEntry(env, m, act.prnum, act.func, pc);
    }
  }

  lemma {:induction false} RebuildGivesBack(env: Env, v: View, m1: Machine, chain: seq<Activation>, k: nat, a: nat)
    requires Callable(env, v, m1) && InUse(m1, a) && k <= |chain| && ChainSpares(env, chain, a)
    ensures EnteredSome(m1, Rebuild(env, m1, chain, k), k) && GivesBack(env, m1, Rebuild(env, m1, chain, k).m, a)
  {
    RebuildEnters(env, m1, chain, k);
    if k == 0 {
      ClearWithPush(m1);
    } else {
      var p: nat := k - 1;
      assert Succ(p) == k;
      RebuildGivesBack(env, v, m1, chain, p, a);
      RebuildGivesBackNext(env, v, m1, chain, p, Rebuild(env, m1, chain, p), a);
    }
  }

  lemma RebuildGivesBackNext(env: Env, v: View, m1: Machine, chain: seq<Activation>, p: nat, r: EnterResult, a: nat)
    requires Callable(env, v, m1) && InUse(m1, a) && p < |chain| && ChainSpares(env, chain, a)
    requires r == Rebuild(env, m1, chain, p) && EnteredSome(m1, r, p) && GivesBack(env, m1, r.m, a)
    ensures GivesBack(env, m1, Rebuild(env, m1, chain, Succ(p)).m, a)
  {
    if r.error.None? {
      RebuildStep(env, m1, chain, p, r);
      EnterDressedGivesBack(env, v, m1, r.m, chain[p], ResumePc(m1, chain, p), a);
    } else {
      RebuildStops(env, m1, chain, p, r);
    }
  }

  lemma UnwoundByte(env: Env, m1: Machine, m: Machine, a: nat)
    requires m1.mem.Valid() && a < |m1.mem.s| && GivesBack(env, m1, m, a)
    ensures Unwind(env, m, |m1.frames|).mem.s[a] == m1.mem.s[a]
  {
    var d := |m1.frames|;
    if |m.frames| > d { UnwindIgnoresPush(env, m, d); }
    UnwindRestores(env, NoPush(m), d, a);
  }

  /** Nor does it change memory: every byte of region S, except unused local stack and bytes a function's
      parameter copies write outside its own locals, is as it was, locals included. */
  lemma FailedResumeRestores(env: Env, v: View, m1: Machine, t: Thread, a: nat)
    requires Callable(env, v, m1) && Threads.Resume(env, m1, t).error.Some?
    requires InUse(m1, a) && ChainSpares(env, t.chain, a)
    ensures Threads.Resume(env, m1, t).m.mem.s[a] == m1.mem.s[a]
  {
    RebuildGivesBack(env, v, m1, t.chain, |t.chain|, a);
    UnwoundByte(env, m1, Rebuild(env, m1, t.chain, |t.chain|).m, a);
  }
}
