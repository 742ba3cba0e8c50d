/** What resuming a thread restores (`src/vm/threads.rs`). */
module Resume {
  import opened Bytes
  import opened Program
  import opened Memory
  import opened Views
  import opened Machine
  import opened Effects
  import opened Step
  import opened Frames
  import opened Locals
  import opened Threads

  // ---- captured locals -------------------------------------------------------------------------

  /** The ranges hold what region S held. */
  predicate Faithful(s: seq<byte>, saved: seq<Saved>) {
    forall i :: 0 <= i < |saved| ==>
      saved[i].at + |saved[i].bytes| <= |s| && saved[i].bytes == s[saved[i].at..saved[i].at + |saved[i].bytes|]
  }

  predicate InSaved(b: Saved, a: nat) { b.at <= a < b.at + |b.bytes| }

  /** Some of the ranges covers address `a`. */
  predicate Captured(saved: seq<Saved>, a: nat) {
    exists i :: 0 <= i < |saved| && InSaved(saved[i], a)
  }

  /** The locals of activation `i`'s function. */
  predicate LocalsOf(env: Env, c: Activation, a: nat) {
    var f := FuncAt(env, c.prnum, c.func);
    f.Some? && f.value.localsAddr <= a < f.value.localsAddr + 4 * f.value.localsWords
  }

  predicate Known(env: Env, c: Activation, len: nat) {
    var f := FuncAt(env, c.prnum, c.func);
    f.Some? && f.value.localsAddr + 4 * f.value.localsWords <= len
  }

  /** Capturing succeeds and captures the locals of every activation, whatever functions recur. */
  lemma {:induction false} CaptureCovers(env: Env, s: seq<byte>, chain: seq<Activation>, k: nat)
    requires k <= |chain| && forall i :: 0 <= i < k ==> Known(env, chain[i], |s|)
    ensures CaptureLocals(env, s, chain, k).Some?
    ensures var saved := CaptureLocals(env, s, chain, k).value;
      && Faithful(s, saved)
      && (forall i, a: nat :: 0 <= i < k && LocalsOf(env, chain[i], a) ==> Captured(saved, a))
      && (forall a: nat :: Captured(saved, a) ==> exists i :: 0 <= i < k && LocalsOf(env, chain[i], a))
  {
    if k > 0 {
      CaptureCovers(env, s, chain, k - 1);
      assert Known(env, chain[k - 1], |s|);
      CaptureNext(env, s, chain, k - 1);
    }
  }

  lemma CaptureNext(env: Env, s: seq<byte>, chain: seq<Activation>, k: nat)
    requires k < |chain| && Known(env, chain[k], |s|) && CaptureLocals(env, s, chain, k).Some?
    requires var saved := CaptureLocals(env, s, chain, k).value;
      && Faithful(s, saved)
      && (forall i, a: nat :: 0 <= i < k && LocalsOf(env, chain[i], a) ==> Captured(saved, a))
      && (forall a: nat :: Captured(saved, a) ==> exists i :: 0 <= i < k && LocalsOf(env, chain[i], a))
    ensures CaptureLocals(env, s, chain, k + 1).Some?
    ensures var saved := CaptureLocals(env, s, chain, k + 1).value;
      && Faithful(s, saved)
      && (forall i, a: nat :: 0 <= i <= k && LocalsOf(env, chain[i], a) ==> Captured(saved, a))
      && (forall a: nat :: Captured(saved, a) ==> exists i :: 0 <= i <= k && LocalsOf(env, chain[i], a))
  {
    var before := CaptureLocals(env, s, chain, k).value;
    var saved := CaptureLocals(env, s, chain, k + 1).value;
    forall i, a: nat | 0 <= i <= k && LocalsOf(env, chain[i], a)
      ensures Captured(saved, a)
    {
      if i < k {
        assert Captured(before, a);
        var j :| 0 <= j < |before| && InSaved(before[j], a);
        assert InSaved(saved[j], a);
      } else if Seen(chain, k) {
        var e :| 0 <= e < k && chain[e].prnum == chain[k].prnum && chain[e].func == chain[k].func;
        assert LocalsOf(env, chain[e], a);
      } else {
        assert InSaved(saved[|before|], a);
      }
    }
    forall a: nat | Captured(saved, a)
      ensures exists i :: 0 <= i <= k && LocalsOf(env, chain[i], a)
    {
      var j :| 0 <= j < |saved| && InSaved(saved[j], a);
      if j < |before| {
        assert InSaved(before[j], a);
        assert Captured(before, a);
      } else {
        assert LocalsOf(env, chain[k], a);
      }
    }
  }

  /** Writing captured ranges back, in whatever order, gives their bytes the captured values. */
  lemma {:induction false} WriteBackByte(s: seq<byte>, t: seq<byte>, saved: seq<Saved>, k: nat, a: nat)
    requires k <= |saved| && Faithful(s, saved) && |t| == |s| && a < |s|
    ensures WriteBack(t, saved, k)[a] == if Captured(saved[..k], a) then s[a] else t[a]
  {
    if k > 0 {
      WriteBackByte(s, t, saved, k - 1, a);
      assert saved[..k] == saved[..k - 1] + [saved[k - 1]];
      if InSaved(saved[k - 1], a) {
        assert InSaved(saved[..k][k - 1], a);
      } else if Captured(saved[..k - 1], a) {
        var j :| 0 <= j < k - 1 && InSaved(saved[..k - 1][j], a);
        assert InSaved(saved[..k][j], a);
      } else {
        forall j | 0 <= j < k
          ensures !InSaved(saved[..k][j], a)
        {
          if j < k - 1 { assert !InSaved(saved[..k - 1][j], a); }
        }
      }
    }
  }

  // ---- the result and the entity globals -------------------------------------------------------

  /** Byte `a` belongs to the word at `at`. */
  predicate InWord(at: nat, a: nat) { at <= a < at + 4 }

  predicate InReturn(at: nat, a: nat) { at <= a < at + 12 }

  predicate InSelves(selves: seq<SelfRef>, a: nat) {
    exists i :: 0 <= i < |selves| && InWord(selves[i].at, a)
  }

  /** The entity globals lie inside region S, apart from each other and from the result. */
  predicate SelvesApart(len: nat, ret: nat, at: seq<nat>) {
    && ret + 12 <= len
    && (forall i :: 0 <= i < |at| ==> at[i] + 4 <= len && (at[i] + 4 <= ret || ret + 12 <= at[i]))
    && (forall i, j :: 0 <= i < j < |at| ==> at[i] + 4 <= at[j] || at[j] + 4 <= at[i])
  }

  /** What an entity global holds after resuming. */
  function SelfAfter(mem: Mem, r: SelfRef): word { if Alive(mem, r) then r.ent else 0 }

  lemma {:induction false} WriteSelvesByte(mem: Mem, s: seq<byte>, selves: seq<SelfRef>, k: nat, a: nat)
    requires k <= |selves| && a < |s| && !InSelves(selves, a)
    ensures WriteSelves(mem, s, selves, k)[a] == s[a]
  {
    if k > 0 {
      WriteSelvesByte(mem, s, selves, k - 1, a);
      assert !InWord(selves[k - 1].at, a);
    }
  }

  /** Each entity global gets its entity back, or the world. */
  lemma {:induction false} WriteSelvesWord(mem: Mem, s: seq<byte>, selves: seq<SelfRef>, k: nat, i: nat)
    requires i < k <= |selves| && forall j :: 0 <= j < |selves| ==> selves[j].at + 4 <= |s|
    requires forall j, l :: 0 <= j < l < |selves| ==> selves[j].at + 4 <= selves[l].at || selves[l].at + 4 <= selves[j].at
    ensures G(Whole, WriteSelves(mem, s, selves, k), selves[i].at) == SelfAfter(mem, selves[i])
  {
    if i < k - 1 {
      WriteSelvesWord(mem, s, selves, k - 1, i);
      assert selves[i].at + 4 <= selves[k - 1].at || selves[k - 1].at + 4 <= selves[i].at;
    }
  }

  lemma WriteReturnByte(s: seq<byte>, at: nat, w: (word, word, word), a: nat)
    requires a < |s| && !InReturn(at, a)
    ensures WriteReturn(s, at, w)[a] == s[a]
  {
  }

  lemma WriteReturnWords(s: seq<byte>, at: nat, w: (word, word, word))
    requires at + 12 <= |s|
    ensures var t := WriteReturn(s, at, w);
      G(Whole, t, at) == w.0 && G(Whole, t, Nth(at, 1)) == w.1 && G(Whole, t, Nth(at, 2)) == w.2
  {
  }

  // ---- region S after resuming -----------------------------------------------------------------

  /** Byte `a` is neither part of the result nor of an entity global. */
  predicate Plain(ret: nat, selves: seq<SelfRef>, a: nat) { !InReturn(ret, a) && !InSelves(selves, a) }

  /** Layer by layer: the captured locals over the captured stack over what entering left. */
  lemma RefilledByte(env: Env, m: Machine, t: Thread, start: nat, s: seq<byte>, a: nat)
    requires |s| == |m.mem.s| && Faithful(s, t.locals) && a < |s| && start + |t.stack| <= |s|
    requires Plain(ReturnSlot(env, m.x.prnum), t.selves, a)
    ensures Refilled(env, m, t, start)[a] ==
            if Captured(t.locals, a) then s[a]
            else if start <= a < start + |t.stack| then t.stack[a - start]
            else m.mem.s[a]
  {
    var s1 := Splice(m.mem.s, start, t.stack);
    var s2 := WriteBack(s1, t.locals, |t.locals|);
    var s3 := WriteReturn(s2, ReturnSlot(env, m.x.prnum), t.resume);
    WriteBackByte(s, s1, t.locals, |t.locals|, a);
    assert t.locals[..|t.locals|] == t.locals;
    WriteReturnByte(s2, ReturnSlot(env, m.x.prnum), t.resume, a);
    WriteSelvesByte(m.mem, s3, t.selves, |t.selves|, a);
  }

  lemma WordBytewise(s: seq<byte>, t: seq<byte>, o: nat)
    requires |s| == |t| && forall a :: o <= a < o + 4 && a < |s| ==> s[a] == t[a]
    ensures G(Whole, s, o) == G(Whole, t, o)
  {
  }

  /** The result slot holds the resume value. */
  lemma RefilledReturn(env: Env, m: Machine, t: Thread, start: nat, at: seq<nat>)
    requires |t.selves| == |at| && forall i :: 0 <= i < |at| ==> t.selves[i].at == at[i]
    requires SelvesApart(|m.mem.s|, ReturnSlot(env, m.x.prnum), at)
    ensures var r := Refilled(env, m, t, start);
      var ret := ReturnSlot(env, m.x.prnum);
      G(Whole, r, ret) == t.resume.0 && G(Whole, r, Nth(ret, 1)) == t.resume.1 && G(Whole, r, Nth(ret, 2)) == t.resume.2
  {
    var ret := ReturnSlot(env, m.x.prnum);
    var s1 := if start + |t.stack| <= |m.mem.s| then Splice(m.mem.s, start, t.stack) else m.mem.s;
    var s2 := WriteBack(s1, t.locals, |t.locals|);
    var s3 := WriteReturn(s2, ret, t.resume);
    var r := Refilled(env, m, t, start);
    WriteReturnWords(s2, ret, t.resume);
    forall a | ret <= a < ret + 12
      ensures r[a] == s3[a]
    {
      forall i | 0 <= i < |t.selves|
        ensures !InWord(t.selves[i].at, a)
      {
        assert t.selves[i].at == at[i];
      }
      WriteSelvesByte(m.mem, s3, t.selves, |t.selves|, a);
    }
    WordBytewise(r, s3, ret);
    WordBytewise(r, s3, Nth(ret, 1));
    WordBytewise(r, s3, Nth(ret, 2));
  }

  lemma RefilledSelf(env: Env, m: Machine, t: Thread, start: nat, at: seq<nat>, i: nat)
    requires |t.selves| == |at| && forall j :: 0 <= j < |at| ==> t.selves[j].at == at[j]
    requires SelvesApart(|m.mem.s|, ReturnSlot(env, m.x.prnum), at) && i < |at|
    ensures G(Whole, Refilled(env, m, t, start), at[i]) == SelfAfter(m.mem, t.selves[i])
  {
    var s1 := if start + |t.stack| <= |m.mem.s| then Splice(m.mem.s, start, t.stack) else m.mem.s;
    var s3 := WriteReturn(WriteBack(s1, t.locals, |t.locals|), ReturnSlot(env, m.x.prnum), t.resume);
    WriteSelvesWord(m.mem, s3, t.selves, |t.selves|, i);
  }

  // ---- suspending and resuming -----------------------------------------------------------------

  /** Where the suspended stack segment starts. */
  function RootAt(m: Machine, d: nat): nat
    requires d < |m.frames|
  {
    StackAt(m.mem, m.frames[d].localsAt)
  }

  lemma LocalsInside(env: Env, m: Machine, d: nat, i: nat)
    requires Suspendable(env, m, d) && d + i < |m.frames|
    ensures Known(env, ChainFrom(m, d)[i], |m.mem.s|)
    ensures forall a :: LocalsOf(env, ChainFrom(m, d)[i], a) <==> Covers(m, Up(d, Succ(i)), a)
  {
    var c := ChainFrom(m, d)[i];
    assert SitedAt(env, m, Up(d, Succ(i)));
  }

  /** The stack segment of a suspended thread is what its activations hold. */
  lemma SegmentInside(m: Machine, d: nat)
    requires m.mem.Valid() && StackOk(m) && d < |m.frames|
    ensures StackAt(m.mem, 0) <= RootAt(m, d) <= StackEnd(m) <= |m.mem.s|
    ensures m.frames[d].localsAt == Held(m.frames[..d + 1])
  {
    assert SavedAbove(m.frames, d);
    HeldGrows(m.frames, d + 1);
  }

  /** Byte `a` is a local of some activation above `d` frames. */
  predicate SomeLocal(m: Machine, d: nat, a: nat) {
    exists i :: 0 <= i < |m.frames| - d && Covers(m, Up(d, Succ(i)), a)
  }

  /** Thread `t` holds what ran above `d` frames of `m`: the chain of activations, the stack segment
      they hold, and the bytes of their locals. */
  ghost predicate IsThread(m: Machine, d: nat, t: Thread) {
    && d < |m.frames| && StackAt(m.mem, 0) <= RootAt(m, d) <= StackEnd(m) <= |m.mem.s|
    && t.chain == ChainFrom(m, d)
    && t.stack == m.mem.s[RootAt(m, d)..StackEnd(m)]
    && Faithful(m.mem.s, t.locals)
    && forall a: nat :: Captured(t.locals, a) <==> SomeLocal(m, d, a)
  }

  lemma LocalsCaptured(env: Env, m: Machine, d: nat)
    requires Suspendable(env, m, d)
    ensures CaptureLocals(env, m.mem.s, ChainFrom(m, d), |m.frames| - d).Some?
    ensures var saved := CaptureLocals(env, m.mem.s, ChainFrom(m, d), |m.frames| - d).value;
      Faithful(m.mem.s, saved) && forall a: nat :: Captured(saved, a) <==> SomeLocal(m, d, a)
  {
    var c := ChainFrom(m, d);
    forall i | 0 <= i < |c|
      ensures Known(env, c[i], |m.mem.s|)
      ensures forall a: nat :: LocalsOf(env, c[i], a) <==> Covers(m, Up(d, Succ(i)), a)
    {
      LocalsInside(env, m, d, i);
    }
    CaptureCovers(env, m.mem.s, c, |c|);
    var saved := CaptureLocals(env, m.mem.s, c, |c|).value;
    forall a: nat
      ensures Captured(saved, a) <==> SomeLocal(m, d, a)
    {
      if Captured(saved, a) {
        var i :| 0 <= i < |c| && LocalsOf(env, c[i], a);
        assert Covers(m, Up(d, Succ(i)), a);
      }
      if SomeLocal(m, d, a) {
        var i :| 0 <= i < |m.frames| - d && Covers(m, Up(d, Succ(i)), a);
        assert LocalsOf(env, c[i], a);
      }
    }
  }

  /** A thread that can be suspended is captured whole. */
  lemma SnapshotTaken(env: Env, m: Machine, d: nat, resume: (word, word, word), selfAt: seq<nat>)
    requires Suspendable(env, m, d)
    ensures var t := Snapshot(env, m, d, resume, selfAt);
      && t.Some? && IsThread(m, d, t.value)
      && t.value.resume == resume && t.value.selves == CaptureSelves(m.mem, selfAt)
  {
    SegmentInside(m, d);
    LocalsCaptured(env, m, d);
  }

  /** A rebuilt machine's stack segment is as long as the suspended one. */
  lemma SegmentRebuilt(m: Machine, d: nat, m1: Machine, m': Machine)
    requires m.mem.Valid() && StackOk(m) && d < |m.frames| && Idle(m1) && SameLayout(m, m1)
    requires RebuiltTo(m, d, m1, m', |m.frames| - d)
    ensures m'.frames != [] && m'.frames[0].localsAt == 0
    ensures m'.x.lsTop + m.frames[d].localsAt == m.x.lsTop && m'.x.pushed == m.x.pushed
  {
    var k := |m.frames| - d;
    RebuiltHolds(m, d, m1, m', k);
    SegmentInside(m, d);
    assert Up(d, k) == |m.frames| && m.frames[..Up(d, k)] == m.frames;
    assert LocalsWords(m, Up(d, k)) == m.x.localsWords && ActAt(m, Up(d, k)) == OfExec(m.x);
    assert m'.frames[..1] == [m'.frames[0]];
    HeldStep(m'.frames, 0);
    assert SavedAbove(m'.frames, 0) && SavedAbove(m.frames, d);
    assert m'.frames[..0] == [];
  }

  /** A suspended machine and an idle one the thread may be resumed on: the VM's layout and programs
      are the same, everything else may have changed. */
  predicate Resumable(env: Env, m: Machine, d: nat, m1: Machine) {
    Suspendable(env, m, d) && Idle(m1) && StackOk(m1) && SameLayout(m, m1)
  }

  /** What resuming does once the frames are rebuilt. */
  function Continued(env: Env, m': Machine, t: Thread, start: nat, pc: nat): Machine {
    WithS(m', Refilled(env, m', t, start)).(x := m'.x.(pc := pc))
  }

  lemma ResumeUnfolds(env: Env, m1: Machine, t: Thread, k: nat, m': Machine, start: nat, pc: nat)
    requires Idle(m1) && k == |t.chain| && Rebuild(env, m1, t.chain, k) == EnterResult(m', None)
    requires m'.frames != [] && StackAt(m'.mem, m'.frames[0].localsAt) == start && ResumePc(m1, t.chain, k) == pc
    ensures Resume(env, m1, t) == EnterResult(Continued(env, m', t, start, pc), None)
  {
  }

  /** The rebuilt frames, and where the thread's stack segment goes. */
  predicate Rebuilt(m: Machine, d: nat, m1: Machine, m': Machine)
    requires d < |m.frames|
  {
    && RebuiltTo(m, d, m1, m', |m.frames| - d) && m'.frames != []
    && m'.frames[0].localsAt == 0
    && m'.x.lsTop + m.frames[d].localsAt == m.x.lsTop && m'.x.pushed == m.x.pushed
    && m'.x.prnum == m.x.prnum
  }

  lemma RebuiltFrames(env: Env, m: Machine, d: nat, m1: Machine, t: Thread) returns (m': Machine)
    requires Resumable(env, m, d, m1) && t.chain == ChainFrom(m, d)
    ensures Rebuild(env, m1, t.chain, |t.chain|) == EnterResult(m', None)
    ensures Rebuilt(m, d, m1, m')
  {
    var k := |m.frames| - d;
    Rebuilds(env, m, d, m1, k);
    m' := Rebuild(env, m1, t.chain, k).m;
    SegmentRebuilt(m, d, m1, m');
    assert ActAt(m, Up(d, k)) == OfExec(m.x);
  }

  lemma LastResumePc(m: Machine, m1: Machine, d: nat)
    requires d < |m.frames|
    ensures ResumePc(m1, ChainFrom(m, d), |m.frames| - d) == m.x.pc
  {
    assert ActAt(m, |m.frames|) == OfExec(m.x);
  }

  lemma ResumeContinues(env: Env, m: Machine, d: nat, m1: Machine, t: Thread, m': Machine)
    requires Idle(m1) && SameLayout(m, m1) && d < |m.frames| && t.chain == ChainFrom(m, d)
    requires Rebuild(env, m1, t.chain, |t.chain|) == EnterResult(m', None)
    requires m'.frames != [] && m'.frames[0].localsAt == 0 && m'.mem.lsBase == m1.mem.lsBase
    ensures Resume(env, m1, t) == EnterResult(Continued(env, m', t, StackAt(m.mem, 0), m.x.pc), None)
  {
    LastResumePc(m, m1, d);
    ResumeUnfolds(env, m1, t, |t.chain|, m', StackAt(m.mem, 0), m.x.pc);
  }

  lemma ResumeIs(env: Env, m: Machine, d: nat, m1: Machine, t: Thread) returns (m': Machine)
    requires Resumable(env, m, d, m1) && t.chain == ChainFrom(m, d)
    ensures Resume(env, m1, t) == EnterResult(Continued(env, m', t, StackAt(m.mem, 0), m.x.pc), None)
    ensures Rebuilt(m, d, m1, m')
  {
    m' := RebuiltFrames(env, m, d, m1, t);
    ResumeContinues(env, m, d, m1, t, m');
  }

  /** Resuming rebuilds the same chain of activations: each one's function, place of continuation,
      pushed words, `SWITCH` state and locals, above the idle context, whatever functions recur. The
      local stack is in use up to one shift of its base. */
  lemma ResumeRebuildsChain(env: Env, m: Machine, d: nat, m1: Machine, t: Thread)
    requires Resumable(env, m, d, m1) && IsThread(m, d, t)
    ensures Resume(env, m1, t).error.None?
    ensures var r := Resume(env, m1, t).m;
      && |r.frames| == |m.frames| - d && StackOk(r)
      && OfFrame(r.frames[0]) == OfExec(m1.x)
      && (forall j :: 0 < j <= |r.frames| ==> SameAct(m, d, r, j))
      && r.x.lsTop + m.frames[d].localsAt == m.x.lsTop
  {
    var m' := ResumeIs(env, m, d, m1, t);
    var k := |m.frames| - d;
    var r := Resume(env, m1, t).m;
    assert Up(d, k) == |m.frames|;
    forall j | 0 < j <= k
      ensures SameAct(m, d, r, j)
    {
      if j < k { assert SameAct(m, d, m', j); }
    }
  }

  /** Nothing captured lies on the local stack. */
  lemma StackIsPlain(env: Env, m: Machine, d: nat, t: Thread, a: nat)
    requires LocalsClear(m) && IsThread(m, d, t)
    requires Clear(m.mem, ReturnSlot(env, m.x.prnum), 3)
    requires forall i :: 0 <= i < |t.selves| ==> Clear(m.mem, t.selves[i].at, 1)
    requires m.mem.lsBase <= a < m.mem.lsBase + 4 * m.mem.lsWords
    ensures !Captured(t.locals, a) && Plain(ReturnSlot(env, m.x.prnum), t.selves, a)
  {
    forall i | 0 <= i < |m.frames| - d
      ensures !Covers(m, Up(d, Succ(i)), a)
    {
      assert Clear(m.mem, LocalsAddr(m, Up(d, Succ(i))), LocalsWords(m, Up(d, Succ(i))));
    }
    assert !SomeLocal(m, d, a);
    forall i | 0 <= i < |t.selves|
      ensures !InWord(t.selves[i].at, a)
    {
      assert Clear(m.mem, t.selves[i].at, 1);
    }
  }

  lemma ContinuedByte(env: Env, m': Machine, t: Thread, start: nat, pc: nat, s: seq<byte>, a: nat)
    requires |s| == |m'.mem.s| && Faithful(s, t.locals) && start + |t.stack| <= |s| && a < |s|
    requires Plain(ReturnSlot(env, m'.x.prnum), t.selves, a)
    ensures Captured(t.locals, a) ==> Continued(env, m', t, start, pc).mem.s[a] == s[a]
    ensures !Captured(t.locals, a) && start <= a < start + |t.stack| ==>
              Continued(env, m', t, start, pc).mem.s[a] == t.stack[a - start]
  {
    RefilledByte(env, m', t, start, s, a);
  }

  /** Byte `a` of the suspended segment, in the thread and where it is put back. */
  lemma SegmentIndex(m: Machine, d: nat, t: Thread, a: nat)
    requires IsThread(m, d, t) && RootAt(m, d) <= a < StackEnd(m)
    ensures var a' := Shift(a, RootAt(m, d), StackAt(m.mem, 0));
      && StackAt(m.mem, 0) <= a' < StackAt(m.mem, 0) + |t.stack| <= StackEnd(m)
      && t.stack[a' - StackAt(m.mem, 0)] == m.mem.s[a]
  {
  }

  lemma SegmentCarried(env: Env, m: Machine, d: nat, m': Machine, t: Thread, a: nat)
    requires m.mem.Valid() && StackOk(m) && LocalsClear(m) && IsThread(m, d, t)
    requires Clear(m.mem, ReturnSlot(env, m.x.prnum), 3)
    requires forall i :: 0 <= i < |t.selves| ==> Clear(m.mem, t.selves[i].at, 1)
    requires m'.x.prnum == m.x.prnum && |m'.mem.s| == |m.mem.s|
    requires RootAt(m, d) <= a < StackEnd(m)
    ensures var a' := Shift(a, RootAt(m, d), StackAt(m.mem, 0));
      a' < |m.mem.s| && a < |m.mem.s| && Continued(env, m', t, StackAt(m.mem, 0), m.x.pc).mem.s[a'] == m.mem.s[a]
  {
    SegmentIndex(m, d, t, a);
    var a' := Shift(a, RootAt(m, d), StackAt(m.mem, 0));
    StackIsPlain(env, m, d, t, a');
    ContinuedByte(env, m', t, StackAt(m.mem, 0), m.x.pc, m.mem.s, a');
  }

  /** Where byte `a` of the suspended segment is put back. */
  function RestoredAt(m: Machine, d: nat, a: nat): (r: nat)
    requires m.mem.Valid() && StackOk(m) && d < |m.frames| && RootAt(m, d) <= a < StackEnd(m)
    ensures r < |m.mem.s|
  {
    SegmentInside(m, d);
    Shift(a, RootAt(m, d), StackAt(m.mem, 0))
  }

  /** The stack segment of the thread is back, at the bottom of the local stack. */
  lemma ResumeRestoresStack(env: Env, m: Machine, d: nat, m1: Machine, t: Thread, a: nat)
    requires Resumable(env, m, d, m1) && LocalsClear(m) && IsThread(m, d, t)
    requires Clear(m.mem, ReturnSlot(env, m.x.prnum), 3)
    requires forall i :: 0 <= i < |t.selves| ==> Clear(m.mem, t.selves[i].at, 1)
    requires RootAt(m, d) <= a < StackEnd(m)
    ensures |Resume(env, m1, t).m.mem.s| == |m.mem.s| && a < |m.mem.s|
    ensures Resume(env, m1, t).m.mem.s[RestoredAt(m, d, a)] == m.mem.s[a]
  {
    var m' := ResumeIs(env, m, d, m1, t);
    SegmentCarried(env, m, d, m', t, a);
  }

  lemma LocalCarried(env: Env, m: Machine, d: nat, m': Machine, t: Thread, a: nat)
    requires m.mem.Valid() && StackOk(m) && IsThread(m, d, t)
    requires m'.x.prnum == m.x.prnum && |m'.mem.s| == |m.mem.s|
    requires SomeLocal(m, d, a) && a < |m.mem.s| && Plain(ReturnSlot(env, m.x.prnum), t.selves, a)
    ensures Continued(env, m', t, StackAt(m.mem, 0), m.x.pc).mem.s[a] == m.mem.s[a]
  {
    SegmentInside(m, d);
    assert Captured(t.locals, a);
    ContinuedByte(env, m', t, StackAt(m.mem, 0), m.x.pc, m.mem.s, a);
  }

  /** Every byte of the locals of every activation has its captured value back. */
  lemma ResumeRestoresLocals(env: Env, m: Machine, d: nat, m1: Machine, t: Thread, a: nat)
    requires Resumable(env, m, d, m1) && IsThread(m, d, t)
    requires SomeLocal(m, d, a) && a < |m.mem.s| && Plain(ReturnSlot(env, m.x.prnum), t.selves, a)
    ensures var r := Resume(env, m1, t).m; |r.mem.s| == |m.mem.s| && r.mem.s[a] == m.mem.s[a]
  {
    var m' := ResumeIs(env, m, d, m1, t);
    LocalCarried(env, m, d, m', t, a);
  }

  /** Where a thread's entity globals are. */
  function SelfOffsets(t: Thread): seq<nat> { seq(|t.selves|, i requires 0 <= i < |t.selves| => t.selves[i].at) }

  /** The suspending call returns the resume value; `self` and `other` are their entities again, or
      the world exactly when their serial no longer is that of a live entity. */
  lemma ResumeSetsGlobals(env: Env, m: Machine, d: nat, m1: Machine, t: Thread)
    requires Resumable(env, m, d, m1) && IsThread(m, d, t)
    requires SelvesApart(|m.mem.s|, ReturnSlot(env, m.x.prnum), SelfOffsets(t))
    ensures var s := Resume(env, m1, t).m.mem.s;
      var ret := ReturnSlot(env, m.x.prnum);
      && G(Whole, s, ret) == t.resume.0 && G(Whole, s, Nth(ret, 1)) == t.resume.1 && G(Whole, s, Nth(ret, 2)) == t.resume.2
      && forall i :: 0 <= i < |t.selves| ==> G(Whole, s, t.selves[i].at) == SelfAfter(m1.mem, t.selves[i])
  {
    var m' := ResumeIs(env, m, d, m1, t);
    RefilledReturn(env, m', t, StackAt(m.mem, 0), SelfOffsets(t));
    forall i | 0 <= i < |t.selves|
      ensures G(Whole, Resume(env, m1, t).m.mem.s, t.selves[i].at) == SelfAfter(m1.mem, t.selves[i])
    {
      RefilledSelf(env, m', t, StackAt(m.mem, 0), SelfOffsets(t), i);
    }
  }

  /** A thread that cannot be rebuilt leaves no frame behind. */
  lemma FailedResumeUnwinds(env: Env, m1: Machine, t: Thread)
    requires Resume(env, m1, t).error.Some?
    ensures Resume(env, m1, t).m.frames == m1.frames
  {
    var r := Rebuild(env, m1, t.chain, |t.chain|).m;
    assert r.frames[..|m1.frames|] == m1.frames;
  }
}
