/** Locals come back: unwinding restores what each call saved (`src/vm/core.rs`). */
module Locals {
  import opened Bytes
  import opened Program
  import opened Memory
  import opened Views
  import opened Machine
  import opened Effects
  import opened Step
  import opened Interp
  import opened Frames
  import opened Loop
  import Loader

  // ---- where locals are ------------------------------------------------------------------------

  /** A range of words in region S that does not touch the local stack. */
  predicate Clear(m: Mem, addr: nat, words: nat) {
    && addr + 4 * words <= |m.s|
    && (addr + 4 * words <= m.lsBase || addr >= m.lsBase + 4 * m.lsWords)
  }

  /** Activation `i` of a machine (0 is the context nothing called; the last one is running). */
  function LocalsAddr(m: Machine, i: nat): nat
    requires i <= |m.frames|
  {
    if i < |m.frames| then m.frames[i].localsAddr else m.x.localsAddr
  }

  function LocalsWords(m: Machine, i: nat): nat
    requires i <= |m.frames|
  {
    if i < |m.frames| then m.frames[i].localsWords else m.x.localsWords
  }

  predicate LocalsClear(m: Machine) {
    forall i :: 0 <= i <= |m.frames| ==> Clear(m.mem, LocalsAddr(m, i), LocalsWords(m, i))
  }

  /** Only one progs runs, so returns copy nothing between progs. */
  predicate OneProgs(m: Machine) {
    forall i :: 0 <= i < |m.frames| ==> m.frames[i].prnum == m.x.prnum
  }

  predicate Covers(m: Machine, i: nat, a: nat)
    requires i <= |m.frames|
  {
    LocalsAddr(m, i) <= a < LocalsAddr(m, i) + 4 * LocalsWords(m, i)
  }

  /** Where activation `i`'s saved locals start on the local stack. */
  function SavedAt(m: Machine, i: nat): nat
    requires i <= |m.frames|
  {
    StackAt(m.mem, Held(m.frames[..i]))
  }

  /** The saved blocks lie below the top of the local stack, in order. */
  lemma SavedBelowTop(m: Machine, i: nat)
    requires m.mem.Valid() && StackOk(m) && i <= |m.frames|
    ensures SavedAt(m, i) + 4 * LocalsWords(m, i) <= StackAt(m.mem, m.x.lsTop)
    ensures StackAt(m.mem, m.x.lsTop) <= m.mem.lsBase + 4 * m.mem.lsWords <= |m.mem.s|
    ensures i < |m.frames| ==> SavedAt(m, i) + 4 * LocalsWords(m, i) <= SavedAt(m, i + 1)
  {
    if i < |m.frames| {
      assert m.frames[..i + 1][..i] == m.frames[..i];
      HeldGrows(m.frames, i + 1);
    } else {
      assert m.frames[..i] == m.frames;
    }
  }

  /** Address `a` of a block at `from`, carried over to a copy of the block at `to`. */
  function Shift(a: nat, from: nat, to: nat): nat
    requires from <= a
  {
    to + (a - from)
  }

  /** The first byte of the local stack no context holds. */
  function StackEnd(m: Machine): nat { StackAt(m.mem, m.x.lsTop + m.x.pushed) }

  /** The byte activation `i` saved for address `a`. */
  function SavedByte(m: Machine, i: nat, a: nat): byte
    requires m.mem.Valid() && StackOk(m) && i <= |m.frames| && Covers(m, i, a)
  {
    SavedBelowTop(m, i);
    m.mem.s[Shift(a, LocalsAddr(m, i), SavedAt(m, i))]
  }

  /** The byte at `a` once activations `i` and up have returned: what the outermost of them whose
      locals cover `a` saved, else what it is now. */
  function Restored(m: Machine, i: nat, a: nat): byte
    requires m.mem.Valid() && StackOk(m) && i <= |m.frames| + 1 && a < |m.mem.s|
    decreases |m.frames| + 1 - i
  {
    if i == |m.frames| + 1 then m.mem.s[a]
    else if Covers(m, i, a) then SavedByte(m, i, a)
    else Restored(m, i + 1, a)
  }

  // ---- one return ------------------------------------------------------------------------------

  lemma MoveByte(s: seq<byte>, src: nat, dst: nat, len: nat, a: nat)
    requires src + len <= |s| && dst + len <= |s| && a < |s|
    ensures Move(s, src, dst, len)[a] == if dst <= a < dst + len then s[Shift(a, dst, src)] else s[a]
  {
  }

  /** A return writes the callee's locals and nothing else, and leaves the local stack alone. */
  lemma LeaveBytes(env: Env, m: Machine, a: nat)
    requires m.mem.Valid() && StackOk(m) && LocalsClear(m) && OneProgs(m) && m.frames != [] && a < |m.mem.s|
    ensures Leave(env, m).mem.s[a] ==
            if Covers(m, |m.frames|, a) then SavedByte(m, |m.frames|, a) else m.mem.s[a]
    ensures StackAt(m.mem, 0) <= a < m.mem.lsBase + 4 * m.mem.lsWords ==> Leave(env, m).mem.s[a] == m.mem.s[a]
  {
    var n := |m.frames|;
    SavedBelowTop(m, n);
    assert Clear(m.mem, LocalsAddr(m, n), LocalsWords(m, n));
    assert m.frames[..n] == m.frames;
    assert SavedAt(m, n) == StackAt(m.mem, SatSub(m.x.lsTop, m.x.localsWords));
    MoveByte(m.mem.s, SavedAt(m, n), m.x.localsAddr, 4 * m.x.localsWords, a);
    assert m.frames[n - 1].prnum == m.x.prnum;
    assert Leave(env, m).mem.s == RestoreLocals(m);
  }

  lemma LeaveKeepsClear(env: Env, m: Machine)
    requires StackOk(m) && LocalsClear(m) && OneProgs(m) && m.frames != []
    ensures LocalsClear(Leave(env, m)) && OneProgs(Leave(env, m))
  {
    var m' := Leave(env, m);
    var f := m.frames[|m.frames| - 1];
    assert m'.x.localsAddr == f.localsAddr && m'.x.localsWords == f.localsWords && m'.x.prnum == f.prnum;
    forall i | 0 <= i <= |m'.frames|
      ensures Clear(m'.mem, LocalsAddr(m', i), LocalsWords(m', i))
    {
      assert Clear(m.mem, LocalsAddr(m, i), LocalsWords(m, i));
    }
  }

  lemma SavedByteKept(env: Env, m: Machine, i: nat, a: nat)
    requires m.mem.Valid() && StackOk(m) && LocalsClear(m) && OneProgs(m)
    requires i < |m.frames| && Covers(m, i, a)
    ensures StackOk(Leave(env, m)) && Covers(Leave(env, m), i, a)
    ensures SavedByte(Leave(env, m), i, a) == SavedByte(m, i, a)
  {
    var m' := Leave(env, m);
    LeaveKeepsStack(env, m);
    assert LocalsAddr(m', i) == LocalsAddr(m, i) && LocalsWords(m', i) == LocalsWords(m, i);
    assert m'.frames[..i] == m.frames[..i];
    SavedBelowTop(m, i);
    LeaveBytes(env, m, Shift(a, LocalsAddr(m, i), SavedAt(m, i)));
  }

  /** After a return the activations below restore the same bytes as before it. */
  lemma {:induction false} RestoredAfterLeave(env: Env, m: Machine, i: nat, a: nat)
    requires m.mem.Valid() && StackOk(m) && LocalsClear(m) && OneProgs(m) && a < |m.mem.s|
    requires i <= |m.frames| && m.frames != []
    ensures StackOk(Leave(env, m)) && Restored(Leave(env, m), i, a) == Restored(m, i, a)
    decreases |m.frames| - i
  {
    LeaveKeepsStack(env, m);
    var m' := Leave(env, m);
    if i == |m.frames| {
      LeaveBytes(env, m, a);
    } else {
      assert LocalsAddr(m', i) == LocalsAddr(m, i) && LocalsWords(m', i) == LocalsWords(m, i);
      if Covers(m, i, a) {
        SavedByteKept(env, m, i, a);
      } else {
        RestoredAfterLeave(env, m, i + 1, a);
      }
    }
  }

  // ---- unwinding -------------------------------------------------------------------------------

  /** Unwinding any number of frames gives each byte the value saved by the outermost popped frame
      whose locals cover it, and leaves the other bytes alone, whatever recursion and overlap there
      is among the locals. */
  lemma {:induction false} UnwindRestores(env: Env, m: Machine, depth: nat, a: nat)
    requires m.mem.Valid() && StackOk(m) && LocalsClear(m) && OneProgs(m) && a < |m.mem.s|
    requires depth <= |m.frames|
    ensures Unwind(env, m, depth).mem.s[a] == Restored(m, depth + 1, a)
    decreases |m.frames|
  {
    if |m.frames| > depth {
      LeaveKeepsStack(env, m);
      LeaveKeepsClear(env, m);
      UnwindRestores(env, Leave(env, m), depth, a);
      RestoredAfterLeave(env, m, depth + 1, a);
    }
  }

  // ---- stores that reach the local stack -------------------------------------------------------

  /** A vector stored at `dst` changes no byte from `lsBase` on, in any memory of `n` bytes. */
  ghost predicate SparesStack(n: nat, lsBase: nat, src: nat, dst: nat) {
    forall s: seq<byte>, a: nat {:trigger Copy(Whole, s, src, dst, 3)[a]} ::
      |s| == n && lsBase <= a < n ==> Copy(Whole, s, src, dst, 3)[a] == s[a]
  }

  /** Operands are checked word by word, so a vector store may name the last legal word and reach two
      words further, where the local stack begins. It leaves the stack alone exactly when it ends
      before it. */
  lemma SparesStackExactly(n: nat, lsBase: nat, src: nat, dst: nat)
    requires dst % 4 == 0 && lsBase % 4 == 0 && src + 12 <= dst < lsBase && dst + 12 <= n
    ensures SparesStack(n, lsBase, src, dst) <==> dst + 12 <= lsBase
  {
    if dst + 12 <= lsBase {
      forall s: seq<byte>, a: nat | |s| == n && lsBase <= a < n
        ensures Copy(Whole, s, src, dst, 3)[a] == s[a]
      {
        CopyElsewhere(s, src, dst, 3, a);
      }
    } else {
      var s := Splice(Zeros(n), src + 8, [1]);
      LastWordCopied(s, src, dst, 0);
      assert Copy(Whole, s, src, dst, 3)[dst + 8] != s[dst + 8];
    }
  }

  /** The last legal operand of the main progs is such a word: its globals and their tail end where
      the local stack begins. */
  lemma LastOperandReachesStack(ps: ProgsState, mem: Mem, src: nat)
    requires mem.Valid() && ps.gbase % 4 == 0 && ps.gbase + 4 * (ps.numGlobals + 3) == mem.lsBase
    requires mem.lsWords >= 2 && src + 12 <= mem.lsBase - 4
    ensures OperandOk(Global, mem.lsBase - 4, ps.gbase, ps.numGlobals + 3, |ps.code|)
    ensures !SparesStack(|mem.s|, mem.lsBase, src, mem.lsBase - 4)
  {
    assert mem.lsBase - 4 == WordSlot(ps.gbase, ps.numGlobals + 2);
    SparesStackExactly(|mem.s|, mem.lsBase, src, mem.lsBase - 4);
  }
}
