/** QuakeC threads: snapshots of the call stack, rebuilt later (`src/vm/threads.rs`). */
module Threads {
  import opened Bytes
  import opened Program
  import opened Memory
  import opened Views
  import opened Machine
  import opened Effects
  import opened Step
  import opened Interp
  import opened Frames
  import opened Locals

  // ---- activations -----------------------------------------------------------------------------

  /** One function activation of a sleeping thread, and the statement it continues at. */
  datatype Activation = Activation(
    prnum: nat, func: nat, pc: nat, pushed: nat, switchRef: nat, switchKind: SwitchKind)

  function OfFrame(f: Frame): Activation {
    Activation(f.prnum, f.func, f.resumePc, f.pushed, f.switchRef, f.switchKind)
  }

  function OfExec(x: Exec): Activation {
    Activation(x.prnum, x.func, x.pc, x.pushed, x.switchRef, x.switchKind)
  }

  /** Activation `j` of a machine: 0 is the context nothing called, the last one is running. */
  function ActAt(m: Machine, j: nat): Activation
    requires j <= |m.frames|
  {
    if j < |m.frames| then OfFrame(m.frames[j]) else OfExec(m.x)
  }

  /** The activations above `d` frames, root first. */
  function ChainFrom(m: Machine, d: nat): (c: seq<Activation>)
    requires d < |m.frames|
    ensures |c| == |m.frames| - d
    ensures forall i :: 0 <= i < |c| ==> c[i] == ActAt(m, d + 1 + i)
  {
    seq(|m.frames| - d, i requires 0 <= i < |m.frames| - d => ActAt(m, d + 1 + i))
  }

  /** An activation's locals are those of its function, inside region S. */
  predicate SitedAt(env: Env, m: Machine, j: nat)
    requires j <= |m.frames|
  {
    var a := ActAt(m, j);
    var f := FuncAt(env, a.prnum, a.func);
    && f.Some? && f.value.localsAddr == LocalsAddr(m, j) && f.value.localsWords == LocalsWords(m, j)
    && LocalsAddr(m, j) + 4 * LocalsWords(m, j) <= |m.mem.s|
  }

  /** Every activation above the bottom one was entered by a call. */
  predicate Sited(env: Env, m: Machine) {
    && |m.frames| <= env.callDepth
    && forall j :: 0 < j <= |m.frames| ==> SitedAt(env, m, j)
  }

  lemma EnterKeepsSited(env: Env, m: Machine, prnum: nat, index: nat, resumePc: nat)
    requires Sited(env, m)
    ensures Sited(env, Enter(env, m, prnum, index, resumePc).m)
  {
    var r := Enter(env, m, prnum, index, resumePc);
    if r.error.None? {
      forall j | 0 < j <= |r.m.frames|
        ensures SitedAt(env, r.m, j)
      {
        if j <= |m.frames| { assert SitedAt(env, m, j); }
      }
    } else {
      assert r.m.frames == m.frames && r.m.x == m.x;
      forall j | 0 < j <= |r.m.frames|
        ensures SitedAt(env, r.m, j)
      {
        assert SitedAt(env, m, j);
      }
    }
  }

  lemma LeaveKeepsSited(env: Env, m: Machine)
    requires Sited(env, m)
    ensures Sited(env, Leave(env, m))
  {
    var m' := Leave(env, m);
    forall j | 0 < j <= |m'.frames|
      ensures SitedAt(env, m', j)
    {
      assert SitedAt(env, m, j);
    }
  }

  lemma SameActivationSited(env: Env, m: Machine, m': Machine)
    requires Sited(env, m) && SameActivation(m, m') && |m'.mem.s| == |m.mem.s|
    ensures Sited(env, m')
  {
    forall j | 0 < j <= |m'.frames|
      ensures SitedAt(env, m', j)
    {
      assert SitedAt(env, m, j);
    }
  }

  lemma DispatchKeepsSited(env: Env, m: Machine, fv: word)
    requires Sited(env, m)
    ensures Sited(env, Dispatch(env, m, fv).s)
  {
    if CalleeAt(env, fv).QcFn? {
      EnterKeepsSited(env, m, ProgsOf(fv), IndexOf(fv), m.x.pc + 1);
    } else {
      SameActivationSited(env, m, Dispatch(env, m, fv).s);
    }
  }

  lemma CallKeepsSited(env: Env, v: View, m: Machine, ps: ProgsState, st: Stmt)
    requires HasView(v, m.mem.s) && st.op.Call? && Sited(env, m)
    ensures Sited(env, CallStep(env, v, m, ps, st).out.s)
  {
    var s := PassOperands(v, m.mem.s, ps, st.op.argc, st.op.hexen2, st.b, st.c);
    var m1 := WithS(m, s).(argc := st.op.argc);
    SameActivationSited(env, m, m1);
    DispatchKeepsSited(env, m1, G(v, s, st.a));
  }

  /** Every step keeps activations where their functions are: from an idle VM, they always are. */
  lemma StepKeepsSited(env: Env, v: View, m: Machine, d: nat)
    requires RunOk(env, v, m, d) && Sited(env, m)
    ensures Sited(env, StepOf(env, v, m, d).out.s) && Sited(env, StepOf(env, v, m, d).blocked)
  {
    StepExecutes(env, v, m, d);
    var ps, st := Current(env, m), Next(env, m);
    if st.op.Call? {
      CallKeepsSited(env, v, m, ps, st);
    } else if st.op.Return? {
      var m1 := WithS(m, Copy(v, m.mem.s, st.a, SlotAt(ps.gbase, OFS_RETURN), 3));
      SameActivationSited(env, m, m1);
      LeaveKeepsSited(env, m1);
    } else {
      StaysInActivation(env, v, m, ps, st, d);
      var r := StepOf(env, v, m, d);
      SameActivationSited(env, m, r.out.s);
      SameActivationSited(env, m, r.blocked);
    }
  }

  // ---- suspending ------------------------------------------------------------------------------

  /** A captured range of region S. */
  datatype Saved = Saved(at: nat, bytes: seq<byte>)

  /** A global holding an entity, the entity, and the entity's spawn serial. */
  datatype SelfRef = SelfRef(at: nat, ent: word, serial: word)

  datatype Thread = Thread(
    chain: seq<Activation>, stack: seq<byte>, locals: seq<Saved>, resume: (word, word, word), selves: seq<SelfRef>)

  /** Activation `k`'s function occurs earlier in the chain. */
  predicate Seen(chain: seq<Activation>, k: nat)
    requires k < |chain|
  {
    exists i :: 0 <= i < k && chain[i].prnum == chain[k].prnum && chain[i].func == chain[k].func
  }

  /** The locals of the functions of the first `k` activations, each function's once. */
  function CaptureLocals(env: Env, s: seq<byte>, chain: seq<Activation>, k: nat): Option<seq<Saved>>
    requires k <= |chain|
  {
    if k == 0 then Some([])
    else match CaptureLocals(env, s, chain, k - 1)
      case None => None
      case Some(saved) =>
        if Seen(chain, k - 1) then Some(saved)
        else match FuncAt(env, chain[k - 1].prnum, chain[k - 1].func)
          case None => None
          case Some(f) =>
            var end := f.localsAddr + 4 * f.localsWords;
            if end > |s| then None else Some(saved + [Saved(f.localsAddr, s[f.localsAddr..end])])
  }

  /** The serial of entity `e`'s slot. */
  function SerialOf(mem: Mem, e: word): word { if e < |mem.slots| then mem.slots[e].serial else 0 }

  function CaptureSelves(mem: Mem, at: seq<nat>): (r: seq<SelfRef>)
    ensures |r| == |at|
    ensures forall i :: 0 <= i < |at| ==> r[i] == SelfRef(at[i], G(Whole, mem.s, at[i]), SerialOf(mem, G(Whole, mem.s, at[i])))
  {
    seq(|at|, i requires 0 <= i < |at| => SelfRef(at[i], G(Whole, mem.s, at[i]), SerialOf(mem, G(Whole, mem.s, at[i]))))
  }

  /** Captures the QuakeC running above `d` frames; `selfAt` are the offsets of the globals `self` and
      `other` of its top progs, as far as it defines them. */
  function Snapshot(env: Env, m: Machine, d: nat, resume: (word, word, word), selfAt: seq<nat>): Option<Thread> {
    if d >= |m.frames| then None
    else
      var chain := ChainFrom(m, d);
      var start, end := StackAt(m.mem, m.frames[d].localsAt), StackEnd(m);
      if start > end || end > |m.mem.s| then None
      else match CaptureLocals(env, m.mem.s, chain, |chain|)
        case None => None
        case Some(locals) =>
          Some(Thread(chain, m.mem.s[start..end], locals, resume, CaptureSelves(m.mem, selfAt)))
  }

  // ---- resuming --------------------------------------------------------------------------------

  /** Sets what an activation carries besides its function. */
  function Dress(m: Machine, a: Activation): (r: Machine)
    ensures r.mem == m.mem && r.frames == m.frames && r.argc == m.argc
  {
    m.(x := m.x.(pushed := a.pushed, switchRef := a.switchRef, switchKind := a.switchKind))
  }

  /** Where the activation below number `k` of the chain continues. */
  function ResumePc(m: Machine, chain: seq<Activation>, k: nat): nat
    requires k <= |chain|
  {
    if k == 0 then m.x.pc else chain[k - 1].pc
  }

  /** Enters an activation of a chain. */
  function EnterDressed(env: Env, m: Machine, a: Activation, pc: nat): (r: EnterResult)
    ensures SameShape(m.mem, r.m.mem) && m.frames <= r.m.frames
  {
    var e := Enter(env, m, a.prnum, a.func, pc);
    if e.error.Some? then e else EnterResult(Dress(e.m, a), None)
  }

  /** Enters the first `k` activations of a chain. */
  function Rebuild(env: Env, m: Machine, chain: seq<Activation>, k: nat): (r: EnterResult)
    requires k <= |chain|
    ensures SameShape(m.mem, r.m.mem) && m.frames <= r.m.frames
  {
    if k == 0 then EnterResult(m, None)
    else
      var r := Rebuild(env, m, chain, k - 1);
      if r.error.Some? then r
      else
        EnterDressed(env, r.m, chain[k - 1], ResumePc(m, chain, k - 1))
  }

  /** Writes the first `k` captured ranges back. */
  function WriteBack(s: seq<byte>, saved: seq<Saved>, k: nat): (r: seq<byte>)
    requires k <= |saved|
    ensures |r| == |s|
  {
    if k == 0 then s
    else
      var t := WriteBack(s, saved, k - 1);
      var b := saved[k - 1];
      if b.at + |b.bytes| <= |t| then Splice(t, b.at, b.bytes) else t
  }

  predicate Alive(mem: Mem, r: SelfRef) {
    r.ent < |mem.slots| && mem.slots[r.ent].inUse && mem.slots[r.ent].serial == r.serial
  }

  /** Writes the first `k` entity globals back; an entity that is gone becomes the world. */
  function WriteSelves(mem: Mem, s: seq<byte>, selves: seq<SelfRef>, k: nat): (r: seq<byte>)
    requires k <= |selves|
    ensures |r| == |s|
  {
    if k == 0 then s
    else
      var r := selves[k - 1];
      Set(Whole, WriteSelves(mem, s, selves, k - 1), r.at, if Alive(mem, r) then r.ent else 0)
  }

  function WriteReturn(s: seq<byte>, at: nat, w: (word, word, word)): (r: seq<byte>)
    ensures |r| == |s|
  {
    Set(Whole, Set(Whole, Set(Whole, s, at, w.0), Nth(at, 1), w.1), Nth(at, 2), w.2)
  }

  function ReturnSlot(env: Env, prnum: nat): nat { SlotAt(if prnum < |env.progs| then env.progs[prnum].gbase else 0, OFS_RETURN) }

  /** Region S after the captured stack went to `start`, then locals, result and entities. */
  function Refilled(env: Env, m: Machine, t: Thread, start: nat): (s: seq<byte>)
    ensures |s| == |m.mem.s|
  {
    var s1 := if start + |t.stack| <= |m.mem.s| then Splice(m.mem.s, start, t.stack) else m.mem.s;
    var s2 := WriteBack(s1, t.locals, |t.locals|);
    var s3 := WriteReturn(s2, ReturnSlot(env, m.x.prnum), t.resume);
    WriteSelves(m.mem, s3, t.selves, |t.selves|)
  }

  /** Rebuilds a thread on machine `m`, ready to run. */
  function Resume(env: Env, m: Machine, t: Thread): (r: EnterResult)
    ensures SameShape(m.mem, r.m.mem)
  {
    var d := |m.frames|;
    var r := Rebuild(env, m, t.chain, |t.chain|);
    if r.error.Some? then EnterResult(Unwind(env, r.m, d), r.error)
    else
      var pc := ResumePc(m, t.chain, |t.chain|);
      var root := if d < |r.m.frames| then r.m.frames[d].localsAt else 0;
      var s := Refilled(env, r.m, t, StackAt(r.m.mem, root));
      EnterResult(WithS(r.m, s).(x := r.m.x.(pc := pc)), None)
  }

  // ---- the rebuilt frames ----------------------------------------------------------------------

  /** No QuakeC is running. */
  predicate Idle(m: Machine) {
    m.frames == [] && m.x.lsTop == 0 && m.x.pushed == 0 && m.x.localsWords == 0
  }

  /** The machine was built like this one. */
  predicate SameLayout(m: Machine, m1: Machine) {
    m1.mem.Valid() && |m1.mem.s| == |m.mem.s| && m1.mem.lsBase == m.mem.lsBase && m1.mem.lsWords == m.mem.lsWords
  }

  /** A machine that can be suspended above `d` frames. */
  predicate Suspendable(env: Env, m: Machine, d: nat) {
    && m.mem.Valid() && StackOk(m) && Sited(env, m)
    && d < |m.frames|
  }

  /** The number of the activation `j` above number `d`. */
  function Up(d: nat, j: nat): nat { d + j }

  function Succ(k: nat): nat { k + 1 }

  /** Activation `j` of `m'` is activation `d + j` of `m`, in function, place and contents. */
  predicate SameAct(m: Machine, d: nat, m': Machine, j: nat)
    requires d + j <= |m.frames| && j <= |m'.frames|
  {
    && LocalsAddr(m', j) == LocalsAddr(m, Up(d, j)) && LocalsWords(m', j) == LocalsWords(m, Up(d, j))
    && ActAt(m', j) == ActAt(m, Up(d, j))
  }

  /** The first `k` activations above `d` frames of `m` are rebuilt in `m'`, the last one not yet
      continued. */
  predicate RebuiltTo(m: Machine, d: nat, m1: Machine, m': Machine, k: nat)
    requires d < |m.frames| && d + k <= |m.frames|
  {
    && |m'.frames| == k && StackOk(m') && SameShape(m1.mem, m'.mem)
    && (k > 0 ==> OfFrame(m'.frames[0]) == OfExec(m1.x) && m'.frames[0].localsWords == 0)
    && (forall j :: 0 < j < k ==> SameAct(m, d, m', j))
    && (k > 0 ==>
          && m'.x.localsAddr == LocalsAddr(m, Up(d, k)) && m'.x.localsWords == LocalsWords(m, Up(d, k))
          && OfExec(m'.x).(pc := ActAt(m, Up(d, k)).pc) == ActAt(m, Up(d, k)))
    && (k == 0 ==> m' == m1)
  }

  lemma HeldStep(frames: seq<Frame>, j: nat)
    requires j < |frames|
    ensures Held(frames[..j + 1]) == Held(frames[..j]) + frames[j].localsWords + frames[j].pushed
  {
    assert frames[..j + 1][..j] == frames[..j];
  }

  /** Frame `i` of `g` holds as many words as frame `d + i` of `f`. */
  predicate HoldsAlike(f: seq<Frame>, d: nat, g: seq<Frame>, i: nat) {
    i < |g| && d + i < |f| && g[i].localsWords == f[d + i].localsWords && g[i].pushed == f[d + i].pushed
  }

  /** The rebuilt activations hold as many words as the suspended ones did. */
  lemma {:induction false} HeldShifts(f: seq<Frame>, d: nat, g: seq<Frame>, j: nat)
    requires 0 < j <= |g| && d + j <= |f|
    requires g[0].localsWords == 0 && g[0].pushed == 0
    requires forall i :: 0 < i < j ==> HoldsAlike(f, d, g, i)
    ensures Held(g[..j]) + Held(f[..d + 1]) == Held(f[..d + j])
  {
    HeldStep(g, j - 1);
    if j > 1 {
      HeldShifts(f, d, g, j - 1);
      assert HoldsAlike(f, d, g, j - 1);
      HeldStep(f, d + (j - 1));
      assert d + (j - 1) + 1 == d + j;
    } else {
      assert g[..0] == [];
    }
  }

  lemma RebuiltHolds(m: Machine, d: nat, m1: Machine, m': Machine, k: nat)
    requires d < |m.frames| && d + k <= |m.frames| && RebuiltTo(m, d, m1, m', k) && Idle(m1)
    ensures k == 0 ==> Held(m'.frames) == 0
    ensures k > 0 ==> Held(m'.frames) + Held(m.frames[..d + 1]) == Held(m.frames[..Up(d, k)])
  {
    if k > 0 {
      forall i | 0 < i < k
        ensures HoldsAlike(m.frames, d, m'.frames, i)
      {
        assert SameAct(m, d, m', i);
      }
      assert OfFrame(m'.frames[0]).pushed == 0;
      HeldShifts(m.frames, d, m'.frames, k);
      assert m'.frames[..k] == m'.frames;
    }
  }

  /** What activation `j` and those below it hold fits the local stack. */
  lemma HeldFits(m: Machine, j: nat)
    requires StackOk(m) && j <= |m.frames|
    ensures Held(m.frames[..j]) + LocalsWords(m, j) + ActAt(m, j).pushed <= m.mem.lsWords
    ensures j == |m.frames| ==> Held(m.frames[..j]) + LocalsWords(m, j) == m.x.lsTop
  {
    if j < |m.frames| {
      HeldStep(m.frames, j);
      HeldGrows(m.frames, j + 1);
    } else {
      assert m.frames[..j] == m.frames;
    }
  }

  /** Entering a function succeeds when its locals fit the local stack. */
  lemma EnterSucceeds(env: Env, m: Machine, prnum: nat, index: nat, resumePc: nat, f: QcFunc)
    requires m.mem.Valid() && FuncAt(env, prnum, index) == Some(f) && f.localsAddr + 4 * f.localsWords <= |m.mem.s|
    requires |m.frames| < env.callDepth && m.x.lsTop + m.x.pushed + f.localsWords <= m.mem.lsWords
    ensures var r := Enter(env, m, prnum, index, resumePc);
      && r.error.None?
      && r.m.x == Exec(f.entry, index, prnum, 0, m.x.lsTop + m.x.pushed + f.localsWords, 0, SwFloat, f.localsAddr, f.localsWords)
      && r.m.frames == m.frames + [Frame(resumePc, m.x.func, m.x.prnum, m.x.pushed, m.x.switchRef, m.x.switchKind,
                                         m.x.lsTop + m.x.pushed, m.x.localsAddr, m.x.localsWords)]
  {
  }

  /** The next activation's locals, and what it pushed, fit above the `k` rebuilt ones. */
  lemma NextFits(m: Machine, d: nat, m1: Machine, m': Machine, k: nat)
    requires StackOk(m) && Idle(m1)
    requires d + k < |m.frames| && RebuiltTo(m, d, m1, m', k)
    requires k > 0 ==> m'.x.pushed == ActAt(m, Up(d, k)).pushed
    ensures m'.x.lsTop + m'.x.pushed + LocalsWords(m, Up(d, Succ(k))) + ActAt(m, Up(d, Succ(k))).pushed <= m.mem.lsWords
  {
    RebuiltHolds(m, d, m1, m', k);
    HeldFits(m, Up(d, Succ(k)));
    HeldStep(m.frames, d + k);
  }

  /** Entering the next activation of the chain succeeds. */
  lemma NextEnters(env: Env, m: Machine, d: nat, m1: Machine, m': Machine, k: nat, resumePc: nat)
    requires Suspendable(env, m, d) && Idle(m1) && SameLayout(m, m1)
    requires d + k < |m.frames| && RebuiltTo(m, d, m1, m', k)
    requires k > 0 ==> m'.x.pushed == ActAt(m, Up(d, k)).pushed
    ensures var a := ActAt(m, Up(d, Succ(k)));
      var r := Enter(env, m', a.prnum, a.func, resumePc);
      && r.error.None?
      && r.m.x.localsAddr == LocalsAddr(m, Up(d, Succ(k))) && r.m.x.localsWords == LocalsWords(m, Up(d, Succ(k)))
      && r.m.x.lsTop + a.pushed <= m.mem.lsWords && r.m.x.prnum == a.prnum && r.m.x.func == a.func
      && r.m.frames == m'.frames + [Frame(resumePc, m'.x.func, m'.x.prnum, m'.x.pushed, m'.x.switchRef, m'.x.switchKind,
                                          m'.x.lsTop + m'.x.pushed, m'.x.localsAddr, m'.x.localsWords)]
  {
    var a := ActAt(m, Up(d, Succ(k)));
    assert SitedAt(env, m, d + k + 1);
    NextFits(m, d, m1, m', k);
    EnterSucceeds(env, m', a.prnum, a.func, resumePc, FuncAt(env, a.prnum, a.func).value);
  }

  /** The frames after entering one more activation. */
  lemma FramesRebuilt(m: Machine, d: nat, m1: Machine, m': Machine, k: nat, pc: nat, r: Machine)
    requires d + k < |m.frames| && RebuiltTo(m, d, m1, m', k) && Idle(m1)
    requires k > 0 ==> m'.x.pushed == ActAt(m, Up(d, k)).pushed && pc == ActAt(m, Up(d, k)).pc
    requires k == 0 ==> pc == m1.x.pc
    requires r.frames == m'.frames + [Frame(pc, m'.x.func, m'.x.prnum, m'.x.pushed, m'.x.switchRef, m'.x.switchKind,
                                            m'.x.lsTop + m'.x.pushed, m'.x.localsAddr, m'.x.localsWords)]
    ensures |r.frames| == k + 1 && OfFrame(r.frames[0]) == OfExec(m1.x) && r.frames[0].localsWords == 0
    ensures forall j :: 0 < j <= k ==> SameAct(m, d, r, j)
  {
    forall j | 0 < j <= k
      ensures SameAct(m, d, r, j)
    {
      if j < k {
        assert SameAct(m, d, m', j) && r.frames[j] == m'.frames[j];
      }
    }
  }

  lemma DressKeepsStack(m: Machine, a: Activation)
    requires StackOk(m) && m.x.lsTop + a.pushed <= m.mem.lsWords
    ensures StackOk(Dress(m, a))
  {
  }

  /** Dressing the activation entered last touches no other. */
  lemma DressKeepsActs(m: Machine, d: nat, r: Machine, a: Activation, k: nat)
    requires d + k < |m.frames| && |r.frames| == k + 1 && forall j :: 0 < j <= k ==> SameAct(m, d, r, j)
    ensures forall j :: 0 < j <= k ==> SameAct(m, d, Dress(r, a), j)
  {
    forall j | 0 < j <= k
      ensures SameAct(m, d, Dress(r, a), j)
    {
      assert SameAct(m, d, r, j);
    }
  }

  lemma DressedRebuilt(m: Machine, d: nat, m1: Machine, r: Machine, a: Activation, k: nat)
    requires d + k < |m.frames| && |r.frames| == k + 1 && StackOk(r) && SameShape(m1.mem, r.mem)
    requires OfFrame(r.frames[0]) == OfExec(m1.x) && r.frames[0].localsWords == 0
    requires forall j :: 0 < j <= k ==> SameAct(m, d, r, j)
    requires a == ActAt(m, Up(d, Succ(k))) && r.x.prnum == a.prnum && r.x.func == a.func
    requires r.x.localsAddr == LocalsAddr(m, Up(d, Succ(k))) && r.x.localsWords == LocalsWords(m, Up(d, Succ(k)))
    requires r.x.lsTop + a.pushed <= r.mem.lsWords
    ensures RebuiltTo(m, d, m1, Dress(r, a), Succ(k))
  {
    DressKeepsStack(r, a);
    DressKeepsActs(m, d, r, a, k);
  }

  /** Rebuilding one more activation. */
  lemma RebuildsNext(env: Env, m: Machine, d: nat, m1: Machine, m': Machine, k: nat, a: Activation, pc: nat)
    requires Suspendable(env, m, d) && Idle(m1) && SameLayout(m, m1)
    requires d + k < |m.frames| && RebuiltTo(m, d, m1, m', k) && a == ActAt(m, Up(d, Succ(k)))
    requires k > 0 ==> m'.x.pushed == ActAt(m, Up(d, k)).pushed && pc == ActAt(m, Up(d, k)).pc
    requires k == 0 ==> pc == m1.x.pc
    ensures var r := EnterDressed(env, m', a, pc); r.error.None? && RebuiltTo(m, d, m1, r.m, Succ(k))
  {
    NextEnters(env, m, d, m1, m', k, pc);
    EnterKeepsStack(env, m', a.prnum, a.func, pc);
    var r := Enter(env, m', a.prnum, a.func, pc).m;
    FramesRebuilt(m, d, m1, m', k, pc, r);
    DressedRebuilt(m, d, m1, r, a, k);
  }

  lemma ChainAt(m: Machine, m1: Machine, d: nat, k: nat)
    requires d + k < |m.frames|
    ensures ChainFrom(m, d)[k] == ActAt(m, Up(d, Succ(k)))
    ensures ResumePc(m1, ChainFrom(m, d), k) == if k == 0 then m1.x.pc else ActAt(m, Up(d, k)).pc
  {
  }

  lemma RebuildStep(env: Env, m1: Machine, c: seq<Activation>, k: nat, r: EnterResult)
    requires k < |c| && r == Rebuild(env, m1, c, k) && r.error.None?
    ensures Rebuild(env, m1, c, Succ(k)) == EnterDressed(env, r.m, c[k], ResumePc(m1, c, k))
  {
  }

  lemma RebuildsOneMore(env: Env, m: Machine, d: nat, m1: Machine, k: nat, r: EnterResult)
    requires Suspendable(env, m, d) && Idle(m1) && StackOk(m1) && SameLayout(m, m1)
    requires d + k < |m.frames| && r.error.None? && RebuiltTo(m, d, m1, r.m, k)
    ensures var c := ChainFrom(m, d);
      var r' := EnterDressed(env, r.m, c[k], ResumePc(m1, c, k));
      r'.error.None? && RebuiltTo(m, d, m1, r'.m, Succ(k))
  {
    var c := ChainFrom(m, d);
    ChainAt(m, m1, d, k);
    RebuildsNext(env, m, d, m1, r.m, k, c[k], ResumePc(m1, c, k));
  }

  predicate RebuildsAll(env: Env, m: Machine, d: nat, m1: Machine, k: nat, r: EnterResult)
    requires d < |m.frames| && d + k <= |m.frames|
  {
    r.error.None? && RebuiltTo(m, d, m1, r.m, k)
  }

  lemma RebuildsNone(env: Env, m: Machine, d: nat, m1: Machine)
    requires Suspendable(env, m, d) && Idle(m1) && StackOk(m1)
    ensures RebuildsAll(env, m, d, m1, 0, Rebuild(env, m1, ChainFrom(m, d), 0))
  {
  }

  lemma RebuildsSucc(env: Env, m: Machine, d: nat, m1: Machine, p: nat, r: EnterResult)
    requires Suspendable(env, m, d) && Idle(m1) && StackOk(m1) && SameLayout(m, m1)
    requires d + p < |m.frames| && RebuildsAll(env, m, d, m1, p, r) && r == Rebuild(env, m1, ChainFrom(m, d), p)
    ensures RebuildsAll(env, m, d, m1, Succ(p), Rebuild(env, m1, ChainFrom(m, d), Succ(p)))
  {
    RebuildsOneMore(env, m, d, m1, p, r);
    RebuildStep(env, m1, ChainFrom(m, d), p, r);
  }

  /** Rebuilding any part of a chain on an idle machine succeeds. */
  lemma {:induction false} Rebuilds(env: Env, m: Machine, d: nat, m1: Machine, k: nat)
    requires Suspendable(env, m, d) && Idle(m1) && StackOk(m1) && SameLayout(m, m1)
    requires d + k <= |m.frames|
    ensures RebuildsAll(env, m, d, m1, k, Rebuild(env, m1, ChainFrom(m, d), k))
  {
    if k == 0 {
      RebuildsNone(env, m, d, m1);
    } else {
      var p: nat := k - 1;
      assert k == Succ(p);
      Rebuilds(env, m, d, m1, p);
      RebuildsSucc(env, m, d, m1, p, Rebuild(env, m1, ChainFrom(m, d), p));
    }
  }
}
