/** Suspending and resuming threads as the source does it (`src/vm/threads.rs`): vectors built by
    pushing, frames entered again one by one, bytes copied back in place. Each method is proved to be
    the function of module `Threads` it is named after. */
module ThreadRun {
  import opened Bytes
  import opened Program
  import opened Memory
  import opened Views
  import opened Machine
  import opened Step
  import opened Frames
  import opened Locals
  import opened Threads
  import opened CoreRun

  // ---- suspending ------------------------------------------------------------------------------

  /** Whether activation `k`'s function occurs earlier in the chain. */
  method SeenBefore(chain: seq<Activation>, k: nat) returns (seen: bool)
    requires k < |chain|
    ensures seen <==> Seen(chain, k)
  {
    for i := 0 to k
      invariant forall j :: 0 <= j < i ==> !(chain[j].prnum == chain[k].prnum && chain[j].func == chain[k].func)
    {
      if chain[i].prnum == chain[k].prnum && chain[i].func == chain[k].func { return true; }
    }
    return false;
  }

  /** The locals of the chain's functions, each function's once. */
  method TakeLocals(core: Core, env: Env, chain: seq<Activation>) returns (saved: Option<seq<Saved>>)
    ensures saved == CaptureLocals(env, core.s[..], chain, |chain|)
  {
    var locals: seq<Saved> := [];
    for k := 0 to |chain|
      invariant CaptureLocals(env, core.s[..], chain, k) == Some(locals)
    {
      var seen := SeenBefore(chain, k);
      if !seen {
        var f := FuncAt(env, chain[k].prnum, chain[k].func);
        if f.None? || f.value.localsAddr + 4 * f.value.localsWords > core.s.Length {
          NoMoreLocals(env, core.s[..], chain, k + 1, |chain|);
          return None;
        }
        locals := locals + [Saved(f.value.localsAddr, core.s[f.value.localsAddr..f.value.localsAddr + 4 * f.value.localsWords])];
      }
    }
    return Some(locals);
  }

  /** Once a function's locals cannot be captured, the chain cannot. */
  lemma {:induction false} NoMoreLocals(env: Env, s: seq<byte>, chain: seq<Activation>, k: nat, n: nat)
    requires k <= n <= |chain| && CaptureLocals(env, s, chain, k).None?
    ensures CaptureLocals(env, s, chain, n).None?
  {
    if k < n { NoMoreLocals(env, s, chain, k, n - 1); }
  }

  /** The activations above `d` frames. */
  method TakeChain(core: Core, d: nat) returns (chain: seq<Activation>)
    requires d < |core.frames|
    ensures chain == ChainFrom(core.Value(), d)
  {
    chain := [];
    for j := d + 1 to |core.frames|
      invariant |chain| == j - d - 1
      invariant forall i :: 0 <= i < |chain| ==> chain[i] == ActAt(core.Value(), d + 1 + i)
    {
      chain := chain + [OfFrame(core.frames[j])];
    }
    chain := chain + [OfExec(core.x)];
  }

  method TakeSelves(core: Core, at: seq<nat>) returns (selves: seq<SelfRef>)
    ensures selves == CaptureSelves(core.Memory(), at)
  {
    selves := [];
    for i := 0 to |at|
      invariant selves == CaptureSelves(core.Memory(), at)[..i]
    {
      var e := core.Get(Whole, at[i]);
      selves := selves + [SelfRef(at[i], e, SerialOf(core.Memory(), e))];
    }
  }

  /** Captures the QuakeC running above `d` frames. */
  method TakeSnapshot(core: Core, env: Env, d: nat, resume: (word, word, word), selfAt: seq<nat>)
    returns (thread: Option<Thread>)
    ensures thread == Snapshot(env, core.Value(), d, resume, selfAt)
  {
    if d >= |core.frames| { return None; }
    var chain := TakeChain(core, d);
    var start, end := StackAt(core.Memory(), core.frames[d].localsAt), StackEnd(core.Value());
    if start > end || end > core.s.Length { return None; }
    var locals := TakeLocals(core, env, chain);
    if locals.None? { return None; }
    var selves := TakeSelves(core, selfAt);
    return Some(Thread(chain, core.s[start..end], locals.value, resume, selves));
  }

  // ---- resuming --------------------------------------------------------------------------------

  /** Enters one activation of a chain. */
  method EnterActivation(core: Core, env: Env, a: Activation, pc: nat) returns (error: Option<ErrorKind>)
    requires core.Apart()
    modifies core, core.s
    ensures var r := EnterDressed(env, old(core.Value()), a, pc); core.Value() == r.m && error == r.error
  {
    error := core.EnterQc(env, a.prnum, a.func, pc);
    if error.None? {
      core.x := core.x.(pushed := a.pushed, switchRef := a.switchRef, switchKind := a.switchKind);
    }
  }

  /** Enters the activations of a chain, root first. */
  method EnterChain(core: Core, env: Env, chain: seq<Activation>) returns (error: Option<ErrorKind>, pc: nat)
    requires core.Apart()
    modifies core, core.s
    ensures var r := Rebuild(env, old(core.Value()), chain, |chain|); core.Value() == r.m && error == r.error
    ensures error.None? ==> pc == ResumePc(old(core.Value()), chain, |chain|)
  {
    pc := core.x.pc;
    for k := 0 to |chain|
      invariant Rebuild(env, old(core.Value()), chain, k) == EnterResult(core.Value(), None)
      invariant pc == ResumePc(old(core.Value()), chain, k)
    {
      error := EnterActivation(core, env, chain[k], pc);
      if error.Some? {
        ChainFails(env, old(core.Value()), chain, Succ(k), EnterResult(core.Value(), error));
        return;
      }
      pc := chain[k].pc;
    }
    error := None;
  }

  lemma ChainStops(env: Env, m: Machine, chain: seq<Activation>, k: nat, r: EnterResult)
    requires k < |chain| && r == Rebuild(env, m, chain, k) && r.error.Some?
    ensures Rebuild(env, m, chain, Succ(k)) == r
  {
  }

  /** Once an activation cannot be entered, the chain is left there. */
  lemma {:induction false} ChainFails(env: Env, m: Machine, chain: seq<Activation>, k: nat, r: EnterResult)
    requires k <= |chain| && r == Rebuild(env, m, chain, k) && r.error.Some?
    ensures Rebuild(env, m, chain, |chain|) == r
    decreases |chain| - k
  {
    if k < |chain| {
      ChainStops(env, m, chain, k, r);
      ChainFails(env, m, chain, Succ(k), r);
    }
  }

  /** Copies captured bytes back where they fit. */
  method PutBack(core: Core, at: nat, b: seq<byte>)
    modifies core.s
    ensures core.s[..] == if at + |b| <= core.s.Length then Splice(old(core.s[..]), at, b) else old(core.s[..])
  {
    if at + |b| <= core.s.Length { Fill(core.s, at, b); }
  }

  method PutLocalsBack(core: Core, saved: seq<Saved>)
    modifies core.s
    ensures core.s[..] == WriteBack(old(core.s[..]), saved, |saved|)
  {
    for k := 0 to |saved|
      invariant core.s[..] == WriteBack(old(core.s[..]), saved, k)
    {
      PutBack(core, saved[k].at, saved[k].bytes);
    }
  }

  method PutReturn(core: Core, at: nat, w: (word, word, word))
    modifies core.s
    ensures core.s[..] == WriteReturn(old(core.s[..]), at, w)
  {
    core.SetWord(Whole, at, w.0);
    core.SetWord(Whole, Nth(at, 1), w.1);
    core.SetWord(Whole, Nth(at, 2), w.2);
  }

  method PutSelves(core: Core, selves: seq<SelfRef>, ghost mem: Mem)
    requires mem.slots == core.slots
    modifies core.s
    ensures core.s[..] == WriteSelves(mem, old(core.s[..]), selves, |selves|)
  {
    for k := 0 to |selves|
      invariant core.s[..] == WriteSelves(mem, old(core.s[..]), selves, k)
    {
      var r := selves[k];
      var alive := r.ent < |core.slots| && core.slots[r.ent].inUse && core.slots[r.ent].serial == r.serial;
      core.SetWord(Whole, r.at, if alive then r.ent else 0);
    }
  }

  /** Puts what a thread captured back, its stack at `start`. */
  method Refill(core: Core, env: Env, t: Thread, start: nat)
    modifies core.s
    ensures core.s[..] == Refilled(env, old(core.Value()), t, start)
  {
    ghost var mem := core.Memory();
    PutBack(core, start, t.stack);
    PutLocalsBack(core, t.locals);
    PutReturn(core, ReturnSlot(env, core.x.prnum), t.resume);
    PutSelves(core, t.selves, mem);
  }

  /** Rebuilds a thread, ready to run; a chain that cannot be entered leaves no frame behind. */
  method ResumeThread(core: Core, env: Env, t: Thread) returns (error: Option<ErrorKind>)
    requires core.Apart()
    modifies core, core.s
    ensures var r := Resume(env, old(core.Value()), t); core.Value() == r.m && error == r.error
  {
    var d := |core.frames|;
    var pc: nat;
    error, pc := EnterChain(core, env, t.chain);
    if error.Some? {
      core.UnwindTo(env, d);
      return;
    }
    core.x := core.x.(pc := pc);
    var root := if d < |core.frames| then core.frames[d].localsAt else 0;
    Refill(core, env, t, StackAt(core.Memory(), root));
  }
}
