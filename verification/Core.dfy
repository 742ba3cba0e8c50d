/** The VM core as the source has it: arrays and registers updated in place, step by step
    (`src/vm/core.rs`, `src/vm/interp.rs`). Every method is proved to be the function of the same
    name on machine values, so what is proved of those runs holds of these. */
module CoreRun {
  import opened Bytes
  import opened Program
  import opened Memory
  import opened Views
  import opened Machine
  import opened Effects
  import opened Step
  import opened Interp
  import L = Loop
  import Loader

  /** Writes `b` over the bytes at `o`, one by one. */
  method Fill(a: array<byte>, o: nat, b: seq<byte>)
    requires o + |b| <= a.Length
    modifies a
    ensures a[..] == Splice(old(a[..]), o, b)
  {
    for k := 0 to |b|
      invariant forall j :: 0 <= j < a.Length ==> a[j] == if o <= j < o + k then b[j - o] else old(a[j])
    {
      a[o + k] := b[k];
    }
  }

  /** What one statement did to the machine: where it leads, and the budget it left. */
  datatype Taken = NoBudget | On(left: nat) | Off(exit: Exit, left: nat)

  /** The budget after a step that is counted or not. */
  function Charged(ticks: bool, budget: nat): nat { if ticks && budget > 0 then budget - 1 else budget }

  /** Taking step `r` with `budget` left leads to `m`. */
  ghost predicate TookTo(r: Result, taken: Taken, budget: nat, m: Machine) {
    match taken
    case NoBudget => r.ticks && budget <= 1 && m == r.blocked
    case On(left) => !(r.ticks && budget <= 1) && r.out == L.Go(m) && left == Charged(r.ticks, budget)
    case Off(exit, left) => !(r.ticks && budget <= 1) && r.out == L.Stop(exit, m) && left == Charged(r.ticks, budget)
  }

  /** A step taken is one turn of the run. */
  lemma TurnOfRun(env: Env, v: View, d: nat, m: Machine, budget: nat, taken: Taken, m': Machine)
    requires L.Sound(StepsOf(env, v, d)) && RunOk(env, v, m, d)
    requires TookTo(StepOf(env, v, m, d), taken, budget, m')
    ensures taken.NoBudget? ==> L.Run(StepsOf(env, v, d), m, budget) == L.Spent(m')
    ensures taken.Off? ==> L.Run(StepsOf(env, v, d), m, budget) == L.Exited(taken.exit, m', taken.left)
    ensures taken.On? ==>
              && RunOk(env, v, m', d)
              && L.Run(StepsOf(env, v, d), m, budget) == L.Run(StepsOf(env, v, d), m', taken.left)
              && (taken.left < budget || (taken.left == budget && RankOf(env, m') < RankOf(env, m)))
  {
    L.RunUnfolds(StepsOf(env, v, d), m, budget);
  }

  /** A function may be entered when its locals fit on the local stack, and both lie in region S. */
  predicate LocalsFit(m: Machine, f: QcFunc, lsTop: nat) {
    && lsTop < U32 && lsTop + f.localsWords < U32 && lsTop + f.localsWords <= m.mem.lsWords
    && f.localsAddr + 4 * f.localsWords <= |m.mem.s| && StackAt(m.mem, lsTop) + 4 * f.localsWords <= |m.mem.s|
  }

  lemma EntryRefused(m: Machine, f: QcFunc, prnum: nat, index: nat, resumePc: nat, lsTop: nat)
    requires lsTop == m.x.lsTop + m.x.pushed && !LocalsFit(m, f, lsTop)
    ensures EnterFunc(m, f, prnum, index, resumePc) == EnterResult(m, Some(LocalStack))
  {
  }

  lemma EntryMade(m: Machine, f: QcFunc, prnum: nat, index: nat, resumePc: nat, lsTop: nat, s: seq<byte>)
    requires lsTop == m.x.lsTop + m.x.pushed && LocalsFit(m, f, lsTop)
    requires s == CopyParams(Move(m.mem.s, f.localsAddr, StackAt(m.mem, lsTop), 4 * f.localsWords), f.copies, |f.copies|)
    ensures |s| == |m.mem.s|
    ensures EnterFunc(m, f, prnum, index, resumePc)
            == EnterResult(WithS(m, s).(
                 frames := m.frames + [Frame(resumePc, m.x.func, m.x.prnum, m.x.pushed, m.x.switchRef, m.x.switchKind,
                                             lsTop, m.x.localsAddr, m.x.localsWords)],
                 x := Exec(f.entry, index, prnum, 0, lsTop + f.localsWords, 0, SwFloat, f.localsAddr, f.localsWords)), None)
  {
  }

  class Core {
    const s: array<byte>
    const e: array<byte>
    const h: array<byte>
    const eBase: nat
    const stride: nat
    const fieldBytes: nat
    const maxEdicts: nat
    const slots: seq<EntSlot>
    const hMax: nat
    const hBase: nat
    const lsBase: nat
    const lsWords: nat
    var str: StrTab
    var frames: seq<Frame>
    var x: Exec
    var argc: nat

    /** Every machine is the value of some core. */
    constructor (m: Machine)
      ensures Apart() && Value() == m && fresh(s) && fresh(e) && fresh(h)
    {
      s := new byte[|m.mem.s|](i requires 0 <= i < |m.mem.s| => m.mem.s[i]);
      e := new byte[|m.mem.e|](i requires 0 <= i < |m.mem.e| => m.mem.e[i]);
      h := new byte[|m.mem.h|](i requires 0 <= i < |m.mem.h| => m.mem.h[i]);
      eBase, stride, fieldBytes := m.mem.eBase, m.mem.stride, m.mem.fieldBytes;
      maxEdicts, slots := m.mem.maxEdicts, m.mem.slots;
      hMax, hBase, lsBase, lsWords := m.mem.hMax, m.mem.hBase, m.mem.lsBase, m.mem.lsWords;
      str, frames, x, argc := m.str, m.frames, m.x, m.argc;
      new;
      assert s[..] == m.mem.s && e[..] == m.mem.e && h[..] == m.mem.h;
    }

    predicate Apart() { s != e && s != h && e != h }

    function Memory(): (m: Mem)
      reads s, e, h
    {
      Mem(s[..], e[..], eBase, stride, fieldBytes, maxEdicts, slots, h[..], hMax, hBase, lsBase, lsWords)
    }

    /** The machine this core holds. */
    function Value(): (m: Machine)
      reads this, s, e, h
    {
      Machine(Memory(), str, frames, x, argc)
    }

    // ---- words ---------------------------------------------------------------------------------

    function Get(v: View, o: nat): (w: word)
      requires HasView(v, s[..])
      reads s
      ensures w == G(v, s[..], o)
    {
      var at, n := Eff(v, o), if v.Whole? then s.Length else WINDOW;
      if at + 4 <= n then WordAt(s[at..at + 4], 0) else 0
    }

    method SetWord(v: View, o: nat, w: word)
      requires HasView(v, s[..])
      modifies s
      ensures s[..] == Set(v, old(s[..]), o, w)
    {
      if Eff(v, o) + 4 <= Span(v, s[..]) { Fill(s, Eff(v, o), BytesOf(w)); }
    }

    method CopyWords(v: View, src: nat, dst: nat, words: nat)
      requires HasView(v, s[..])
      modifies s
      ensures s[..] == Copy(v, old(s[..]), src, dst, words)
    {
      for k := 0 to words
        invariant s[..] == Copy(v, old(s[..]), src, dst, k)
      {
        SetWord(v, Nth(dst, k), Get(v, Nth(src, k)));
      }
    }

    method PutWords(v: View, o: nat, b: seq<byte>, words: nat)
      requires HasView(v, s[..]) && 4 * words <= |b|
      modifies s
      ensures s[..] == Scatter(v, old(s[..]), o, b, words)
    {
      for k := 0 to words
        invariant s[..] == Scatter(v, old(s[..]), o, b, k)
      {
        SetWord(v, Nth(o, k), WordAt(b, 4 * k));
      }
    }

    method ClearWords(v: View, o: nat, words: nat)
      requires HasView(v, s[..])
      modifies s
      ensures s[..] == ZeroWords(v, old(s[..]), o, words)
    {
      for k := 0 to words
        invariant s[..] == ZeroWords(v, old(s[..]), o, k)
      {
        SetWord(v, Nth(o, k), 0);
      }
    }

    method TakeWords(v: View, o: nat, words: nat) returns (b: seq<byte>)
      requires HasView(v, s[..])
      ensures b == Gather(v, s[..], o, words)
    {
      b := [];
      for k := 0 to words
        invariant b == Gather(v, s[..], o, k)
      {
        b := b + BytesOf(Get(v, Nth(o, k)));
      }
    }

    // ---- entering and leaving functions --------------------------------------------------------

    method MoveBytes(src: nat, dst: nat, len: nat) returns (moved: bool)
      modifies s
      ensures s[..] == Move(old(s[..]), src, dst, len)
      ensures moved <==> src + len <= s.Length && dst + len <= s.Length
    {
      moved := src + len <= s.Length && dst + len <= s.Length;
      if moved { Fill(s, dst, s[src..src + len]); }
    }

    method CopySharedGlobals(a: ProgsState, b: ProgsState)
      modifies s
      ensures s[..] == SharedBetween(old(s[..]), a, b)
    {
      var n := if |a.shared| < |b.shared| then |a.shared| else |b.shared|;
      for k := 0 to n
        invariant s[..] == CopyShared(old(s[..]), a.shared, b.shared, k)
      {
        match (a.shared[k], b.shared[k])
        case (Some(p), Some(q)) => CopyWords(Whole, p.offset, q.offset, if p.words < q.words then p.words else q.words);
        case _ =>
      }
    }

    method SwitchProgsIn(env: Env, from: nat, to: nat)
      modifies s
      ensures s[..] == SwitchIn(env, old(s[..]), from, to)
    {
      if from < |env.progs| && to < |env.progs| {
        var a, b := env.progs[from], env.progs[to];
        CopyWords(Whole, SlotAt(a.gbase, OFS_PARM0), SlotAt(b.gbase, OFS_PARM0), PARM_WORDS);
        CopySharedGlobals(a, b);
      }
    }

    method SwitchProgsOut(env: Env, from: nat, to: nat)
      modifies s
      ensures s[..] == SwitchOut(env, old(s[..]), from, to)
    {
      if from < |env.progs| && to < |env.progs| {
        var a, b := env.progs[from], env.progs[to];
        CopyWords(Whole, SlotAt(a.gbase, OFS_RETURN), SlotAt(b.gbase, OFS_RETURN), 3);
        CopySharedGlobals(a, b);
      }
    }

    method CopyParameters(copies: seq<ParamCopy>)
      modifies s
      ensures s[..] == CopyParams(old(s[..]), copies, |copies|)
    {
      for k := 0 to |copies|
        invariant s[..] == CopyParams(old(s[..]), copies, k)
      {
        SetWord(Whole, copies[k].dst, Get(Whole, copies[k].src));
      }
    }

    /** Saves the callee's locals at local-stack word `lsTop` and copies its parameters. */
    method SaveLocals(f: QcFunc, lsTop: nat) returns (saved: bool)
      requires Apart()
      modifies s
      ensures var m := old(Value());
        && (saved <==> f.localsAddr + 4 * f.localsWords <= |m.mem.s| && StackAt(m.mem, lsTop) + 4 * f.localsWords <= |m.mem.s|)
        && Value() == if !saved then m
                      else WithS(m, CopyParams(Move(m.mem.s, f.localsAddr, StackAt(m.mem, lsTop), 4 * f.localsWords), f.copies, |f.copies|))
    {
      saved := MoveBytes(f.localsAddr, StackAt(Memory(), lsTop), 4 * f.localsWords);
      if saved { CopyParameters(f.copies); }
    }

    /** Saves the callee's locals, copies its parameters and pushes its caller. */
    method PushContext(f: QcFunc, prnum: nat, index: nat, resumePc: nat) returns (error: Option<ErrorKind>)
      requires Apart()
      modifies this, s
      ensures var r := EnterFunc(old(Value()), f, prnum, index, resumePc); Value() == r.m && error == r.error
    {
      ghost var m := Value();
      var lsTop := x.lsTop + x.pushed;
      var newTop := lsTop + f.localsWords;
      if lsTop >= U32 || newTop >= U32 || newTop > lsWords {
        EntryRefused(m, f, prnum, index, resumePc, lsTop);
        return Some(LocalStack);
      }
      var saved := SaveLocals(f, lsTop);
      if !saved {
        EntryRefused(m, f, prnum, index, resumePc, lsTop);
        return Some(LocalStack);
      }
      EntryMade(m, f, prnum, index, resumePc, lsTop, s[..]);
      PushFrame(Frame(resumePc, x.func, x.prnum, x.pushed, x.switchRef, x.switchKind, lsTop, x.localsAddr, x.localsWords),
                Exec(f.entry, index, prnum, 0, newTop, 0, SwFloat, f.localsAddr, f.localsWords));
      return None;
    }

    method PushFrame(frame: Frame, callee: Exec)
      modifies this`frames, this`x
      ensures Value() == old(Value()).(frames := old(frames) + [frame], x := callee)
    {
      frames := frames + [frame];
      x := callee;
    }

    method EnterQc(env: Env, prnum: nat, index: nat, resumePc: nat) returns (error: Option<ErrorKind>)
      requires Apart()
      modifies this, s
      ensures var r := Enter(env, old(Value()), prnum, index, resumePc); Value() == r.m && error == r.error
    {
      if |frames| >= env.callDepth { return Some(CallDepth); }
      if prnum != x.prnum && |env.progs| > 1 { SwitchProgsIn(env, x.prnum, prnum); }
      match FuncAt(env, prnum, index)
      case None => error := Some(InvalidFunction);
      case Some(f) => error := PushContext(f, prnum, index, resumePc);
    }

    method LeaveQc(env: Env)
      requires Apart()
      modifies this, s
      ensures Value() == Leave(env, old(Value()))
    {
      var calleePrnum := x.prnum;
      var top := SatSub(x.lsTop, x.localsWords);
      var moved := MoveBytes(StackAt(Memory(), top), x.localsAddr, 4 * x.localsWords);
      x := x.(lsTop := top);
      if frames != [] {
        var f := frames[|frames| - 1];
        frames := frames[..|frames| - 1];
        x := x.(lsTop := SatSub(x.lsTop, f.pushed), pc := f.resumePc, func := f.func, prnum := f.prnum,
                pushed := f.pushed, localsAddr := f.localsAddr, localsWords := f.localsWords);
        if env.switchReset {
          x := x.(switchRef := 0, switchKind := SwFloat);
        } else {
          x := x.(switchRef := f.switchRef, switchKind := f.switchKind);
        }
        if f.prnum != calleePrnum { SwitchProgsOut(env, calleePrnum, f.prnum); }
      }
    }

    method UnwindTo(env: Env, depth: nat)
      requires Apart()
      modifies this, s
      ensures Value() == Unwind(env, old(Value()), depth)
    {
      while |frames| > depth
        invariant Unwind(env, Value(), depth) == Unwind(env, old(Value()), depth)
        decreases |frames|
      {
        LeaveQc(env);
      }
    }

    // ---- straight-line opcodes -----------------------------------------------------------------

    /** The core did what `effect` says: it holds that machine, or raised that fault and holds what it
        held `before`. */
    ghost predicate Did(effect: Effect, before: Machine, error: Option<ErrorKind>)
      reads this, s, e, h
    {
      match effect
      case Done(m) => error.None? && Value() == m
      case Fault(kind) => error == Some(kind) && Value() == before
    }

    method Alu(env: Env, v: View, n: nat, a: nat, b: nat, c: nat)
      requires HasView(v, s[..])
      modifies s
      ensures s[..] == AluStep(env, v, old(s[..]), n, a, b, c)
    {
      SetWord(v, c, env.word2(n, Get(v, a), Get(v, b)));
    }

    method AluOfVectors(env: Env, v: View, n: nat, a: nat, b: nat, c: nat)
      requires HasView(v, s[..])
      modifies s
      ensures s[..] == AluVectorStep(env, v, old(s[..]), n, a, b, c)
    {
      Alu(env, v, n, a, b, c);
      Alu(env, v, n, Nth(a, 1), Nth(b, 1), Nth(c, 1));
      Alu(env, v, n, Nth(a, 2), Nth(b, 2), Nth(c, 2));
    }

    function GetVec(v: View, o: nat): (p: Vec)
      requires HasView(v, s[..])
      reads s
      ensures p == VecAt(v, s[..], o)
    {
      Vec(Get(v, o), Get(v, Nth(o, 1)), Get(v, Nth(o, 2)))
    }

    method WordOfVectors(env: Env, v: View, n: nat, a: nat, b: nat, c: nat)
      requires HasView(v, s[..])
      modifies s
      ensures s[..] == VectorWordStep(env, v, old(s[..]), n, a, b, c)
    {
      SetWord(v, c, OfVectors(env, n, GetVec(v, a), GetVec(v, b)));
    }

    method ScaleWord(env: Env, v: View, n: nat, f: word, o: nat, c: nat)
      requires HasView(v, s[..])
      modifies s
      ensures s[..] == ScaledStep(env, v, old(s[..]), n, f, o, c)
    {
      SetWord(v, c, ScaledWord(env, n, Get(v, o), f));
    }

    method ScaleVector(env: Env, v: View, n: nat, a: nat, b: nat, c: nat)
      requires HasView(v, s[..])
      modifies s
      ensures s[..] == ScaleStep(env, v, old(s[..]), n, a, b, c)
    {
      var f, o := Get(v, if n == 3 then a else b), if n == 3 then b else a;
      ScaleWord(env, v, n, f, o, c);
      ScaleWord(env, v, n, f, Nth(o, 1), Nth(c, 1));
      ScaleWord(env, v, n, f, Nth(o, 2), Nth(c, 2));
    }

    method LoadFieldWords(v: View, words: nat, ent: word, f: word, oc: nat)
      requires Apart() && HasView(v, s[..])
      modifies s
      ensures Value() == LoadFieldEffect(v, old(Value()), words, ent, f, oc)
    {
      var field := EntField(Memory(), ent, f, 4 * words);
      match field
      case Some(b) => PutWords(v, oc, b, words);
      case None => ClearWords(Whole, oc, if ent < |slots| then 1 else words);
    }

    method AddressOfField(v: View, ent: word, f: word, oc: nat)
      requires Apart() && HasView(v, s[..])
      modifies s
      ensures Value() == AddressEffect(v, old(Value()), ent, f, oc)
    {
      if ent < |slots| {
        if slots[ent].prot {
          SetWord(Whole, oc, U32_MAX);
        } else {
          SetWord(v, oc, FieldPointer(Memory(), ent, f));
        }
      }
    }

    method AddressOf(v: View, oa: nat, ob: nat, oc: nat)
      requires Apart() && HasView(v, s[..])
      modifies s
      ensures var m := old(Value()); Value() == AddressEffect(v, m, G(v, m.mem.s, oa), G(v, m.mem.s, ob), oc)
    {
      AddressOfField(v, Get(v, oa), Get(v, ob), oc);
    }

    /** `STOREF_*` in the inner loop; it does nothing when it does not apply. */
    method StoreFieldFast(v: View, words: nat, oa: nat, ob: nat, oc: nat) returns (stored: bool)
      requires Apart() && HasView(v, s[..])
      modifies e
      ensures match StoreFieldView(v, old(Memory()), words, oa, ob, oc)
              case Some(m) => stored && Memory() == m
              case None => !stored && Memory() == old(Memory())
    {
      var ent: nat, f: nat := Get(v, oa), Get(v, ob);
      var within := 4 * f;
      if within + 4 * words > fieldBytes || ent >= |slots| || slots[ent].prot { return false; }
      ghost var m := Memory();
      var b := TakeWords(v, oc, words);
      var off := Times(ent, stride) + within;
      assert StoreFieldView(v, m, words, oa, ob, oc) ==
             if off + |b| <= |m.e| then Some(m.(e := Splice(m.e, off, b))) else None;
      stored := FillEntity(off, b);
    }

    /** Writes bytes of the entity region, if they all lie in it. */
    method FillEntity(off: nat, b: seq<byte>) returns (stored: bool)
      requires Apart()
      modifies e
      ensures stored <==> off + |b| <= |old(Memory()).e|
      ensures Memory() == if stored then old(Memory()).(e := Splice(old(Memory()).e, off, b)) else old(Memory())
    {
      stored := off + |b| <= e.Length;
      if stored { Fill(e, off, b); }
    }

    method PutEntityWords(o: nat, oc: nat, words: nat)
      requires Apart()
      modifies e
      ensures Memory() == PutEntWords(old(Memory()), o, oc, words)
    {
      for k := 0 to words
        invariant Memory() == PutEntWords(old(Memory()), o, oc, k)
      {
        var at := Nth(o, k);
        if at + 4 <= e.Length { Fill(e, at, BytesOf(Get(Whole, Nth(oc, k)))); }
      }
    }

    method StoreFieldWords(v: View, words: nat, oa: nat, ob: nat, oc: nat)
      requires Apart() && HasView(v, s[..])
      modifies e
      ensures Value() == StoreFieldEffect(v, old(Value()), words, oa, ob, oc)
    {
      var stored := StoreFieldFast(v, words, oa, ob, oc);
      if !stored {
        var ent, f := Get(Whole, oa), Get(Whole, ob);
        match FieldOffset(Memory(), ent, f, words)
        case Some(o) => if !slots[ent].prot { PutEntityWords(o, oc, words); }
        case None =>
      }
    }

    /** Writes a checked location, whichever region it is in. */
    method PutBytes(p: word, b: seq<byte>)
      requires Apart() && Memory().Valid() && CheckWrite(Memory(), p, |b|).Writable?
      modifies s, e, h
      ensures Memory() == Put(old(Memory()), p, b)
    {
      match CheckWrite(Memory(), p, |b|).loc
      case InS(o) => Fill(s, o, b);
      case InE(o, ent) => EntAccess(Memory(), p, |b|); Fill(e, o, b);
      case InH(o) => Fill(h, o, b);
    }

    /** Writes through a pointer in the inner loop; it does nothing when it does not apply. */
    method WriteFast(v: View, p: word, b: seq<byte>) returns (wrote: bool)
      requires Apart() && HasView(v, s[..]) && stride > 0
      modifies s, e
      ensures match PtrWriteView(v, old(Memory()), p, b)
              case Some(m) => wrote && Memory() == m
              case None => !wrote && Memory() == old(Memory())
    {
      if InView(v, s[..], p, |b|) {
        wrote := p != 0;
        if wrote { Fill(s, p, b); }
        return;
      }
      match EntTarget(Memory(), p, |b|)
      case Some((off, prot)) =>
        wrote := !prot && off + |b| <= e.Length;
        if wrote { Fill(e, off, b); }
      case None => wrote := false;
    }

    /** Writes into a temp string, growing it. */
    method WriteTemp(env: Env, slot: nat, offset: nat, b: seq<byte>) returns (error: Option<ErrorKind>)
      modifies this`str
      ensures match GrowTemp(old(str), slot, offset + |b|, env.maxTempBytes)
              case None => error == Some(BadPointerWrite) && str == old(str)
              case Some(grown) =>
                error.None? && str == grown.(temps := grown.temps[slot := Some(Splice(grown.temps[slot].value, offset, b))])
    {
      match GrowTemp(str, slot, offset + |b|, env.maxTempBytes)
      case None => error := Some(BadPointerWrite);
      case Some(grown) =>
        str := grown.(temps := grown.temps[slot := Some(Splice(grown.temps[slot].value, offset, b))]);
        error := None;
    }

    /** Writes through a pointer, checked: memory, or a temp string, which grows. */
    method WriteSlow(env: Env, base: word, idx: word, b: seq<byte>) returns (error: Option<ErrorKind>)
      requires Apart() && Memory().Valid()
      modifies this`str, s, e, h
      ensures Did(StorePtrSlow(env, old(Value()), base, idx, b), old(Value()), error)
    {
      var offset := Scaled(idx);
      var addr := Wrap(base + offset);
      match CheckWrite(Memory(), addr, |b|)
      case Writable(_) => PutBytes(addr, b); error := None;
      case Refused(Protected(_)) => error := None;
      case Refused(err) =>
        if addr == U32_MAX {
          error := None;
        } else if base / TAG == 2 {
          error := WriteTemp(env, base % TAG, offset, b);
        } else {
          error := Some(if err.NullWrite? then NullPointerWrite else BadPointerWrite);
        }
    }

    method StoreThroughPointer(env: Env, v: View, words: nat, oa: nat, ob: nat, oc: nat) returns (error: Option<ErrorKind>)
      requires Apart() && Memory().Valid() && HasView(v, s[..])
      modifies this, s, e, h
      ensures Did(StorePtrEffect(env, v, old(Value()), words, oa, ob, oc), old(Value()), error)
    {
      var base, idx := Get(v, ob), Get(v, oc);
      var b := TakeWords(v, oa, words);
      var wrote := WriteFast(v, Indexed(base, idx), b);
      if wrote { return None; }
      error := WriteSlow(env, base, idx, b);
    }

    method LoadThroughPointer(v: View, words: nat, oa: nat, ob: nat, oc: nat) returns (error: Option<ErrorKind>)
      requires Apart() && Memory().Valid() && HasView(v, s[..])
      modifies s
      ensures Did(LoadPtrEffect(v, old(Value()), words, oa, ob, oc), old(Value()), error)
    {
      var base, idx := Get(v, oa), Get(v, ob);
      match PtrReadView(v, Memory(), Indexed(base, idx), 4 * words)
      case Some(b) => PutWords(v, oc, b, words); error := None;
      case None =>
        match PtrRead(Value(), base, Scaled(idx), 4 * words)
        case Got(b) => PutWords(Whole, oc, b, words); error := None;
        case ReadFault => error := Some(BadPointerRead);
    }

    /** `*STOREP_F` in the inner loop; it does nothing when it does not apply. */
    method CompoundFast(env: Env, v: View, n: nat, oa: nat, ob: nat, oc: nat) returns (stored: bool)
      requires Apart() && HasView(v, s[..]) && stride > 0
      modifies s, e
      ensures match CompoundView(env, v, old(Memory()), n, oa, ob, oc)
              case Some(m) => stored && Memory() == m
              case None => !stored && Memory() == old(Memory())
    {
      var p, a := Get(v, ob), Get(v, oa);
      if InView(v, s[..], p, 4) {
        stored := p != 0;
        if stored {
          var w := env.word2(n, WordAt(s[..], p), a);
          Fill(s, p, BytesOf(w));
          SetWord(v, oc, w);
        }
        return;
      }
      match EntTarget(Memory(), p, 4)
      case Some((off, prot)) =>
        stored := !prot && off + 4 <= e.Length;
        if stored {
          var w := env.word2(n, WordAt(e[..], off), a);
          Fill(e, off, BytesOf(w));
          SetWord(v, oc, w);
        }
      case None => stored := false;
    }

    method CompoundChecked(env: Env, n: nat, oa: nat, ob: nat, oc: nat) returns (error: Option<ErrorKind>)
      requires Apart() && Memory().Valid()
      modifies s, e, h
      ensures Did(CompoundEffectSlow(env, old(Value()), n, oa, ob, oc), old(Value()), error)
    {
      var p := Get(Whole, ob);
      match CheckWrite(Memory(), p, 4)
      case Refused(Protected(_)) => error := None;
      case Refused(NullWrite) => error := Some(NullPointerWrite);
      case Refused(Invalid) => error := Some(BadPointerWrite);
      case Writable(_) =>
        var b := Read(Memory(), p, 4);
        var w := env.word2(n, if b.Some? then WordAt(b.value, 0) else 0, Get(Whole, oa));
        PutBytes(p, BytesOf(w));
        SetWord(Whole, oc, w);
        error := None;
    }

    method CompoundStore(env: Env, v: View, n: nat, oa: nat, ob: nat, oc: nat) returns (error: Option<ErrorKind>)
      requires Apart() && Memory().Valid() && HasView(v, s[..])
      modifies s, e, h
      ensures Did(CompoundEffect(env, v, old(Value()), n, oa, ob, oc), old(Value()), error)
    {
      var stored := CompoundFast(env, v, n, oa, ob, oc);
      if stored { return None; }
      error := CompoundChecked(env, n, oa, ob, oc);
    }

    method FetchFromArray(env: Env, gbase: word, words: nat, base: word, ob: nat, oc: nat) returns (error: Option<ErrorKind>)
      requires Apart()
      modifies s
      ensures Did(FetchGlobalEffect(env, old(Value()), gbase, words, base, ob, oc), old(Value()), error)
    {
      var i := env.floatToInt(Get(Whole, ob));
      if base == 0 { return Some(ArrayIndex); }
      if i > Get(Whole, gbase + 4 * (base - 1)) { return Some(ArrayIndex); }
      CopyWords(Whole, gbase + 4 * Wrap(base + Wrap(i * words)), oc, words);
      return None;
    }

    method LoadGlobalAt(v: View, ps: ProgsState, words: nat, i: int, oc: nat) returns (error: Option<ErrorKind>)
      requires Apart() && HasView(v, s[..])
      modifies s
      ensures Did(GLoadEffect(v, old(Value()), ps, words, i, oc), old(Value()), error)
    {
      if !IndexOk(i, words, ps.numGlobals) { return Some(ArrayIndex); }
      CopyWords(v, GlobalAt(ps, i), oc, words);
      return None;
    }

    method StoreGlobalAt(v: View, ps: ProgsState, words: nat, i: int, oa: nat) returns (error: Option<ErrorKind>)
      requires Apart() && HasView(v, s[..])
      modifies s
      ensures Did(GStoreEffect(v, old(Value()), ps, words, i, oa), old(Value()), error)
    {
      if !IndexOk(i, words, ps.numGlobals) { return Some(ArrayIndex); }
      CopyWords(v, oa, GlobalAt(ps, i), words);
      return None;
    }

    method PushMemory(v: View, oa: nat, oc: nat) returns (error: Option<ErrorKind>)
      requires Apart() && Memory().Valid() && HasView(v, s[..])
      modifies this, s
      ensures Did(PushEffect(v, old(Value()), oa, oc), old(Value()), error)
    {
      var addr := PushedAt(lsBase, x.lsTop + x.pushed);
      var pushed := SatAdd(x.pushed, Get(v, oa));
      if SatAdd(x.lsTop, pushed) >= lsWords { return Some(PushedTooMuch); }
      PushWords(oc, addr, pushed);
      return None;
    }

    /** Stores where the pushed words start, and counts them. */
    method PushWords(oc: nat, addr: word, pushed: nat)
      requires Apart()
      modifies this`x, s
      ensures Value() == WithS(old(Value()), Set(Whole, old(Memory()).s, oc, addr)).(x := old(x).(pushed := pushed))
    {
      SetWord(Whole, oc, addr);
      x := x.(pushed := pushed);
    }

    method Compute(env: Env, v: View, ps: ProgsState, st: Stmt)
      requires Apart() && Memory().Valid() && HasView(v, s[..]) && Computes(st.op)
      modifies s
      ensures Did(Straight(env, v, old(Value()), ps, st), old(Value()), None)
    {
      match st.op
      case AluWord(n) => Alu(env, v, n, st.a, st.b, st.c);
      case AluVector(n) => AluOfVectors(env, v, n, st.a, st.b, st.c);
      case VectorWord(n) => WordOfVectors(env, v, n, st.a, st.b, st.c);
      case Scale(n) => ScaleVector(env, v, n, st.a, st.b, st.c);
      case CompareStrings(n) =>
        SetWord(Whole, st.c, CompareStringsResult(env, Value(), n, Get(v, st.a), Get(v, st.b)));
      case NotString => SetWord(Whole, st.c, NotStringResult(Value(), Get(v, st.a)));
    }

    method CopyGlobal(v: View, words: nat, oa: nat, ob: nat)
      requires Apart() && HasView(v, s[..])
      modifies s
      ensures Value() == WithS(old(Value()), Copy(v, old(Memory()).s, oa, ob, words))
    {
      CopyWords(v, oa, ob, words);
    }

    method AddressOfGlobal(v: View, gbase: word, oa: nat, ob: nat, oc: nat)
      requires Apart() && HasView(v, s[..]) && oa < U32
      modifies s
      ensures Value() == WithS(old(Value()), Set(v, old(Memory()).s, oc, GlobalPointer(gbase, oa, G(v, old(Memory()).s, ob))))
    {
      SetWord(v, oc, GlobalPointer(gbase, oa, Get(v, ob)));
    }

    method RunLoadField(env: Env, v: View, ps: ProgsState, st: Stmt)
      requires Apart() && Memory().Valid() && HasView(v, s[..]) && st.op.LoadField?
      modifies s
      ensures Did(Straight(env, v, old(Value()), ps, st), old(Value()), None)
    {
      LoadFieldWords(v, st.op.words, Get(v, st.a), Get(v, st.b), st.c);
    }

    method RunAddress(env: Env, v: View, ps: ProgsState, st: Stmt)
      requires Apart() && Memory().Valid() && HasView(v, s[..]) && st.op.Address?
      modifies s
      ensures Did(Straight(env, v, old(Value()), ps, st), old(Value()), None)
    {
      AddressOf(v, st.a, st.b, st.c);
    }

    method RunStoreField(env: Env, v: View, ps: ProgsState, st: Stmt)
      requires Apart() && Memory().Valid() && HasView(v, s[..]) && st.op.StoreField?
      modifies e
      ensures Did(Straight(env, v, old(Value()), ps, st), old(Value()), None)
    {
      StoreFieldWords(v, st.op.words, st.a, st.b, st.c);
    }

    method RunStorePtr(env: Env, v: View, ps: ProgsState, st: Stmt) returns (error: Option<ErrorKind>)
      requires Apart() && Memory().Valid() && HasView(v, s[..]) && st.op.StorePtr?
      modifies this, s, e, h
      ensures Did(Straight(env, v, old(Value()), ps, st), old(Value()), error)
    {
      error := StoreThroughPointer(env, v, st.op.words, st.a, st.b, st.c);
    }

    method RunLoadPtr(env: Env, v: View, ps: ProgsState, st: Stmt) returns (error: Option<ErrorKind>)
      requires Apart() && Memory().Valid() && HasView(v, s[..]) && st.op.LoadPtr?
      modifies s
      ensures Did(Straight(env, v, old(Value()), ps, st), old(Value()), error)
    {
      error := LoadThroughPointer(v, st.op.words, st.a, st.b, st.c);
    }

    method RunCompound(env: Env, v: View, ps: ProgsState, st: Stmt) returns (error: Option<ErrorKind>)
      requires Apart() && Memory().Valid() && HasView(v, s[..]) && st.op.CompoundStorePtr?
      modifies s, e, h
      ensures Did(Straight(env, v, old(Value()), ps, st), old(Value()), error)
    {
      error := CompoundStore(env, v, st.op.n, st.a, st.b, st.c);
    }

    method RunStoreGlobal(env: Env, v: View, ps: ProgsState, st: Stmt)
      requires Apart() && Memory().Valid() && HasView(v, s[..]) && st.op.StoreGlobal?
      modifies s
      ensures Did(Straight(env, v, old(Value()), ps, st), old(Value()), None)
    {
      CopyGlobal(v, st.op.words, st.a, st.b);
    }

    method RunGlobalAddress(env: Env, v: View, ps: ProgsState, st: Stmt)
      requires Apart() && Memory().Valid() && HasView(v, s[..]) && st.op.GlobalAddress?
      modifies s
      ensures Did(Straight(env, v, old(Value()), ps, st), old(Value()), None)
    {
      AddressOfGlobal(v, ps.gbase, st.a, st.b, st.c);
    }

    method RunFetchGlobal(env: Env, v: View, ps: ProgsState, st: Stmt) returns (error: Option<ErrorKind>)
      requires Apart() && Memory().Valid() && HasView(v, s[..]) && st.op.FetchGlobal?
      modifies s
      ensures Did(Straight(env, v, old(Value()), ps, st), old(Value()), error)
    {
      error := FetchFromArray(env, ps.gbase, st.op.words, st.a, st.b, st.c);
    }

    method RunLoadArray(env: Env, v: View, ps: ProgsState, st: Stmt) returns (error: Option<ErrorKind>)
      requires Apart() && Memory().Valid() && HasView(v, s[..]) && st.op.LoadArray?
      modifies s
      ensures Did(Straight(env, v, old(Value()), ps, st), old(Value()), error)
    {
      error := LoadGlobalAt(v, ps, st.op.words, IndexFrom(st.a, Get(v, st.b)), st.c);
    }

    method RunGLoad(env: Env, v: View, ps: ProgsState, st: Stmt) returns (error: Option<ErrorKind>)
      requires Apart() && Memory().Valid() && HasView(v, s[..]) && st.op.GLoad?
      modifies s
      ensures Did(Straight(env, v, old(Value()), ps, st), old(Value()), error)
    {
      error := LoadGlobalAt(v, ps, st.op.words, IndexFrom(0, Get(v, st.a)), st.c);
    }

    method RunGStore(env: Env, v: View, ps: ProgsState, st: Stmt) returns (error: Option<ErrorKind>)
      requires Apart() && Memory().Valid() && HasView(v, s[..]) && st.op.GStore?
      modifies s
      ensures Did(Straight(env, v, old(Value()), ps, st), old(Value()), error)
    {
      error := StoreGlobalAt(v, ps, st.op.words, IndexFrom(0, Get(v, st.b)), st.a);
    }

    method RunBoundCheck(env: Env, v: View, ps: ProgsState, st: Stmt) returns (error: Option<ErrorKind>)
      requires Apart() && Memory().Valid() && HasView(v, s[..]) && st.op.BoundCheck?
      ensures Did(Straight(env, v, old(Value()), ps, st), old(Value()), error)
    {
      var w := Get(v, st.a);
      error := if w < st.c || w >= st.b then Some(BoundCheckErr) else None;
    }

    /** Executes a statement that falls through to the next, or faults. */
    method RunStraight(env: Env, v: View, ps: ProgsState, st: Stmt) returns (error: Option<ErrorKind>)
      requires Apart() && Memory().Valid() && HasView(v, s[..]) && !IsControl(st.op)
      modifies this, s, e, h
      ensures Did(Straight(env, v, old(Value()), ps, st), old(Value()), error)
    {
      error := None;
      if Computes(st.op) {
        Compute(env, v, ps, st);
        return;
      }
      match st.op
      case LoadField(_) => RunLoadField(env, v, ps, st);
      case Address => RunAddress(env, v, ps, st);
      case StoreField(_) => RunStoreField(env, v, ps, st);
      case StorePtr(_) => error := RunStorePtr(env, v, ps, st);
      case LoadPtr(_) => error := RunLoadPtr(env, v, ps, st);
      case CompoundStorePtr(_) => error := RunCompound(env, v, ps, st);
      case StoreGlobal(_) => RunStoreGlobal(env, v, ps, st);
      case GlobalAddress => RunGlobalAddress(env, v, ps, st);
      case FetchGlobal(_) => error := RunFetchGlobal(env, v, ps, st);
      case LoadArray(_) => error := RunLoadArray(env, v, ps, st);
      case GLoad(_) => error := RunGLoad(env, v, ps, st);
      case GStore(_) => error := RunGStore(env, v, ps, st);
      case BoundCheck => error := RunBoundCheck(env, v, ps, st);
      case Push => error := PushMemory(v, st.a, st.c);
      case Bad => error := Some(BadOpcode);
      case JumpOutOfRange => error := Some(JumpOutOfRangeErr);
    }

    // ---- control opcodes -----------------------------------------------------------------------

    /** The step taken is the one `r` says, and the budget was charged for it. */
    ghost predicate Took(r: Result, taken: Taken, budget: nat)
      reads this, s, e, h
    {
      TookTo(r, taken, budget, Value())
    }

    /** Counts the statement, then jumps. */
    method Jump(target: nat, budget: nat) returns (taken: Taken)
      modifies this
      ensures Took(JumpTo(old(Value()), target), taken, budget)
    {
      if budget <= 1 { return NoBudget; }
      x := x.(pc := target);
      return On(budget - 1);
    }

    method PassHexen2Operands(v: View, ps: ProgsState, st: Stmt)
      requires HasView(v, s[..]) && st.op.Call?
      modifies s
      ensures s[..] == PassOperands(v, old(s[..]), ps, st.op.argc, st.op.hexen2, st.b, st.c)
    {
      if st.op.hexen2 {
        if st.op.argc >= 2 { CopyWords(v, st.c, SlotAt(ps.gbase, OFS_PARM1), 3); }
        CopyWords(v, st.b, SlotAt(ps.gbase, OFS_PARM0), 3);
      }
    }

    /** Calls function value `fv`: a QuakeC function is entered, a builtin left to the caller. */
    method DispatchCall(env: Env, fv: word) returns (exit: Option<Exit>)
      requires Apart()
      modifies this, s
      ensures Dispatch(env, old(Value()), fv) == if exit.Some? then L.Stop(exit.value, Value()) else L.Go(Value())
    {
      match CalleeAt(env, fv)
      case QcFn =>
        var error := EnterQc(env, ProgsOf(fv), IndexOf(fv), x.pc + 1);
        exit := if error.Some? then Some(FaultExit(error.value)) else None;
      case BuiltinFn(slot) => x := x.(pc := x.pc + 1); exit := Some(BuiltinExit(slot, fv));
      case NullFn => exit := Some(FaultExit(NullFunction));
      case MissingFn => exit := Some(FaultExit(NotImplemented));
      case InvalidFn => exit := Some(FaultExit(InvalidFunction));
    }

    method RunCall(env: Env, v: View, ps: ProgsState, st: Stmt, budget: nat) returns (taken: Taken)
      requires Apart() && HasView(v, s[..]) && st.op.Call?
      modifies this, s
      ensures Took(CallStep(env, v, old(Value()), ps, st), taken, budget)
    {
      if budget <= 1 { return NoBudget; }
      PassHexen2Operands(v, ps, st);
      argc := st.op.argc;
      var exit := DispatchCall(env, Get(v, st.a));
      return if exit.Some? then Off(exit.value, budget - 1) else On(budget - 1);
    }

    method RunReturn(env: Env, v: View, ps: ProgsState, oa: nat, d: nat, budget: nat) returns (taken: Taken)
      requires Apart() && HasView(v, s[..])
      modifies this, s
      ensures Took(ReturnStep(env, v, old(Value()), ps, oa, d), taken, budget)
    {
      if budget <= 1 { return NoBudget; }
      CopyWords(v, oa, SlotAt(ps.gbase, OFS_RETURN), 3);
      LeaveQc(env);
      return if |frames| <= d then Off(Returned, budget - 1) else On(budget - 1);
    }

    method FallThrough(ticks: bool, budget: nat) returns (taken: Taken)
      modifies this
      ensures Took(Fall(old(Value()), ticks), taken, budget)
    {
      if ticks && budget <= 1 { return NoBudget; }
      x := x.(pc := x.pc + 1);
      return On(Charged(ticks, budget));
    }

    method RunJump(env: Env, v: View, ps: ProgsState, st: Stmt, d: nat, budget: nat) returns (taken: Taken)
      requires Apart() && Memory().Valid() && HasView(v, s[..])
      requires IsControl(st.op) && !st.op.Call? && !st.op.Return?
      modifies this
      ensures Took(Control(env, v, old(Value()), ps, st, d), taken, budget)
    {
      match st.op
      case Branch(test) =>
        if Holds(test, Get(v, st.a)) { taken := Jump(st.b, budget); } else { taken := FallThrough(true, budget); }
      case Goto => taken := Jump(st.a, budget);
      case Switch(kind) =>
        x := x.(switchRef := st.a, switchKind := kind);
        taken := Jump(st.b, budget);
      case Case =>
        if CaseHits(env, v, Value(), st.a) { taken := Jump(st.b, budget); } else { taken := FallThrough(false, budget); }
      case CaseRange =>
        if x.switchKind.SwString? {
          taken := Off(FaultExit(StringCaseRange), budget);
        } else if CaseRangeHits(env, v, Value(), st.a, st.b) {
          taken := Jump(st.c, budget);
        } else {
          taken := FallThrough(false, budget);
        }
    }

    /** Executes the statement at `pc`, within the budget. */
    method Step(env: Env, v: View, d: nat, budget: nat) returns (taken: Taken)
      requires Apart() && RunOk(env, v, Value(), d)
      modifies this, s, e, h
      ensures Took(StepOf(env, v, old(Value()), d), taken, budget)
    {
      var ps := env.progs[x.prnum];
      match Fetch(v, ps.code, x.pc)
      case None => return Off(FaultExit(JumpOutOfRangeErr), budget);
      case Some(st) =>
        if st.op.Call? {
          taken := RunCall(env, v, ps, st, budget);
        } else if st.op.Return? {
          taken := RunReturn(env, v, ps, st.a, d, budget);
        } else if IsControl(st.op) {
          taken := RunJump(env, v, ps, st, d, budget);
        } else {
          var error := RunStraight(env, v, ps, st);
          if error.Some? { return Off(FaultExit(error.value), budget); }
          taken := FallThrough(false, budget);
        }
    }

    // ---- the loop ------------------------------------------------------------------------------

    /** Runs until the frame stack is back at `d` frames, a builtin is to be called, a fault, or the
        end of the budget: the run of the machine this core holds, exit and budget left included. */
    method Run(env: Env, v: View, d: nat, budget: nat) returns (end: Taken)
      requires Apart() && RunOk(env, v, Value(), d)
      modifies this, s, e, h
      ensures L.Sound(StepsOf(env, v, d)) && !end.On?
      ensures L.Run(StepsOf(env, v, d), old(Value()), budget) ==
              if end.NoBudget? then L.Spent(Value()) else L.Exited(end.exit, Value(), end.left)
    {
      InterpreterSound(env, v, d);
      ghost var l := StepsOf(env, v, d);
      var left := budget;
      while true
        invariant L.Sound(l) && RunOk(env, v, Value(), d)
        invariant L.Run(l, old(Value()), budget) == L.Run(l, Value(), left)
        decreases left, RankOf(env, Value())
      {
        ghost var m := Value();
        var taken := Step(env, v, d, left);
        TurnOfRun(env, v, d, m, left, taken, Value());
        match taken
        case On(now) => left := now;
        case NoBudget => return taken;
        case Off(_, _) => return taken;
      }
    }
  }
}
