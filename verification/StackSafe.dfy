/** A condition on the code under which no run writes saved locals (`src/vm/interp.rs`,
    `src/vm/core.rs`), and a program without it whose call is not neutral. */
module StackSafe {
  import opened Bytes
  import opened Program
  import opened Memory
  import opened Views
  import opened Machine
  import opened Effects
  import opened Step
  import opened Interp
  import opened Frames
  import opened Locals
  import opened Calls
  import opened Loop
  import Loader

  // ---- what views write ------------------------------------------------------------------------

  /** The view reaches `words` words from `o` at their own addresses. */
  predicate Reached(v: View, o: nat, words: nat) { v.Window? ==> Unmasked(o, words) }

  predicate Outside(a: nat, o: nat, words: nat) { a < o || o + 4 * words <= a }

  lemma SetElsewhere(v: View, s: seq<byte>, o: nat, w: word, a: nat)
    requires HasView(v, s) && Reached(v, o, 1) && a < |s| && Outside(a, o, 1)
    ensures Set(v, s, o, w)[a] == s[a]
  {
    if v.Window? { SameWord(s, o); }
  }

  lemma {:induction false} CopyAway(v: View, s: seq<byte>, src: nat, dst: nat, words: nat, a: nat)
    requires HasView(v, s) && Reached(v, dst, words) && a < |s| && Outside(a, dst, words)
    ensures Copy(v, s, src, dst, words)[a] == s[a]
  {
    if words > 0 {
      var n := words - 1;
      CopyAway(v, s, src, dst, n, a);
      var t := Copy(v, s, src, dst, n);
      var w := CopyNext(v, s, src, dst, n, t);
      SetElsewhere(v, t, Nth(dst, n), w, a);
    }
  }

  lemma {:induction false} ScatterAway(v: View, s: seq<byte>, o: nat, b: seq<byte>, words: nat, a: nat)
    requires HasView(v, s) && 4 * words <= |b| && Reached(v, o, words) && a < |s| && Outside(a, o, words)
    ensures Scatter(v, s, o, b, words)[a] == s[a]
  {
    if words > 0 {
      var n := words - 1;
      ScatterAway(v, s, o, b, n, a);
      var t := Scatter(v, s, o, b, n);
      var w := ScatterNext(v, s, o, b, n, t);
      SetElsewhere(v, t, Nth(o, n), w, a);
    }
  }

  lemma {:induction false} ZeroAway(s: seq<byte>, o: nat, words: nat, a: nat)
    requires a < |s| && Outside(a, o, words)
    ensures ZeroWords(Whole, s, o, words)[a] == s[a]
  {
    if words > 0 { ZeroAway(s, o, words - 1, a); }
  }

  // ---- where statements write ------------------------------------------------------------------

  /** Stores through pointers may write anywhere. */
  predicate PointerStore(op: Op) { op.StorePtr? || op.CompoundStorePtr? }

  /** A range of words in region S. */
  datatype Range = Range(at: nat, words: nat)

  /** The words of region S a statement's operands may write, if it writes any. */
  function Target(ps: ProgsState, st: Stmt): Option<Range> {
    match st.op
    case AluWord(_) => Some(Range(st.c, 1))
    case AluVector(_) => Some(Range(st.c, 3))
    case VectorWord(_) => Some(Range(st.c, 1))
    case Scale(_) => Some(Range(st.c, 3))
    case CompareStrings(_) => Some(Range(st.c, 1))
    case NotString => Some(Range(st.c, 1))
    case LoadField(words) => Some(Range(st.c, words))
    case Address => Some(Range(st.c, 1))
    case StoreGlobal(words) => Some(Range(st.b, words))
    case LoadPtr(words) => Some(Range(st.c, words))
    case FetchGlobal(words) => Some(Range(st.c, words))
    case GlobalAddress => Some(Range(st.c, 1))
    case LoadArray(words) => Some(Range(st.c, words))
    case GLoad(words) => Some(Range(st.c, words))
    case GStore(_) => Some(Range(ps.gbase, ps.numGlobals))
    case Push => Some(Range(st.c, 1))
    case Call(_, hexen2) => if hexen2 then Some(Range(SlotAt(ps.gbase, OFS_PARM0), 6)) else None
    case Return => Some(Range(SlotAt(ps.gbase, OFS_RETURN), 3))
    case _ => None
  }

  /** Byte `a` is not in what the statement may write, and the view reaches all of that. */
  predicate Untargeted(v: View, ps: ProgsState, st: Stmt, a: nat) {
    match Target(ps, st)
    case None => true
    case Some(r) => Reached(v, r.at, r.words) && Outside(a, r.at, r.words)
  }

  lemma AluStepAway(env: Env, v: View, s: seq<byte>, n: nat, oa: nat, ob: nat, oc: nat, a: nat)
    requires HasView(v, s) && a < |s| && Reached(v, oc, 1) && Outside(a, oc, 1)
    ensures AluStep(env, v, s, n, oa, ob, oc)[a] == s[a]
  {
    SetElsewhere(v, s, oc, env.word2(n, G(v, s, oa), G(v, s, ob)), a);
  }

  lemma AluVectorAway(env: Env, v: View, s: seq<byte>, n: nat, oa: nat, ob: nat, oc: nat, a: nat)
    requires HasView(v, s) && a < |s| && Reached(v, oc, 3) && Outside(a, oc, 3)
    ensures AluVectorStep(env, v, s, n, oa, ob, oc)[a] == s[a]
  {
    var s1 := AluStep(env, v, s, n, oa, ob, oc);
    var s2 := AluStep(env, v, s1, n, Nth(oa, 1), Nth(ob, 1), Nth(oc, 1));
    AluStepAway(env, v, s, n, oa, ob, oc, a);
    AluStepAway(env, v, s1, n, Nth(oa, 1), Nth(ob, 1), Nth(oc, 1), a);
    AluStepAway(env, v, s2, n, Nth(oa, 2), Nth(ob, 2), Nth(oc, 2), a);
  }

  lemma ScaledAway(env: Env, v: View, s: seq<byte>, n: nat, f: word, o: nat, oc: nat, a: nat)
    requires HasView(v, s) && a < |s| && Reached(v, oc, 1) && Outside(a, oc, 1)
    ensures ScaledStep(env, v, s, n, f, o, oc)[a] == s[a]
  {
    SetElsewhere(v, s, oc, ScaledWord(env, n, G(v, s, o), f), a);
  }

  lemma ScaleAway(env: Env, v: View, s: seq<byte>, n: nat, oa: nat, ob: nat, oc: nat, a: nat)
    requires HasView(v, s) && a < |s| && Reached(v, oc, 3) && Outside(a, oc, 3)
    ensures ScaleStep(env, v, s, n, oa, ob, oc)[a] == s[a]
  {
    var f, o := G(v, s, if n == 3 then oa else ob), if n == 3 then ob else oa;
    var s1 := ScaledStep(env, v, s, n, f, o, oc);
    var s2 := ScaledStep(env, v, s1, n, f, Nth(o, 1), Nth(oc, 1));
    ScaledAway(env, v, s, n, f, o, oc, a);
    ScaledAway(env, v, s1, n, f, Nth(o, 1), Nth(oc, 1), a);
    ScaledAway(env, v, s2, n, f, Nth(o, 2), Nth(oc, 2), a);
  }

  lemma WordAway(env: Env, v: View, m: Machine, ps: ProgsState, st: Stmt, a: nat)
    requires m.mem.Valid() && HasView(v, m.mem.s) && a < |m.mem.s| && Untargeted(v, ps, st, a)
    requires st.op.AluWord? || st.op.VectorWord? || st.op.GlobalAddress?
    ensures OperandBytes(env, v, m, ps, st)[a] == m.mem.s[a]
  {
    var s := m.mem.s;
    match st.op
    case AluWord(n) => AluStepAway(env, v, s, n, st.a, st.b, st.c, a);
    case VectorWord(n) => SetElsewhere(v, s, st.c, OfVectors(env, n, VecAt(v, s, st.a), VecAt(v, s, st.b)), a);
    case GlobalAddress => SetElsewhere(v, s, st.c, GlobalPointer(ps.gbase, st.a, G(v, s, st.b)), a);
  }

  lemma AluAway(env: Env, v: View, m: Machine, ps: ProgsState, st: Stmt, a: nat)
    requires m.mem.Valid() && HasView(v, m.mem.s) && a < |m.mem.s| && Untargeted(v, ps, st, a)
    requires st.op.AluVector? || st.op.Scale? || st.op.CompareStrings? || st.op.NotString?
    ensures OperandBytes(env, v, m, ps, st)[a] == m.mem.s[a]
  {
    var s := m.mem.s;
    match st.op
    case AluVector(n) => AluVectorAway(env, v, s, n, st.a, st.b, st.c, a);
    case Scale(n) => ScaleAway(env, v, s, n, st.a, st.b, st.c, a);
    case NotString => SetElsewhere(Whole, s, st.c, NotStringResult(m, G(v, s, st.a)), a);
    case CompareStrings(n) => SetElsewhere(Whole, s, st.c, CompareStringsResult(env, m, n, G(v, s, st.a), G(v, s, st.b)), a);
  }

  lemma FieldsAway(env: Env, v: View, m: Machine, ps: ProgsState, st: Stmt, a: nat)
    requires m.mem.Valid() && HasView(v, m.mem.s) && a < |m.mem.s| && Untargeted(v, ps, st, a)
    requires OpOk(st.op) && (st.op.LoadField? || st.op.Address? || st.op.StoreField? || st.op.LoadPtr?)
    ensures OperandBytes(env, v, m, ps, st)[a] == m.mem.s[a]
  {
    match st.op
    case LoadField(words) => LoadFieldAway(v, m, words, G(v, m.mem.s, st.a), G(v, m.mem.s, st.b), st.c, a);
    case Address => AddressAway(v, m, G(v, m.mem.s, st.a), G(v, m.mem.s, st.b), st.c, a);
    case StoreField(words) => StoreFieldKeepsS(v, m, words, st.a, st.b, st.c);
    case LoadPtr(words) => LoadPtrAway(v, m, words, st.a, st.b, st.c, a);
  }

  lemma LoadFieldAway(v: View, m: Machine, words: nat, e: word, f: word, oc: nat, a: nat)
    requires HasView(v, m.mem.s) && a < |m.mem.s| && words >= 1 && Reached(v, oc, words) && Outside(a, oc, words)
    ensures LoadFieldEffect(v, m, words, e, f, oc).mem.s[a] == m.mem.s[a]
  {
    match EntField(m.mem, e, f, 4 * words)
    case Some(b) => ScatterAway(v, m.mem.s, oc, b, words, a);
    case None =>
      var n := if e < |m.mem.slots| then 1 else words;
      ZeroAway(m.mem.s, oc, n, a);
  }

  lemma AddressAway(v: View, m: Machine, e: word, f: word, oc: nat, a: nat)
    requires HasView(v, m.mem.s) && a < |m.mem.s| && Reached(v, oc, 1) && Outside(a, oc, 1)
    ensures AddressEffect(v, m, e, f, oc).mem.s[a] == m.mem.s[a]
  {
    SetElsewhere(v, m.mem.s, oc, FieldPointer(m.mem, e, f), a);
    SetElsewhere(Whole, m.mem.s, oc, U32_MAX, a);
  }

  lemma StoreFieldKeepsS(v: View, m: Machine, words: nat, oa: nat, ob: nat, oc: nat)
    requires HasView(v, m.mem.s)
    ensures StoreFieldEffect(v, m, words, oa, ob, oc).mem.s == m.mem.s
  {
  }

  lemma LoadPtrAway(v: View, m: Machine, words: nat, oa: nat, ob: nat, oc: nat, a: nat)
    requires m.mem.Valid() && HasView(v, m.mem.s) && a < |m.mem.s| && Reached(v, oc, words) && Outside(a, oc, words)
    ensures var r := LoadPtrEffect(v, m, words, oa, ob, oc); r.Done? ==> r.m.mem.s[a] == m.mem.s[a]
  {
    var base, idx := G(v, m.mem.s, oa), G(v, m.mem.s, ob);
    match PtrReadView(v, m.mem, Indexed(base, idx), 4 * words)
    case Some(b) => ScatterAway(v, m.mem.s, oc, b, words, a);
    case None =>
      match PtrRead(m, base, Scaled(idx), 4 * words)
      case Got(b) => ScatterAway(Whole, m.mem.s, oc, b, words, a);
      case ReadFault =>
  }

  lemma ArraysAway(env: Env, v: View, m: Machine, ps: ProgsState, st: Stmt, a: nat)
    requires m.mem.Valid() && HasView(v, m.mem.s) && a < |m.mem.s| && Untargeted(v, ps, st, a)
    requires st.op.StoreGlobal? || st.op.FetchGlobal? || st.op.LoadArray? || st.op.GLoad?
    ensures OperandBytes(env, v, m, ps, st)[a] == m.mem.s[a]
  {
    var s := m.mem.s;
    match st.op
    case StoreGlobal(words) => CopyAway(v, s, st.a, st.b, words, a);
    case FetchGlobal(words) => FetchAway(env, m, ps.gbase, words, st.a, st.b, st.c, a);
    case LoadArray(words) => LoadAway(v, m, ps, words, IndexFrom(st.a, G(v, s, st.b)), st.c, a);
    case GLoad(words) => LoadAway(v, m, ps, words, IndexFrom(0, G(v, s, st.a)), st.c, a);
  }

  lemma FetchAway(env: Env, m: Machine, gbase: word, words: nat, base: word, ob: nat, oc: nat, a: nat)
    requires a < |m.mem.s| && Outside(a, oc, words)
    ensures var r := FetchGlobalEffect(env, m, gbase, words, base, ob, oc); r.Done? ==> r.m.mem.s[a] == m.mem.s[a]
  {
    var i := env.floatToInt(G(Whole, m.mem.s, ob));
    CopyAway(Whole, m.mem.s, gbase + 4 * Wrap(base + Wrap(i * words)), oc, words, a);
  }

  lemma LoadAway(v: View, m: Machine, ps: ProgsState, words: nat, i: int, oc: nat, a: nat)
    requires HasView(v, m.mem.s) && a < |m.mem.s| && Reached(v, oc, words) && Outside(a, oc, words)
    ensures var r := GLoadEffect(v, m, ps, words, i, oc); r.Done? ==> r.m.mem.s[a] == m.mem.s[a]
  {
    if IndexOk(i, words, ps.numGlobals) { CopyAway(v, m.mem.s, GlobalAt(ps, i), oc, words, a); }
  }

  lemma StoreAway(v: View, m: Machine, ps: ProgsState, words: nat, i: int, oa: nat, a: nat)
    requires HasView(v, m.mem.s) && a < |m.mem.s| && Reached(v, ps.gbase, ps.numGlobals) && Outside(a, ps.gbase, ps.numGlobals)
    ensures var r := GStoreEffect(v, m, ps, words, i, oa); r.Done? ==> r.m.mem.s[a] == m.mem.s[a]
  {
    if IndexOk(i, words, ps.numGlobals) { CopyAway(v, m.mem.s, oa, GlobalAt(ps, i), words, a); }
  }

  lemma PushAway(v: View, m: Machine, oa: nat, oc: nat, a: nat)
    requires m.mem.Valid() && HasView(v, m.mem.s) && a < |m.mem.s| && Outside(a, oc, 1)
    ensures var r := PushEffect(v, m, oa, oc); r.Done? ==> r.m.mem.s[a] == m.mem.s[a]
  {
    var at: nat := Wrap(m.x.lsTop + m.x.pushed);
    SetElsewhere(Whole, m.mem.s, oc, Wrap(m.mem.lsBase + Wrap(4 * at)), a);
  }

  lemma CallAway(v: View, s: seq<byte>, ps: ProgsState, argc: nat, hexen2: bool, ob: nat, oc: nat, a: nat)
    requires HasView(v, s) && a < |s|
    requires hexen2 ==> Reached(v, SlotAt(ps.gbase, OFS_PARM0), 6) && Outside(a, SlotAt(ps.gbase, OFS_PARM0), 6)
    ensures PassOperands(v, s, ps, argc, hexen2, ob, oc)[a] == s[a]
  {
    if hexen2 {
      var t := if argc >= 2 then Copy(v, s, oc, SlotAt(ps.gbase, OFS_PARM1), 3) else s;
      CopyAway(v, s, oc, SlotAt(ps.gbase, OFS_PARM1), 3, a);
      CopyAway(v, t, ob, SlotAt(ps.gbase, OFS_PARM0), 3, a);
    }
  }

  /** A statement's operands write nothing but what it targets, unless it stores through a pointer. */
  lemma WritesOnlyTarget(env: Env, v: View, m: Machine, ps: ProgsState, st: Stmt, a: nat)
    requires m.mem.Valid() && HasView(v, m.mem.s) && a < |m.mem.s|
    requires OpOk(st.op) && !PointerStore(st.op) && Untargeted(v, ps, st, a)
    ensures OperandBytes(env, v, m, ps, st)[a] == m.mem.s[a]
  {
    match st.op
    case Call(argc, hexen2) => CallAway(v, m.mem.s, ps, argc, hexen2, st.b, st.c, a);
    case Return => CopyAway(v, m.mem.s, st.a, SlotAt(ps.gbase, OFS_RETURN), 3, a);
    case GStore(words) => StoreAway(v, m, ps, words, IndexFrom(0, G(v, m.mem.s, st.b)), st.a, a);
    case Push => PushAway(v, m, st.a, st.c, a);
    case AluWord(_) => WordAway(env, v, m, ps, st, a);
    case AluVector(_) => AluAway(env, v, m, ps, st, a);
    case VectorWord(_) => WordAway(env, v, m, ps, st, a);
    case Scale(_) => AluAway(env, v, m, ps, st, a);
    case CompareStrings(_) => AluAway(env, v, m, ps, st, a);
    case NotString => AluAway(env, v, m, ps, st, a);
    case GlobalAddress => WordAway(env, v, m, ps, st, a);
    case LoadField(_) => FieldsAway(env, v, m, ps, st, a);
    case Address => FieldsAway(env, v, m, ps, st, a);
    case StoreField(_) => FieldsAway(env, v, m, ps, st, a);
    case LoadPtr(_) => FieldsAway(env, v, m, ps, st, a);
    case StoreGlobal(_) => ArraysAway(env, v, m, ps, st, a);
    case FetchGlobal(_) => ArraysAway(env, v, m, ps, st, a);
    case LoadArray(_) => ArraysAway(env, v, m, ps, st, a);
    case GLoad(_) => ArraysAway(env, v, m, ps, st, a);
    case _ =>
  }

  // ---- code that spares saved locals -----------------------------------------------------------

  /** What a checked statement writes lies in its progs' globals, their tail or the two words after
      it: the 28 reserved globals hold the PARM slots. */
  lemma TargetInReach(ps: ProgsState, st: Stmt, count: nat)
    requires StmtOk(st, ps.gbase, ps.numGlobals + 3, count) && ps.numGlobals >= 28 && Target(ps, st).Some?
    ensures var r := Target(ps, st).value; ps.gbase <= r.at && r.at + 4 * r.words <= ps.gbase + 4 * (ps.numGlobals + 5)
  {
  }

  /** In any run, a statement that does not store through a pointer writes, by itself, no byte outside the
      globals of its progs, their tail and the two words after it. */
  lemma StepWritesInReach(env: Env, v: View, m: Machine, d: nat, a: nat)
    requires RunOk(env, v, m, d) && !PointerStore(Next(env, m).op) && Current(env, m).numGlobals >= 28
    requires v.Window? ==> Current(env, m).gbase + 4 * (Current(env, m).numGlobals + 5) <= MASKED
    requires a < |m.mem.s| && Outside(a, Current(env, m).gbase, Current(env, m).numGlobals + 5)
    ensures OperandBytes(env, v, m, Current(env, m), Next(env, m))[a] == m.mem.s[a]
  {
    var ps, st := Current(env, m), Next(env, m);
    NextOk(env, m, |m.mem.s|);
    if Target(ps, st).Some? { TargetInReach(ps, st, |ps.code|); }
    WritesOnlyTarget(env, v, m, ps, st, a);
  }

  /** A statement that does not store through a pointer, and whose destination ends before the local
      stack. */
  predicate SafeStmt(ps: ProgsState, st: Stmt, lsBase: nat) {
    !PointerStore(st.op) && (Target(ps, st).Some? ==> Target(ps, st).value.at + 4 * Target(ps, st).value.words <= lsBase)
  }

  /** Code of such statements, with the reserved globals present and the globals below the local stack;
      for the window, with its operands in it. */
  predicate SafeCode(v: View, ps: ProgsState, lsBase: nat) {
    && (forall i :: 0 <= i < |ps.code| ==> SafeStmt(ps, ps.code[i], lsBase))
    && ps.numGlobals >= 28 && ps.gbase + 4 * (ps.numGlobals + 3) <= lsBase
    && (v.Window? ==> ps.gbase + 4 * (ps.numGlobals + 5) <= MASKED)
  }

  lemma SafeUntargeted(v: View, ps: ProgsState, st: Stmt, lsBase: nat, count: nat, a: nat)
    requires StmtOk(st, ps.gbase, ps.numGlobals + 3, count) && SafeStmt(ps, st, lsBase) && ps.numGlobals >= 28
    requires v.Window? ==> ps.gbase + 4 * (ps.numGlobals + 5) <= MASKED
    requires lsBase <= a
    ensures Untargeted(v, ps, st, a)
  {
    if Target(ps, st).Some? { TargetInReach(ps, st, count); }
  }

  /** No statement of safe code writes the local stack, in any state. */
  lemma SafeRespects(env: Env, v: View, m: Machine, d: nat)
    requires RunOk(env, v, m, d) && SafeCode(v, Current(env, m), m.mem.lsBase)
    ensures Respects(env, v, m, Current(env, m), Next(env, m))
  {
    var ps, st := Current(env, m), Next(env, m);
    NextOk(env, m, |m.mem.s|);
    forall a | 0 <= a < |m.mem.s| && StackAt(m.mem, 0) <= a < StackAt(m.mem, m.x.lsTop)
      ensures OperandBytes(env, v, m, ps, st)[a] == m.mem.s[a]
    {
      SafeUntargeted(v, ps, st, m.mem.lsBase, |ps.code|, a);
      WritesOnlyTarget(env, v, m, ps, st, a);
    }
  }

  // ---- whole runs ------------------------------------------------------------------------------

  /** Where a run of a called function may be: what it was called with is kept, or given back. */
  predicate KeptOrBack(env: Env, base: seq<Frame>, m0: Machine, r: RunResult<Machine, Exit>) {
    if r.Exited? && r.exit.Returned? then GivenBack(env, base, m0, r.s) else CalleeKept(env, base, m0, r.s)
  }

  lemma SafeStepKept(env: Env, v: View, base: seq<Frame>, m0: Machine, t: Machine, d: nat)
    requires RunOk(env, v, t, d) && CalleeKept(env, base, m0, t) && |base| == d + 1
    requires SafeCode(v, env.progs[0], m0.mem.lsBase)
    ensures KeepsAt(StepsOf(env, v, d), (x: Machine) => CalleeKept(env, base, m0, x), t)
    ensures var r := StepOf(env, v, t, d);
      r.out.Stop? ==> if r.out.exit.Returned? then GivenBack(env, base, m0, r.out.s) else CalleeKept(env, base, m0, r.out.s)
  {
    SafeRespects(env, v, t, d);
    StepKept(env, v, base, m0, t, d);
  }

  /** A stretch of a call keeps what its caller saved, or gives it back. */
  lemma SafeRunKept(env: Env, v: View, base: seq<Frame>, m0: Machine, m: Machine, d: nat, budget: nat)
    requires RunOk(env, v, m, d) && CalleeKept(env, base, m0, m) && |base| == d + 1
    requires SafeCode(v, env.progs[0], m0.mem.lsBase)
    ensures Sound(StepsOf(env, v, d)) && KeptOrBack(env, base, m0, Run(StepsOf(env, v, d), m, budget))
  {
    InterpreterSound(env, v, d);
    var l := StepsOf(env, v, d);
    var rel := (x: Machine) => CalleeKept(env, base, m0, x);
    forall t | l.ok(t) && rel(t)
      ensures KeepsAt(l, rel, t)
    {
      SafeStepKept(env, v, base, m0, t, d);
    }
    RunKeeps(l, rel, m, budget);
    match Run(l, m, budget)
    case Spent(_) =>
    case Exited(exit, m', _) =>
      var t :| l.ok(t) && rel(t) && l.step(t).out == Stop(exit, m');
      SafeStepKept(env, v, base, m0, t, d);
  }

  /** With safe code, every call of every function is neutral, for any budget: a condition on the loaded
      program alone. */
  lemma SafeCallIsNeutral(env: Env, v: View, m: Machine, prnum: nat, index: nat, budget: nat)
    requires Callable(env, v, m) && SafeCode(v, env.progs[0], m.mem.lsBase)
    requires Enter(env, m, prnum, index, m.x.pc).error.None?
    ensures Sound(StepsOf(env, v, |m.frames|)) && RunOk(env, v, Enter(env, m, prnum, index, m.x.pc).m, |m.frames|)
    ensures var m0 := Enter(env, m, prnum, index, m.x.pc).m;
      EndsNeutral(env, m, m0, Run(StepsOf(env, v, |m.frames|), m0, budget))
  {
    var d := |m.frames|;
    var m0 := Enter(env, m, prnum, index, m.x.pc).m;
    EnteredKept(env, v, m, prnum, index);
    SafeRunKept(env, v, m0.frames, m0, m0, d, budget);
    RunEndsNeutral(env, v, m, prnum, index, Run(StepsOf(env, v, d), m0, budget));
  }

  lemma RunEndsNeutral(env: Env, v: View, m: Machine, prnum: nat, index: nat, r: RunResult<Machine, Exit>)
    requires Callable(env, v, m) && Enter(env, m, prnum, index, m.x.pc).error.None?
    requires var m0 := Enter(env, m, prnum, index, m.x.pc).m; KeptOrBack(env, m0.frames, m0, r)
    ensures EndsNeutral(env, m, Enter(env, m, prnum, index, m.x.pc).m, r)
  {
    if r.Exited? && r.exit.Returned? {
      GivenBackIsNeutral(env, v, m, prnum, index, r.s);
    } else {
      KeptEndsNeutral(env, v, m, prnum, index, r.s);
    }
  }

  // ---- a call that is not neutral --------------------------------------------------------------

  /** A program with one function of one local word. It stores a vector at the last legal operand, so its
      second word goes over the local it saved, and returns. */
  function Spoiler(): ProgsState {
    ProgsState(4, 40, [Poisoned, Stmt(StoreGlobal(3), 116, 172, 4), Stmt(Return, 4, 4, 4), Sentinel],
               [NullFn, QcFn], [None, Some(QcFunc(1, 132, 1, []))], [])
  }

  function SpoilerEnv(): Env {
    Env([Spoiler()], 8, false, false, 0, (n: nat, a: word, b: word) => 0, (a: word, b: word) => false,
        (a: word, b: word) => false, (a: word) => 0, (i: int) => 0)
  }

  /** An idle machine for it; the word it stores over the saved local is not zero. */
  function SpoilerMachine(): Machine {
    var s := Splice(Zeros(244), 120, [1]);
    var mem := Mem(s, Zeros(16), 256, 16, 0, 1, [EntSlot(true, false, 0.0, 1)], [], 0, 272, 176, 16);
    Machine(mem, StrTab([], 0, []), [], Exec(0, NO_FUNCTION, 0, 0, 0, 0, SwFloat, 0, 0), 0)
  }

  lemma StoresVectors(src: word, dst: word, unused: word, gbase: word, limit: nat, count: nat)
    requires OnWord(src, gbase, limit) && OnWord(dst, gbase, limit) && OnWord(unused, gbase, limit)
    ensures StmtOk(Stmt(StoreGlobal(3), src, dst, unused), gbase, limit, count)
  {
  }

  lemma TwoStatementsOk(code: seq<Stmt>, gbase: word, limit: nat)
    requires |code| == 4 && code[0] == Poisoned && code[3] == Sentinel
    requires StmtOk(code[1], gbase, limit, 4) && StmtOk(code[2], gbase, limit, 4)
    ensures CodeOk(code, gbase, limit)
  {
    forall i | 0 <= i < |code|
      ensures StmtOk(code[i], gbase, limit, |code|)
    {
      assert i == 0 || i == 1 || i == 2 || i == 3;
    }
  }

  lemma SpoilerCodeOk(code: seq<Stmt>, gbase: word, limit: nat)
    requires code == Spoiler().code && gbase == 4 && limit == 43
    ensures CodeOk(code, gbase, limit)
  {
    SpoilerOperands(gbase, limit);
    StoresVectors(116, 172, gbase, gbase, limit, 4);
    ReturnsFirst(gbase, limit, 4);
    TwoStatementsOk(code, gbase, limit);
  }

  lemma SpoilerOperands(gbase: word, limit: nat)
    requires gbase == 4 && limit == 43
    ensures OnWord(gbase, gbase, limit) && OnWord(116, gbase, limit) && OnWord(172, gbase, limit)
  {
    WordSlotFits(gbase, 0, limit, gbase);
    WordSlotFits(gbase, 28, limit, 116);
    WordSlotFits(gbase, 42, limit, 172);
  }

  lemma SpoilerLoads()
    ensures Callable(SpoilerEnv(), Whole, SpoilerMachine())
  {
    var m, ps := SpoilerMachine(), Spoiler();
    assert Times(1, 16) == 16 by { assert Times(0, 16) == 0; }
    SpoilerCodeOk(ps.code, ps.gbase, ps.numGlobals + 3);
    assert ProgsOk(ps, |m.mem.s|);
  }

  lemma NextWordCopied(t: seq<byte>, src: nat, dst: nat, n: nat, u: seq<byte>, s: seq<byte>)
    requires u == Copy(Whole, s, src, dst, n) && t == Copy(Whole, s, src, dst, n + 1)
    requires Nth(src, n) + 4 <= dst && Nth(dst, n) + 4 <= |s|
    ensures t[Nth(dst, n)] == s[Nth(src, n)]
  {
    var at, w := Nth(src, n), G(Whole, u, Nth(src, n));
    SetByte(u, Nth(dst, n), w, 0);
    WordByte(u, at, 0);
    CopyElsewhere(s, src, dst, n, at);
  }

  lemma MiddleWordCopied(s: seq<byte>, src: nat, dst: nat)
    requires src + 12 <= dst && dst + 12 <= |s|
    ensures Copy(Whole, s, src, dst, 3)[Nth(dst, 1)] == s[Nth(src, 1)]
  {
    var one: nat, two: nat := 1, 2;
    var u := Copy(Whole, s, src, dst, two);
    NextWordCopied(u, src, dst, one, Copy(Whole, s, src, dst, one), s);
    var w := CopyNext(Whole, s, src, dst, two, u);
    SetElsewhere(Whole, u, Nth(dst, two), w, Nth(dst, 1));
  }

  lemma SpoilerEnters(env: Env, m: Machine, m0: Machine)
    requires env == SpoilerEnv() && m == SpoilerMachine() && m0 == Enter(env, m, 0, 1, 0).m
    ensures Enter(env, m, 0, 1, 0).error.None? && |m0.frames| == 1 && m0.frames[0].prnum == 0
    ensures m0.x == Exec(1, 1, 0, 0, 1, 0, SwFloat, 132, 1)
    ensures m0.mem == m.mem.(s := Move(m.mem.s, 132, 176, 4))
  {
  }

  /** Its first statement stores the vector. */
  lemma SpoilerStores(env: Env, m: Machine, m1: Machine)
    requires env == SpoilerEnv() && RunOk(env, Whole, m, 0) && m.x.prnum == 0 && m.x.pc == 1
    requires m1 == WithS(m, Copy(Whole, m.mem.s, 116, 172, 3))
    ensures StepOf(env, Whole, m, 0) == Fall(m1, false)
  {
    StepExecutes(env, Whole, m, 0);
    assert Next(env, m) == Stmt(StoreGlobal(3), 116, 172, 4);
  }

  /** Its second statement returns. */
  lemma SpoilerReturns(env: Env, m: Machine, m1: Machine)
    requires env == SpoilerEnv() && RunOk(env, Whole, m, 0) && m.x.prnum == 0 && m.x.pc == 2 && |m.frames| == 1
    requires m1 == Leave(env, WithS(m, Copy(Whole, m.mem.s, 4, 8, 3)))
    ensures StepOf(env, Whole, m, 0).ticks && StepOf(env, Whole, m, 0).out == Stop(Returned, m1)
  {
    StepExecutes(env, Whole, m, 0);
    assert Next(env, m) == Stmt(Return, 4, 4, 4) && Current(env, m).gbase == 4;
  }

  /** The word stored over the saved local is what the return gives back. */
  lemma SpoilerGivesBack(env: Env, m: Machine, m1: Machine)
    requires m.mem.Valid() && |m.mem.s| == 244 && m.mem.lsBase == 176 && |m.frames| == 1
    requires m.frames[0].prnum == m.x.prnum && m.x.lsTop == 1 && m.x.localsWords == 1 && m.x.localsAddr == 132
    requires m1 == Leave(env, WithS(m, Copy(Whole, m.mem.s, 4, 8, 3)))
    ensures m1.mem.s[132] == m.mem.s[176]
  {
    var s := Copy(Whole, m.mem.s, 4, 8, 3);
    CopyElsewhere(m.mem.s, 4, 8, 3, 176);
    MoveByte(s, 176, 132, 4, 132);
  }

  /** Calling it returns, and leaves its caller's word changed: without a condition on the code, calls are
      not neutral. */
  lemma SpoilerIsNotNeutral(env: Env, m: Machine, m0: Machine)
    requires env == SpoilerEnv() && m == SpoilerMachine() && m0 == Enter(env, m, 0, 1, m.x.pc).m
    ensures Callable(env, Whole, m) && Enter(env, m, 0, 1, m.x.pc).error.None?
    ensures Sound(StepsOf(env, Whole, |m.frames|)) && RunOk(env, Whole, m0, |m.frames|)
    ensures var r := Run(StepsOf(env, Whole, |m.frames|), m0, 3);
      r.Exited? && r.exit == Returned && !EndsNeutral(env, m, m0, r)
  {
    SpoilerLoads();
    InterpreterSound(env, Whole, 0);
    SpoilerEnters(env, m, m0);
    EnteredKept(env, Whole, m, 0, 1);
    var stored := WithS(m0, Copy(Whole, m0.mem.s, 116, 172, 3));
    SpoilerStores(env, m0, stored);
    StepKeepsOk(env, Whole, m0, 0);
    var m1 := AtPc(stored, 2);
    var m2 := Leave(env, WithS(m1, Copy(Whole, m1.mem.s, 4, 8, 3)));
    SpoilerReturns(env, m1, m2);
    SpoilerRuns(StepsOf(env, Whole, 0), m0, m1, m2);
    MiddleWordCopied(m0.mem.s, 116, 172);
    MoveByte(m.mem.s, 132, 176, 4, 120);
    SpoilerGivesBack(env, m1, m2);
    SpoilerDiffers(env, m, m0, m2);
  }

  /** Two steps, the second of which leaves the loop. */
  lemma SpoilerRuns(l: Steps<Machine, Exit>, m0: Machine, m1: Machine, m2: Machine)
    requires Sound(l) && l.ok(m0) && l.step(m0) == StepResult(false, l.step(m0).blocked, Go(m1))
    requires l.ok(m1) && l.step(m1).ticks && l.step(m1).out == Stop(Returned, m2)
    ensures Run(l, m0, 3) == Exited(Returned, m2, 2)
  {
    RunUnfolds(l, m0, 3);
    RunUnfolds(l, m1, 3);
  }

  lemma SpoilerDiffers(env: Env, m: Machine, m0: Machine, m2: Machine)
    requires m == SpoilerMachine() && m0.x.localsAddr == 132 && m0.x.localsWords == 1
    requires |m2.mem.s| == |m.mem.s| && m2.mem.s[132] == 1
    ensures !EndsNeutral(env, m, m0, Exited(Returned, m2, 2))
  {
    assert m.mem.s[132] == 0;
  }
}
