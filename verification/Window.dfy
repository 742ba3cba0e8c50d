/** Straight-line opcodes do the same through the window as through all of region S, in a VM the
    window fits (`src/vm/interp.rs`). */
module Window {
  import opened Bytes
  import opened Program
  import opened Memory
  import opened Views
  import opened Machine
  import opened Effects
  import FastPaths
  import Loader

  /** Every global operand lies in the window, and the code is padded to exactly the code window. */
  predicate ProgsFit(ps: ProgsState) {
    && ps.gbase + 4 * (ps.numGlobals + 5) < MASKED
    && |ps.code| == Loader.CODE_WINDOW
  }

  /** The two PARM slots `CALLnH` fills lie in the window. */
  predicate ParmSlotsFit(ps: ProgsState) { ps.gbase + OFS_PARM1 + 12 <= MASKED }

  /** With the 28 reserved globals present, they always do. */
  lemma ReservedGlobalsSuffice(ps: ProgsState)
    requires ProgsFit(ps) && ps.numGlobals >= 28
    ensures ParmSlotsFit(ps)
  {
  }

  /** What the window proof needs of one statement. */
  predicate Readable(m: Machine, ps: ProgsState, st: Stmt) {
    && m.mem.Valid() && |m.mem.s| >= WINDOW
    && ProgsFit(ps)
    && StmtOk(st, ps.gbase, ps.numGlobals + 3, |ps.code|)
  }

  /** The operands a `CASE` or a branch reads lie in the window. */
  lemma TestedOperandFits(m: Machine, ps: ProgsState, st: Stmt)
    requires Readable(m, ps, st) && (st.op.Case? || st.op.CaseRange? || st.op.Branch?)
    ensures Unmasked(st.a, 3) && (st.op.CaseRange? ==> Unmasked(st.b, 3))
  {
    GlobalFits(st.a, ps);
    if st.op.CaseRange? { GlobalFits(st.b, ps); }
  }

  lemma GlobalFits(o: word, ps: ProgsState)
    requires ProgsFit(ps) && OperandOk(Global, o, ps.gbase, ps.numGlobals + 3, |ps.code|)
    ensures Unmasked(o, 3)
  {
  }

  lemma SameWords(s: seq<byte>, o: nat)
    requires |s| >= WINDOW && Unmasked(o, 3)
    ensures G(Window, s, o) == G(Whole, s, o)
    ensures G(Window, s, Nth(o, 1)) == G(Whole, s, Nth(o, 1))
    ensures G(Window, s, Nth(o, 2)) == G(Whole, s, Nth(o, 2))
    ensures forall t, w :: |t| == |s| ==> Set(Window, t, o, w) == Set(Whole, t, o, w)
  {
    SameWord(s, o);
    SameWord(s, Nth(o, 1));
    SameWord(s, Nth(o, 2));
    forall t, w | |t| == |s| ensures Set(Window, t, o, w) == Set(Whole, t, o, w) { SameWord(t, o); }
  }

  lemma AluStepAgrees(env: Env, s: seq<byte>, n: nat, a: nat, b: nat, c: nat)
    requires |s| >= WINDOW && Unmasked(a, 1) && Unmasked(b, 1) && Unmasked(c, 1)
    ensures AluStep(env, Window, s, n, a, b, c) == AluStep(env, Whole, s, n, a, b, c)
  {
    SameWord(s, a);
    SameWord(s, b);
    SameWord(s, c);
  }

  lemma AluVectorAgrees(env: Env, s: seq<byte>, n: nat, a: nat, b: nat, c: nat)
    requires |s| >= WINDOW && Unmasked(a, 3) && Unmasked(b, 3) && Unmasked(c, 3)
    ensures AluVectorStep(env, Window, s, n, a, b, c) == AluVectorStep(env, Whole, s, n, a, b, c)
  {
    AluStepAgrees(env, s, n, a, b, c);
    var s1 := AluStep(env, Whole, s, n, a, b, c);
    AluStepAgrees(env, s1, n, Nth(a, 1), Nth(b, 1), Nth(c, 1));
    var s2 := AluStep(env, Whole, s1, n, Nth(a, 1), Nth(b, 1), Nth(c, 1));
    AluStepAgrees(env, s2, n, Nth(a, 2), Nth(b, 2), Nth(c, 2));
  }

  lemma VectorWordAgrees(env: Env, s: seq<byte>, n: nat, a: nat, b: nat, c: nat)
    requires |s| >= WINDOW && Unmasked(a, 3) && Unmasked(b, 3) && Unmasked(c, 3)
    ensures VectorWordStep(env, Window, s, n, a, b, c) == VectorWordStep(env, Whole, s, n, a, b, c)
  {
    SameVecAt(s, a);
    SameVecAt(s, b);
    SameWord(s, c);
  }

  lemma SameVecAt(s: seq<byte>, o: nat)
    requires |s| >= WINDOW && Unmasked(o, 3)
    ensures VecAt(Window, s, o) == VecAt(Whole, s, o)
  {
    SameWords(s, o);
  }

  lemma ScaledAgrees(env: Env, s: seq<byte>, n: nat, f: word, o: nat, c: nat)
    requires |s| >= WINDOW && Unmasked(o, 1) && Unmasked(c, 1)
    ensures ScaledStep(env, Window, s, n, f, o, c) == ScaledStep(env, Whole, s, n, f, o, c)
  {
    SameWord(s, o);
    SameWord(s, c);
  }

  lemma ScaleAgrees(env: Env, s: seq<byte>, n: nat, a: nat, b: nat, c: nat)
    requires |s| >= WINDOW && Unmasked(a, 3) && Unmasked(b, 3) && Unmasked(c, 3)
    ensures ScaleStep(env, Window, s, n, a, b, c) == ScaleStep(env, Whole, s, n, a, b, c)
  {
    SameWord(s, if n == 3 then a else b);
    var f, o := G(Whole, s, if n == 3 then a else b), if n == 3 then b else a;
    ScaledAgrees(env, s, n, f, o, c);
    var s1 := ScaledStep(env, Whole, s, n, f, o, c);
    ScaledAgrees(env, s1, n, f, Nth(o, 1), Nth(c, 1));
    var s2 := ScaledStep(env, Whole, s1, n, f, Nth(o, 1), Nth(c, 1));
    ScaledAgrees(env, s2, n, f, Nth(o, 2), Nth(c, 2));
  }

  lemma LoadedFieldAgrees(m: Machine, words: nat, e: word, f: word, oc: nat)
    requires |m.mem.s| >= WINDOW && Unmasked(oc, 3) && words <= 3
    ensures LoadFieldEffect(Window, m, words, e, f, oc) == LoadFieldEffect(Whole, m, words, e, f, oc)
  {
    var b := EntField(m.mem, e, f, 4 * words);
    if b.Some? { SameScatter(m.mem.s, oc, b.value, words); }
  }

  lemma LoadFieldAgrees(m: Machine, words: nat, oa: nat, ob: nat, oc: nat)
    requires |m.mem.s| >= WINDOW && words <= 3 && Unmasked(oa, 3) && Unmasked(ob, 3) && Unmasked(oc, 3)
    ensures LoadFieldEffect(Window, m, words, G(Window, m.mem.s, oa), G(Window, m.mem.s, ob), oc)
         == LoadFieldEffect(Whole, m, words, G(Whole, m.mem.s, oa), G(Whole, m.mem.s, ob), oc)
  {
    SameWord(m.mem.s, oa);
    SameWord(m.mem.s, ob);
    LoadedFieldAgrees(m, words, G(Whole, m.mem.s, oa), G(Whole, m.mem.s, ob), oc);
  }

  lemma StoreFieldAgrees(m: Machine, words: nat, oa: nat, ob: nat, oc: nat)
    requires m.mem.Valid() && |m.mem.s| >= WINDOW && 1 <= words <= 3
    requires Unmasked(oa, 3) && Unmasked(ob, 3) && Unmasked(oc, 3)
    ensures StoreFieldEffect(Window, m, words, oa, ob, oc) == StoreFieldEffect(Whole, m, words, oa, ob, oc)
  {
    SameWord(m.mem.s, oa);
    SameWord(m.mem.s, ob);
    SameGather(m.mem.s, oc, words);
    FastPaths.StoreFieldAgrees(Window, m.mem, words, oa, ob, oc);
    FastPaths.StoreFieldAgrees(Whole, m.mem, words, oa, ob, oc);
  }

  lemma StorePtrAgrees(env: Env, m: Machine, words: nat, oa: nat, ob: nat, oc: nat)
    requires m.mem.Valid() && |m.mem.s| >= WINDOW && 1 <= words <= 3
    requires Unmasked(oa, 3) && Unmasked(ob, 3) && Unmasked(oc, 3)
    ensures StorePtrEffect(env, Window, m, words, oa, ob, oc) == StorePtrEffect(env, Whole, m, words, oa, ob, oc)
  {
    SameGather(m.mem.s, oa, words);
    SameWord(m.mem.s, ob);
    SameWord(m.mem.s, oc);
    FastPaths.StorePtrAgrees(env, Window, m, words, oa, ob, oc);
    FastPaths.StorePtrAgrees(env, Whole, m, words, oa, ob, oc);
  }

  lemma LoadPtrAgrees(m: Machine, words: nat, oa: nat, ob: nat, oc: nat)
    requires m.mem.Valid() && |m.mem.s| >= WINDOW && 1 <= words <= 3
    requires Unmasked(oa, 3) && Unmasked(ob, 3) && Unmasked(oc, 3)
    ensures LoadPtrEffect(Window, m, words, oa, ob, oc) == LoadPtrEffect(Whole, m, words, oa, ob, oc)
  {
    SameWord(m.mem.s, oa);
    SameWord(m.mem.s, ob);
    forall b | |b| == 4 * words
      ensures Scatter(Window, m.mem.s, oc, b, words) == Scatter(Whole, m.mem.s, oc, b, words)
    {
      SameScatter(m.mem.s, oc, b, words);
    }
    FastPaths.LoadPtrAgrees(Window, m, words, oa, ob, oc);
    FastPaths.LoadPtrAgrees(Whole, m, words, oa, ob, oc);
  }

  lemma CompoundAgrees(env: Env, m: Machine, n: nat, oa: nat, ob: nat, oc: nat)
    requires m.mem.Valid() && |m.mem.s| >= WINDOW
    requires Unmasked(oa, 3) && Unmasked(ob, 3) && Unmasked(oc, 3)
    ensures CompoundEffect(env, Window, m, n, oa, ob, oc) == CompoundEffect(env, Whole, m, n, oa, ob, oc)
  {
    SameWord(m.mem.s, oa);
    SameWord(m.mem.s, ob);
    SameWords(m.mem.s, oc);
    FastPaths.CompoundAgrees(env, Window, m, n, oa, ob, oc);
    FastPaths.CompoundAgrees(env, Whole, m, n, oa, ob, oc);
  }

  lemma GLoadAgrees(m: Machine, ps: ProgsState, words: nat, base: nat, oi: nat, oc: nat)
    requires |m.mem.s| >= WINDOW && ProgsFit(ps) && words <= 3 && Unmasked(oi, 3) && Unmasked(oc, 3)
    ensures GLoadEffect(Window, m, ps, words, IndexFrom(base, G(Window, m.mem.s, oi)), oc)
         == GLoadEffect(Whole, m, ps, words, IndexFrom(base, G(Whole, m.mem.s, oi)), oc)
  {
    SameWord(m.mem.s, oi);
    var i := IndexFrom(base, G(Whole, m.mem.s, oi));
    if IndexOk(i, words, ps.numGlobals) { SameCopy(m.mem.s, GlobalAt(ps, i), oc, words); }
  }

  lemma GStoreAgrees(m: Machine, ps: ProgsState, words: nat, base: nat, oi: nat, oa: nat)
    requires |m.mem.s| >= WINDOW && ProgsFit(ps) && words <= 3 && Unmasked(oi, 3) && Unmasked(oa, 3)
    ensures GStoreEffect(Window, m, ps, words, IndexFrom(base, G(Window, m.mem.s, oi)), oa)
         == GStoreEffect(Whole, m, ps, words, IndexFrom(base, G(Whole, m.mem.s, oi)), oa)
  {
    SameWord(m.mem.s, oi);
    var i := IndexFrom(base, G(Whole, m.mem.s, oi));
    if IndexOk(i, words, ps.numGlobals) { SameCopy(m.mem.s, oa, GlobalAt(ps, i), words); }
  }

  lemma AluWordStraight(env: Env, m: Machine, ps: ProgsState, st: Stmt)
    requires Readable(m, ps, st) && st.op.AluWord?
    ensures Straight(env, Window, m, ps, st) == Straight(env, Whole, m, ps, st)
  {
    AluStepAgrees(env, m.mem.s, st.op.n, st.a, st.b, st.c);
  }

  lemma AluVectorStraight(env: Env, m: Machine, ps: ProgsState, st: Stmt)
    requires Readable(m, ps, st) && st.op.AluVector?
    ensures Straight(env, Window, m, ps, st) == Straight(env, Whole, m, ps, st)
  {
    AluVectorAgrees(env, m.mem.s, st.op.n, st.a, st.b, st.c);
  }

  lemma CompareStraight(env: Env, m: Machine, ps: ProgsState, st: Stmt)
    requires Readable(m, ps, st) && st.op.CompareStrings?
    ensures Straight(env, Window, m, ps, st) == Straight(env, Whole, m, ps, st)
  {
    SameWord(m.mem.s, st.a);
    SameWord(m.mem.s, st.b);
    SameWord(m.mem.s, st.c);
  }

  lemma VectorWordStraight(env: Env, m: Machine, ps: ProgsState, st: Stmt)
    requires Readable(m, ps, st) && st.op.VectorWord?
    ensures Straight(env, Window, m, ps, st) == Straight(env, Whole, m, ps, st)
  {
    VectorWordAgrees(env, m.mem.s, st.op.n, st.a, st.b, st.c);
  }

  lemma ScaleStraight(env: Env, m: Machine, ps: ProgsState, st: Stmt)
    requires Readable(m, ps, st) && st.op.Scale?
    ensures Straight(env, Window, m, ps, st) == Straight(env, Whole, m, ps, st)
  {
    ScaleAgrees(env, m.mem.s, st.op.n, st.a, st.b, st.c);
  }

  lemma NotStringStraight(env: Env, m: Machine, ps: ProgsState, st: Stmt)
    requires Readable(m, ps, st) && st.op.NotString?
    ensures Straight(env, Window, m, ps, st) == Straight(env, Whole, m, ps, st)
  {
    SameWord(m.mem.s, st.a);
  }

  lemma ArithmeticAgrees(env: Env, m: Machine, ps: ProgsState, st: Stmt)
    requires Readable(m, ps, st) && Computes(st.op)
    ensures Straight(env, Window, m, ps, st) == Straight(env, Whole, m, ps, st)
  {
    match st.op
    case AluWord(_) => AluWordStraight(env, m, ps, st);
    case AluVector(_) => AluVectorStraight(env, m, ps, st);
    case VectorWord(_) => VectorWordStraight(env, m, ps, st);
    case Scale(_) => ScaleStraight(env, m, ps, st);
    case CompareStrings(_) => CompareStraight(env, m, ps, st);
    case NotString => NotStringStraight(env, m, ps, st);
  }

  lemma LoadFieldStraight(env: Env, m: Machine, ps: ProgsState, st: Stmt)
    requires Readable(m, ps, st) && st.op.LoadField?
    ensures Straight(env, Window, m, ps, st) == Straight(env, Whole, m, ps, st)
  {
    LoadFieldAgrees(m, st.op.words, st.a, st.b, st.c);
  }

  lemma StoreFieldStraight(env: Env, m: Machine, ps: ProgsState, st: Stmt)
    requires Readable(m, ps, st) && st.op.StoreField?
    ensures Straight(env, Window, m, ps, st) == Straight(env, Whole, m, ps, st)
  {
    StoreFieldAgrees(m, st.op.words, st.a, st.b, st.c);
  }

  lemma StorePtrStraight(env: Env, m: Machine, ps: ProgsState, st: Stmt)
    requires Readable(m, ps, st) && st.op.StorePtr?
    ensures Straight(env, Window, m, ps, st) == Straight(env, Whole, m, ps, st)
  {
    StorePtrAgrees(env, m, st.op.words, st.a, st.b, st.c);
  }

  lemma LoadPtrStraight(env: Env, m: Machine, ps: ProgsState, st: Stmt)
    requires Readable(m, ps, st) && st.op.LoadPtr?
    ensures Straight(env, Window, m, ps, st) == Straight(env, Whole, m, ps, st)
  {
    LoadPtrAgrees(m, st.op.words, st.a, st.b, st.c);
  }

  lemma CompoundStraight(env: Env, m: Machine, ps: ProgsState, st: Stmt)
    requires Readable(m, ps, st) && st.op.CompoundStorePtr?
    ensures Straight(env, Window, m, ps, st) == Straight(env, Whole, m, ps, st)
  {
    CompoundAgrees(env, m, st.op.n, st.a, st.b, st.c);
  }

  lemma LoadArrayStraight(env: Env, m: Machine, ps: ProgsState, st: Stmt)
    requires Readable(m, ps, st) && st.op.LoadArray?
    ensures Straight(env, Window, m, ps, st) == Straight(env, Whole, m, ps, st)
  {
    GLoadAgrees(m, ps, st.op.words, st.a, st.b, st.c);
  }

  lemma GLoadStraight(env: Env, m: Machine, ps: ProgsState, st: Stmt)
    requires Readable(m, ps, st) && st.op.GLoad?
    ensures Straight(env, Window, m, ps, st) == Straight(env, Whole, m, ps, st)
  {
    GLoadAgrees(m, ps, st.op.words, 0, st.a, st.c);
  }

  lemma GStoreStraight(env: Env, m: Machine, ps: ProgsState, st: Stmt)
    requires Readable(m, ps, st) && st.op.GStore?
    ensures Straight(env, Window, m, ps, st) == Straight(env, Whole, m, ps, st)
  {
    GStoreAgrees(m, ps, st.op.words, 0, st.b, st.a);
  }

  lemma AddressesAgree(env: Env, m: Machine, ps: ProgsState, st: Stmt)
    requires Readable(m, ps, st) && (st.op.Address? || st.op.GlobalAddress?)
    ensures Straight(env, Window, m, ps, st) == Straight(env, Whole, m, ps, st)
  {
    var s := m.mem.s;
    SameWords(s, st.c);
    SameWord(s, st.b);
    if st.op.Address? { SameWord(s, st.a); }
  }

  /** Every straight-line opcode has the same effect through either view. */
  lemma StraightAgrees(env: Env, m: Machine, ps: ProgsState, st: Stmt)
    requires Readable(m, ps, st) && !IsControl(st.op)
    ensures Straight(env, Window, m, ps, st) == Straight(env, Whole, m, ps, st)
  {
    match st.op
    case AluWord(_) => ArithmeticAgrees(env, m, ps, st);
    case AluVector(_) => ArithmeticAgrees(env, m, ps, st);
    case VectorWord(_) => ArithmeticAgrees(env, m, ps, st);
    case Scale(_) => ArithmeticAgrees(env, m, ps, st);
    case NotString => ArithmeticAgrees(env, m, ps, st);
    case CompareStrings(_) => ArithmeticAgrees(env, m, ps, st);
    case LoadField(_) => LoadFieldStraight(env, m, ps, st);
    case StoreField(_) => StoreFieldStraight(env, m, ps, st);
    case StoreGlobal(words) => SameCopy(m.mem.s, st.a, st.b, words);
    case StorePtr(_) => StorePtrStraight(env, m, ps, st);
    case LoadPtr(_) => LoadPtrStraight(env, m, ps, st);
    case CompoundStorePtr(_) => CompoundStraight(env, m, ps, st);
    case Address => AddressesAgree(env, m, ps, st);
    case GlobalAddress => AddressesAgree(env, m, ps, st);
    case LoadArray(_) => LoadArrayStraight(env, m, ps, st);
    case GLoad(_) => GLoadStraight(env, m, ps, st);
    case GStore(_) => GStoreStraight(env, m, ps, st);
    case BoundCheck => SameWord(m.mem.s, st.a);
    case Push => SameWord(m.mem.s, st.a);
    case FetchGlobal(_) =>
    case Bad =>
    case JumpOutOfRange =>
  }
}
