/** What each straight-line opcode does, fast path first (`src/vm/interp.rs`). */
module Effects {
  import opened Bytes
  import opened Program
  import opened Memory
  import opened Views
  import opened Machine

  /** The machine after an opcode, or the fault it raised (changing nothing). */
  datatype Effect = Done(m: Machine) | Fault(kind: ErrorKind)

  /** A word index as a byte offset. */
  function Scaled(idx: word): word { Wrap(4 * idx) }

  /** The pointer a base and an index name. */
  function Indexed(base: word, idx: word): word { Wrap(base + 4 * idx) }

  lemma IndexedSum(base: word, idx: word)
    ensures Wrap(base + Scaled(idx)) == Indexed(base, idx)
  {
  }

  function StoreFieldEffect(v: View, m: Machine, words: nat, oa: nat, ob: nat, oc: nat): (r: Machine)
    requires HasView(v, m.mem.s)
    ensures SameContext(m, r)
  {
    match StoreFieldView(v, m.mem, words, oa, ob, oc)
    case Some(mem) => m.(mem := mem)
    case None => m.(mem := StoreFieldSlow(m.mem, words, oa, ob, oc))
  }

  function StorePtrSlow(env: Env, m: Machine, base: word, idx: word, b: seq<byte>): (r: Effect)
    requires m.mem.Valid()
    ensures r.Done? ==> SameContext(m, r.m)
  {
    match PtrWrite(env, m, base, Scaled(idx), b)
    case Wrote(mem, str) => Done(m.(mem := mem, str := str))
    case WriteFault(kind) => Fault(kind)
  }

  function StorePtrEffect(env: Env, v: View, m: Machine, words: nat, oa: nat, ob: nat, oc: nat): (r: Effect)
    requires m.mem.Valid() && HasView(v, m.mem.s)
    ensures r.Done? ==> SameContext(m, r.m)
  {
    var base, idx := G(v, m.mem.s, ob), G(v, m.mem.s, oc);
    var b := Gather(v, m.mem.s, oa, words);
    match PtrWriteView(v, m.mem, Indexed(base, idx), b)
    case Some(mem) => Done(m.(mem := mem))
    case None => StorePtrSlow(env, m, base, idx, b)
  }

  function LoadPtrSlow(m: Machine, base: word, idx: word, words: nat, oc: nat): (r: Effect)
    requires m.mem.Valid()
    ensures r.Done? ==> SameContext(m, r.m)
  {
    match PtrRead(m, base, Scaled(idx), 4 * words)
    case Got(b) => Done(WithS(m, Scatter(Whole, m.mem.s, oc, b, words)))
    case ReadFault => Fault(BadPointerRead)
  }

  function LoadPtrEffect(v: View, m: Machine, words: nat, oa: nat, ob: nat, oc: nat): (r: Effect)
    requires m.mem.Valid() && HasView(v, m.mem.s)
    ensures r.Done? ==> SameContext(m, r.m)
  {
    var base, idx := G(v, m.mem.s, oa), G(v, m.mem.s, ob);
    match PtrReadView(v, m.mem, Indexed(base, idx), 4 * words)
    case Some(b) => Done(WithS(m, Scatter(v, m.mem.s, oc, b, words)))
    case None => LoadPtrSlow(m, base, idx, words, oc)
  }

  function CompoundEffectSlow(env: Env, m: Machine, n: nat, oa: nat, ob: nat, oc: nat): (r: Effect)
    requires m.mem.Valid()
    ensures r.Done? ==> SameContext(m, r.m)
  {
    match CompoundSlow(env, m.mem, n, oa, ob, oc)
    case Mem1(mem) => Done(m.(mem := mem))
    case MemFault(kind) => Fault(kind)
  }

  function CompoundEffect(env: Env, v: View, m: Machine, n: nat, oa: nat, ob: nat, oc: nat): (r: Effect)
    requires m.mem.Valid() && HasView(v, m.mem.s)
    ensures r.Done? ==> SameContext(m, r.m)
  {
    match CompoundView(env, v, m.mem, n, oa, ob, oc)
    case Some(mem) => Done(m.(mem := mem))
    case None => CompoundEffectSlow(env, m, n, oa, ob, oc)
  }

  /** `FETCH_GBL_*`: an element of a counted array; the index comes from memory, so all of region S
      is used. */
  function FetchGlobalEffect(env: Env, m: Machine, gbase: word, words: nat, base: word, ob: nat, oc: nat): (r: Effect)
    ensures r.Done? ==> SameContext(m, r.m)
  {
    var i := env.floatToInt(G(Whole, m.mem.s, ob));
    if base == 0 then Fault(ArrayIndex)
    else if i > G(Whole, m.mem.s, gbase + 4 * (base - 1)) then Fault(ArrayIndex)
    else Done(WithS(m, Copy(Whole, m.mem.s, gbase + 4 * Wrap(base + Wrap(i * words)), oc, words)))
  }

  /** A signed index added to an array's base. */
  function IndexFrom(base: nat, w: word): int { base + Signed(w) }

  /** The pointer to a global of a progs. */
  function GlobalPointer(gbase: word, base: word, idx: word): word { Wrap(gbase + Wrap(4 * Wrap(base + idx))) }

  /** A global index is usable for `words` words. */
  predicate IndexOk(i: int, words: nat, numGlobals: word) { 0 <= i && i + words <= numGlobals }

  /** The byte offset of a progs' global. */
  function GlobalAt(ps: ProgsState, i: nat): nat { ps.gbase + 4 * i }

  function GLoadEffect(v: View, m: Machine, ps: ProgsState, words: nat, i: int, oc: nat): (r: Effect)
    requires HasView(v, m.mem.s)
    ensures r.Done? ==> SameContext(m, r.m)
  {
    if IndexOk(i, words, ps.numGlobals) then Done(WithS(m, Copy(v, m.mem.s, GlobalAt(ps, i), oc, words)))
    else Fault(ArrayIndex)
  }

  function GStoreEffect(v: View, m: Machine, ps: ProgsState, words: nat, i: int, oa: nat): (r: Effect)
    requires HasView(v, m.mem.s)
    ensures r.Done? ==> SameContext(m, r.m)
  {
    if IndexOk(i, words, ps.numGlobals) then Done(WithS(m, Copy(v, m.mem.s, oa, GlobalAt(ps, i), words)))
    else Fault(ArrayIndex)
  }

  function SatAdd(a: nat, b: nat): nat { if a + b > U32_MAX then U32_MAX else a + b }

  /** Where words pushed next start, for a local stack at `lsBase` with `top` words in use. */
  function PushedAt(lsBase: nat, top: nat): word { Wrap(lsBase + Wrap(4 * Wrap(top))) }

  /** `PUSH`: takes words of local-stack memory for the current function. */
  function PushEffect(v: View, m: Machine, oa: nat, oc: nat): (r: Effect)
    requires m.mem.Valid() && HasView(v, m.mem.s)
    ensures r.Done? ==> SameContext(m, r.m)
  {
    var addr := PushedAt(m.mem.lsBase, m.x.lsTop + m.x.pushed);
    var pushed := SatAdd(m.x.pushed, G(v, m.mem.s, oa));
    if SatAdd(m.x.lsTop, pushed) >= m.mem.lsWords then Fault(PushedTooMuch)
    else Done(WithS(m, Set(Whole, m.mem.s, oc, addr)).(x := m.x.(pushed := pushed)))
  }

  /** Opcodes that compute a value. */
  predicate Computes(op: Op) {
    op.AluWord? || op.AluVector? || op.VectorWord? || op.Scale? || op.CompareStrings? || op.NotString?
  }

  /** Opcodes that move the program counter other than to the next statement. */
  predicate IsControl(op: Op) {
    op.Branch? || op.Goto? || op.Switch? || op.Case? || op.CaseRange? || op.Call? || op.Return?
  }

  /** The effect of a straight-line opcode. */
  function Straight(env: Env, v: View, m: Machine, ps: ProgsState, st: Stmt): (r: Effect)
    requires m.mem.Valid() && HasView(v, m.mem.s) && !IsControl(st.op)
    ensures r.Done? ==> SameContext(m, r.m)
  {
    match st.op
    case AluWord(n) => Done(WithS(m, AluStep(env, v, m.mem.s, n, st.a, st.b, st.c)))
    case AluVector(n) => Done(WithS(m, AluVectorStep(env, v, m.mem.s, n, st.a, st.b, st.c)))
    case VectorWord(n) => Done(WithS(m, VectorWordStep(env, v, m.mem.s, n, st.a, st.b, st.c)))
    case Scale(n) => Done(WithS(m, ScaleStep(env, v, m.mem.s, n, st.a, st.b, st.c)))
    case NotString => Done(WithS(m, Set(Whole, m.mem.s, st.c, NotStringResult(m, G(v, m.mem.s, st.a)))))
    case CompareStrings(n) =>
      var w := CompareStringsResult(env, m, n, G(v, m.mem.s, st.a), G(v, m.mem.s, st.b));
      Done(WithS(m, Set(Whole, m.mem.s, st.c, w)))
    case LoadField(words) => Done(LoadFieldEffect(v, m, words, G(v, m.mem.s, st.a), G(v, m.mem.s, st.b), st.c))
    case Address => Done(AddressEffect(v, m, G(v, m.mem.s, st.a), G(v, m.mem.s, st.b), st.c))
    case StoreGlobal(words) => Done(WithS(m, Copy(v, m.mem.s, st.a, st.b, words)))
    case StorePtr(words) => StorePtrEffect(env, v, m, words, st.a, st.b, st.c)
    case LoadPtr(words) => LoadPtrEffect(v, m, words, st.a, st.b, st.c)
    case StoreField(words) => Done(StoreFieldEffect(v, m, words, st.a, st.b, st.c))
    case CompoundStorePtr(n) => CompoundEffect(env, v, m, n, st.a, st.b, st.c)
    case FetchGlobal(words) => FetchGlobalEffect(env, m, ps.gbase, words, st.a, st.b, st.c)
    case GlobalAddress =>
      Done(WithS(m, Set(v, m.mem.s, st.c, GlobalPointer(ps.gbase, st.a, G(v, m.mem.s, st.b)))))
    case LoadArray(words) => GLoadEffect(v, m, ps, words, IndexFrom(st.a, G(v, m.mem.s, st.b)), st.c)
    case GLoad(words) => GLoadEffect(v, m, ps, words, IndexFrom(0, G(v, m.mem.s, st.a)), st.c)
    case GStore(words) => GStoreEffect(v, m, ps, words, IndexFrom(0, G(v, m.mem.s, st.b)), st.a)
    case BoundCheck =>
      var w := G(v, m.mem.s, st.a);
      if w < st.c || w >= st.b then Fault(BoundCheckErr) else Done(m)
    case Push => PushEffect(v, m, st.a, st.c)
    case Bad => Fault(BadOpcode)
    case JumpOutOfRange => Fault(JumpOutOfRangeErr)
  }
}
