/** The interpreter's state and the effects of its straight-line opcodes
    (`src/vm/core.rs`, `src/vm/interp.rs`). */
module Machine {
  import opened Bytes
  import opened Program
  import opened Memory
  import opened Views

  // ---- state -----------------------------------------------------------------------------------

  const NO_FUNCTION: nat := 0xFFFF_FFFF
  const OFS_RETURN: nat := 4
  const OFS_PARM0: nat := 16
  const OFS_PARM1: nat := 28

  /** The address of a reserved slot of the progs whose globals start at `gbase`. */
  function SlotAt(gbase: nat, ofs: nat): nat { gbase + ofs }

  /** Interpreter registers. */
  datatype Exec = Exec(
    pc: nat, func: nat, prnum: nat, pushed: nat, lsTop: nat,
    switchRef: nat, switchKind: SwitchKind, localsAddr: nat, localsWords: nat)

  /** A saved caller context. */
  datatype Frame = Frame(
    resumePc: nat, func: nat, prnum: nat, pushed: nat, switchRef: nat, switchKind: SwitchKind,
    localsAt: nat, localsAddr: nat, localsWords: nat)

  /** How a function slot is dispatched. */
  datatype Callee = NullFn | QcFn | BuiltinFn(slot: nat) | MissingFn | InvalidFn

  /** A global kept in sync between progs: its absolute byte offset and size. */
  datatype SharedGlobal = SharedGlobal(offset: nat, words: nat)

  /** A progs loaded into a VM. */
  datatype ProgsState = ProgsState(
    gbase: word, numGlobals: word, code: seq<Stmt>, callees: seq<Callee>, funcs: seq<Option<QcFunc>>,
    shared: seq<Option<SharedGlobal>>)

  /** Temp strings (with terminator and padding) and host-interned strings. */
  datatype StrTab = StrTab(temps: seq<Option<seq<byte>>>, bytes: nat, statics: seq<seq<byte>>)

  /** What a run never changes: the loaded progs, the limits, and arithmetic on words, which is left
      uninterpreted. */
  datatype Env = Env(
    progs: seq<ProgsState>, callDepth: nat, switchReset: bool, neRaw: bool, maxTempBytes: nat,
    word2: (nat, word, word) -> word, floatEq: (word, word) -> bool, floatLe: (word, word) -> bool,
    floatToInt: word -> word, intToFloat: int -> word)

  datatype Machine = Machine(mem: Mem, str: StrTab, frames: seq<Frame>, x: Exec, argc: nat)

  datatype ErrorKind =
    | BadOpcode | JumpOutOfRangeErr | NullFunction | InvalidFunction | NotImplemented | CallDepth
    | LocalStack | Reentrancy | Runaway | BadPointerRead | BadPointerWrite | NullPointerWrite
    | ArrayIndex | BoundCheckErr | PushedTooMuch | StringCaseRange | TooManyArguments | OutOfThreads | HostError

  // ---- shape -----------------------------------------------------------------------------------

  /** Only the bytes of the regions differ. */
  predicate SameShape(m: Mem, m': Mem) {
    && m' == m.(s := m'.s, e := m'.e, h := m'.h)
    && |m'.s| == |m.s| && |m'.e| == |m.e| && |m'.h| == |m.h|
  }

  /** Execution contexts are untouched, except that memory may have been pushed, within the local
      stack. */
  predicate SameContext(m: Machine, m': Machine) {
    && SameShape(m.mem, m'.mem) && m'.frames == m.frames && m'.argc == m.argc
    && m'.x == m.x.(pushed := m'.x.pushed)
    && (m'.x.pushed == m.x.pushed || m.x.lsTop + m'.x.pushed < m.mem.lsWords)
  }

  function WithS(m: Machine, s: seq<byte>): (r: Machine)
    requires |s| == |m.mem.s|
    ensures SameContext(m, r) && r.x == m.x && r.str == m.str
    ensures r.mem == m.mem.(s := s)
  {
    m.(mem := m.mem.(s := s))
  }

  // ---- strings ---------------------------------------------------------------------------------

  const TAG: nat := 0x4000_0000

  datatype StrKind = Linear(p: word) | Temp(slot: nat) | Static(index: nat)

  /** What a string reference designates, by its top two bits. */
  function Classify(r: word): StrKind {
    if r / TAG == 2 then Temp(r % TAG) else if r / TAG == 3 then Static(r % TAG) else Linear(r)
  }

  function TempRaw(str: StrTab, slot: nat): Option<seq<byte>> {
    if slot < |str.temps| then str.temps[slot] else None
  }

  function StaticStr(str: StrTab, index: nat): Option<seq<byte>> {
    if index < |str.statics| then Some(str.statics[index]) else None
  }

  const MAX_TEMP_GROWTH: nat := 0x10_0000

  /** Temp slot data grown with zeros to at least `len` bytes, within the limits. */
  function GrowTemp(str: StrTab, slot: nat, len: nat, maxBytes: nat): Option<StrTab> {
    match TempRaw(str, slot)
    case None => None
    case Some(data) =>
      if len <= |data| then Some(str)
      else if len > MAX_TEMP_GROWTH then None
      else
        var grown := (len + 3) / 4 * 4;
        var bytes := str.bytes + (grown - |data|);
        if bytes > maxBytes then None
        else Some(str.(temps := str.temps[slot := Some(data + Zeros(grown - |data|))], bytes := bytes))
  }

  /** The NUL-terminated bytes at linear address `p`, up to the end of its region or entity. */
  function CStr(m: Mem, p: word): Option<seq<byte>>
    requires m.Valid()
  {
    match Locate(m, p, 1)
    case None => None
    case Some(InS(o)) => Some(UntilNul(m.s[o..]))
    case Some(InE(o, ent)) =>
      EntAccess(m, p, 1);
      BlockBounds(m, ent);
      Some(UntilNul(m.e[o..Times(ent, m.stride) + m.fieldBytes]))
    case Some(InH(o)) => Some(UntilNul(m.h[o..]))
  }

  /** The text of a string reference. */
  function StrBytes(m: Machine, r: word): Option<seq<byte>>
    requires m.mem.Valid()
  {
    match Classify(r)
    case Linear(p) => CStr(m.mem, p)
    case Temp(slot) => (match TempRaw(m.str, slot) case Some(d) => Some(UntilNul(d)) case None => None)
    case Static(index) => StaticStr(m.str, index)
  }

  function Text(m: Machine, r: word): seq<byte>
    requires m.mem.Valid()
  {
    StrBytes(m, r).GetOr([])
  }

  /** String equality: identical references are equal, null equals any empty string. */
  predicate StringsEqual(m: Machine, a: word, b: word)
    requires m.mem.Valid()
  {
    if a == b then true
    else if a == 0 then Text(m, b) == []
    else if b == 0 then Text(m, a) == []
    else Text(m, a) == Text(m, b)
  }

  /** The first byte difference of two NUL-terminated texts. */
  function StrCmp(a: seq<byte>, b: seq<byte>): int {
    if a == [] && b == [] then 0
    else if a == [] then -(b[0] as int)
    else if b == [] then a[0]
    else if a[0] != b[0] then a[0] as int - b[0] as int
    else StrCmp(a[1..], b[1..])
  }

  const ONE: word := 0x3F80_0000

  function FBool(b: bool): word { if b then ONE else 0 }

  predicate FloatIsTrue(w: word) { w % 0x8000_0000 != 0 }

  /** `EQ_S` / `NE_S` result words. */
  function CompareStringsResult(env: Env, m: Machine, n: nat, a: word, b: word): word
    requires m.mem.Valid()
  {
    var eq := StringsEqual(m, a, b);
    if n == 12 then FBool(eq)
    else if eq || !env.neRaw then FBool(!eq)
    else env.intToFloat(StrCmp(Text(m, a), Text(m, b)))
  }

  /** `NOT_S` result words. */
  function NotStringResult(m: Machine, a: word): word
    requires m.mem.Valid()
  {
    FBool(a == 0 || Text(m, a) == [])
  }

  // ---- arithmetic ------------------------------------------------------------------------------

  function AluStep(env: Env, v: View, s: seq<byte>, n: nat, a: nat, b: nat, c: nat): (r: seq<byte>)
    requires HasView(v, s)
    ensures |r| == |s|
  {
    Set(v, s, c, env.word2(n, G(v, s, a), G(v, s, b)))
  }

  /** Component by component, each seeing what the one before wrote. */
  function AluVectorStep(env: Env, v: View, s: seq<byte>, n: nat, a: nat, b: nat, c: nat): (r: seq<byte>)
    requires HasView(v, s)
    ensures |r| == |s|
  {
    var s1 := AluStep(env, v, s, n, a, b, c);
    var s2 := AluStep(env, v, s1, n, Nth(a, 1), Nth(b, 1), Nth(c, 1));
    AluStep(env, v, s2, n, Nth(a, 2), Nth(b, 2), Nth(c, 2))
  }

  /** The three words of a vector. */
  datatype Vec = Vec(x: word, y: word, z: word)

  function VecAt(v: View, s: seq<byte>, o: nat): Vec
    requires HasView(v, s)
  {
    Vec(G(v, s, o), G(v, s, Nth(o, 1)), G(v, s, Nth(o, 2)))
  }

  /** `MUL_V`: the products of the components, added in order. */
  function Dot(env: Env, p: Vec, q: Vec): word {
    env.word2(6, env.word2(6, env.word2(1, p.x, q.x), env.word2(1, p.y, q.y)), env.word2(1, p.z, q.z))
  }

  predicate SameVec(env: Env, p: Vec, q: Vec) {
    env.floatEq(p.x, q.x) && env.floatEq(p.y, q.y) && env.floatEq(p.z, q.z)
  }

  /** The word an opcode computes of two vectors; `NOT_V` looks at the first only. */
  function OfVectors(env: Env, n: nat, p: Vec, q: Vec): word {
    if n == 2 then Dot(env, p, q)
    else if n == 11 then FBool(SameVec(env, p, q))
    else if n == 16 then FBool(!SameVec(env, p, q))
    else FBool(SameVec(env, p, Vec(0, 0, 0)))
  }

  function VectorWordStep(env: Env, v: View, s: seq<byte>, n: nat, a: nat, b: nat, c: nat): (r: seq<byte>)
    requires HasView(v, s)
    ensures |r| == |s|
  {
    Set(v, s, c, OfVectors(env, n, VecAt(v, s, a), VecAt(v, s, b)))
  }

  /** A component times (`MUL_FV`, `MUL_VF`) or divided by (`DIV_VF`) a number. */
  function ScaledWord(env: Env, n: nat, w: word, f: word): word {
    if n == 3 then env.word2(1, f, w) else env.word2(if n == 4 then 1 else 5, w, f)
  }

  function ScaledStep(env: Env, v: View, s: seq<byte>, n: nat, f: word, o: nat, c: nat): (r: seq<byte>)
    requires HasView(v, s)
    ensures |r| == |s|
  {
    Set(v, s, c, ScaledWord(env, n, G(v, s, o), f))
  }

  /** The number is read once; then component by component, each seeing what the one before wrote. */
  function ScaleStep(env: Env, v: View, s: seq<byte>, n: nat, a: nat, b: nat, c: nat): (r: seq<byte>)
    requires HasView(v, s)
    ensures |r| == |s|
  {
    var f, o := G(v, s, if n == 3 then a else b), if n == 3 then b else a;
    var s1 := ScaledStep(env, v, s, n, f, o, c);
    var s2 := ScaledStep(env, v, s1, n, f, Nth(o, 1), Nth(c, 1));
    ScaledStep(env, v, s2, n, f, Nth(o, 2), Nth(c, 2))
  }

  // ---- entity fields ---------------------------------------------------------------------------

  /** The `n` bytes of field `f` of entity `e`, if the slice bounds allow it: the fast path, which
      does not look at the slot table. */
  function EntField(m: Mem, e: nat, f: nat, n: nat): (r: Option<seq<byte>>)
    ensures r.Some? ==> |r.value| == n
  {
    var within := 4 * f;
    if within + n > m.fieldBytes then None
    else
      var off := Times(e, m.stride) + within;
      if off + n <= |m.e| then Some(m.e[off..off + n]) else None
  }

  /** `LOAD_*`: an invalid entity zeroes the whole value, an invalid field only its first word. */
  function LoadFieldEffect(v: View, m: Machine, words: nat, e: word, f: word, oc: nat): (r: Machine)
    requires HasView(v, m.mem.s)
    ensures SameContext(m, r)
  {
    match EntField(m.mem, e, f, 4 * words)
    case Some(b) => WithS(m, Scatter(v, m.mem.s, oc, b, words))
    case None => WithS(m, ZeroWords(Whole, m.mem.s, oc, if e < |m.mem.slots| then 1 else words))
  }

  /** The pointer value of entity `e`'s field `f`, not validated. */
  function FieldPointer(m: Mem, e: word, f: word): word { Wrap(m.eBase + Times(e, m.stride) + 4 * f) }

  /** `ADDRESS`: a pointer to a field, unless the entity is missing or protected. */
  function AddressEffect(v: View, m: Machine, e: word, f: word, oc: nat): (r: Machine)
    requires HasView(v, m.mem.s)
    ensures SameContext(m, r)
  {
    if e < |m.mem.slots| && !m.mem.slots[e].prot then
      WithS(m, Set(v, m.mem.s, oc, FieldPointer(m.mem, e, f)))
    else if e >= |m.mem.slots| then m
    else WithS(m, Set(Whole, m.mem.s, oc, U32_MAX))
  }

  /** `STOREF_*` by the fast path: `None` when it does not apply. */
  function StoreFieldView(v: View, m: Mem, words: nat, oa: nat, ob: nat, oc: nat): (r: Option<Mem>)
    requires HasView(v, m.s)
    ensures r.Some? ==> SameShape(m, r.value)
  {
    var e, f := G(v, m.s, oa), G(v, m.s, ob);
    var within := 4 * f;
    if within + 4 * words > m.fieldBytes || e >= |m.slots| || m.slots[e].prot then None
    else
      var b := Gather(v, m.s, oc, words);
      var off := Times(e, m.stride) + within;
      if off + |b| <= |m.e| then Some(m.(e := Splice(m.e, off, b))) else None
  }

  /** Writes `words` entity words one at a time. */
  function PutEntWords(m: Mem, o: nat, oc: nat, words: nat): (r: Mem)
    ensures SameShape(m, r) && r.s == m.s && r.h == m.h
  {
    if words == 0 then m
    else
      var t := PutEntWords(m, o, oc, words - 1);
      var at := Nth(o, words - 1);
      if at + 4 <= |t.e| then t.(e := Splice(t.e, at, BytesOf(G(Whole, t.s, Nth(oc, words - 1))))) else t
  }

  /** `STOREF_*` by the slow path. */
  function StoreFieldSlow(m: Mem, words: nat, oa: nat, ob: nat, oc: nat): (r: Mem)
    ensures SameShape(m, r)
  {
    var e, f := G(Whole, m.s, oa), G(Whole, m.s, ob);
    match FieldOffset(m, e, f, words)
    case Some(o) => if m.slots[e].prot then m else PutEntWords(m, o, oc, words)
    case None => m
  }

  // ---- pointers --------------------------------------------------------------------------------

  /** Byte offset in region E of an access at pointer `p`, and whether its entity is protected. */
  function EntTarget(m: Mem, p: word, n: nat): Option<(nat, bool)>
    requires m.stride > 0
  {
    if p < m.eBase then None
    else
      var off := p - m.eBase;
      var e, within := Quot(off, m.stride), Rem(off, m.stride);
      if e < |m.slots| && within + n <= m.fieldBytes then Some((off, m.slots[e].prot)) else None
  }

  /** Reads through a pointer by the fast path. */
  function PtrReadView(v: View, m: Mem, p: word, n: nat): (r: Option<seq<byte>>)
    requires HasView(v, m.s) && m.stride > 0
    ensures r.Some? ==> |r.value| == n
  {
    if InView(v, m.s, p, n) then Some(m.s[p..p + n])
    else match EntTarget(m, p, n)
      case Some((off, _)) => if off + n <= |m.e| then Some(m.e[off..off + n]) else None
      case None => None
  }

  datatype ReadResult = Got(bytes: seq<byte>) | ReadFault

  /** `n` bytes of a string's data at `offset`, zero past its end. */
  function StrData(data: seq<byte>, offset: nat, n: nat): (r: seq<byte>)
    ensures |r| == n
  {
    seq(n, i requires 0 <= i < n => if offset + i < |data| then data[offset + i] else 0)
  }

  /** Reads through a pointer: memory, else the all-ones sentinel, else inside a string. */
  function PtrRead(m: Machine, base: word, offset: word, n: nat): (r: ReadResult)
    requires m.mem.Valid()
    ensures r.Got? ==> |r.bytes| == n
  {
    var addr := Wrap(base + offset);
    match Read(m.mem, addr, n)
    case Some(b) => Got(b)
    case None =>
      if addr == U32_MAX then Got(Zeros(n))
      else match Classify(base)
        case Temp(slot) => (match TempRaw(m.str, slot) case Some(d) => Got(StrData(d, offset, n)) case None => ReadFault)
        case Static(i) => (match StaticStr(m.str, i) case Some(d) => Got(StrData(d, offset, n)) case None => ReadFault)
        case Linear(_) => ReadFault
  }

  /** Writes through a pointer by the fast path. */
  function PtrWriteView(v: View, m: Mem, p: word, b: seq<byte>): (r: Option<Mem>)
    requires HasView(v, m.s) && m.stride > 0
    ensures r.Some? ==> SameShape(m, r.value)
  {
    if InView(v, m.s, p, |b|) then
      if p == 0 then None else Some(m.(s := Splice(m.s, p, b)))
    else match EntTarget(m, p, |b|)
      case Some((off, prot)) => if !prot && off + |b| <= |m.e| then Some(m.(e := Splice(m.e, off, b))) else None
      case None => None
  }

  datatype WriteResult = Wrote(mem: Mem, str: StrTab) | WriteFault(kind: ErrorKind)

  /** Writes through a pointer: memory, a protected entity (skipped), the sentinel (skipped), or a
      temp string, which grows. */
  function PtrWrite(env: Env, m: Machine, base: word, offset: word, b: seq<byte>): (r: WriteResult)
    requires m.mem.Valid()
    ensures r.Wrote? ==> SameShape(m.mem, r.mem)
  {
    var addr := Wrap(base + offset);
    match CheckWrite(m.mem, addr, |b|)
    case Writable(_) => Wrote(Put(m.mem, addr, b), m.str)
    case Refused(Protected(_)) => Wrote(m.mem, m.str)
    case Refused(err) =>
      if addr == U32_MAX then Wrote(m.mem, m.str)
      else if base / TAG == 2 then
        match GrowTemp(m.str, base % TAG, offset + |b|, env.maxTempBytes)
        case None => WriteFault(BadPointerWrite)
        case Some(t) =>
          var d := t.temps[base % TAG].value;
          Wrote(m.mem, t.(temps := t.temps[base % TAG := Some(Splice(d, offset, b))]))
      else WriteFault(if err.NullWrite? then NullPointerWrite else BadPointerWrite)
  }

  /** `*STOREP_F` by the fast path: `*B op= A`, then `C` = the new value. */
  function CompoundView(env: Env, v: View, m: Mem, n: nat, oa: nat, ob: nat, oc: nat): (r: Option<Mem>)
    requires HasView(v, m.s) && m.stride > 0
    ensures r.Some? ==> SameShape(m, r.value)
  {
    var p, a := G(v, m.s, ob), G(v, m.s, oa);
    if InView(v, m.s, p, 4) then
      if p == 0 then None
      else
        var w := env.word2(n, WordAt(m.s, p), a);
        Some(m.(s := Set(v, Splice(m.s, p, BytesOf(w)), oc, w)))
    else match EntTarget(m, p, 4)
      case Some((off, prot)) =>
        if !prot && off + 4 <= |m.e| then
          var w := env.word2(n, WordAt(m.e, off), a);
          Some(m.(e := Splice(m.e, off, BytesOf(w)), s := Set(v, m.s, oc, w)))
        else None
      case None => None
  }

  datatype MemResult = Mem1(mem: Mem) | MemFault(kind: ErrorKind)

  /** `*STOREP_F` by the slow path. */
  function CompoundSlow(env: Env, m: Mem, n: nat, oa: nat, ob: nat, oc: nat): (r: MemResult)
    requires m.Valid()
    ensures r.Mem1? ==> SameShape(m, r.mem)
  {
    var p := G(Whole, m.s, ob);
    match CheckWrite(m, p, 4)
    case Refused(Protected(_)) => Mem1(m)
    case Refused(NullWrite) => MemFault(NullPointerWrite)
    case Refused(Invalid) => MemFault(BadPointerWrite)
    case Writable(_) =>
      var b := Read(m, p, 4);
      var w := env.word2(n, if b.Some? then WordAt(b.value, 0) else 0, G(Whole, m.s, oa));
      var m' := Put(m, p, BytesOf(w));
      Mem1(m'.(s := Set(Whole, m'.s, oc, w)))
  }
}
