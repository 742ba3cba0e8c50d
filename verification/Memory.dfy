/** VM memory: one byte-addressed space split into three regions (`src/vm/memory.rs`), and the
    layout a VM is built with (`src/vm/mod.rs`).

    Region S holds the progs' strings, their globals and the local stack; region E holds one
    power-of-two block per entity slot; region H is the QuakeC heap. */
module Memory {
  import opened Bytes

  /** State of an entity slot. */
  datatype EntSlot = EntSlot(inUse: bool, prot: bool, freetime: real, serial: word)

  const FreeSlot := EntSlot(false, false, 0.0, 0)

  /** The memory as a value. */
  datatype Mem = Mem(
    s: seq<byte>, e: seq<byte>, eBase: nat, stride: nat, fieldBytes: nat, maxEdicts: nat,
    slots: seq<EntSlot>, h: seq<byte>, hMax: nat, hBase: nat, lsBase: nat, lsWords: nat)
  {
    /** Regions lie in order below 2^31, region E has exactly one block per slot, and the fields
        fit a block. */
    predicate Valid() {
      && stride > 0
      && lsBase + 4 * lsWords + 4 <= |s| <= eBase
      && 1 <= |slots| <= maxEdicts
      && |e| == Times(|slots|, stride)
      && fieldBytes <= stride && fieldBytes % 4 == 0
      && eBase + Times(maxEdicts, stride) <= hBase
      && |h| <= hMax
      && hBase + hMax <= 0x8000_0000
    }
  }

  /** `k` blocks of `d` bytes: the product `k * d`, kept from the solver's non-linear reasoning. */
  function Times(k: nat, d: nat): nat {
    if k == 0 then 0 else Times(k - 1, d) + d
  }

  lemma {:induction false} TimesIsProduct(k: nat, d: nat)
    ensures Times(k, d) == k * d
  {
    if k > 0 {
      TimesIsProduct(k - 1, d);
      assert k * d == (k - 1) * d + d;
    }
  }

  lemma {:induction false} TimesMonotone(d: nat, a: nat, b: nat)
    requires a <= b
    ensures Times(a, d) <= Times(b, d)
    ensures a < b ==> Times(a, d) + d <= Times(b, d)
    decreases b
  {
    if a < b { TimesMonotone(d, a, b - 1); }
  }

  lemma {:induction false} TimesSum(d: nat, a: nat, b: nat)
    ensures Times(a + b, d) == Times(a, d) + Times(b, d)
  {
    if b > 0 { TimesSum(d, a, b - 1); }
  }

  /** Quotient and remainder by the block size (a shift and a mask in the source). */
  function Quot(x: nat, d: nat): (q: nat)
    requires d > 0
    ensures Times(q, d) <= x < Times(q, d) + d
  {
    if x < d then 0 else (TimesSum(d, Quot(x - d, d), 1); Quot(x - d, d) + 1)
  }

  function Rem(x: nat, d: nat): (r: nat)
    requires d > 0
    ensures r < d
  {
    x - Times(Quot(x, d), d)
  }

  /** An address inside block `e` has quotient `e`. */
  lemma QuotUnique(x: nat, d: nat, e: nat)
    requires d > 0 && Times(e, d) <= x < Times(e, d) + d
    ensures Quot(x, d) == e && Rem(x, d) == x - Times(e, d)
  {
    if e < Quot(x, d) {
      TimesMonotone(d, e, Quot(x, d));
    } else if Quot(x, d) < e {
      TimesMonotone(d, Quot(x, d), e);
    }
  }

  /** `Quot` and `Rem` are division by the block size. */
  lemma QuotIsDivision(x: nat, d: nat)
    requires d > 0
    ensures Quot(x, d) == x / d && Rem(x, d) == x % d
  {
    var q, r := x / d, x % d;
    assert x == d * q + r;
    TimesIsProduct(q, d);
    QuotUnique(x, d, q);
  }

  /** The block of entity `e` lies in region E. */
  lemma BlockBounds(m: Mem, e: nat)
    requires m.Valid() && e < |m.slots|
    ensures Times(e, m.stride) + m.stride <= |m.e|
    ensures m.eBase + |m.e| <= m.hBase
  {
    TimesMonotone(m.stride, e, |m.slots|);
    TimesMonotone(m.stride, |m.slots|, m.maxEdicts);
  }

  // ---- locating an access ----------------------------------------------------------------------

  /** Where an access lands. */
  datatype Loc = InS(o: int) | InE(o: int, ent: int) | InH(o: int)

  /** Locates an `n`-byte access at address `p`. */
  function Locate(m: Mem, p: word, n: nat): Option<Loc>
    requires m.stride > 0
  {
    if p + n <= |m.s| then Some(InS(p))
    else if p >= m.eBase
            && Quot(p - m.eBase, m.stride) < |m.slots|
            && Rem(p - m.eBase, m.stride) + n <= m.fieldBytes
    then Some(InE(p - m.eBase, Quot(p - m.eBase, m.stride)))
    else if p >= m.hBase && p - m.hBase + n <= |m.h| then Some(InH(p - m.hBase))
    else None
  }

  /** Byte `q` belongs to the fields of entity `ent`. */
  predicate InFields(m: Mem, q: int, ent: nat) {
    ent < |m.slots| && m.eBase + Times(ent, m.stride) <= q < m.eBase + Times(ent, m.stride) + m.fieldBytes
  }

  predicate InHeap(m: Mem, q: int) { m.hBase <= q < m.hBase + |m.h| }

  /** The entity block address `q` falls in. */
  function EntityAt(m: Mem, q: int): nat
    requires m.stride > 0 && q >= m.eBase
  {
    Quot(q - m.eBase, m.stride)
  }

  /** Byte `q` belongs to some entity's fields. */
  predicate InEntity(m: Mem, q: int)
    requires m.stride > 0
  {
    q >= m.eBase && InFields(m, q, EntityAt(m, q))
  }

  /** The bytes QuakeC can address. */
  predicate Mapped(m: Mem, q: int)
    requires m.stride > 0
  {
    0 <= q < |m.s| || InEntity(m, q) || InHeap(m, q)
  }

  /** A byte is in the fields of at most one entity. */
  lemma FieldsOfOne(m: Mem, q: int, ent: nat)
    requires m.Valid()
    ensures InFields(m, q, ent) <==> q >= m.eBase && ent == EntityAt(m, q) && InEntity(m, q)
  {
    if InFields(m, q, ent) {
      QuotUnique(q - m.eBase, m.stride, ent);
    }
  }

  /** The regions do not meet. */
  lemma RegionsDisjoint(m: Mem, q: int)
    requires m.Valid()
    ensures !(q < |m.s| && InEntity(m, q))
    ensures !(q < |m.s| && InHeap(m, q))
    ensures !(InEntity(m, q) && InHeap(m, q))
    ensures InEntity(m, q) ==> m.eBase <= q < m.eBase + |m.e| <= m.hBase
  {
    TimesMonotone(m.stride, 1, m.maxEdicts);
    if InEntity(m, q) { BlockBounds(m, EntityAt(m, q)); }
  }

  /** The byte at a mapped address. */
  function At(m: Mem, q: int): byte
    requires m.Valid() && Mapped(m, q)
  {
    RegionsDisjoint(m, q);
    if q < |m.s| then m.s[q] else if InEntity(m, q) then m.e[q - m.eBase] else m.h[q - m.hBase]
  }

  /** A non-empty access lands in region S exactly when all its bytes are there. */
  lemma LocateS(m: Mem, p: word, n: nat)
    requires m.Valid() && n > 0
    ensures (exists o :: Locate(m, p, n) == Some(InS(o))) <==> p + n <= |m.s|
    ensures p + n <= |m.s| ==> Locate(m, p, n) == Some(InS(p))
  {
  }

  /** A non-empty access lands in entity `ent` exactly when all its bytes are in its fields. */
  lemma LocateE(m: Mem, p: word, n: nat, ent: nat)
    requires m.Valid() && n > 0
    ensures Locate(m, p, n) == Some(InE(p - m.eBase, ent)) <==> InFields(m, p, ent) && InFields(m, p + n - 1, ent)
  {
    FieldsOfOne(m, p, ent);
    if InFields(m, p, ent) && InFields(m, p + n - 1, ent) {
      QuotUnique(p - m.eBase, m.stride, ent);
    }
  }

  /** A non-empty access lands in the heap exactly when all its bytes are there. */
  lemma LocateH(m: Mem, p: word, n: nat)
    requires m.Valid() && n > 0
    ensures Locate(m, p, n) == Some(InH(p - m.hBase)) <==> InHeap(m, p) && InHeap(m, p + n - 1)
  {
    RegionsDisjoint(m, p);
    TimesMonotone(m.stride, 1, m.maxEdicts);
  }

  /** Every byte of a located access is mapped, in the region the access landed in. */
  lemma LocatedMapped(m: Mem, p: word, n: nat, q: int)
    requires m.Valid() && Locate(m, p, n).Some? && p <= q < p + n
    ensures Mapped(m, q)
    ensures match Locate(m, p, n).value
            case InS(o) => o == p && q < |m.s|
            case InE(o, ent) => o == p - m.eBase && ent >= 0 && InFields(m, q, ent) && InEntity(m, q)
            case InH(o) => o == p - m.hBase && InHeap(m, q)
  {
    match Locate(m, p, n).value
    case InS(o) =>
    case InE(o, ent) => FieldsOfOne(m, q, ent);
    case InH(o) =>
  }

  // ---- reading and writing ---------------------------------------------------------------------

  /** The `n` bytes at `p`. */
  function Read(m: Mem, p: word, n: nat): (r: Option<seq<byte>>)
    requires m.Valid()
    ensures r.Some? ==> |r.value| == n
  {
    match Locate(m, p, n)
    case Some(InS(o)) => Some(m.s[o..o + n])
    case Some(InE(o, ent)) => (EntAccess(m, p, n); Some(m.e[o..o + n]))
    case Some(InH(o)) => Some(m.h[o..o + n])
    case None => None
  }

  lemma EntAccess(m: Mem, p: word, n: nat)
    requires m.Valid() && Locate(m, p, n).Some? && Locate(m, p, n).value.InE?
    ensures p - m.eBase + n <= |m.e|
  {
    var off := p - m.eBase;
    BlockBounds(m, Quot(off, m.stride));
  }

  datatype WriteError = NullWrite | Invalid | Protected(ent: nat)
  datatype Check = Writable(loc: Loc) | Refused(error: WriteError)

  /** Checks a write of `n` bytes at `p`. */
  function CheckWrite(m: Mem, p: word, n: nat): Check
    requires m.Valid()
  {
    if p == 0 then Refused(NullWrite)
    else match Locate(m, p, n)
      case None => Refused(Invalid)
      case Some(InE(o, ent)) =>
        if ent < |m.slots| && m.slots[ent].prot then Refused(Protected(ent)) else Writable(InE(o, ent))
      case Some(loc) => Writable(loc)
  }

  /** The memory after `bytes` are written at a checked location. */
  function Put(m: Mem, p: word, bytes: seq<byte>): (r: Mem)
    requires m.Valid() && CheckWrite(m, p, |bytes|).Writable?
    ensures r.Valid()
  {
    match CheckWrite(m, p, |bytes|).loc
    case InS(o) => m.(s := Splice(m.s, o, bytes))
    case InE(o, ent) => (EntAccess(m, p, |bytes|); m.(e := Splice(m.e, o, bytes)))
    case InH(o) => m.(h := Splice(m.h, o, bytes))
  }

  lemma PutMapped(m: Mem, p: word, bytes: seq<byte>, q: int)
    requires m.Valid() && CheckWrite(m, p, |bytes|).Writable?
    ensures InEntity(Put(m, p, bytes), q) == InEntity(m, q) && InHeap(Put(m, p, bytes), q) == InHeap(m, q)
    ensures Mapped(Put(m, p, bytes), q) == Mapped(m, q)
    ensures Put(m, p, bytes).slots == m.slots
  {
    if q >= m.eBase {
      assert EntityAt(Put(m, p, bytes), q) == EntityAt(m, q);
    }
  }

  lemma PutInS(m: Mem, p: word, bytes: seq<byte>, q: int)
    requires m.Valid() && CheckWrite(m, p, |bytes|).Writable? && CheckWrite(m, p, |bytes|).loc.InS? && Mapped(m, q)
    requires Mapped(Put(m, p, bytes), q)
    ensures At(Put(m, p, bytes), q) == if p <= q < p + |bytes| then bytes[q - p] else At(m, q)
  {
  }

  lemma PutInE(m: Mem, p: word, bytes: seq<byte>, q: int)
    requires m.Valid() && CheckWrite(m, p, |bytes|).Writable? && CheckWrite(m, p, |bytes|).loc.InE? && Mapped(m, q)
    requires Mapped(Put(m, p, bytes), q) && InEntity(Put(m, p, bytes), q) == InEntity(m, q)
    ensures At(Put(m, p, bytes), q) == if p <= q < p + |bytes| then bytes[q - p] else At(m, q)
  {
    EntAccess(m, p, |bytes|);
    RegionsDisjoint(m, q);
    if p <= q < p + |bytes| { LocatedMapped(m, p, |bytes|, q); }
  }

  lemma PutInH(m: Mem, p: word, bytes: seq<byte>, q: int)
    requires m.Valid() && CheckWrite(m, p, |bytes|).Writable? && CheckWrite(m, p, |bytes|).loc.InH? && Mapped(m, q)
    requires Mapped(Put(m, p, bytes), q) && InEntity(Put(m, p, bytes), q) == InEntity(m, q)
    ensures At(Put(m, p, bytes), q) == if p <= q < p + |bytes| then bytes[q - p] else At(m, q)
  {
    RegionsDisjoint(m, q);
    if p <= q < p + |bytes| { LocatedMapped(m, p, |bytes|, q); }
  }

  /** A successful write changes exactly its addressed bytes, at every address QuakeC can use. */
  lemma PutChangesExactly(m: Mem, p: word, bytes: seq<byte>, q: int)
    requires m.Valid() && CheckWrite(m, p, |bytes|).Writable?
    ensures Mapped(Put(m, p, bytes), q) == Mapped(m, q)
    ensures p <= q < p + |bytes| ==> Mapped(m, q)
    ensures Mapped(m, q) ==>
              At(Put(m, p, bytes), q) == if p <= q < p + |bytes| then bytes[q - p] else At(m, q)
  {
    PutMapped(m, p, bytes, q);
    if p <= q < p + |bytes| { LocatedMapped(m, p, |bytes|, q); }
    if Mapped(m, q) {
      match CheckWrite(m, p, |bytes|).loc
      case InS(_) => PutInS(m, p, bytes, q);
      case InE(_, _) => PutInE(m, p, bytes, q);
      case InH(_) => PutInH(m, p, bytes, q);
    }
  }

  /** What was written is what is read back. */
  lemma ReadAfterPut(m: Mem, p: word, bytes: seq<byte>)
    requires m.Valid() && CheckWrite(m, p, |bytes|).Writable?
    ensures Read(Put(m, p, bytes), p, |bytes|) == Some(bytes)
  {
    SameLocation(m, p, bytes);
    match CheckWrite(m, p, |bytes|).loc
    case InS(o) => SplicedSlice(m.s, o, bytes);
    case InE(o, ent) =>
      EntAccess(m, p, |bytes|);
      SplicedSlice(m.e, o, bytes);
    case InH(o) => SplicedSlice(m.h, o, bytes);
  }

  lemma SameLocation(m: Mem, p: word, bytes: seq<byte>)
    requires m.Valid() && CheckWrite(m, p, |bytes|).Writable?
    ensures Locate(Put(m, p, bytes), p, |bytes|) == Locate(m, p, |bytes|) == Some(CheckWrite(m, p, |bytes|).loc)
  {
  }

  lemma SplicedSlice(s: seq<byte>, o: nat, bytes: seq<byte>)
    requires o + |bytes| <= |s|
    ensures Splice(s, o, bytes)[o..o + |bytes|] == bytes
  {
  }

  // ---- entity fields ---------------------------------------------------------------------------

  /** Byte offset in region E of field `word` of entity `e`, if both are valid. */
  function FieldOffset(m: Mem, e: nat, f: nat, words: nat): Option<nat> {
    if e < |m.slots| && 4 * (f + words) <= m.fieldBytes then Some(Times(e, m.stride) + 4 * f) else None
  }

  lemma FieldOffsetInBlock(m: Mem, e: nat, f: nat, words: nat)
    requires m.Valid() && FieldOffset(m, e, f, words).Some?
    ensures FieldOffset(m, e, f, words).value + 4 * words <= Times(e, m.stride) + m.fieldBytes
    ensures FieldOffset(m, e, f, words).value + 4 * words <= |m.e|
  {
    BlockBounds(m, e);
  }
}
