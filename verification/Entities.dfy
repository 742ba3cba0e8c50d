/** Operations that change the memory's shape (`src/vm/memory.rs`, `src/vm/mod.rs`,
    `src/vm/multiprogs.rs`), as functions on memory values: entity slots, added fields, added progs
    and heap growth. Every one keeps the layout. */
module Entities {
  import opened Bytes
  import opened Memory

  function Max(a: nat, b: nat): nat { if a > b then a else b }
  function Min(a: nat, b: nat): nat { if a < b then a else b }

  // ---- slots -----------------------------------------------------------------------------------

  /** Adds entity slots up to and including `e`, zeroed. */
  function GrowTo(m: Mem, e: nat): Mem
    requires m.Valid()
  {
    if e < |m.slots| then m
    else m.(slots := m.slots + seq(e + 1 - |m.slots|, i => FreeSlot),
            e := m.e + Zeros(Times(e + 1 - |m.slots|, m.stride)))
  }

  lemma GrowToValid(m: Mem, e: nat)
    requires m.Valid() && e < m.maxEdicts
    ensures GrowTo(m, e).Valid()
  {
    if e >= |m.slots| {
      TimesSum(m.stride, |m.slots|, e + 1 - |m.slots|);
    }
  }

  /** Zeroes all of entity `e`'s block. */
  function ClearEntity(m: Mem, e: nat): (r: Mem)
    requires m.Valid() && e < |m.slots|
    ensures r.Valid()
  {
    BlockBounds(m, e);
    m.(e := Splice(m.e, Times(e, m.stride), Zeros(m.stride)))
  }

  /** Whether a free slot was freed long enough ago to be handed out again. */
  predicate Reusable(slot: EntSlot, now: real) {
    !slot.inUse && (slot.freetime < 2.0 || now - slot.freetime > 0.5)
  }

  /** The first slot at or after `from` that is free (and reusable, if `now` is given). */
  function FirstSlot(slots: seq<EntSlot>, from: nat, now: Option<real>): (i: nat)
    requires from <= |slots|
    ensures from <= i <= |slots|
    ensures i < |slots| ==> Eligible(slots[i], now)
    ensures forall j :: from <= j < i ==> !Eligible(slots[j], now)
    decreases |slots| - from
  {
    if from == |slots| || Eligible(slots[from], now) then from else FirstSlot(slots, from + 1, now)
  }

  predicate Eligible(slot: EntSlot, now: Option<real>) {
    if now.Some? then Reusable(slot, now.value) else !slot.inUse
  }

  datatype SpawnPlan = Reuse(e: nat) | Extend(e: nat) | NoFreeEdicts

  /** The slot a spawn takes: the first reusable one, else a new one, else any free one; never one
      below `first`. */
  function PlanSpawn(m: Mem, now: real, first: nat): (p: SpawnPlan)
    requires m.Valid()
    ensures p.Reuse? ==> first <= p.e < |m.slots| && !m.slots[p.e].inUse
    ensures p.Extend? ==> first <= p.e < m.maxEdicts && p.e >= |m.slots|
  {
    var start := Min(first, |m.slots|);
    var pick := FirstSlot(m.slots, start, Some(now));
    var grow := Max(|m.slots|, first);
    if pick < |m.slots| then Reuse(pick)
    else if grow < m.maxEdicts then Extend(grow)
    else
      var any := FirstSlot(m.slots, start, None);
      if any < |m.slots| then Reuse(any) else NoFreeEdicts
  }

  /** Takes slot `e` into use, with zeroed fields and its serial moved on. */
  function Take(m: Mem, e: nat, freetime: real): (r: Mem)
    requires m.Valid() && e < |m.slots|
    ensures r.Valid()
  {
    var c := ClearEntity(m, e);
    c.(slots := c.slots[e := EntSlot(true, false, freetime, Wrap(c.slots[e].serial + 1))])
  }

  /** Spawning: the memory after it and the entity, or `None` when no slot is left. */
  function Spawn(m: Mem, now: real, first: nat): Option<(Mem, nat)>
    requires m.Valid()
  {
    match PlanSpawn(m, now, first)
    case Reuse(e) => Some((Take(m, e, m.slots[e].freetime), e))
    case Extend(e) => GrowToValid(m, e); Some((Take(GrowTo(m, e), e, 0.0), e))
    case NoFreeEdicts => None
  }

  /** Takes slot `e` into use whether or not it is free or reserved. */
  function Claim(m: Mem, e: nat): Option<Mem>
    requires m.Valid()
  {
    if e == 0 || e >= m.maxEdicts then None
    else (GrowToValid(m, e); Some(Take(GrowTo(m, e), e, 0.0)))
  }

  datatype RemoveResult = Removed(m: Mem) | World | BadEntity | AlreadyFree | ReadOnly

  /** Zeroes a field word of entity `e`, if the entity has it. */
  function ClearWord(m: Mem, e: nat, f: nat): (r: Mem)
    requires m.Valid()
    ensures r.Valid() && r == m.(e := r.e)
  {
    match FieldOffset(m, e, f, 1)
    case Some(off) => FieldOffsetInBlock(m, e, f, 1); m.(e := Splice(m.e, off, BytesOf(0)))
    case None => m
  }

  /** Zeroes the first `n` of the field words `clear` of entity `e`. */
  function ClearWords(m: Mem, e: nat, clear: seq<nat>, n: nat): (r: Mem)
    requires m.Valid() && n <= |clear|
    ensures r.Valid() && r == m.(e := r.e)
  {
    if n == 0 then m else ClearWord(ClearWords(m, e, clear, n - 1), e, clear[n - 1])
  }

  /** Frees entity `e`, zeroing the given field words. */
  function Remove(m: Mem, e: nat, now: real, instant: bool, clear: seq<nat>): RemoveResult
    requires m.Valid()
  {
    if e == 0 then World
    else if e >= |m.slots| then BadEntity
    else if !m.slots[e].inUse then AlreadyFree
    else if m.slots[e].prot then ReadOnly
    else
      var c := ClearWords(m, e, clear, |clear|);
      Removed(c.(slots := c.slots[e := c.slots[e].(inUse := false, freetime := if instant then 0.0 else now)]))
  }

  // ---- fields, progs and heap ------------------------------------------------------------------

  /** Adds a field of `words` words at the end of the entity layout, if the block has room. */
  function AddField(m: Mem, fieldWords: nat, words: nat): Option<Mem> {
    if 4 * (fieldWords + words) < U32 && 4 * (fieldWords + words) <= m.stride
    then Some(m.(fieldBytes := 4 * (fieldWords + words))) else None
  }

  /** Region S grown for another progs whose globals and tail end at `end`. */
  function ExtendS(m: Mem, end: nat): Option<Mem> {
    if end <= m.eBase && end >= |m.s| then Some(m.(s := m.s + Zeros(end - |m.s|))) else None
  }

  /** The heap grown to `end` bytes, within its limit. */
  function GrowHeap(m: Mem, end: nat): Option<Mem> {
    if |m.h| <= end <= m.hMax then Some(m.(h := m.h + Zeros(end - |m.h|))) else None
  }

  // ---- what every operation keeps --------------------------------------------------------------

  datatype MemOp =
    | SpawnOp(now: real, first: nat)
    | ClaimOp(ent: nat)
    | RemoveOp(ent: nat, now: real, instant: bool, clear: seq<nat>)
    | WriteOp(p: word, bytes: seq<byte>)
    | AddFieldOp(fieldWords: nat, words: nat)
    | ExtendSOp(end: nat)
    | GrowHeapOp(end: nat)

  /** The memory after one operation (unchanged when the operation is refused). */
  function Apply(m: Mem, op: MemOp): Mem
    requires m.Valid()
  {
    match op
    case SpawnOp(now, first) => (match Spawn(m, now, first) case Some(r) => r.0 case None => m)
    case ClaimOp(e) => (match Claim(m, e) case Some(r) => r case None => m)
    case RemoveOp(e, now, instant, clear) =>
      (match Remove(m, e, now, instant, clear) case Removed(r) => r case _ => m)
    case WriteOp(p, bytes) => if CheckWrite(m, p, |bytes|).Writable? then Put(m, p, bytes) else m
    case AddFieldOp(fw, words) => (match AddField(m, fw, words) case Some(r) => r case None => m)
    case ExtendSOp(end) => (match ExtendS(m, end) case Some(r) => r case None => m)
    case GrowHeapOp(end) => (match GrowHeap(m, end) case Some(r) => r case None => m)
  }

  function ApplyAll(m: Mem, ops: seq<MemOp>): (r: Mem)
    requires m.Valid()
    ensures r.Valid()
    decreases ops
  {
    if ops == [] then m else (ApplyKeepsLayout(m, ops[0]); ApplyAll(Apply(m, ops[0]), ops[1..]))
  }

  lemma SpawnKeepsLayout(m: Mem, now: real, first: nat)
    requires m.Valid() && Spawn(m, now, first).Some?
    ensures Spawn(m, now, first).value.0.Valid() && SameFrame(m, Spawn(m, now, first).value.0)
  {
    var p := PlanSpawn(m, now, first);
    if p.Extend? { GrowToValid(m, p.e); }
  }

  lemma ClaimKeepsLayout(m: Mem, e: nat)
    requires m.Valid() && Claim(m, e).Some?
    ensures Claim(m, e).value.Valid() && SameFrame(m, Claim(m, e).value)
  {
    GrowToValid(m, e);
  }

  lemma RemoveKeepsLayout(m: Mem, e: nat, now: real, instant: bool, clear: seq<nat>)
    requires m.Valid() && Remove(m, e, now, instant, clear).Removed?
    ensures Remove(m, e, now, instant, clear).m.Valid() && SameFrame(m, Remove(m, e, now, instant, clear).m)
  {
  }

  lemma WriteKeepsLayout(m: Mem, p: word, bytes: seq<byte>)
    requires m.Valid() && CheckWrite(m, p, |bytes|).Writable?
    ensures SameFrame(m, Put(m, p, bytes))
  {
  }

  /** No operation moves a region, and the layout stays sound. */
  lemma ApplyKeepsLayout(m: Mem, op: MemOp)
    requires m.Valid()
    ensures Apply(m, op).Valid()
    ensures SameFrame(m, Apply(m, op))
  {
    match op
    case SpawnOp(now, first) => if Spawn(m, now, first).Some? { SpawnKeepsLayout(m, now, first); }
    case ClaimOp(e) => if Claim(m, e).Some? { ClaimKeepsLayout(m, e); }
    case RemoveOp(e, now, instant, clear) =>
      if Remove(m, e, now, instant, clear).Removed? { RemoveKeepsLayout(m, e, now, instant, clear); }
    case WriteOp(p, bytes) => if CheckWrite(m, p, |bytes|).Writable? { WriteKeepsLayout(m, p, bytes); }
    case _ =>
  }

  /** Region bases, the stride and the limits agree, and no region shrank. */
  predicate SameFrame(m: Mem, m': Mem) {
    && m'.eBase == m.eBase && m'.hBase == m.hBase && m'.stride == m.stride && m'.maxEdicts == m.maxEdicts
    && m'.hMax == m.hMax && m'.lsBase == m.lsBase && m'.lsWords == m.lsWords
    && |m.s| <= |m'.s| && |m.e| <= |m'.e| && |m.h| <= |m'.h| && |m.slots| <= |m'.slots|
  }

  /** Over any sequence of operations from a sound layout, each byte address belongs to at most one
      region, entities never move, and everything stays below 2^31. */
  lemma {:induction false} RunKeepsRegionsApart(m: Mem, ops: seq<MemOp>, q: int)
    requires m.Valid()
    decreases ops
    ensures var m' := ApplyAll(m, ops);
      && m'.Valid() && SameFrame(m, m')
      && !(q < |m'.s| && InEntity(m', q)) && !(q < |m'.s| && InHeap(m', q)) && !(InEntity(m', q) && InHeap(m', q))
      && (Mapped(m', q) ==> q < 0x8000_0000)
      && (m.stride <= q - m.eBase && Mapped(m', q) && InEntity(m', q) ==> EntityAt(m', q) == EntityAt(m, q))
  {
    if ops == [] {
      RegionsDisjoint(m, q);
    } else {
      ApplyKeepsLayout(m, ops[0]);
      RunKeepsRegionsApart(Apply(m, ops[0]), ops[1..], q);
    }
  }

  /** Taking a slot zeroes its block and touches no other entity. */
  lemma TakeMeaning(m: Mem, e: nat, freetime: real, k: nat)
    requires m.Valid() && e < |m.slots|
    ensures var m' := Take(m, e, freetime);
      && |m'.slots| == |m.slots| && |m'.e| == |m.e|
      && m'.slots[e] == EntSlot(true, false, freetime, Wrap(m.slots[e].serial + 1))
      && (k < |m.slots| && k != e ==> m'.slots[k] == m.slots[k])
      && (k < |m.e| ==> m'.e[k] == if Quot(k, m.stride) == e then 0 else m.e[k])
  {
    BlockBounds(m, e);
    if Times(e, m.stride) <= k < Times(e, m.stride) + m.stride {
      QuotUnique(k, m.stride, e);
    }
  }

  /** A spawned entity was free or new and not reserved; it is now in use under a fresh serial with
      all fields zero, and no other entity's slot or bytes changed. */
  lemma SpawnMeaning(m: Mem, now: real, first: nat, k: nat)
    requires m.Valid() && Spawn(m, now, first).Some?
    ensures var (m', e) := Spawn(m, now, first).value;
      && first <= e < |m'.slots|
      && (e < |m.slots| ==> !m.slots[e].inUse && m'.slots[e].serial == Wrap(m.slots[e].serial + 1))
      && (e >= |m.slots| ==> m'.slots[e].serial == 1)
      && m'.slots[e].inUse && !m'.slots[e].prot
      && (k < |m.slots| && k != e ==> m'.slots[k] == m.slots[k])
      && (|m.slots| <= k < |m'.slots| && k != e ==> m'.slots[k] == FreeSlot)
      && (k < |m.e| && Quot(k, m.stride) != e ==> m'.e[k] == m.e[k])
      && (k < |m'.e| && Quot(k, m.stride) == e ==> m'.e[k] == 0)
  {
    var p := PlanSpawn(m, now, first);
    match p
    case Reuse(e) =>
      TakeMeaning(m, e, m.slots[e].freetime, k);
    case Extend(e) =>
      GrowToValid(m, e);
      TakeMeaning(GrowTo(m, e), e, 0.0, k);
    case NoFreeEdicts =>
  }

  /** A spawn is refused only when every slot from `first` on is taken and none can be added. */
  lemma SpawnRefused(m: Mem, now: real, first: nat)
    requires m.Valid()
    ensures Spawn(m, now, first).None? <==>
              Max(|m.slots|, first) >= m.maxEdicts && forall i :: first <= i < |m.slots| ==> m.slots[i].inUse
  {
    var start := Min(first, |m.slots|);
    assert forall i :: start <= i < |m.slots| && Eligible(m.slots[i], Some(now)) ==> Eligible(m.slots[i], None);
  }
}
