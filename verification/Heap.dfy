/** The QuakeC heap: a first-fit allocator over one byte region (`src/vm/heap.rs`). */
module Heap {
  import opened Bytes

  const ALIGN: nat := 16

  /** A multiple of the alignment. */
  predicate Multiple(n: nat) { n == 0 || (n >= ALIGN && Multiple(n - ALIGN)) }

  lemma {:induction false} MultipleIsDivisible(n: nat)
    ensures Multiple(n) <==> n % ALIGN == 0
  {
    if n >= ALIGN { MultipleIsDivisible(n - ALIGN); }
  }

  lemma {:induction false} MultipleSum(a: nat, b: nat)
    requires Multiple(a) && Multiple(b)
    ensures Multiple(a + b)
  {
    if b > 0 { MultipleSum(a, b - ALIGN); }
  }

  lemma {:induction false} MultipleDifference(a: nat, b: nat)
    requires Multiple(a) && Multiple(b) && b <= a
    ensures Multiple(a - b)
  {
    if b > 0 { MultipleDifference(a - ALIGN, b - ALIGN); }
  }

  /** The least multiple of the alignment that is at least `n`. */
  function Ceil(n: nat): (r: nat)
    ensures Multiple(r) && n <= r < n + ALIGN
  {
    if n == 0 then 0 else if n <= ALIGN then ALIGN else Ceil(n - ALIGN) + ALIGN
  }

  /** The source's mask arithmetic: add 15, clear the low four bits. */
  lemma {:induction false} CeilIsMasking(n: nat)
    ensures Ceil(n) == (n + (ALIGN - 1)) / ALIGN * ALIGN
  {
    if n > ALIGN { CeilIsMasking(n - ALIGN); }
  }

  /** `n` rounded up to a positive multiple of the alignment, unless that takes more than 32 bits. */
  function RoundUp(n: word): (r: Option<nat>)
    ensures r.None? <==> n > U32 - ALIGN
    ensures r.Some? ==> Multiple(r.value) && r.value >= 1 && n <= r.value
  {
    var m: nat := if n < 1 then 1 else n;
    if m + (ALIGN - 1) >= U32 then None else Some(Ceil(m))
  }

  /** An allocated block: its rounded size and the size asked for. */
  datatype Block = Block(size: nat, requested: nat)

  // ---- tiling ----------------------------------------------------------------------------------

  predicate Starts(used: map<nat, Block>, free: map<nat, nat>, o: nat) { o in used || o in free }

  function SizeAt(used: map<nat, Block>, free: map<nat, nat>, o: nat): nat
    requires Starts(used, free, o)
  {
    if o in used then used[o].size else free[o]
  }

  /** The end of the block that starts at `o`. */
  function EndAt(used: map<nat, Block>, free: map<nat, nat>, o: nat): nat
    requires Starts(used, free, o)
  {
    o + SizeAt(used, free, o)
  }

  /** A block lies in the region, and is followed by a block or the end of the region. */
  predicate BlockOk(used: map<nat, Block>, free: map<nat, nat>, len: nat, o: nat)
    requires Starts(used, free, o)
  {
    && SizeAt(used, free, o) > 0 && EndAt(used, free, o) <= len
    && (EndAt(used, free, o) == len || Starts(used, free, EndAt(used, free, o)))
  }

  /** Block `p` does not start inside block `o`. */
  predicate Apart(used: map<nat, Block>, free: map<nat, nat>, o: nat, p: nat)
    requires Starts(used, free, o)
  {
    p <= o || EndAt(used, free, o) <= p
  }

  /** Used and free blocks tile the region, and no two free blocks are adjacent. */
  ghost predicate Tiled(used: map<nat, Block>, free: map<nat, nat>, len: nat) {
    && used.Keys !! free.Keys
    && (len == 0 || Starts(used, free, 0))
    && (forall o {:trigger BlockOk(used, free, len, o)} :: Starts(used, free, o) ==> BlockOk(used, free, len, o))
    && (forall o, p {:trigger Apart(used, free, o, p)} ::
          Starts(used, free, o) && Starts(used, free, p) ==> Apart(used, free, o, p))
    && (forall o :: o in free ==> o + free[o] !in free)
  }

  /** Every block starts and ends on a multiple of the alignment. */
  ghost predicate Aligned(used: map<nat, Block>, free: map<nat, nat>) {
    && (forall o :: o in used ==> Multiple(o) && Multiple(used[o].size))
    && (forall o :: o in free ==> Multiple(o) && Multiple(free[o]))
  }

  /** Byte `b` lies in the block that starts at `o`. */
  predicate Holds(used: map<nat, Block>, free: map<nat, nat>, o: nat, b: nat) {
    Starts(used, free, o) && o <= b < EndAt(used, free, o)
  }

  /** Byte `b` is free. */
  predicate FreeByte(free: map<nat, nat>, b: nat) {
    exists o :: o in free && o <= b < o + free[o]
  }

  /** Every byte of the region lies in exactly one block. */
  lemma TilesExactly(used: map<nat, Block>, free: map<nat, nat>, len: nat, b: nat)
    requires Tiled(used, free, len) && b < len
    ensures exists o: nat :: Holds(used, free, o, b)
    ensures forall o: nat, p: nat :: Holds(used, free, o, b) && Holds(used, free, p, b) ==> o == p
  {
    var o := BlockFrom(used, free, len, b, 0);
    forall p: nat, q: nat | Holds(used, free, p, b) && Holds(used, free, q, b)
      ensures p == q
    {
      assert Apart(used, free, p, q) && Apart(used, free, q, p);
    }
  }

  /** Walking from block to block reaches the one that holds `b`. */
  lemma {:induction false} BlockFrom(used: map<nat, Block>, free: map<nat, nat>, len: nat, b: nat, from: nat) returns (o: nat)
    requires Tiled(used, free, len) && from <= b < len && Starts(used, free, from)
    ensures Holds(used, free, o, b)
    decreases b - from
  {
    assert BlockOk(used, free, len, from);
    if b < EndAt(used, free, from) {
      o := from;
    } else {
      o := BlockFrom(used, free, len, b, EndAt(used, free, from));
    }
  }

  // ---- taking a free block ---------------------------------------------------------------------

  /** The free blocks after the first `size` bytes of free block `o` are taken. */
  function Taken(free: map<nat, nat>, o: nat, size: nat): map<nat, nat>
    requires o in free && size <= free[o]
  {
    if free[o] > size then (free - {o})[o + size := free[o] - size] else free - {o}
  }

  lemma TakeKeepsAligned(used: map<nat, Block>, free: map<nat, nat>, o: nat, b: Block)
    requires Aligned(used, free) && o in free && b.size <= free[o] && Multiple(b.size)
    ensures Aligned(used[o := b], Taken(free, o, b.size))
  {
    MultipleSum(o, b.size);
    MultipleDifference(free[o], b.size);
  }

  /** Other blocks lie before or after a free block. */
  lemma OutsideFree(used: map<nat, Block>, free: map<nat, nat>, len: nat, o: nat, p: nat)
    requires Tiled(used, free, len) && o in free && Starts(used, free, p) && p != o
    ensures EndAt(used, free, p) <= o || o + free[o] <= p
  {
    assert Starts(used, free, o);
    assert Apart(used, free, o, p) && Apart(used, free, p, o);
  }

  /** The blocks after taking: the new one, what is left of the free one, and the others. */
  lemma TakenStart(used: map<nat, Block>, free: map<nat, nat>, len: nat, o: nat, b: Block, p: nat)
    requires Tiled(used, free, len) && o in free && 0 < b.size <= free[o]
    requires Starts(used[o := b], Taken(free, o, b.size), p)
    ensures var used', free' := used[o := b], Taken(free, o, b.size);
      if p == o then EndAt(used', free', p) == o + b.size && p !in free'
      else if p == o + b.size && b.size < free[o] then EndAt(used', free', p) == o + free[o] && p !in used'
      else
        && Starts(used, free, p) && EndAt(used', free', p) == EndAt(used, free, p)
        && (p in free' <==> p in free) && (p in used' <==> p in used)
        && (EndAt(used, free, p) <= o || o + free[o] <= p)
  {
    if p != o && Starts(used, free, p) { OutsideFree(used, free, len, o, p); }
    if Starts(used, free, o + b.size) { OutsideFree(used, free, len, o, o + b.size); }
  }

  /** Blocks outside the taken one, and its two parts, are there after taking. */
  lemma TakenNext(used: map<nat, Block>, free: map<nat, nat>, len: nat, o: nat, b: Block, q: nat)
    requires Tiled(used, free, len) && o in free && 0 < b.size <= free[o]
    requires Starts(used, free, q) || (q == o + b.size && b.size < free[o])
    ensures Starts(used[o := b], Taken(free, o, b.size), q)
  {
  }

  lemma TakenBlockOk(used: map<nat, Block>, free: map<nat, nat>, len: nat, o: nat, b: Block, p: nat)
    requires Tiled(used, free, len) && o in free && 0 < b.size <= free[o]
    requires Starts(used[o := b], Taken(free, o, b.size), p)
    ensures BlockOk(used[o := b], Taken(free, o, b.size), len, p)
    ensures !(p in used[o := b] && p in Taken(free, o, b.size))
  {
    var used', free' := used[o := b], Taken(free, o, b.size);
    assert BlockOk(used, free, len, o);
    TakenStart(used, free, len, o, b, p);
    if Starts(used, free, p) { assert BlockOk(used, free, len, p); }
    var q := EndAt(used', free', p);
    if q != len { TakenNext(used, free, len, o, b, q); }
  }

  lemma TakenApart(used: map<nat, Block>, free: map<nat, nat>, len: nat, o: nat, b: Block, p: nat, q: nat)
    requires Tiled(used, free, len) && o in free && 0 < b.size <= free[o]
    requires Starts(used[o := b], Taken(free, o, b.size), p) && Starts(used[o := b], Taken(free, o, b.size), q)
    ensures Apart(used[o := b], Taken(free, o, b.size), p, q)
  {
    TakenStart(used, free, len, o, b, p);
    TakenStart(used, free, len, o, b, q);
    if Starts(used, free, p) && Starts(used, free, q) { assert Apart(used, free, p, q); }
  }

  lemma TakeKeepsTiling(used: map<nat, Block>, free: map<nat, nat>, len: nat, o: nat, b: Block)
    requires Tiled(used, free, len) && o in free && 0 < b.size <= free[o]
    ensures Tiled(used[o := b], Taken(free, o, b.size), len)
  {
    var used', free' := used[o := b], Taken(free, o, b.size);
    forall p | Starts(used', free', p)
      ensures BlockOk(used', free', len, p) && !(p in used' && p in free')
    {
      TakenBlockOk(used, free, len, o, b, p);
    }
    forall p, q | Starts(used', free', p) && Starts(used', free', q)
      ensures Apart(used', free', p, q)
    {
      TakenApart(used, free, len, o, b, p, q);
    }
    forall p | p in free'
      ensures p + free'[p] !in free'
    {
      TakenNotAdjacent(used, free, len, o, b, p);
    }
  }

  lemma TakenNotAdjacent(used: map<nat, Block>, free: map<nat, nat>, len: nat, o: nat, b: Block, p: nat)
    requires Tiled(used, free, len) && o in free && 0 < b.size <= free[o]
    requires p in Taken(free, o, b.size)
    ensures var free' := Taken(free, o, b.size); p + free'[p] !in free'
  {
    var used', free' := used[o := b], Taken(free, o, b.size);
    var q := p + free'[p];
    assert Starts(used', free', p);
    TakenStart(used, free, len, o, b, p);
    if q in free' {
      assert Starts(used', free', q);
      TakenStart(used, free, len, o, b, q);
    }
  }

  /** A byte that is free after taking was free before, outside the new block. */
  lemma TakenByteWasFree(used: map<nat, Block>, free: map<nat, nat>, len: nat, o: nat, b: Block, p: nat, x: nat)
    requires Tiled(used, free, len) && o in free && 0 < b.size <= free[o]
    requires p in Taken(free, o, b.size) && p <= x < p + Taken(free, o, b.size)[p]
    ensures FreeByte(free, x) && !(o <= x < o + b.size)
  {
    assert Starts(used[o := b], Taken(free, o, b.size), p);
    TakenStart(used, free, len, o, b, p);
    if p == o + b.size && b.size < free[o] {
      assert o in free && o <= x < o + free[o];
    } else {
      assert p in free && p <= x < p + free[p];
    }
  }

  /** A free byte outside the new block stays free. */
  lemma TakenByteStaysFree(used: map<nat, Block>, free: map<nat, nat>, len: nat, o: nat, b: Block, p: nat, x: nat)
    requires Tiled(used, free, len) && o in free && 0 < b.size <= free[o]
    requires p in free && p <= x < p + free[p] && !(o <= x < o + b.size)
    ensures FreeByte(Taken(free, o, b.size), x)
  {
    var free' := Taken(free, o, b.size);
    if p == o {
      assert o + b.size in free' && o + b.size <= x < o + b.size + free'[o + b.size];
    } else {
      assert Starts(used, free, p);
      OutsideFree(used, free, len, o, p);
      assert p in free' && p <= x < p + free'[p];
    }
  }

  /** Exactly the bytes of the new block stop being free. */
  lemma TakeTakesBytes(used: map<nat, Block>, free: map<nat, nat>, len: nat, o: nat, b: Block, x: nat)
    requires Tiled(used, free, len) && o in free && 0 < b.size <= free[o]
    ensures FreeByte(Taken(free, o, b.size), x) <==> FreeByte(free, x) && !(o <= x < o + b.size)
  {
    var free' := Taken(free, o, b.size);
    if p :| p in free' && p <= x < p + free'[p] {
      TakenByteWasFree(used, free, len, o, b, p, x);
    }
    if p :| p in free && p <= x < p + free[p] && !(o <= x < o + b.size) {
      TakenByteStaysFree(used, free, len, o, b, p, x);
    }
  }

  lemma NoBlockAtEnd(used: map<nat, Block>, free: map<nat, nat>, len: nat)
    requires Tiled(used, free, len)
    ensures !Starts(used, free, len)
  {
    assert Starts(used, free, len) ==> BlockOk(used, free, len, len);
  }

  /** All free bytes lie inside the region. */
  lemma NoFreeByteAfter(used: map<nat, Block>, free: map<nat, nat>, len: nat)
    requires Tiled(used, free, len)
    ensures forall b: nat :: FreeByte(free, b) ==> b < len
  {
    forall b: nat | FreeByte(free, b)
      ensures b < len
    {
      var o :| o in free && o <= b < o + free[o];
      assert Starts(used, free, o);
      assert BlockOk(used, free, len, o);
    }
  }

  /** The highest free block below `start` is the only one that can end there. */
  lemma LastBelow(used: map<nat, Block>, free: map<nat, nat>, len: nat, start: nat, p: nat, q: nat)
    requires Tiled(used, free, len) && Starts(used, free, start)
    requires p in free && p < start && p + free[p] != start && q in free && (q < start ==> q <= p)
    ensures q + free[q] != start
  {
    assert Starts(used, free, p) && Starts(used, free, q);
    assert BlockOk(used, free, len, q);
    assert Apart(used, free, q, p);
  }

  /** Growing the region by one used block. */
  lemma AppendKeepsTiling(used: map<nat, Block>, free: map<nat, nat>, len: nat, b: Block)
    requires Tiled(used, free, len) && 0 < b.size
    ensures Tiled(used[len := b], free, len + b.size)
  {
    var used' := used[len := b];
    NoBlockAtEnd(used, free, len);
    forall p | Starts(used', free, p)
      ensures BlockOk(used', free, len + b.size, p)
    {
      if p != len { assert BlockOk(used, free, len, p); }
    }
    forall p, q | Starts(used', free, p) && Starts(used', free, q)
      ensures Apart(used', free, p, q)
    {
      if p != len {
        assert BlockOk(used, free, len, p);
        if q != len { assert Apart(used, free, p, q); }
      } else if q != len {
        assert BlockOk(used, free, len, q);
      }
    }
  }

  // ---- giving a block back ---------------------------------------------------------------------

  /** Free block `p` ends at `start`. */
  predicate EndsAt(free: map<nat, nat>, p: nat, start: nat) { p in free && p + free[p] == start }

  /** The free blocks after the block of `size` bytes at `o` is given back. `prev` is the free block
      that ends at `o`, if there is one. */
  function Coalesced(free: map<nat, nat>, o: nat, size: nat, prev: Option<nat>): map<nat, nat>
    requires prev.Some? ==> prev.value in free
  {
    var end := o + size;
    var len := if end in free then size + free[end] else size;
    var rest := free - {end};
    if prev.Some? then rest[prev.value := free[prev.value] + len] else rest[o := len]
  }

  predicate IsPrev(free: map<nat, nat>, o: nat, prev: Option<nat>) {
    if prev.Some? then EndsAt(free, prev.value, o) else forall p :: p in free ==> p + free[p] != o
  }

  /** Where the merged free block starts, and where it ends. */
  function MergedStart(o: nat, prev: Option<nat>): nat { prev.GetOr(o) }

  function MergedEnd(used: map<nat, Block>, free: map<nat, nat>, o: nat): nat
    requires o in used
  {
    var end := o + used[o].size;
    if end in free then end + free[end] else end
  }

  /** A block that is not merged lies before or after the merged ones. */
  lemma OutsideMerged(used: map<nat, Block>, free: map<nat, nat>, len: nat, o: nat, prev: Option<nat>, p: nat)
    requires Tiled(used, free, len) && o in used && IsPrev(free, o, prev)
    requires Starts(used, free, p) && p != o && p != MergedStart(o, prev)
    requires !(p in free && p == o + used[o].size)
    ensures EndAt(used, free, p) <= MergedStart(o, prev) || MergedEnd(used, free, o) <= p
  {
    var end := o + used[o].size;
    assert Starts(used, free, o);
    assert Apart(used, free, p, o) && Apart(used, free, o, p);
    if prev.Some? {
      assert Starts(used, free, prev.value);
      assert Apart(used, free, p, prev.value) && Apart(used, free, prev.value, p);
    }
    if end in free {
      assert Starts(used, free, end);
      assert Apart(used, free, end, p);
    }
  }

  /** The free blocks after coalescing. */
  lemma CoalescedAt(free: map<nat, nat>, o: nat, size: nat, prev: Option<nat>, p: nat)
    requires o !in free && size > 0 && IsPrev(free, o, prev)
    ensures var free' := Coalesced(free, o, size, prev);
      var end := o + size;
      if p == MergedStart(o, prev) then p in free' && p + free'[p] == if end in free then end + free[end] else end
      else (p in free' <==> p in free && p != end) && (p in free' ==> free'[p] == free[p])
  {
  }

  /** A block after giving `o` back is the merged one, or an old one outside it. */
  lemma ReleasedStart(used: map<nat, Block>, free: map<nat, nat>, len: nat, o: nat, prev: Option<nat>, p: nat)
    requires Tiled(used, free, len) && o in used && IsPrev(free, o, prev)
    requires Starts(used - {o}, Coalesced(free, o, used[o].size, prev), p)
    ensures var used', free' := used - {o}, Coalesced(free, o, used[o].size, prev);
      if p == MergedStart(o, prev) then EndAt(used', free', p) == MergedEnd(used, free, o) && p in free'
      else
        && Starts(used, free, p) && (p in free' <==> p in free)
        && EndAt(used', free', p) == EndAt(used, free, p)
        && (EndAt(used, free, p) <= MergedStart(o, prev) || MergedEnd(used, free, o) <= p)
  {
    assert BlockOk(used, free, len, o);
    CoalescedAt(free, o, used[o].size, prev, p);
    if p != MergedStart(o, prev) { OutsideMerged(used, free, len, o, prev, p); }
  }

  /** A block that ends outside the merged one, or starts it, is there after giving `o` back. */
  lemma ReleasedNext(used: map<nat, Block>, free: map<nat, nat>, len: nat, o: nat, prev: Option<nat>, q: nat)
    requires Tiled(used, free, len) && o in used && IsPrev(free, o, prev)
    requires Starts(used, free, q) && (q <= MergedStart(o, prev) || MergedEnd(used, free, o) <= q)
    ensures Starts(used - {o}, Coalesced(free, o, used[o].size, prev), q)
  {
    assert BlockOk(used, free, len, o);
    if prev.Some? { assert BlockOk(used, free, len, prev.value); }
    var end := o + used[o].size;
    if end in free { assert BlockOk(used, free, len, end); }
  }

  lemma MergedBlockOk(used: map<nat, Block>, free: map<nat, nat>, len: nat, o: nat, prev: Option<nat>)
    requires Tiled(used, free, len) && o in used && IsPrev(free, o, prev)
    ensures var start, stop := MergedStart(o, prev), MergedEnd(used, free, o);
      && start < stop <= len
      && (stop == len || Starts(used, free, stop)) && stop !in free
  {
    assert BlockOk(used, free, len, o);
    if prev.Some? { assert BlockOk(used, free, len, prev.value); }
    var end := o + used[o].size;
    if end in free { assert BlockOk(used, free, len, end); }
  }

  lemma ReleaseKeepsAligned(used: map<nat, Block>, free: map<nat, nat>, o: nat, prev: Option<nat>)
    requires Aligned(used, free) && o in used && IsPrev(free, o, prev)
    ensures Aligned(used - {o}, Coalesced(free, o, used[o].size, prev))
  {
    var end := o + used[o].size;
    if end in free { MultipleSum(used[o].size, free[end]); }
    if prev.Some? { MultipleSum(free[prev.value], if end in free then used[o].size + free[end] else used[o].size); }
  }

  lemma ReleasedBlockOk(used: map<nat, Block>, free: map<nat, nat>, len: nat, o: nat, prev: Option<nat>, p: nat)
    requires Tiled(used, free, len) && o in used && IsPrev(free, o, prev)
    requires Starts(used - {o}, Coalesced(free, o, used[o].size, prev), p)
    ensures BlockOk(used - {o}, Coalesced(free, o, used[o].size, prev), len, p)
  {
    var used', free' := used - {o}, Coalesced(free, o, used[o].size, prev);
    MergedBlockOk(used, free, len, o, prev);
    ReleasedStart(used, free, len, o, prev, p);
    if p != MergedStart(o, prev) { assert BlockOk(used, free, len, p); }
    var q := EndAt(used', free', p);
    if q != len { ReleasedNext(used, free, len, o, prev, q); }
  }

  lemma ReleasedApart(used: map<nat, Block>, free: map<nat, nat>, len: nat, o: nat, prev: Option<nat>, p: nat, q: nat)
    requires Tiled(used, free, len) && o in used && IsPrev(free, o, prev)
    requires Starts(used - {o}, Coalesced(free, o, used[o].size, prev), p)
    requires Starts(used - {o}, Coalesced(free, o, used[o].size, prev), q)
    ensures Apart(used - {o}, Coalesced(free, o, used[o].size, prev), p, q)
  {
    var start := MergedStart(o, prev);
    MergedBlockOk(used, free, len, o, prev);
    ReleasedStart(used, free, len, o, prev, p);
    ReleasedStart(used, free, len, o, prev, q);
    if p != start && q != start { assert Apart(used, free, p, q); }
    if q != start { assert BlockOk(used, free, len, q); }
  }

  lemma ReleaseKeepsTiling(used: map<nat, Block>, free: map<nat, nat>, len: nat, o: nat, prev: Option<nat>)
    requires Tiled(used, free, len) && o in used && IsPrev(free, o, prev)
    ensures Tiled(used - {o}, Coalesced(free, o, used[o].size, prev), len)
  {
    var used', free' := used - {o}, Coalesced(free, o, used[o].size, prev);
    forall p | Starts(used', free', p)
      ensures BlockOk(used', free', len, p)
    {
      ReleasedBlockOk(used, free, len, o, prev, p);
    }
    forall p, q | Starts(used', free', p) && Starts(used', free', q)
      ensures Apart(used', free', p, q)
    {
      ReleasedApart(used, free, len, o, prev, p, q);
    }
    forall p | p in free'
      ensures p + free'[p] !in free'
    {
      ReleasedNotAdjacent(used, free, len, o, prev, p);
    }
    if len > 0 { ReleasedNext(used, free, len, o, prev, 0); }
  }

  lemma ReleasedNotAdjacent(used: map<nat, Block>, free: map<nat, nat>, len: nat, o: nat, prev: Option<nat>, p: nat)
    requires Tiled(used, free, len) && o in used && IsPrev(free, o, prev)
    requires p in Coalesced(free, o, used[o].size, prev)
    ensures var free' := Coalesced(free, o, used[o].size, prev); p + free'[p] !in free'
  {
    var used', free' := used - {o}, Coalesced(free, o, used[o].size, prev);
    var q := p + free'[p];
    MergedBlockOk(used, free, len, o, prev);
    assert Starts(used', free', p);
    ReleasedStart(used, free, len, o, prev, p);
    if q in free' {
      assert Starts(used', free', q);
      ReleasedStart(used, free, len, o, prev, q);
    }
  }

  /** Exactly the bytes of the block become free. */
  lemma ReleaseFreesBytes(used: map<nat, Block>, free: map<nat, nat>, len: nat, o: nat, prev: Option<nat>, b: nat)
    requires Tiled(used, free, len) && o in used && IsPrev(free, o, prev)
    ensures FreeByte(Coalesced(free, o, used[o].size, prev), b) <==> FreeByte(free, b) || o <= b < o + used[o].size
  {
    var used', free' := used - {o}, Coalesced(free, o, used[o].size, prev);
    var start, stop := MergedStart(o, prev), MergedEnd(used, free, o);
    var end := o + used[o].size;
    MergedBlockOk(used, free, len, o, prev);
    assert start in free' && start + free'[start] == stop by {
      assert Starts(used', free', start);
      ReleasedStart(used, free, len, o, prev, start);
    }
    if start <= b < stop {
      assert FreeByte(free', b);
      if b < o { assert prev.value in free && prev.value <= b < prev.value + free[prev.value]; }
      if end <= b { assert end in free && end <= b < end + free[end]; }
    } else {
      if FreeByte(free', b) {
        var p :| p in free' && p <= b < p + free'[p];
        assert Starts(used', free', p);
        ReleasedStart(used, free, len, o, prev, p);
        assert p in free && p <= b < p + free[p];
      }
      if p :| p in free && p <= b < p + free[p] {
        assert p != start && p != end;
        assert p in free' && free'[p] == free[p];
      }
    }
  }

  // ---- the heap --------------------------------------------------------------------------------

  /** Block `o`'s bytes are the same in both regions. */
  predicate SameBytes(a: seq<byte>, b: seq<byte>, o: nat, size: nat) {
    o + size <= |a| && o + size <= |b| && a[o..o + size] == b[o..o + size]
  }

  /** How much of a block of `had` requested bytes is kept when `n` are asked for. */
  function Kept(had: nat, n: word): nat { if had < n then had else n }

  lemma SameSlice(a: seq<byte>, b: seq<byte>, o: nat, size: nat, keep: nat)
    requires SameBytes(a, b, o, size) && keep <= size
    ensures a[o..o + keep] == b[o..o + keep]
  {
    assert a[o..o + keep] == a[o..o + size][..keep];
    assert b[o..o + keep] == b[o..o + size][..keep];
  }

  lemma ZeroTail(a: seq<byte>, o: nat, size: nat, keep: nat)
    requires o + size <= |a| && a[o..o + size] == Zeros(size) && keep <= size
    ensures a[o + keep..o + size] == Zeros(size - keep)
  {
    assert a[o + keep..o + size] == a[o..o + size][keep..];
  }

  /** The block at `p` of `b` holds the first `keep` bytes of the block at `o` of `a`, then zeros. */
  predicate Resized(a: seq<byte>, o: nat, b: seq<byte>, p: nat, keep: nat, size: nat) {
    && keep <= size && o + keep <= |a| && p + size <= |b|
    && b[p..p + keep] == a[o..o + keep] && b[p + keep..p + size] == Zeros(size - keep)
  }

  lemma SplicedResized(a: seq<byte>, o: nat, p: nat, keep: nat, size: nat)
    requires o + keep <= |a| && p + size <= |a| && keep <= size && a[p..p + size] == Zeros(size)
    ensures Resized(a, o, Splice(a, p, a[o..o + keep]), p, keep, size)
  {
    ZeroTail(a, p, size, keep);
    var b := Splice(a, p, a[o..o + keep]);
    assert b[p..p + keep] == a[o..o + keep];
    assert b[p + keep..p + size] == a[p + keep..p + size];
  }

  lemma CarriedOver(a: seq<byte>, b: seq<byte>, c: seq<byte>, o: nat, had: nat, p: nat, keep: nat, size: nat)
    requires SameBytes(a, b, o, had) && keep <= had && Resized(b, o, c, p, keep, size)
    ensures Resized(a, o, c, p, keep, size)
  {
    SameSlice(a, b, o, had, keep);
  }

  /** Used blocks lie inside the region. */
  lemma BlocksInside(used: map<nat, Block>, free: map<nat, nat>, data: seq<byte>)
    requires Tiled(used, free, |data|)
    ensures forall p :: p in used ==> p + used[p].size <= |data|
  {
    forall p | p in used
      ensures p + used[p].size <= |data|
    {
      assert Starts(used, free, p);
      assert BlockOk(used, free, |data|, p);
    }
  }

  /** Zeroing or copying into one block leaves the others alone. */
  lemma OthersKept(used: map<nat, Block>, free: map<nat, nat>, len: nat, data: seq<byte>, o: nat, b: seq<byte>, p: nat)
    requires Tiled(used, free, len) && len == |data| && o in used && p in used && p != o && |b| <= used[o].size
    ensures o + |b| <= |data|
    ensures SameBytes(data, Splice(data, o, b), p, used[p].size)
  {
    assert Starts(used, free, o) && Starts(used, free, p);
    assert BlockOk(used, free, len, o) && BlockOk(used, free, len, p);
    assert Apart(used, free, o, p) && Apart(used, free, p, o);
  }

  /** No free block has `size` bytes. */
  predicate NoFit(free: map<nat, nat>, size: nat) { forall p :: p in free ==> free[p] < size }

  /** Where first fit puts `size` bytes: the lowest free block that has them, else the region's end. */
  predicate FirstFits(free: map<nat, nat>, len: nat, size: nat, o: nat) {
    if NoFit(free, size) then o == len
    else o in free && free[o] >= size && forall p :: p in free && free[p] >= size ==> o <= p
  }

  /** Exactly the bytes of the block at `o` left the free ones. */
  ghost predicate Took(before: map<nat, nat>, after: map<nat, nat>, o: nat, size: nat) {
    forall b: nat :: FreeByte(after, b) <==> FreeByte(before, b) && !(o <= b < o + size)
  }

  /** Exactly the bytes of the block at `o` joined the free ones. */
  ghost predicate Gave(before: map<nat, nat>, after: map<nat, nat>, o: nat, size: nat) {
    forall b: nat :: FreeByte(after, b) <==> FreeByte(before, b) || o <= b < o + size
  }

  /** No block of `live` but `except` has changed. */
  predicate Untouched(live: map<nat, Block>, except: Option<nat>, before: seq<byte>, after: seq<byte>) {
    forall p :: p in live && except != Some(p) ==> SameBytes(before, after, p, live[p].size)
  }

  /** Writing block `o`, which was not live, leaves the live blocks as they were. */
  lemma UntouchedStill(live: map<nat, Block>, except: Option<nat>, used: map<nat, Block>, o: nat,
                       a: seq<byte>, b: seq<byte>, c: seq<byte>)
    requires Untouched(live, None, a, b) && o !in live
    requires forall p :: p in live ==> p in used && used[p] == live[p]
    requires forall q :: q in used && q != o ==> SameBytes(b, c, q, used[q].size)
    ensures Untouched(live, except, a, c)
  {
    forall p | p in live
      ensures SameBytes(a, c, p, live[p].size)
    {
      assert SameBytes(a, b, p, live[p].size);
      assert SameBytes(b, c, p, used[p].size);
    }
  }

  class Heap {
    var data: seq<byte>
    const max: nat
    var used: map<nat, Block>
    var free: map<nat, nat>

    ghost predicate Valid()
      reads this
    {
      && Tiled(used, free, |data|) && Aligned(used, free)
      && Multiple(|data|) && |data| <= max < U32 && Multiple(max)
      && forall o :: o in used ==> used[o].requested <= used[o].size
    }

    constructor (limit: word)
      ensures Valid() && data == [] && used == map[] && free == map[] && Multiple(max) && limit - ALIGN < max <= limit
    {
      data, max, used, free := [], limit - limit % ALIGN, map[], map[];
      MultipleIsDivisible(limit - limit % ALIGN);
    }

    /** The lowest free block of at least `size` bytes. */
    method FirstFit(size: nat) returns (found: Option<nat>)
      requires Valid()
      ensures found.Some? ==> !NoFit(free, size) && FirstFits(free, |data|, size, found.value)
      ensures found.None? ==> NoFit(free, size)
    {
      for o := 0 to |data|
        invariant forall p :: p in free && free[p] >= size ==> o <= p
      {
        if o in free && free[o] >= size { return Some(o); }
      }
      forall p | p in free
        ensures free[p] < size
      {
        assert Starts(used, free, p);
        assert BlockOk(used, free, |data|, p);
      }
      return None;
    }

    /** Turns the first `size` bytes of a free block into a used one. */
    method TakeFree(o: nat, size: nat, n: nat)
      requires Valid() && o in free && n <= size <= free[o] && 0 < size && Multiple(size)
      modifies this`used, this`free
      ensures Valid() && o !in old(used) && used == old(used)[o := Block(size, n)] && Took(old(free), free, o, size)
    {
      var b := Block(size, n);
      TakeKeepsTiling(used, free, |data|, o, b);
      TakeKeepsAligned(used, free, o, b);
      forall x: nat
        ensures FreeByte(Taken(free, o, size), x) <==> FreeByte(free, x) && !(o <= x < o + size)
      {
        TakeTakesBytes(used, free, |data|, o, b, x);
      }
      free := Taken(free, o, size);
      used := used[o := b];
    }

    /** Grows the region by a used block. */
    method Append(size: nat, n: nat)
      requires Valid() && n <= size && 0 < size && Multiple(size) && |data| + size <= max
      modifies this`used, this`data
      ensures Valid() && |old(data)| !in old(used) && used == old(used)[|old(data)| := Block(size, n)]
      ensures |data| == |old(data)| + size && data[..|old(data)|] == old(data)
      ensures Took(free, free, |old(data)|, size)
    {
      var o := |data|;
      AppendKeepsTiling(used, free, o, Block(size, n));
      NoBlockAtEnd(used, free, o);
      NoFreeByteAfter(used, free, o);
      MultipleSum(o, size);
      data := data + Zeros(size);
      used := used[o := Block(size, n)];
    }

    /** Makes a used block of `size` bytes where first fit puts it, if the limit allows. */
    method Reserve(size: nat, n: nat) returns (r: Option<nat>)
      requires Valid() && n <= size && 0 < size && Multiple(size)
      modifies this
      ensures Valid()
      ensures r.None? <==> NoFit(old(free), size) && |old(data)| + size > max
      ensures r.None? ==> used == old(used) && free == old(free) && data == old(data)
      ensures r.Some? ==>
                && FirstFits(old(free), |old(data)|, size, r.value)
                && r.value !in old(used) && used == old(used)[r.value := Block(size, n)]
                && Took(old(free), free, r.value, size)
                && Untouched(old(used), None, old(data), data)
    {
      BlocksInside(used, free, data);
      var found := FirstFit(size);
      if found.Some? {
        TakeFree(found.value, size, n);
        return found;
      }
      var end := |data|;
      if end + size > max { return None; }
      Append(size, n);
      return Some(end);
    }

    /** Zeroes the block at `o`. */
    method Clear(o: nat)
      requires Valid() && o in used
      modifies this`data
      ensures Valid() && o + used[o].size <= |data| == |old(data)|
      ensures data[o..o + used[o].size] == Zeros(used[o].size)
      ensures forall q :: q in used && q != o ==> SameBytes(old(data), data, q, used[q].size)
    {
      BlocksInside(used, free, data);
      ghost var was := data;
      var z := Zeros(used[o].size);
      forall q | q in used && q != o
        ensures SameBytes(was, Splice(was, o, z), q, used[q].size)
      {
        OthersKept(used, free, |data|, data, o, z, q);
      }
      data := Splice(data, o, z);
    }

    /** Allocates `n` zeroed bytes: in the lowest free block that fits, else at the end of the region,
        as long as that stays within the limit. Live blocks keep their bytes. */
    method Alloc(n: word) returns (r: Option<nat>)
      requires Valid()
      modifies this
      ensures Valid()
      ensures r.None? <==> RoundUp(n).None? || (NoFit(old(free), RoundUp(n).value) && |old(data)| + RoundUp(n).value > max)
      ensures r.None? ==> used == old(used) && free == old(free) && data == old(data)
      ensures r.Some? ==>
                var size := RoundUp(n).value;
                && FirstFits(old(free), |old(data)|, size, r.value)
                && r.value !in old(used) && used == old(used)[r.value := Block(size, n)]
                && Took(old(free), free, r.value, size)
                && r.value + size <= |data| && data[r.value..r.value + size] == Zeros(size)
                && Untouched(old(used), None, old(data), data)
    {
      var rounded := RoundUp(n);
      if rounded.None? { return None; }
      ghost var was, live := data, used;
      r := Reserve(rounded.value, n);
      if r.None? { return; }
      ghost var reserved := data;
      Clear(r.value);
      UntouchedStill(live, None, used, r.value, was, reserved, data);
    }

    /** The free block that ends at `start`, looking down from it. */
    method Preceding(start: nat) returns (prev: Option<nat>)
      requires Valid() && Starts(used, free, start)
      ensures IsPrev(free, start, prev)
    {
      var p := start;
      while p > 0
        invariant p <= start
        invariant forall q :: q in free && q < start ==> q < p
        decreases p
      {
        p := p - 1;
        if p in free {
          if p + free[p] == start { return Some(p); }
          forall q | q in free
            ensures q + free[q] != start
          {
            LastBelow(used, free, |data|, start, p, q);
          }
          return None;
        }
      }
      forall q | q in free
        ensures q + free[q] != start
      {
        assert Starts(used, free, q);
        assert BlockOk(used, free, |data|, q);
      }
      return None;
    }

    /** Frees the block at `offset`, if one starts there: its bytes, and no others, become free. */
    method Free(offset: nat) returns (ok: bool)
      requires Valid()
      modifies this`used, this`free
      ensures Valid() && (ok <==> offset in old(used))
      ensures !ok ==> used == old(used) && free == old(free)
      ensures ok ==> used == old(used) - {offset} && Gave(old(free), free, offset, old(used)[offset].size)
    {
      if offset !in used { return false; }
      var size := used[offset].size;
      var prev := Preceding(offset);
      ReleaseKeepsTiling(used, free, |data|, offset, prev);
      ReleaseKeepsAligned(used, free, offset, prev);
      forall b: nat
        ensures FreeByte(Coalesced(free, offset, size, prev), b) <==> FreeByte(free, b) || offset <= b < offset + size
      {
        ReleaseFreesBytes(used, free, |data|, offset, prev, b);
      }
      used := used - {offset};
      free := Coalesced(free, offset, size, prev);
      return true;
    }

    /** Copies the first `keep` bytes of the block at `o` to the zeroed block at `p`. */
    method Carry(o: nat, p: nat, keep: nat)
      requires Valid() && o in used && p in used && o != p && keep <= used[o].size && keep <= used[p].size
      requires p + used[p].size <= |data| && data[p..p + used[p].size] == Zeros(used[p].size)
      modifies this`data
      ensures Valid() && Resized(old(data), o, data, p, keep, used[p].size)
      ensures forall q :: q in used && q != p ==> SameBytes(old(data), data, q, used[q].size)
    {
      assert Starts(used, free, o) && Starts(used, free, p);
      assert BlockOk(used, free, |data|, o) && BlockOk(used, free, |data|, p);
      ghost var was := data;
      var b := data[o..o + keep];
      forall q | q in used && q != p
        ensures SameBytes(was, Splice(was, p, b), q, used[q].size)
      {
        OthersKept(used, free, |data|, data, p, b, q);
      }
      SplicedResized(data, o, p, keep, used[p].size);
      data := Splice(data, p, b);
    }

    /** Copies block `o` to a new one of `n` bytes. */
    method CopyOf(o: nat, n: word) returns (r: Option<nat>)
      requires Valid() && o in used
      modifies this
      ensures Valid()
      ensures r.None? ==> used == old(used) && free == old(free) && data == old(data)
      ensures r.None? <==> RoundUp(n).None? || (NoFit(old(free), RoundUp(n).value) && |old(data)| + RoundUp(n).value > max)
      ensures r.Some? ==>
                && r.value !in old(used) && used == old(used)[r.value := Block(RoundUp(n).value, n)]
                && Untouched(old(used), None, old(data), data)
                && Resized(old(data), o, data, r.value, Kept(old(used)[o].requested, n), RoundUp(n).value)
    {
      var keep := Kept(used[o].requested, n);
      r := Alloc(n);
      if r.None? { return; }
      ghost var zeroed := data;
      Carry(o, r.value, keep);
      CarriedOver(old(data), zeroed, data, o, old(used)[o].size, r.value, keep, RoundUp(n).value);
      UntouchedStill(old(used), None, used, r.value, old(data), zeroed, data);
    }

    /** Moves block `o` to a new one of `n` bytes. */
    method Move(o: nat, n: word) returns (r: Option<nat>)
      requires Valid() && o in used
      modifies this
      ensures Valid()
      ensures r.None? ==> used == old(used) && free == old(free) && data == old(data)
      ensures r.None? <==> RoundUp(n).None? || (NoFit(old(free), RoundUp(n).value) && |old(data)| + RoundUp(n).value > max)
      ensures r.Some? ==>
                && r.value !in old(used) && used == old(used)[r.value := Block(RoundUp(n).value, n)] - {o}
                && Untouched(old(used), Some(o), old(data), data)
                && Resized(old(data), o, data, r.value, Kept(old(used)[o].requested, n), RoundUp(n).value)
    {
      r := CopyOf(o, n);
      if r.Some? { var ok := Free(o); }
    }

    /** Resizes a block, keeping the first bytes of its contents: they move to a new block, zeroed
        beyond them. Without a block it allocates. */
    method Realloc(offset: Option<nat>, n: word) returns (r: Option<nat>)
      requires Valid()
      modifies this
      ensures Valid()
      ensures r.None? ==> used == old(used) && free == old(free) && data == old(data)
      ensures r.None? <==>
                || (offset.Some? && offset.value !in old(used))
                || RoundUp(n).None? || (NoFit(old(free), RoundUp(n).value) && |old(data)| + RoundUp(n).value > max)
      ensures r.Some? ==> r.value !in old(used) && Untouched(old(used), offset, old(data), data)
      ensures r.Some? && offset.Some? ==>
                && used == old(used)[r.value := Block(RoundUp(n).value, n)] - {offset.value}
                && Resized(old(data), offset.value, data, r.value, Kept(old(used)[offset.value].requested, n), RoundUp(n).value)
      ensures r.Some? && offset.None? ==>
                && used == old(used)[r.value := Block(RoundUp(n).value, n)]
                && r.value + RoundUp(n).value <= |data|
                && data[r.value..r.value + RoundUp(n).value] == Zeros(RoundUp(n).value)
    {
      if offset.None? {
        r := Alloc(n);
      } else if offset.value !in used {
        r := None;
      } else {
        r := Move(offset.value, n);
      }
    }
  }
}
