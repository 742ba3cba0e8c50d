/** Temp strings: a slot table with exact accounting, collected conservatively (`src/vm/strings.rs`). */
module Strings {
  import opened Bytes
  import M = Machine

  const TEMP_TAG: nat := 0x8000_0000
  const STATIC_TAG: nat := 0xC000_0000
  const INDEX_MASK: nat := 0x3FFF_FFFF
  const INITIAL_SLOTS: nat := 1024

  type Slots = seq<Option<seq<byte>>>

  function Min(a: nat, b: nat): nat { if a <= b then a else b }

  function Max(a: nat, b: nat): nat { if a >= b then a else b }

  // ---- accounting ------------------------------------------------------------------------------

  function SizeOf(slot: Option<seq<byte>>): nat { if slot.Some? then |slot.value| else 0 }

  function CountOf(slot: Option<seq<byte>>): nat { if slot.Some? then 1 else 0 }

  /** Strings in the table. */
  function Live(slots: Slots): nat {
    if slots == [] then 0 else Live(slots[..|slots| - 1]) + CountOf(slots[|slots| - 1])
  }

  /** Bytes they take, terminators and padding included. */
  function Size(slots: Slots): nat {
    if slots == [] then 0 else Size(slots[..|slots| - 1]) + SizeOf(slots[|slots| - 1])
  }

  /** Replacing one slot changes the totals by that slot's share. */
  lemma {:induction false} ReplaceCounts(slots: Slots, i: nat, d: Option<seq<byte>>)
    requires i < |slots|
    ensures Live(slots[i := d]) + CountOf(slots[i]) == Live(slots) + CountOf(d)
    ensures Size(slots[i := d]) + SizeOf(slots[i]) == Size(slots) + SizeOf(d)
  {
    var n := |slots| - 1;
    if i < n {
      ReplaceCounts(slots[..n], i, d);
      assert slots[i := d][..n] == slots[..n][i := d];
    } else {
      assert slots[i := d][..n] == slots[..n];
    }
  }

  /** Empty slots count for nothing. */
  lemma {:induction false} PadCounts(slots: Slots, more: nat)
    ensures Live(slots + Empty(more)) == Live(slots) && Size(slots + Empty(more)) == Size(slots)
  {
    if more == 0 {
      assert slots + Empty(0) == slots;
    } else {
      PadCounts(slots, more - 1);
      var padded := slots + Empty(more - 1);
      assert slots + Empty(more) == padded + [None];
      assert (padded + [None])[..|padded|] == padded;
    }
  }

  function Empty(n: nat): (s: Slots)
    ensures |s| == n && forall i :: 0 <= i < n ==> s[i].None?
  {
    seq(n, i => None)
  }

  /** A table with fewer strings than slots has an empty slot. */
  lemma {:induction false} SomeEmpty(slots: Slots)
    ensures Live(slots) <= |slots|
    ensures Live(slots) < |slots| ==> exists i :: 0 <= i < |slots| && slots[i].None?
  {
    if slots != [] {
      var n := |slots| - 1;
      SomeEmpty(slots[..n]);
      if slots[n].Some? && Live(slots) < |slots| {
        var i :| 0 <= i < n && slots[..n][i].None?;
        assert slots[i].None?;
      }
    }
  }

  /** Later slots add to the totals. */
  lemma {:induction false} PrefixCounts(slots: Slots, k: nat)
    requires k <= |slots|
    ensures Live(slots[..k]) <= Live(slots) && Size(slots[..k]) <= Size(slots)
    decreases |slots| - k
  {
    if k < |slots| {
      PrefixCounts(slots, k + 1);
      assert slots[..k + 1][..k] == slots[..k];
    } else {
      assert slots[..k] == slots;
    }
  }

  // ---- references ------------------------------------------------------------------------------

  /** The reference of temp slot `slot`. */
  function TempRef(slot: nat): word
    requires slot <= INDEX_MASK
  {
    TEMP_TAG + slot
  }

  /** References classify as what they were made from, and different slots' references differ. */
  lemma RefsClassify(slot: nat, other: nat)
    requires slot <= INDEX_MASK && other <= INDEX_MASK
    ensures M.Classify(TempRef(slot)) == M.Temp(slot)
    ensures TempRef(slot) == TempRef(other) ==> slot == other
  {
  }

  /** The `k`th aligned word of a root region. */
  function RootWord(root: seq<byte>, k: nat): word
    requires k < |root| / 4
  {
    WordAt(root, 4 * k)
  }

  /** One of the first `n` words of the region refers to temp slot `slot`. */
  predicate NamedIn(root: seq<byte>, n: nat, slot: nat) {
    n <= |root| / 4 && exists k :: 0 <= k < n && M.Classify(RootWord(root, k)) == M.Temp(slot)
  }

  /** An aligned word of one of the first `n` regions refers to the slot. */
  predicate Named(roots: seq<seq<byte>>, n: nat, slot: nat) {
    n <= |roots| && exists i :: 0 <= i < n && NamedIn(roots[i], |roots[i]| / 4, slot)
  }

  lemma NamedInNext(root: seq<byte>, n: nat, slot: nat)
    requires n < |root| / 4
    ensures NamedIn(root, n + 1, slot) <==> NamedIn(root, n, slot) || M.Classify(RootWord(root, n)) == M.Temp(slot)
  {
  }

  lemma NamedNext(roots: seq<seq<byte>>, n: nat, slot: nat)
    requires n < |roots|
    ensures Named(roots, n + 1, slot) <==> Named(roots, n, slot) || NamedIn(roots[n], |roots[n]| / 4, slot)
  {
  }

  /** What a collection leaves of a slot. */
  function Swept(slot: Option<seq<byte>>, marked: bool): Option<seq<byte>> { if marked then slot else None }

  // ---- the table -------------------------------------------------------------------------------

  /** Slots `from` up to (not including) `to` are all taken. */
  predicate AllTaken(slots: Slots, from: nat, to: nat) {
    to <= |slots| && forall i :: from <= i < to ==> slots[i].Some?
  }

  /** Slot `s` is the first empty one, searching from `start` to the end and then from the beginning. */
  predicate FirstEmpty(slots: Slots, start: nat, s: nat) {
    && s < |slots| && slots[s].None?
    && (if s >= start then AllTaken(slots, start, s) else AllTaken(slots, start, |slots|) && AllTaken(slots, 0, s))
  }

  /** The capacity a full table grows to. */
  function Grown(capacity: nat, maxSlots: nat): nat { Min(2 * capacity + INITIAL_SLOTS, maxSlots) }

  /** `text` with its terminator, padded to whole words. */
  function Padded(text: seq<byte>): (r: seq<byte>)
    ensures text <= r && |text| < |r| <= |text| + 4 && |r| % 4 == 0
    ensures forall i :: |text| <= i < |r| ==> r[i] == 0
  {
    text + Zeros((|text| + 4) / 4 * 4 - |text|)
  }

  class Strings {
    var slots: Slots
    var capacity: nat
    var cursor: nat
    var live: nat
    var bytes: nat
    const maxSlots: nat
    const maxBytes: nat
    var pins: map<nat, nat>

    /** The counters are exact and within the limits, and every slot fits a reference. */
    ghost predicate Valid()
      reads this
    {
      && live == Live(slots) && bytes == Size(slots) && bytes <= maxBytes
      && |slots| <= capacity && 1 <= capacity <= Max(maxSlots, 1) && maxSlots <= INDEX_MASK
      && (forall p :: p in pins ==> pins[p] > 0)
    }

    constructor (slotLimit: nat, byteLimit: nat)
      ensures Valid() && slots == [] && pins == map[]
      ensures maxSlots == Min(slotLimit, INDEX_MASK) && maxBytes == byteLimit
    {
      slots, cursor, live, bytes, pins := [], 0, 0, 0, map[];
      capacity := Min(INITIAL_SLOTS, Max(slotLimit, 1));
      maxSlots := Min(slotLimit, INDEX_MASK);
      maxBytes := byteLimit;
    }

    /** The table as the interpreter sees it. */
    ghost function Table(statics: seq<seq<byte>>): M.StrTab
      reads this
    {
      M.StrTab(slots, bytes, statics)
    }

    /** Whether a string of `len` bytes would fit the byte limit. */
    predicate Fits(len: nat)
      reads this
    {
      (len + 4) / 4 * 4 <= (if bytes <= maxBytes then maxBytes - bytes else 0)
    }

    /** No slot is left and the table may not grow. */
    predicate Full()
      reads this
    {
      live >= capacity && Grown(capacity, maxSlots) <= capacity
    }

    /** Searches the slots from `start` up to `end` for an empty one. */
    method Search(start: nat, end: nat) returns (found: Option<nat>)
      requires start <= end <= |slots|
      ensures found.Some? ==> start <= found.value < end && slots[found.value].None? && AllTaken(slots, start, found.value)
      ensures found.None? ==> AllTaken(slots, start, end)
    {
      for i := start to end
        invariant AllTaken(slots, start, i)
      {
        if slots[i].None? { return Some(i); }
      }
      return None;
    }

    /** Grows the table when it is full, and finds an empty slot in cyclic order from the cursor. The
        search never fails. */
    method FreeSlot() returns (slot: Option<nat>)
      requires Valid()
      modifies this`slots, this`capacity
      ensures Valid()
      ensures slot.None? <==> old(Full())
      ensures slot.None? ==> slots == old(slots) && capacity == old(capacity)
      ensures slot.Some? ==>
                && capacity == (if live < old(capacity) then old(capacity) else Grown(old(capacity), maxSlots))
                && slots == old(slots) + Empty(capacity - |old(slots)|) && |slots| == capacity
                && FirstEmpty(slots, cursor % capacity, slot.value)
    {
      SomeEmpty(slots);
      var room := capacity;
      if live >= capacity {
        room := Grown(capacity, maxSlots);
        if room <= capacity { return None; }
      }
      PadCounts(slots, room - |slots|);
      slots := slots + Empty(room - |slots|);
      capacity := room;
      SomeEmpty(slots);
      var start := cursor % capacity;
      slot := Search(start, capacity);
      if slot.None? { slot := Search(0, start); }
    }

    /** Stores padded data in a new slot. */
    method AllocRaw(data: seq<byte>) returns (r: Option<word>)
      requires Valid()
      modifies this
      ensures Valid() && pins == old(pins)
      ensures r.None? <==> old(bytes) + |data| > maxBytes || old(Full())
      ensures r.None? ==> slots == old(slots) && live == old(live) && bytes == old(bytes)
      ensures r.Some? ==>
                && M.Classify(r.value).Temp? && Stored(old(slots), slots, M.Classify(r.value).slot, data)
                && live == old(live) + 1 && bytes == old(bytes) + |data|
    {
      if bytes + |data| > maxBytes { return None; }
      var slot := FreeSlot();
      if slot.None? { return None; }
      ghost var was := slots;
      ReplaceCounts(slots, slot.value, Some(data));
      slots := slots[slot.value := Some(data)];
      live := live + 1;
      bytes := bytes + |data|;
      cursor := slot.value + 1;
      r := Some(TempRef(slot.value));
      assert Stored(old(slots), slots, slot.value, data);
    }

    /** Stores a string: its reference is that of no live string, and no other string changes. */
    method Alloc(text: seq<byte>) returns (r: Option<word>)
      requires Valid()
      modifies this
      ensures Valid() && pins == old(pins)
      ensures r.None? <==> !old(Fits(|text|)) || old(Full())
      ensures r.None? ==> slots == old(slots) && live == old(live) && bytes == old(bytes)
      ensures r.Some? ==>
                && M.Classify(r.value).Temp? && Stored(old(slots), slots, M.Classify(r.value).slot, Padded(text))
                && live == old(live) + 1 && bytes == old(bytes) + |Padded(text)|
    {
      if !Fits(|text|) { return None; }
      r := AllocRaw(Padded(text));
    }

    /** Makes slot data at least `len` bytes long, within the limits. */
    method TempRawMut(slot: nat, len: nat, ghost statics: seq<seq<byte>>) returns (ok: bool)
      requires Valid()
      modifies this`slots, this`bytes
      ensures Valid() && |slots| == |old(slots)|
      ensures ok <==> M.GrowTemp(old(Table(statics)), slot, len, maxBytes).Some?
      ensures ok ==> Table(statics) == M.GrowTemp(old(Table(statics)), slot, len, maxBytes).value
      ensures !ok ==> slots == old(slots) && bytes == old(bytes)
    {
      if slot >= |slots| || slots[slot].None? { return false; }
      var data := slots[slot].value;
      if |data| < len {
        if len > M.MAX_TEMP_GROWTH { return false; }
        var grow := (len + 3) / 4 * 4;
        var extra := grow - |data|;
        if bytes + extra > maxBytes { return false; }
        ReplaceCounts(slots, slot, Some(data + Zeros(extra)));
        slots := slots[slot := Some(data + Zeros(extra))];
        bytes := bytes + extra;
      } else {
        assert slots[slot := Some(data)] == slots;
      }
      return true;
    }

    /** Keeps a temp string across collections, once more. */
    method Pin(r: word)
      requires Valid()
      modifies this`pins
      ensures Valid()
      ensures pins == match M.Classify(r)
                      case Temp(slot) => old(pins)[slot := (if slot in old(pins) then old(pins)[slot] else 0) + 1]
                      case _ => old(pins)
    {
      match M.Classify(r) {
        case Temp(slot) => pins := pins[slot := (if slot in pins then pins[slot] else 0) + 1];
        case _ =>
      }
    }

    /** Undoes one `Pin`. */
    method Unpin(r: word)
      requires Valid()
      modifies this`pins
      ensures Valid()
      ensures pins == match M.Classify(r)
                      case Temp(slot) =>
                        if slot !in old(pins) then old(pins)
                        else if old(pins)[slot] == 1 then old(pins) - {slot}
                        else old(pins)[slot := old(pins)[slot] - 1]
                      case _ => old(pins)
    {
      match M.Classify(r) {
        case Temp(slot) =>
          if slot in pins {
            pins := pins[slot := pins[slot] - 1];
            if pins[slot] == 0 { pins := pins - {slot}; }
          }
        case _ =>
      }
      assert M.Classify(r).Temp? && M.Classify(r).slot in old(pins) && old(pins)[M.Classify(r).slot] == 1 ==>
          pins == old(pins) - {M.Classify(r).slot};
    }

    /** Marks the slots the aligned words of the roots refer to. */
    method Mark(roots: seq<seq<byte>>) returns (marks: array<bool>)
      ensures fresh(marks) && marks.Length == |slots|
      ensures forall s :: 0 <= s < |slots| ==> (marks[s] <==> Named(roots, |roots|, s))
    {
      marks := new bool[|slots|](i => false);
      for i := 0 to |roots|
        invariant forall s :: 0 <= s < |slots| ==> (marks[s] <==> Named(roots, i, s))
      {
        var root := roots[i];
        for k := 0 to |root| / 4
          invariant forall s :: 0 <= s < |slots| ==> (marks[s] <==> Named(roots, i, s) || NamedIn(root, k, s))
        {
          ghost var was := marks[..];
          var kind := M.Classify(RootWord(root, k));
          if kind.Temp? && kind.slot < |slots| { marks[kind.slot] := true; }
          forall s | 0 <= s < |slots|
            ensures marks[s] <==> Named(roots, i, s) || NamedIn(root, k + 1, s)
          {
            NamedInNext(root, k, s);
            assert was[s] <==> Named(roots, i, s) || NamedIn(root, k, s);
          }
        }
        forall s | 0 <= s < |slots|
          ensures marks[s] <==> Named(roots, i + 1, s)
        {
          NamedNext(roots, i, s);
        }
      }
    }

    /** Frees the unmarked strings. */
    method Sweep(marks: array<bool>) returns (freed: nat)
      requires Valid() && marks.Length == |slots|
      modifies this`slots, this`bytes
      ensures |slots| == |old(slots)|
      ensures forall i :: 0 <= i < |slots| ==> slots[i] == Swept(old(slots)[i], marks[i])
      ensures bytes == Size(slots) && live == Live(slots) + freed
    {
      freed := 0;
      for i := 0 to |slots|
        invariant |slots| == |old(slots)| && slots[i..] == old(slots)[i..]
        invariant forall j :: 0 <= j < i ==> slots[j] == Swept(old(slots)[j], marks[j])
        invariant bytes == Size(slots) && live == Live(slots) + freed
      {
        if !marks[i] && slots[i].Some? {
          ReplaceCounts(slots, i, None);
          bytes := bytes - |slots[i].value|;
          freed := freed + 1;
          slots := slots[i := None];
        }
      }
    }

    /** Collects: a string is kept if and only if it is pinned or an aligned word of a root refers to
        it, and kept strings do not change. */
    method Collect(roots: seq<seq<byte>>) returns (kept: nat, freed: nat)
      requires Valid()
      modifies this`slots, this`bytes, this`live, this`cursor, this`capacity
      ensures Valid() && |slots| == |old(slots)| && old(capacity) <= capacity
      ensures forall i :: 0 <= i < |slots| ==>
                slots[i] == Swept(old(slots)[i], Named(roots, |roots|, i) || i in pins)
      ensures kept == live && old(live) == kept + freed
    {
      var marks := Mark(roots);
      var keys := pins.Keys;
      while keys != {}
        invariant keys <= pins.Keys
        invariant forall s :: 0 <= s < |slots| ==> (marks[s] <==> Named(roots, |roots|, s) || s in pins.Keys - keys)
        decreases |keys|
        modifies marks
      {
        var slot :| slot in keys;
        if slot < |slots| { marks[slot] := true; }
        keys := keys - {slot};
      }
      freed := Sweep(marks);
      live := live - freed;
      cursor := 0;
      if live >= capacity / 2 { capacity := Min(2 * capacity, Max(maxSlots, 1)); }
      PrefixCounts(slots, 0);
      kept := live;
      TotalBound(old(slots), slots);
    }
  }

  /** `after` is `before`, grown with empty slots, with `data` in slot `s`, which was empty. */
  predicate Stored(before: Slots, after: Slots, s: nat, data: seq<byte>) {
    && s < |after| && |before| <= |after| && after[s] == Some(data)
    && (s < |before| ==> before[s].None?)
    && forall i :: 0 <= i < |after| && i != s ==> after[i] == if i < |before| then before[i] else None
  }

  /** A sweep does not grow the totals. */
  lemma {:induction false} TotalBound(before: Slots, after: Slots)
    requires |after| == |before|
    requires forall i :: 0 <= i < |after| ==> after[i] == before[i] || after[i].None?
    ensures Size(after) <= Size(before)
  {
    if after != [] {
      var n := |after| - 1;
      TotalBound(before[..n], after[..n]);
      assert after[n] == before[n] || after[n].None?;
    }
  }

  /** The references of live strings after an allocation are those before and the new one, which is
      new. */
  lemma NewRefIsDistinct(before: Slots, after: Slots, s: nat, data: seq<byte>, t: nat)
    requires Stored(before, after, s, data) && |after| <= INDEX_MASK && t < |before| && before[t].Some?
    ensures TempRef(t) != TempRef(s) && after[t] == before[t]
  {
    RefsClassify(s, t);
  }
}
