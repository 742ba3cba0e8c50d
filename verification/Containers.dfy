/** Hash tables, string buffers and the token list of a VM, and the storage charged for them
    (`src/stdlib/hash.rs`, `src/stdlib/strbuf.rs`, `src/stdlib/tokenize.rs`, `src/stdlib/util.rs`). */
module Containers {
  import opened Bytes
  import opened HashTable
  import T = Tokens
  import S = StringSort

  const EV_STRING: int := 1
  const EV_VECTOR: int := 3
  const GAMESTATE_BUCKETS: nat := 256
  const MAX_BUCKETS: nat := 0x1_0000
  const SLOT_BYTES: nat := 16

  // ---- string buffers --------------------------------------------------------------------------

  type Slots = seq<Option<seq<byte>>>

  function TextBytes(s: Option<seq<byte>>): nat { if s.Some? then |s.value| else 0 }

  /** A string buffer: its entries, with holes, and the storage it holds. */
  datatype StrBuf = StrBuf(strings: Slots, bytes: nat)

  predicate BufOk(b: StrBuf) { b.bytes == |b.strings| * SLOT_BYTES + Total(b.strings, TextBytes) }

  function Holes(n: nat): (s: Slots)
    ensures |s| == n && forall i :: 0 <= i < n ==> s[i].None?
  {
    seq(n, i => None)
  }

  lemma {:induction false} HolesSize(n: nat)
    ensures Total(Holes(n), TextBytes) == 0
  {
    if n > 0 {
      HolesSize(n - 1);
      assert Holes(n)[..n - 1] == Holes(n - 1);
    }
  }

  /** The buffer's entries, grown to hold entry `i`. */
  function Reaching(s: Slots, i: nat): (r: Slots)
    ensures |r| == if i < |s| then |s| else i + 1
    ensures forall k :: 0 <= k < |s| ==> r[k] == s[k]
    ensures forall k :: |s| <= k < |r| ==> r[k].None?
  {
    if i < |s| then s else s + Holes(i + 1 - |s|)
  }

  function BytesAfterSet(b: StrBuf, i: nat, len: nat): nat {
    var grow := if i + 1 >= |b.strings| then i + 1 - |b.strings| else 0;
    var had := if i < |b.strings| then TextBytes(b.strings[i]) else 0;
    var n := b.bytes + grow * SLOT_BYTES + len;
    if n >= had then n - had else 0
  }

  /** Storing an entry. */
  function SetEntry(b: StrBuf, i: nat, s: seq<byte>): StrBuf {
    StrBuf(Reaching(b.strings, i)[i := Some(s)], BytesAfterSet(b, i, |s|))
  }

  lemma SetEntryOk(b: StrBuf, i: nat, s: seq<byte>)
    requires BufOk(b)
    ensures BufOk(SetEntry(b, i, s))
    ensures var r := SetEntry(b, i, s).strings;
      && |r| == (if i < |b.strings| then |b.strings| else i + 1) && r[i] == Some(s)
      && forall k :: 0 <= k < |r| && k != i ==> r[k] == if k < |b.strings| then b.strings[k] else None
  {
    var r := Reaching(b.strings, i);
    if i >= |b.strings| {
      HolesSize(i + 1 - |b.strings|);
      TotalJoin(b.strings, Holes(i + 1 - |b.strings|), TextBytes);
    }
    TotalReplace(r, i, Some(s), TextBytes);
    TotalAtLeast(r, i, TextBytes);
  }

  /** Turning an entry into a hole. */
  function FreeEntry(b: StrBuf, i: nat): StrBuf {
    if i < |b.strings| && b.strings[i].Some? then
      StrBuf(b.strings[i := None], if b.bytes >= |b.strings[i].value| then b.bytes - |b.strings[i].value| else 0)
    else b
  }

  lemma FreeEntryOk(b: StrBuf, i: nat)
    requires BufOk(b)
    ensures BufOk(FreeEntry(b, i)) && FreeEntry(b, i).bytes <= b.bytes
    ensures FreeEntry(b, i).bytes + (if i < |b.strings| then TextBytes(b.strings[i]) else 0) == b.bytes
  {
    if i < |b.strings| && b.strings[i].Some? {
      TotalReplace(b.strings, i, None, TextBytes);
      TotalAtLeast(b.strings, i, TextBytes);
    }
  }

  /** A buffer with these contents. */
  function FromStrings(s: Slots): StrBuf { StrBuf(s, |s| * SLOT_BYTES + Total(s, TextBytes)) }

  // ---- slots -----------------------------------------------------------------------------------

  /** The first unused slot, or the one after the last. */
  function FirstUnused<T>(s: seq<Option<T>>, from: nat): (i: nat)
    requires from <= |s|
    ensures from <= i <= |s| && (i < |s| ==> s[i].None?) && forall k :: from <= k < i ==> s[k].Some?
    decreases |s| - from
  {
    if from < |s| && s[from].Some? then FirstUnused(s, from + 1) else from
  }

  /** Slots in use. */
  function Used<T>(s: seq<Option<T>>): (n: nat)
    ensures n <= |s|
  {
    if s == [] then 0 else Used(s[..|s| - 1]) + if s[|s| - 1].Some? then 1 else 0
  }

  method FindUnused<T>(s: seq<Option<T>>) returns (i: nat)
    ensures i == FirstUnused(s, 0)
  {
    i := 0;
    while i < |s| && s[i].Some?
      invariant i <= |s| && FirstUnused(s, 0) == FirstUnused(s, i)
    {
      i := i + 1;
    }
  }

  method CountUsed<T>(s: seq<Option<T>>) returns (n: nat)
    ensures n == Used(s)
  {
    n := 0;
    for i := 0 to |s|
      invariant n == Used(s[..i])
    {
      assert s[..i + 1][..i] == s[..i];
      if s[i].Some? { n := n + 1; }
    }
    assert s[..|s|] == s;
  }

  // ---- charges ---------------------------------------------------------------------------------

  function TableShare(t: Option<Table>): nat { if t.Some? then t.value.bytes else 0 }

  function BufShare(b: Option<StrBuf>): nat { if b.Some? then b.value.bytes else 0 }

  /** The `gamestate` table's own buckets are never charged. */
  function GamestateShare(t: Option<Table>): nat {
    if t.Some? && t.value.bytes >= GAMESTATE_BUCKETS * BUCKET_BYTES then t.value.bytes - GAMESTATE_BUCKETS * BUCKET_BYTES
    else 0
  }

  function TokenBytes(t: T.Token): nat { T.TOKEN_BYTES + |t.text| }

  /** What all containers hold. */
  function Held(tables: seq<Option<Table>>, gamestate: Option<Table>, bufs: seq<Option<StrBuf>>, tokens: seq<T.Token>): nat {
    Total(tables, TableShare) + GamestateShare(gamestate) + Total(bufs, BufShare) + Total(tokens, TokenBytes)
  }

  class Containers {
    const hash: seq<byte> -> nat
    const limit: nat
    const maxTables: nat
    const maxBufs: nat
    var tables: seq<Option<Table>>
    var gamestate: Option<Table>
    var bufs: seq<Option<StrBuf>>
    var tokens: seq<T.Token>
    var charged: nat

    /** Charges are exactly what the containers hold, within the limit. */
    ghost predicate Valid()
      reads this
    {
      && charged == Held(tables, gamestate, bufs, tokens) && charged <= limit
      && (forall i :: 0 <= i < |tables| ==> tables[i].Some? ==> TableOk(tables[i].value))
      && (gamestate.Some? ==> TableOk(gamestate.value) && |gamestate.value.buckets| == GAMESTATE_BUCKETS)
      && (forall i :: 0 <= i < |bufs| ==> bufs[i].Some? ==> BufOk(bufs[i].value))
    }

    constructor (hash: seq<byte> -> nat, limit: nat, maxTables: nat, maxBufs: nat)
      ensures Valid() && tables == [] && gamestate == None && bufs == [] && tokens == []
      ensures this.hash == hash && this.limit == limit && this.maxTables == maxTables && this.maxBufs == maxBufs
    {
      this.hash, this.limit, this.maxTables, this.maxBufs := hash, limit, maxTables, maxBufs;
      tables, gamestate, bufs, tokens, charged := [], None, [], [], 0;
    }

    // ---- charging ------------------------------------------------------------------------------

    method Charge(n: nat) returns (ok: bool)
      modifies this`charged
      ensures ok <==> old(charged) + n <= limit
      ensures charged == old(charged) + (if ok then n else 0)
    {
      if charged + n > limit { return false; }
      charged := charged + n;
      return true;
    }

    method Release(n: nat)
      modifies this`charged
      ensures charged == if old(charged) >= n then old(charged) - n else 0
    {
      charged := if charged >= n then charged - n else 0;
    }

    /** Charges or releases the difference. */
    method Recharge(had: nat, now: nat) returns (ok: bool)
      requires had <= charged <= limit
      modifies this`charged
      ensures ok <==> old(charged) - had + now <= limit
      ensures charged == if ok then old(charged) - had + now else old(charged)
    {
      if now >= had {
        ok := Charge(now - had);
      } else {
        Release(had - now);
        ok := true;
      }
    }

    // ---- tables --------------------------------------------------------------------------------

    /** Handle 0 is the `gamestate` table; others count from 1. */
    predicate IsTable(handle: int)
      reads this
    {
      handle == 0 || (1 <= handle <= |tables| && tables[handle - 1].Some?)
    }

    function TableAt(handle: int): Table
      requires IsTable(handle)
      reads this
    {
      if handle == 0 then (if gamestate.Some? then gamestate.value else NewTable(GAMESTATE_BUCKETS, EV_STRING))
      else tables[handle - 1].value
    }

    /** A usable handle's table is well-formed, and its storage is part of what is charged. */
    lemma TableAtOk(handle: int)
      requires Valid() && IsTable(handle)
      ensures TableOk(TableAt(handle))
      ensures handle != 0 ==> TableAt(handle).bytes <= charged
      ensures handle == 0 ==> |TableAt(0).buckets| == GAMESTATE_BUCKETS
      ensures handle == 0 && gamestate.Some? ==> TableAt(0).bytes - GAMESTATE_BUCKETS * BUCKET_BYTES <= charged
    {
      if handle == 0 {
        NoBucketsSize(GAMESTATE_BUCKETS);
      } else {
        TotalAtLeast(tables, handle - 1, TableShare);
      }
    }

    /** Puts a table back. */
    method PutTable(handle: int, t: Table)
      requires IsTable(handle)
      modifies this`tables, this`gamestate
      ensures IsTable(handle) && TableAt(handle) == t
      ensures forall h :: h != handle ==> (IsTable(h) <==> old(IsTable(h))) && (IsTable(h) ==> TableAt(h) == old(TableAt(h)))
      ensures handle == 0 ==> tables == old(tables) && gamestate == Some(t)
      ensures handle != 0 ==> gamestate == old(gamestate) && tables == old(tables)[handle - 1 := Some(t)]
    {
      if handle == 0 {
        gamestate := Some(t);
      } else {
        tables := tables[handle - 1 := Some(t)];
      }
    }

    /** What a table holds besides its buckets is charged. */
    lemma HadIsCharged(handle: int, rest: nat, had: nat)
      requires Valid() && IsTable(handle) && TableAt(handle).bytes == rest + had
      requires rest >= |TableAt(handle).buckets| * BUCKET_BYTES
      ensures had <= charged
    {
      TableAtOk(handle);
      if handle == 0 && gamestate.None? { NoBucketsSize(GAMESTATE_BUCKETS); }
    }

    /** Replacing a table changes what is held by the difference. */
    lemma HeldAfterPut(handle: int, t: Table, n: nat)
      requires IsTable(handle) && TableOk(TableAt(handle)) && TableOk(t) && |t.buckets| == |TableAt(handle).buckets|
      requires handle == 0 ==> |t.buckets| == GAMESTATE_BUCKETS
      requires n + TableAt(handle).bytes == Held(tables, gamestate, bufs, tokens) + t.bytes
      ensures handle == 0 ==> n == Held(tables, Some(t), bufs, tokens)
      ensures handle != 0 ==> n == Held(tables[handle - 1 := Some(t)], gamestate, bufs, tokens)
    {
      if handle != 0 { TotalReplace(tables, handle - 1, Some(t), TableShare); }
    }

    /** Puts a charged table into a slot, or after the last. */
    method Place(free: nat, t: Table)
      requires Valid() && TableOk(t) && charged + t.bytes <= limit
      requires free <= |tables| && (free < |tables| ==> tables[free].None?)
      modifies this`tables, this`charged
      ensures Valid() && charged == old(charged) + t.bytes
      ensures !old(IsTable(free + 1)) && IsTable(free + 1) && TableAt(free + 1) == t
      ensures forall h :: h != free + 1 && old(IsTable(h)) ==> IsTable(h) && TableAt(h) == old(TableAt(h))
    {
      var ok := Charge(t.bytes);
      if free < |tables| {
        TotalReplace(tables, free, Some(t), TableShare);
        tables := tables[free := Some(t)];
      } else {
        TotalAppend(tables, Some(t), TableShare);
        tables := tables + [Some(t)];
      }
    }

    /** Buckets of a table asked for with a size. */
    function BucketCount(size: int): (n: nat)
      ensures 4 <= n <= MAX_BUCKETS
    {
      if size < 4 then 64 else if size < MAX_BUCKETS then size else MAX_BUCKETS
    }

    /** A new table may be made: neither the table limit nor the storage limit is reached. */
    predicate TableFits(size: int, ty: int)
      reads this
    {
      Used(tables) < maxTables && charged + NewTable(BucketCount(size), ty).bytes <= limit
    }

    /** Creates a table in the first unused slot; 0 exactly when a limit is reached. */
    method CreateTable(size: int, ty: int) returns (handle: int)
      requires Valid()
      modifies this`tables, this`charged
      ensures Valid()
      ensures handle == 0 <==> !old(TableFits(size, if ty == 0 then EV_VECTOR else ty))
      ensures handle == 0 ==> tables == old(tables) && charged == old(charged)
      ensures handle != 0 ==>
                && handle == FirstUnused(old(tables), 0) + 1 && !old(IsTable(handle)) && IsTable(handle)
                && TableAt(handle) == NewTable(BucketCount(size), if ty == 0 then EV_VECTOR else ty)
                && TableAt(handle).buckets != [] && (forall key :: StackOf(hash, TableAt(handle), key) == [])
      ensures forall h :: h != handle && old(IsTable(h)) ==> IsTable(h) && TableAt(h) == old(TableAt(h))
    {
      var n := BucketCount(size);
      var live := CountUsed(tables);
      if live >= maxTables { return 0; }
      var t := NewTable(n, if ty == 0 then EV_VECTOR else ty);
      NoBucketsSize(n);
      if charged + t.bytes > limit { return 0; }
      var free := FindUnused(tables);
      Place(free, t);
      return free + 1;
    }

    /** Destroys a table and gives its storage back; the `gamestate` table cannot be destroyed. */
    method DestroyTable(handle: int)
      requires Valid()
      modifies this
      ensures Valid() && bufs == old(bufs) && tokens == old(tokens)
      ensures handle != 0 ==> !IsTable(handle)
      ensures forall h :: h != handle && old(IsTable(h)) ==> IsTable(h) && TableAt(h) == old(TableAt(h))
      ensures handle != 0 && old(IsTable(handle)) ==> charged + old(TableAt(handle)).bytes == old(charged)
    {
      if 1 <= handle <= |tables| && tables[handle - 1].Some? {
        var t := tables[handle - 1].value;
        TotalReplace(tables, handle - 1, None, TableShare);
        TotalAtLeast(tables, handle - 1, TableShare);
        tables := tables[handle - 1 := None];
        Release(t.bytes);
      }
    }

    /** Puts a changed table back and charges the difference, if the limit allows it. */
    method Swap(handle: int, t: Table, had: nat, now: nat) returns (ok: bool)
      requires Valid() && IsTable(handle) && TableOk(t) && |t.buckets| == |TableAt(handle).buckets|
      requires t.bytes + had == TableAt(handle).bytes + now
      requires had + |t.buckets| * BUCKET_BYTES <= TableAt(handle).bytes
      modifies this`tables, this`gamestate, this`charged
      ensures Valid() && IsTable(handle)
      ensures ok <==> old(charged) + now <= limit + had
      ensures TableAt(handle) == (if ok then t else old(TableAt(handle)))
      ensures charged + (if ok then had else 0) == old(charged) + (if ok then now else 0)
      ensures forall h :: h != handle && old(IsTable(h)) ==> IsTable(h) && TableAt(h) == old(TableAt(h))
    {
      TableAtOk(handle);
      HadIsCharged(handle, TableAt(handle).bytes - had, had);
      ghost var before := charged;
      ok := Recharge(had, now);
      if ok {
        HeldAfterPut(handle, t, charged);
        PutTable(handle, t);
      }
    }

    /** Stores a value for a key: on top of its stack, replacing the newest unless asked to add.
        Nothing changes when the limit does not allow it. */
    method Add(handle: int, key: seq<byte>, text: seq<byte>, words: (word, word, word), ty: int, add: bool) returns (ok: bool)
      requires Valid() && IsTable(handle) && key != []
      modifies this
      ensures Valid() && bufs == old(bufs) && tokens == old(tokens) && IsTable(handle)
      ensures forall h :: h != handle && old(IsTable(h)) ==> IsTable(h) && TableAt(h) == old(TableAt(h))
      ensures TableOk(TableAt(handle)) && TableOk(old(TableAt(handle)))
      ensures var t := old(TableAt(handle));
        var e := NewEntry(t, key, text, words, ty);
        var had := Replaced(hash, t, key, add);
        && (ok <==> old(charged) + EntryBytes(e) <= limit + FirstBytes(had))
        && (!ok ==> TableAt(handle) == t && charged == old(charged))
        && (ok ==>
              && charged + FirstBytes(had) == old(charged) + EntryBytes(e)
              && (forall other :: other != key ==> StackOf(hash, TableAt(handle), other) == StackOf(hash, t, other))
              && StackOf(hash, TableAt(handle), key) == [e] + (if had == [] then StackOf(hash, t, key) else had[1..]))
    {
      TableAtOk(handle);
      var t := TableAt(handle);
      var e := NewEntry(t, key, text, words, ty);
      var had := Replaced(hash, t, key, add);
      var t2 := Added(hash, t, e, add);
      AddRefines(hash, t, e, add, key);
      forall other | other != key
        ensures StackOf(hash, t2, other) == StackOf(hash, t, other)
      {
        AddRefines(hash, t, e, add, other);
      }
      ok := Swap(handle, t2, FirstBytes(had), EntryBytes(e));
    }

    /** The value number `index` of a key, newest first, among those of a type (0: any); a negative
        index is 0. */
    method Get(handle: int, key: seq<byte>, ty: int, index: int) returns (found: Option<Value>)
      requires Valid()
      ensures !IsTable(handle) ==> found == None
      ensures IsTable(handle) ==> TableAt(handle).buckets != []
      ensures IsTable(handle) ==>
                var s := OfType(StackOf(hash, TableAt(handle), key), ty);
                var skip := if index < 0 then 0 else index;
                found == if skip < |s| then Some(s[skip].value) else None
    {
      if !(handle == 0 || (1 <= handle <= |tables| && tables[handle - 1].Some?)) { return None; }
      TableAtOk(handle);
      var t := TableAt(handle);
      found := Find(t.buckets[BucketOf(hash, |t.buckets|, key)], key, ty, if index < 0 then 0 else index);
    }

    /** Removes the newest value of a key, whatever its type. */
    method Delete(handle: int, key: seq<byte>) returns (removed: Option<Value>)
      requires Valid() && IsTable(handle)
      modifies this
      ensures Valid() && bufs == old(bufs) && tokens == old(tokens) && IsTable(handle)
      ensures forall h :: h != handle && old(IsTable(h)) ==> IsTable(h) && TableAt(h) == old(TableAt(h))
      ensures TableOk(TableAt(handle)) && TableOk(old(TableAt(handle)))
      ensures var t := old(TableAt(handle));
        var s := StackOf(hash, t, key);
        && removed == (if s == [] then None else Some(s[0].value))
        && charged + FirstBytes(s) == old(charged)
        && StackOf(hash, TableAt(handle), key) == (if s == [] then [] else s[1..])
        && (forall other :: other != key ==> StackOf(hash, TableAt(handle), other) == StackOf(hash, t, other))
    {
      TableAtOk(handle);
      var t := TableAt(handle);
      var s := StackOf(hash, t, key);
      var t2 := Pop(hash, t, key);
      PopRefines(hash, t, key, key);
      forall other | other != key
        ensures StackOf(hash, t2, other) == StackOf(hash, t, other)
      {
        PopRefines(hash, t, key, other);
      }
      var ok := Swap(handle, t2, FirstBytes(s), 0);
      removed := if s == [] then None else Some(s[0].value);
    }

    // ---- string buffers ------------------------------------------------------------------------

    predicate IsBuf(b: nat)
      reads this
    {
      b < |bufs| && bufs[b].Some?
    }

    /** Replaces a buffer, charging the difference, if the limit allows it. */
    method ReplaceBuf(b: nat, now: StrBuf) returns (ok: bool)
      requires Valid() && IsBuf(b) && BufOk(now)
      modifies this`bufs, this`charged
      ensures Valid()
      ensures ok <==> old(charged) + now.bytes <= limit + old(bufs[b].value).bytes
      ensures bufs == if ok then old(bufs)[b := Some(now)] else old(bufs)
      ensures charged + (if ok then old(bufs[b].value).bytes else 0) == old(charged) + (if ok then now.bytes else 0)
    {
      TotalAtLeast(bufs, b, BufShare);
      TotalReplace(bufs, b, Some(now), BufShare);
      ok := Recharge(bufs[b].value.bytes, now.bytes);
      if ok { bufs := bufs[b := Some(now)]; }
    }

    /** Creates a buffer in the first unused slot, unless the buffer limit is reached. */
    method CreateBuf() returns (b: Option<nat>)
      requires Valid()
      modifies this`bufs
      ensures Valid()
      ensures b == if Used(old(bufs)) < maxBufs then Some(FirstUnused(old(bufs), 0)) else None
      ensures b.None? ==> bufs == old(bufs)
      ensures b.Some? ==>
                && !old(IsBuf(b.value))
                && bufs == if b.value < |old(bufs)| then old(bufs)[b.value := Some(StrBuf([], 0))] else old(bufs) + [Some(StrBuf([], 0))]
    {
      var live := CountUsed(bufs);
      if live >= maxBufs { return None; }
      var i := FindUnused(bufs);
      if i < |bufs| {
        TotalReplace(bufs, i, Some(StrBuf([], 0)), BufShare);
        bufs := bufs[i := Some(StrBuf([], 0))];
      } else {
        TotalAppend(bufs, Some(StrBuf([], 0)), BufShare);
        bufs := bufs + [Some(StrBuf([], 0))];
      }
      return Some(i);
    }

    method DeleteBuf(b: nat)
      requires Valid()
      modifies this`bufs, this`charged
      ensures Valid() && !IsBuf(b) && |bufs| == |old(bufs)|
      ensures forall k: nat :: k != b && k < |bufs| ==> bufs[k] == old(bufs)[k]
      ensures charged + (if old(IsBuf(b)) then old(bufs[b].value).bytes else 0) == old(charged)
    {
      if b < |bufs| && bufs[b].Some? {
        var had := bufs[b].value.bytes;
        TotalAtLeast(bufs, b, BufShare);
        TotalReplace(bufs, b, None, BufShare);
        bufs := bufs[b := None];
        Release(had);
      }
    }

    /** Stores an entry, growing the buffer with holes. */
    method Store(b: nat, i: nat, s: seq<byte>) returns (ok: bool)
      requires Valid() && IsBuf(b)
      modifies this`bufs, this`charged
      ensures Valid() && IsBuf(b)
      ensures !ok ==> bufs == old(bufs) && charged == old(charged)
      ensures ok ==> bufs == old(bufs)[b := Some(SetEntry(old(bufs[b].value), i, s))]
      ensures ok ==> bufs[b].value.strings[i] == Some(s)
      ensures ok <==> old(charged) + SetEntry(old(bufs[b].value), i, s).bytes <= limit + old(bufs[b].value).bytes
    {
      SetEntryOk(bufs[b].value, i, s);
      ok := ReplaceBuf(b, SetEntry(bufs[b].value, i, s));
    }

    /** Turns an entry into a hole. */
    method FreeString(b: nat, i: nat)
      requires Valid() && IsBuf(b)
      modifies this`bufs, this`charged
      ensures Valid() && bufs == old(bufs)[b := Some(FreeEntry(old(bufs[b].value), i))]
    {
      FreeEntryOk(bufs[b].value, i);
      var ok := ReplaceBuf(b, FreeEntry(bufs[b].value, i));
    }

    /** Copies a buffer over another, different one, exactly if the difference can be charged. */
    method CopyBuf(from: nat, to: nat) returns (ok: bool)
      requires Valid() && IsBuf(from) && IsBuf(to) && from != to
      modifies this`bufs, this`charged
      ensures Valid() && bufs == if ok then old(bufs)[to := old(bufs)[from]] else old(bufs)
      ensures ok <==> old(charged) + old(bufs[from].value).bytes <= limit + old(bufs[to].value).bytes
    {
      ok := ReplaceBuf(to, bufs[from].value);
    }

    /** Drops the holes of a buffer and sorts its strings. That only frees storage, so it cannot fail. */
    method SortBuf(b: nat, order: S.Order)
      requires Valid() && IsBuf(b)
      modifies this`bufs, this`charged
      ensures Valid() && bufs == old(bufs)[b := Some(FromStrings(Filled(S.Sorted(order, Present(old(bufs[b].value).strings)))))]
      ensures charged <= old(charged)
    {
      var strings := Present(bufs[b].value.strings);
      PresentFits(bufs[b].value.strings);
      S.SortedLength(order, strings);
      FilledSize(S.Sorted(order, strings));
      var ok := ReplaceBuf(b, FromStrings(Filled(S.Sorted(order, strings))));
    }

    // ---- tokens --------------------------------------------------------------------------------

    /** What a new token list may take, once the current one is dropped. */
    function TokenBudget(): nat
      requires Valid()
      reads this
    {
      limit - (charged - Total(tokens, TokenBytes))
    }

    /** Splits a string into the token list, as far as the budget goes, and says whether it did not go to
        the end. The list is charged. */
    method Tokenize(s: seq<byte>, qc: bool) returns (exceeded: bool)
      requires Valid()
      modifies this`tokens, this`charged
      ensures Valid() && tokens == T.SplitFrom(s, 0, qc, old(TokenBudget()))
      ensures T.Covers(tokens, T.AllFrom(s, 0, qc), old(TokenBudget()), exceeded)
    {
      var list;
      list, exceeded := T.Split(s, qc, TokenBudget());
      SplitFits(s, 0, qc, TokenBudget());
      Release(Total(tokens, TokenBytes));
      tokens := [];
      var ok := Charge(Total(list, TokenBytes));
      tokens := list;
    }
  }

  /** The set entries, in order. */
  function Present(s: Slots): S.Strings {
    if s == [] then [] else Present(s[..|s| - 1]) + (if s[|s| - 1].Some? then [s[|s| - 1].value] else [])
  }

  /** Entries without holes. */
  function Filled(q: S.Strings): (s: Slots)
    ensures |s| == |q| && forall i :: 0 <= i < |q| ==> s[i] == Some(q[i])
  {
    seq(|q|, i requires 0 <= i < |q| => Some(q[i]))
  }

  lemma {:induction false} PresentFits(s: Slots)
    ensures |Present(s)| <= |s| && S.Length(Present(s)) == Total(s, TextBytes)
  {
    if s != [] {
      var p := Present(s[..|s| - 1]);
      PresentFits(s[..|s| - 1]);
      if s[|s| - 1].Some? {
        assert (p + [s[|s| - 1].value])[..|p|] == p;
      } else {
        assert p + [] == p;
      }
    }
  }

  lemma {:induction false} FilledSize(q: S.Strings)
    ensures Total(Filled(q), TextBytes) == S.Length(q)
  {
    if q != [] {
      FilledSize(q[..|q| - 1]);
      assert Filled(q)[..|q| - 1] == Filled(q[..|q| - 1]);
    }
  }

  /** A list split within a budget fits it. */
  lemma {:induction false} SplitFits(s: seq<byte>, p: nat, qc: bool, left: nat)
    requires p <= |s|
    ensures Total(T.SplitFrom(s, p, qc, left), TokenBytes) <= left
    decreases |s| - p
  {
    var q := T.SkipSpace(s, p);
    if q < |s| {
      var at := T.Start(s, q, qc);
      if at.Some? {
        var text, end := T.TokenAt(s, at.value, qc).0, T.TokenAt(s, at.value, qc).1;
        if left >= T.Cost(text) {
          SplitFits(s, end, qc, left - T.Cost(text));
          TotalJoin([T.Token(text, q, end)], T.SplitFrom(s, end, qc, left - T.Cost(text)), TokenBytes);
          assert [T.Token(text, q, end)][..0] == [];
        }
      }
    }
  }

  /** The entry `hash_add` makes; type 0 is the table's default. */
  function NewEntry(t: Table, key: seq<byte>, text: seq<byte>, words: (word, word, word), ty: int): Entry {
    var ty' := if ty == 0 then t.defaultTy else ty;
    Entry(key, ty', if ty' == EV_STRING then Text(text) else Words(words.0, words.1, words.2))
  }
}
