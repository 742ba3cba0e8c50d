/** One hash table: buckets of entries, newest last, refining a stack of values for each key
    (`src/stdlib/hash.rs`). */
module HashTable {
  import opened Bytes

  /** A stored value. */
  datatype Value = Text(text: seq<byte>) | Words(x: word, y: word, z: word)

  datatype Entry = Entry(key: seq<byte>, ty: int, value: Value)

  const ENTRY_SLOT: nat := 48
  const BUCKET_BYTES: nat := 24

  /** Storage charged for an entry: its key and text, and four entry slots of its bucket. */
  function EntryBytes(e: Entry): nat { 4 * ENTRY_SLOT + |e.key| + (if e.value.Text? then |e.value.text| else 0) }

  // ---- sums ------------------------------------------------------------------------------------

  /** The sum of `f` over a sequence. */
  function Total<T>(s: seq<T>, f: T -> nat): nat { if s == [] then 0 else Total(s[..|s| - 1], f) + f(s[|s| - 1]) }

  lemma {:induction false} TotalReplace<T>(s: seq<T>, i: nat, x: T, f: T -> nat)
    requires i < |s|
    ensures Total(s[i := x], f) + f(s[i]) == Total(s, f) + f(x)
  {
    var n := |s| - 1;
    if i < n {
      TotalReplace(s[..n], i, x, f);
      assert s[i := x][..n] == s[..n][i := x];
    } else {
      assert s[i := x][..n] == s[..n];
    }
  }

  lemma TotalAppend<T>(s: seq<T>, x: T, f: T -> nat)
    ensures Total(s + [x], f) == Total(s, f) + f(x)
  {
    assert (s + [x])[..|s|] == s;
  }

  /** One element's share. */
  lemma {:induction false} TotalAtLeast<T>(s: seq<T>, i: nat, f: T -> nat)
    requires i < |s|
    ensures f(s[i]) <= Total(s, f)
  {
    if i < |s| - 1 { TotalAtLeast(s[..|s| - 1], i, f); }
  }

  lemma {:induction false} TotalJoin<T>(a: seq<T>, b: seq<T>, f: T -> nat)
    ensures Total(a + b, f) == Total(a, f) + Total(b, f)
  {
    if b == [] {
      assert a + b == a;
    } else {
      TotalJoin(a, b[..|b| - 1], f);
      assert (a + b)[..|a + b| - 1] == a + b[..|b| - 1];
    }
  }

  // ---- buckets ---------------------------------------------------------------------------------

  type Bucket = seq<Entry>

  /** The entries for `key` in a bucket, newest first. */
  function Stack(b: Bucket, key: seq<byte>): (r: seq<Entry>)
    ensures forall e :: e in r ==> e.key == key
  {
    if b == [] then []
    else if b[|b| - 1].key == key then [b[|b| - 1]] + Stack(b[..|b| - 1], key)
    else Stack(b[..|b| - 1], key)
  }

  /** The index of the newest entry for `key`. */
  function Newest(b: Bucket, key: seq<byte>): (r: Option<nat>)
    ensures r.Some? ==> r.value < |b| && b[r.value].key == key
    ensures r.Some? <==> Stack(b, key) != []
    ensures r.Some? ==> Stack(b, key)[0] == b[r.value]
  {
    if b == [] then None else if b[|b| - 1].key == key then Some(|b| - 1) else Newest(b[..|b| - 1], key)
  }

  function Without(b: Bucket, i: nat): (r: Bucket)
    requires i < |b|
  {
    b[..i] + b[i + 1..]
  }

  /** Removing the newest entry for a key pops its stack, and no other. */
  lemma {:induction false} WithoutNewest(b: Bucket, key: seq<byte>, other: seq<byte>)
    requires Newest(b, key).Some?
    ensures Stack(Without(b, Newest(b, key).value), key) == Stack(b, key)[1..]
    ensures other != key ==> Stack(Without(b, Newest(b, key).value), other) == Stack(b, other)
  {
    var n, i := |b| - 1, Newest(b, key).value;
    if b[n].key == key {
      assert Without(b, i) == b[..n];
    } else {
      WithoutNewest(b[..n], key, other);
      var w := Without(b, i);
      assert w == Without(b[..n], i) + [b[n]];
      assert w[..|w| - 1] == Without(b[..n], i);
    }
  }

  lemma PushStack(b: Bucket, e: Entry, key: seq<byte>)
    ensures Stack(b + [e], key) == if e.key == key then [e] + Stack(b, key) else Stack(b, key)
  {
    assert (b + [e])[..|b|] == b;
  }

  function BucketSize(b: Bucket): nat { Total(b, EntryBytes) }

  lemma WithoutSize(b: Bucket, i: nat)
    requires i < |b|
    ensures BucketSize(Without(b, i)) + EntryBytes(b[i]) == BucketSize(b)
  {
    assert b == b[..i] + [b[i]] + b[i + 1..];
    TotalJoin(b[..i] + [b[i]], b[i + 1..], EntryBytes);
    TotalJoin(b[..i], b[i + 1..], EntryBytes);
    TotalAppend(b[..i], b[i], EntryBytes);
  }

  // ---- tables ----------------------------------------------------------------------------------

  /** A table: the type of values added without one, its buckets, and the storage it holds. */
  datatype Table = Table(defaultTy: int, buckets: seq<Bucket>, bytes: nat)

  /** Where a key belongs; `hash` is any function of the key. */
  function BucketOf(hash: seq<byte> -> nat, n: nat, key: seq<byte>): nat
    requires n > 0
  {
    hash(key) % n
  }

  function NoBuckets(n: nat): (r: seq<Bucket>)
    ensures |r| == n && forall i :: 0 <= i < n ==> r[i] == []
  {
    seq(n, i => [])
  }

  /** A new table. */
  function NewTable(n: nat, ty: int): Table {
    var k := if n < 1 then 1 else n;
    Table(ty, NoBuckets(k), k * BUCKET_BYTES)
  }

  /** The storage is exactly that of buckets and entries. */
  predicate TableOk(t: Table) {
    t.buckets != [] && t.bytes == |t.buckets| * BUCKET_BYTES + Total(t.buckets, BucketSize)
  }

  lemma {:induction false} NoBucketsSize(n: nat)
    ensures Total(NoBuckets(n), BucketSize) == 0
  {
    if n > 0 {
      NoBucketsSize(n - 1);
      assert NoBuckets(n)[..n - 1] == NoBuckets(n - 1);
    }
  }

  /** The values of a key, newest first. */
  function StackOf(hash: seq<byte> -> nat, t: Table, key: seq<byte>): seq<Entry>
    requires t.buckets != []
  {
    Stack(t.buckets[BucketOf(hash, |t.buckets|, key)], key)
  }

  /** Adds an entry. */
  function Push(hash: seq<byte> -> nat, t: Table, e: Entry): Table
    requires t.buckets != []
  {
    var b := BucketOf(hash, |t.buckets|, e.key);
    t.(buckets := t.buckets[b := t.buckets[b] + [e]], bytes := t.bytes + EntryBytes(e))
  }

  /** Removes the newest entry for a key. */
  function Pop(hash: seq<byte> -> nat, t: Table, key: seq<byte>): Table
    requires t.buckets != []
  {
    var b := BucketOf(hash, |t.buckets|, key);
    var bucket := t.buckets[b];
    match Newest(bucket, key)
    case None => t
    case Some(i) =>
      t.(buckets := t.buckets[b := Without(bucket, i)],
         bytes := if t.bytes >= EntryBytes(bucket[i]) then t.bytes - EntryBytes(bucket[i]) else 0)
  }

  /** A new entry goes on top of its key's stack; other stacks are untouched. */
  lemma PushRefines(hash: seq<byte> -> nat, t: Table, e: Entry, key: seq<byte>)
    requires TableOk(t)
    ensures TableOk(Push(hash, t, e)) && Push(hash, t, e).bytes == t.bytes + EntryBytes(e)
    ensures StackOf(hash, Push(hash, t, e), key) ==
            if key == e.key then [e] + StackOf(hash, t, key) else StackOf(hash, t, key)
  {
    var b := BucketOf(hash, |t.buckets|, e.key);
    var bucket := t.buckets[b];
    PushStack(bucket, e, key);
    TotalAppend(bucket, e, EntryBytes);
    TotalReplace(t.buckets, b, bucket + [e], BucketSize);
  }

  /** Removing the newest entry pops its key's stack; other stacks are untouched. */
  lemma PopRefines(hash: seq<byte> -> nat, t: Table, key: seq<byte>, other: seq<byte>)
    requires TableOk(t)
    ensures TableOk(Pop(hash, t, key))
    ensures var s := StackOf(hash, t, key);
      && StackOf(hash, Pop(hash, t, key), key) == (if s == [] then [] else s[1..])
      && Pop(hash, t, key).bytes + (if s == [] then 0 else EntryBytes(s[0])) == t.bytes
    ensures other != key ==> StackOf(hash, Pop(hash, t, key), other) == StackOf(hash, t, other)
  {
    var b := BucketOf(hash, |t.buckets|, key);
    var bucket := t.buckets[b];
    var newest := Newest(bucket, key);
    if newest.Some? {
      var i := newest.value;
      WithoutNewest(bucket, key, other);
      WithoutSize(bucket, i);
      TotalReplace(t.buckets, b, Without(bucket, i), BucketSize);
      TotalAtLeast(t.buckets, b, BucketSize);
    }
  }

  /** The table after adding an entry, replacing the newest for its key unless asked to add. */
  function Added(hash: seq<byte> -> nat, t: Table, e: Entry, add: bool): Table
    requires t.buckets != []
  {
    Push(hash, if add then t else Pop(hash, t, e.key), e)
  }

  /** The entry that is replaced. */
  function Replaced(hash: seq<byte> -> nat, t: Table, key: seq<byte>, add: bool): seq<Entry>
    requires t.buckets != []
  {
    if add then [] else StackOf(hash, t, key)
  }

  function FirstBytes(s: seq<Entry>): nat { if s == [] then 0 else EntryBytes(s[0]) }

  lemma AddRefines(hash: seq<byte> -> nat, t: Table, e: Entry, add: bool, key: seq<byte>)
    requires TableOk(t)
    ensures TableOk(Added(hash, t, e, add)) && |Added(hash, t, e, add).buckets| == |t.buckets|
    ensures Added(hash, t, e, add).bytes + FirstBytes(Replaced(hash, t, e.key, add)) == t.bytes + EntryBytes(e)
    ensures FirstBytes(Replaced(hash, t, e.key, add)) + |t.buckets| * BUCKET_BYTES <= t.bytes
    ensures StackOf(hash, Added(hash, t, e, add), key) ==
            if key != e.key then StackOf(hash, t, key)
            else if add || StackOf(hash, t, key) == [] then [e] + StackOf(hash, t, key)
            else [e] + StackOf(hash, t, key)[1..]
  {
    if add {
      PushRefines(hash, t, e, key);
    } else {
      PopRefines(hash, t, e.key, key);
      PushRefines(hash, Pop(hash, t, e.key), e, key);
    }
  }

  // ---- lookups ---------------------------------------------------------------------------------

  /** The entries of a type (0: any). */
  function OfType(s: seq<Entry>, ty: int): seq<Entry> {
    if s == [] then [] else if ty == 0 || s[0].ty == ty then [s[0]] + OfType(s[1..], ty) else OfType(s[1..], ty)
  }

  predicate Wanted(e: Entry, key: seq<byte>, ty: int) { e.key == key && (ty == 0 || e.ty == ty) }

  lemma OneOlder(b: Bucket, i: nat, key: seq<byte>, ty: int)
    requires i < |b|
    ensures OfType(Stack(b[..i + 1], key), ty) ==
            (if Wanted(b[i], key, ty) then [b[i]] else []) + OfType(Stack(b[..i], key), ty)
  {
    assert b[..i + 1][..i] == b[..i];
    if b[i].key == key {
      var s := [b[i]] + Stack(b[..i], key);
      assert s[1..] == Stack(b[..i], key);
    }
  }

  /** The value number `n` of entries. */
  function ValueNumber(es: seq<Entry>, n: nat): Option<Value> { if n < |es| then Some(es[n].value) else None }

  /** A walk from entry `i` down counts only the wanted entries. */
  lemma OneOlderValue(b: Bucket, i: nat, key: seq<byte>, ty: int, n: nat)
    requires i < |b|
    ensures ValueNumber(OfType(Stack(b[..i + 1], key), ty), n) ==
            if !Wanted(b[i], key, ty) then ValueNumber(OfType(Stack(b[..i], key), ty), n)
            else if n == 0 then Some(b[i].value) else ValueNumber(OfType(Stack(b[..i], key), ty), n - 1)
  {
    OneOlder(b, i, key, ty);
  }

  /** The source's walk over a bucket, newest entry first. */
  method Find(b: Bucket, key: seq<byte>, ty: int, skip: nat) returns (found: Option<Value>)
    ensures var s := OfType(Stack(b, key), ty); found == if skip < |s| then Some(s[skip].value) else None
  {
    ghost var sought := ValueNumber(OfType(Stack(b, key), ty), skip);
    var left: nat := skip;
    assert b[..|b|] == b;
    for i := |b| downto 0
      invariant ValueNumber(OfType(Stack(b[..i], key), ty), left) == sought
    {
      var e := b[i];
      OneOlderValue(b, i, key, ty, left);
      if e.key == key && (ty == 0 || e.ty == ty) {
        if left == 0 { return Some(e.value); }
        left := left - 1;
      }
    }
    return None;
  }
}
