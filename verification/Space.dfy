/** Laying out a VM's memory, and the operations that resize it, in place (`src/vm/mod.rs`,
    `src/vm/memory.rs`, `src/vm/multiprogs.rs`). */
module Space {
  import opened Bytes
  import opened Memory
  import opened Entities
  import opened Views

  // ---- the layout ------------------------------------------------------------------------------

  const LIMIT: nat := 0x8000_0000

  datatype Limits = Limits(localStackWords: word, progsAreaBytes: word, fieldReserveBytes: word, heapBytes: word, maxEdicts: word)

  datatype Layout = Layout(
    gbase: nat, lsBase: nat, lsWords: nat, sLen: nat, eBase: nat, fieldBytes: nat, stride: nat, maxEdicts: nat, hBase: nat)

  function SatSub(a: nat, b: nat): nat { if a >= b then a - b else 0 }

  /** The least multiple of `a` that is not below `v`. */
  function AlignUp(v: nat, a: nat): (r: nat)
    requires a > 0
    ensures v <= r < v + a
  {
    var top := v + a - 1;
    top - top % a
  }

  /** Where the globals of a progs go whose `n` bytes of strings go to `sbase`: after a NUL, aligned. */
  function GlobalsAfter(sbase: nat, n: nat): (r: nat)
    ensures sbase + n < r <= sbase + n + 4 && r % 4 == 0
  {
    var top := sbase + n + 4;
    top - top % 4
  }

  predicate IsPow2(p: nat) { p == 1 || (p > 1 && p % 2 == 0 && IsPow2(p / 2)) }

  /** The first of the powers of two from `p` on that is not below `n`. */
  function NextPow2(n: nat, p: nat): (r: nat)
    requires IsPow2(p)
    ensures IsPow2(r) && n <= r && p <= r && (r == p || r < 2 * n)
    decreases n - p
  {
    if p >= n then p else NextPow2(n, 2 * p)
  }

  /** Where the regions of a VM go, or `None` when they do not fit below 2^31. */
  function PlanLayout(stringsLen: nat, numGlobals: word, entityFields: word, limits: Limits): Option<Layout> {
    var gbase := AlignUp(stringsLen + 1, 4);
    var lsBase := gbase + 4 * (numGlobals + 3);
    var lsWords := Max(limits.localStackWords, 16);
    var sLen := lsBase + 4 * lsWords + 4;
    var eBase := AlignUp(sLen, 0x10_0000) + limits.progsAreaBytes;
    var fieldBytes := 4 * entityFields;
    var room := fieldBytes + Max(limits.fieldReserveBytes, fieldBytes / 2);
    if fieldBytes >= U32 || room >= U32 then None
    else
      var stride := NextPow2(Max(room, 16), 1);
      var free := SatSub(SatSub(SatSub(LIMIT, eBase), limits.heapBytes), 16);
      if stride >= U32 then None
      else
        var maxEdicts := Min(limits.maxEdicts, Quot(free, stride));
        if maxEdicts < 1 then None
        else
          var hBase := AlignUp(eBase + Times(maxEdicts, stride), 16);
          Some(Layout(gbase, lsBase, lsWords, sLen, eBase, fieldBytes, stride, maxEdicts, hBase))
  }

  /** A planned layout is sound: the regions follow one another below 2^31, the main progs' globals
      and their tail lie below the local stack, and there are as many entities as asked for or as
      many as fit. */
  lemma PlanIsSound(stringsLen: nat, numGlobals: word, entityFields: word, limits: Limits)
    requires PlanLayout(stringsLen, numGlobals, entityFields, limits).Some?
    ensures var p := PlanLayout(stringsLen, numGlobals, entityFields, limits).value;
      && stringsLen < p.gbase <= stringsLen + 4 && p.gbase % 4 == 0
      && p.gbase + 4 * (numGlobals + 3) == p.lsBase && p.lsBase + 4 * p.lsWords + 4 == p.sLen
      && p.sLen + limits.progsAreaBytes <= p.eBase
      && p.eBase + Times(p.maxEdicts, p.stride) <= p.hBase && p.hBase + limits.heapBytes < LIMIT
      && IsPow2(p.stride) && 16 <= p.stride && p.fieldBytes % 4 == 0 && p.fieldBytes + limits.fieldReserveBytes <= p.stride
      && 1 <= p.maxEdicts <= limits.maxEdicts
      && (p.maxEdicts < limits.maxEdicts ==>
            p.eBase + Times(p.maxEdicts + 1, p.stride) + limits.heapBytes + 16 > LIMIT)
  {
    var p := PlanLayout(stringsLen, numGlobals, entityFields, limits).value;
    var free := SatSub(SatSub(SatSub(LIMIT, p.eBase), limits.heapBytes), 16);
    TimesMonotone(p.stride, p.maxEdicts, Quot(free, p.stride));
    TimesMonotone(p.stride, 1, Quot(free, p.stride));
    TimesSum(p.stride, p.maxEdicts, 1);
  }

  /** Region S with the first `n` globals written. */
  function PutGlobals(s: seq<byte>, gbase: nat, globals: seq<word>, n: nat): (r: seq<byte>)
    requires n <= |globals|
    ensures |r| == |s|
  {
    if n == 0 then s else Set(Whole, PutGlobals(s, gbase, globals, n - 1), Nth(gbase, n - 1), globals[n - 1])
  }

  /** Memory as it is first laid out: the strings and globals of the main progs, and the world. */
  function InitialMemory(p: Layout, strings: seq<byte>, globals: seq<word>, heapBytes: nat): Mem
    requires |strings| <= p.sLen
  {
    Mem(PutGlobals(Splice(Zeros(p.sLen), 0, strings), p.gbase, globals, |globals|), Zeros(p.stride), p.eBase, p.stride,
        p.fieldBytes, p.maxEdicts, [EntSlot(true, false, 0.0, 1)], [], heapBytes, p.hBase, p.lsBase, p.lsWords)
  }

  lemma {:induction false} GlobalsRead(s: seq<byte>, gbase: nat, globals: seq<word>, n: nat, i: nat)
    requires i < n <= |globals| && gbase + 4 * |globals| <= |s|
    ensures G(Whole, PutGlobals(s, gbase, globals, n), Nth(gbase, i)) == globals[i]
  {
    if i < n - 1 { GlobalsRead(s, gbase, globals, n - 1, i); }
  }

  lemma {:induction false} GlobalsOnly(s: seq<byte>, gbase: nat, globals: seq<word>, n: nat, k: nat)
    requires n <= |globals| && gbase + 4 * |globals| <= |s| && k < |s|
    requires k < gbase || k >= gbase + 4 * n
    ensures PutGlobals(s, gbase, globals, n)[k] == s[k]
  {
    if n > 0 { GlobalsOnly(s, gbase, globals, n - 1, k); }
  }

  /** The memory a VM starts with is sound. */
  lemma InitialIsSound(strings: seq<byte>, globals: seq<word>, entityFields: word, limits: Limits)
    requires |globals| < U32 && PlanLayout(|strings|, |globals|, entityFields, limits).Some?
    ensures var p := PlanLayout(|strings|, |globals|, entityFields, limits).value;
      |strings| <= p.sLen && InitialMemory(p, strings, globals, limits.heapBytes).Valid()
  {
    PlanIsSound(|strings|, |globals|, entityFields, limits);
    LaidOut(PlanLayout(|strings|, |globals|, entityFields, limits).value, strings, globals, limits.heapBytes);
  }

  lemma LaidOut(p: Layout, strings: seq<byte>, globals: seq<word>, heapBytes: nat)
    requires |strings| <= p.sLen <= p.eBase && p.lsBase + 4 * p.lsWords + 4 == p.sLen
    requires 0 < p.stride && p.fieldBytes <= p.stride && p.fieldBytes % 4 == 0 && 1 <= p.maxEdicts
    requires p.eBase + Times(p.maxEdicts, p.stride) <= p.hBase && p.hBase + heapBytes <= LIMIT
    ensures InitialMemory(p, strings, globals, heapBytes).Valid()
  {
    assert Times(1, p.stride) == p.stride;
  }

  /** It holds the program's globals. */
  lemma InitialGlobals(strings: seq<byte>, globals: seq<word>, entityFields: word, limits: Limits, i: nat)
    requires |globals| < U32 && PlanLayout(|strings|, |globals|, entityFields, limits).Some? && i < |globals|
    ensures var p := PlanLayout(|strings|, |globals|, entityFields, limits).value;
      |strings| <= p.sLen && G(Whole, InitialMemory(p, strings, globals, limits.heapBytes).s, Nth(p.gbase, i)) == globals[i]
  {
    PlanIsSound(|strings|, |globals|, entityFields, limits);
    var p := PlanLayout(|strings|, |globals|, entityFields, limits).value;
    GlobalsRead(Splice(Zeros(p.sLen), 0, strings), p.gbase, globals, |globals|, i);
  }

  /** Around the globals it holds the program's strings, NUL-terminated, and zeros. */
  lemma InitialBytes(strings: seq<byte>, globals: seq<word>, entityFields: word, limits: Limits, k: nat)
    requires |globals| < U32 && PlanLayout(|strings|, |globals|, entityFields, limits).Some?
    ensures var p := PlanLayout(|strings|, |globals|, entityFields, limits).value;
      && |strings| < p.gbase <= p.sLen
      && var s := InitialMemory(p, strings, globals, limits.heapBytes).s;
      k < |s| && !(p.gbase <= k < p.gbase + 4 * |globals|) ==> s[k] == if k < |strings| then strings[k] else 0
  {
    var p := PlanLayout(|strings|, |globals|, entityFields, limits).value;
    PlanIsSound(|strings|, |globals|, entityFields, limits);
    if k < p.sLen && !(p.gbase <= k < p.gbase + 4 * |globals|) {
      GlobalsOnly(Splice(Zeros(p.sLen), 0, strings), p.gbase, globals, |globals|, k);
    }
  }

  /** From byte `from` on, `s` holds the strings at `sbase` and zeros, except for `n` bytes at `gbase`. */
  predicate StringsAt(s: seq<byte>, from: nat, sbase: nat, strings: seq<byte>, gbase: nat, n: nat) {
    forall k :: from <= k < |s| && !(gbase <= k < gbase + n) ==>
                  s[k] == if sbase <= k < sbase + |strings| then strings[k - sbase] else 0
  }

  lemma AppendedBytes(was: seq<byte>, sbase: nat, strings: seq<byte>, gbase: nat, globals: seq<word>, end: nat,
                      filled: seq<byte>, s: seq<byte>)
    requires |was| <= sbase && sbase + |strings| < gbase && gbase + 4 * |globals| <= end
    requires filled == Splice(was + Zeros(end - |was|), sbase, strings) && s == PutGlobals(filled, gbase, globals, |globals|)
    ensures StringsAt(s, |was|, sbase, strings, gbase, 4 * |globals|)
  {
    forall k: nat | |was| <= k < |s| && !(gbase <= k < gbase + 4 * |globals|)
      ensures s[k] == if sbase <= k < sbase + |strings| then strings[k - sbase] else 0
    {
      GlobalsOnly(filled, gbase, globals, |globals|, k);
    }
  }

  // ---- entity fields ---------------------------------------------------------------------------

  datatype FieldType = VoidType | OneWord(code: nat) | TwoWords(code: nat) | VectorType | UnknownType(code: nat)

  /** Size of a value in words, where known. */
  function WordsOf(ty: FieldType): Option<nat> {
    match ty
    case VoidType => Some(0)
    case OneWord(_) => Some(1)
    case TwoWords(_) => Some(2)
    case VectorType => Some(3)
    case UnknownType(_) => None
  }

  datatype FieldEntry = FieldEntry(name: seq<byte>, ty: FieldType, ofs: word)

  /** The fields known by name (the first of a name counts) and the words in use per entity. */
  datatype FieldTable = FieldTable(entries: seq<FieldEntry>, byName: map<seq<byte>, FieldEntry>, words: nat) {
    function Push(e: FieldEntry): FieldTable {
      FieldTable(entries + [e], if e.name == [] || e.name in byName then byName else byName[e.name := e], words)
    }
  }

  datatype FieldResult = Found(ofs: word) | WrongType | NotFound

  /** A definition of another progs, by its own word offset. */
  datatype FieldDef = FieldDef(name: seq<byte>, ty: FieldType, offset: word)

  /** Words a definition covers. */
  function Width(d: FieldDef): (n: nat)
    ensures 1 <= n <= 3
  {
    Max(WordsOf(d.ty).GetOr(1), 1)
  }

  predicate CoveredBy(d: FieldDef, w: nat) { d.offset <= w < d.offset + Width(d) }

  /** Some of the definitions covers word `w`. */
  predicate Covered(defs: seq<FieldDef>, w: nat) { CoveredByFirst(defs, |defs|, w) }

  /** One of the first `n` definitions covers word `w`. */
  predicate CoveredByFirst(defs: seq<FieldDef>, n: nat, w: nat)
    requires n <= |defs|
  {
    exists i :: 0 <= i < n && CoveredBy(defs[i], w)
  }

  /** No other definition covers a word definition `j` covers. */
  predicate Alone(defs: seq<FieldDef>, j: nat)
    requires j < |defs|
  {
    forall i :: 0 <= i < |defs| && i != j ==>
      defs[i].offset + Width(defs[i]) <= defs[j].offset || defs[j].offset + Width(defs[j]) <= defs[i].offset
  }

  /** Sort order: by offset, and at equal offsets bigger definitions first. */
  predicate Precedes(a: FieldDef, b: FieldDef) {
    a.offset < b.offset || (a.offset == b.offset && WordsOf(a.ty).GetOr(1) >= WordsOf(b.ty).GetOr(1))
  }

  function InsertDef(defs: seq<FieldDef>, d: FieldDef): (r: seq<FieldDef>)
    ensures multiset(r) == multiset(defs) + multiset{d} && |r| == |defs| + 1
  {
    if defs == [] || Precedes(defs[|defs| - 1], d) then defs + [d]
    else
      assert defs == defs[..|defs| - 1] + [defs[|defs| - 1]];
      InsertDef(defs[..|defs| - 1], d) + [defs[|defs| - 1]]
  }

  /** The stable sort. */
  function SortDefs(defs: seq<FieldDef>): (r: seq<FieldDef>)
    ensures multiset(r) == multiset(defs) && |r| == |defs|
  {
    if defs == [] then []
    else
      assert defs == defs[..|defs| - 1] + [defs[|defs| - 1]];
      InsertDef(SortDefs(defs[..|defs| - 1]), defs[|defs| - 1])
  }

  lemma SortCovers(defs: seq<FieldDef>, w: nat)
    ensures Covered(SortDefs(defs), w) <==> Covered(defs, w)
  {
    var sorted := SortDefs(defs);
    if Covered(sorted, w) {
      var i :| 0 <= i < |sorted| && CoveredBy(sorted[i], w);
      assert sorted[i] in multiset(sorted);
      assert sorted[i] in defs;
    }
    if Covered(defs, w) {
      var i :| 0 <= i < |defs| && CoveredBy(defs[i], w);
      assert defs[i] in multiset(defs);
      assert defs[i] in sorted;
    }
  }

  /** A word map with `n` words from `offset` on mapped to those from `to` on, where not mapped yet. */
  function MapWords(m: map<nat, nat>, offset: nat, to: nat, n: nat): (r: map<nat, nat>)
    ensures forall w :: w in r <==> w in m || offset <= w < offset + n
    ensures forall w :: w in m ==> r[w] == m[w]
    ensures forall w :: offset <= w < offset + n && w !in m ==> r[w] == to + (w - offset)
  {
    if n == 0 then m
    else
      var t := MapWords(m, offset, to, n - 1);
      if offset + n - 1 in t then t else t[offset + n - 1 := to + n - 1]
  }

  /** The field of `d`'s name is known with `d`'s size. */
  predicate Known(fields: FieldTable, d: FieldDef) {
    d.name in fields.byName && WordsOf(fields.byName[d.name].ty) == WordsOf(d.ty)
  }

  /** Definition `d` keeps its shape in the map, and its place if its name was known. */
  ghost predicate Placed(m: map<nat, nat>, known: FieldTable, d: FieldDef) {
    && (forall w: nat :: CoveredBy(d, w) ==> w in m)
    && CoveredBy(d, d.offset)
    && (forall w: nat :: CoveredBy(d, w) ==> m[w] == m[d.offset as nat] + (w - d.offset))
    && (Known(known, d) ==> m[d.offset as nat] == known.byName[d.name].ofs)
  }

  // ---- the memory, in place --------------------------------------------------------------------

  class Space {
    var s: seq<byte>
    var e: seq<byte>
    var h: seq<byte>
    var slots: seq<EntSlot>
    var fieldBytes: nat
    var fields: FieldTable
    const eBase: nat
    const stride: nat
    const maxEdicts: nat
    const hMax: nat
    const hBase: nat
    const lsBase: nat
    const lsWords: nat

    function Value(): Mem
      reads this
    {
      Mem(s, e, eBase, stride, fieldBytes, maxEdicts, slots, h, hMax, hBase, lsBase, lsWords)
    }

    /** The layout is sound, and the words in use are those the blocks give to fields. */
    predicate Valid()
      reads this
    {
      Value().Valid() && fieldBytes == 4 * fields.words
    }

    /** Lays out memory for the main progs and creates the world. */
    constructor (p: Layout, strings: seq<byte>, globals: seq<word>, heapBytes: nat, known: seq<FieldEntry>)
      requires |strings| <= p.sLen
      ensures Value() == InitialMemory(p, strings, globals, heapBytes)
      ensures fields.words == p.fieldBytes / 4 && fields.entries == known
    {
      var mem := Splice(Zeros(p.sLen), 0, strings);
      for i := 0 to |globals|
        invariant mem == PutGlobals(Splice(Zeros(p.sLen), 0, strings), p.gbase, globals, i)
      {
        mem := Set(Whole, mem, Nth(p.gbase, i), globals[i]);
      }
      var table := FieldTable([], map[], p.fieldBytes / 4);
      for i := 0 to |known|
        invariant table.entries == known[..i] && table.words == p.fieldBytes / 4
      {
        table := table.Push(known[i]);
      }
      s, e, h := mem, Zeros(p.stride), [];
      slots, fieldBytes, fields := [EntSlot(true, false, 0.0, 1)], p.fieldBytes, table;
      eBase, stride, maxEdicts := p.eBase, p.stride, p.maxEdicts;
      hMax, hBase, lsBase, lsWords := heapBytes, p.hBase, p.lsBase, p.lsWords;
    }

    // ---- entities ------------------------------------------------------------------------------

    /** Adds entity slots up to and including `n`, zeroed. */
    method GrowTable(n: nat)
      requires Valid() && |slots| <= n < maxEdicts
      modifies this`e, this`slots
      ensures Valid() && Value() == GrowTo(old(Value()), n)
    {
      GrowToValid(Value(), n);
      e := e + Zeros(Times(n + 1 - |slots|, stride));
      ghost var was, blocks := slots, e;
      while |slots| < n + 1
        invariant e == blocks
        invariant |was| <= |slots| <= n + 1
        invariant slots == was + seq(|slots| - |was|, i => FreeSlot)
      {
        slots := slots + [FreeSlot];
      }
    }

    /** The first slot from `start` on that is eligible. */
    method FindSlot(start: nat, now: Option<real>) returns (i: nat)
      requires start <= |slots|
      ensures i == FirstSlot(slots, start, now)
    {
      i := start;
      while i < |slots| && !Eligible(slots[i], now)
        invariant start <= i <= |slots|
        invariant FirstSlot(slots, start, now) == FirstSlot(slots, i, now)
      {
        i := i + 1;
      }
    }

    /** Takes slot `n` into use, zeroed, its serial moved on. */
    method TakeSlot(n: nat, freetime: real)
      requires Valid() && n < |slots|
      modifies this`e, this`slots
      ensures Valid() && Value() == Take(old(Value()), n, freetime)
    {
      BlockBounds(Value(), n);
      e := Splice(e, Times(n, stride), Zeros(stride));
      slots := slots[n := EntSlot(true, false, freetime, Wrap(slots[n].serial + 1))];
    }

    /** Spawns an entity in the first reusable slot, else a new one, else any free one. */
    method SpawnEntity(now: real, first: nat) returns (r: Option<nat>)
      requires Valid()
      modifies this`e, this`slots
      ensures Valid()
      ensures match Spawn(old(Value()), now, first)
              case Some((m, n)) => r == Some(n) && Value() == m
              case None => r == None && Value() == old(Value())
    {
      var start := Min(first, |slots|);
      var pick := FindSlot(start, Some(now));
      var grow := Max(|slots|, first);
      if pick < |slots| {
        TakeSlot(pick, slots[pick].freetime);
        return Some(pick);
      }
      if grow < maxEdicts {
        GrowTable(grow);
        TakeSlot(grow, 0.0);
        return Some(grow);
      }
      var any := FindSlot(start, None);
      if any == |slots| { return None; }
      TakeSlot(any, slots[any].freetime);
      return Some(any);
    }

    /** Takes slot `n` into use whether or not it is free or reserved. */
    method ClaimEntity(n: nat) returns (taken: bool)
      requires Valid()
      modifies this`e, this`slots
      ensures Valid()
      ensures match Claim(old(Value()), n)
              case Some(m) => taken && Value() == m
              case None => !taken && Value() == old(Value())
    {
      if n == 0 || n >= maxEdicts { return false; }
      if n >= |slots| { GrowTable(n); }
      TakeSlot(n, 0.0);
      return true;
    }

    method ClearFields(n: nat, clear: seq<nat>)
      requires Valid()
      modifies this`e
      ensures Valid() && Value() == ClearWords(old(Value()), n, clear, |clear|)
    {
      for k := 0 to |clear|
        invariant Valid() && Value() == ClearWords(old(Value()), n, clear, k)
      {
        ClearField(n, clear[k]);
      }
    }

    method ClearField(n: nat, f: nat)
      requires Valid()
      modifies this`e
      ensures Valid() && Value() == ClearWord(old(Value()), n, f)
    {
      match FieldOffset(Value(), n, f, 1)
      case Some(off) =>
        FieldOffsetInBlock(Value(), n, f, 1);
        e := Splice(e, off, BytesOf(0));
      case None =>
    }

    /** Frees entity `n`, zeroing the given field words. */
    method RemoveEntity(n: nat, now: real, instant: bool, clear: seq<nat>) returns (removed: bool)
      requires Valid()
      modifies this`e, this`slots
      ensures Valid()
      ensures match Remove(old(Value()), n, now, instant, clear)
              case Removed(m) => removed && Value() == m
              case _ => !removed && Value() == old(Value())
    {
      if n == 0 || n >= |slots| || !slots[n].inUse || slots[n].prot { return false; }
      ClearFields(n, clear);
      slots := slots[n := slots[n].(inUse := false, freetime := if instant then 0.0 else now)];
      return true;
    }

    // ---- fields --------------------------------------------------------------------------------

    /** The offset of a field, added at the end of the entity layout if it is not known. */
    method EnsureField(name: seq<byte>, ty: FieldType, accepts: FieldType -> bool) returns (r: FieldResult)
      requires Valid() && WordsOf(ty).Some?
      modifies this`fieldBytes, this`fields
      ensures Valid()
      ensures name in old(fields.byName) ==>
        r == (if accepts(old(fields.byName)[name].ty) then Found(old(fields.byName)[name].ofs) else WrongType)
        && fields == old(fields) && Value() == old(Value())
      ensures name !in old(fields.byName) ==>
        match AddField(old(Value()), old(fields.words), WordsOf(ty).value)
        case Some(m) => r == Found(old(fields.words)) && Value() == m && fields.words == old(fields.words) + WordsOf(ty).value
                        && (name != [] ==> name in fields.byName && fields.byName[name] == FieldEntry(name, ty, r.ofs))
        case None => r == NotFound && fields == old(fields) && Value() == old(Value())
    {
      if name in fields.byName {
        return if accepts(fields.byName[name].ty) then Found(fields.byName[name].ofs) else WrongType;
      }
      var ofs := fields.words;
      var newWords := ofs + WordsOf(ty).value;
      if 4 * newWords >= U32 || 4 * newWords > stride { return NotFound; }
      fields := fields.Push(FieldEntry(name, ty, ofs)).(words := newWords);
      fieldBytes := 4 * newWords;
      return Found(ofs);
    }

    /** Takes `n` new field words, if they fit the block. */
    method TakeWords(n: nat) returns (r: Option<nat>)
      modifies this`fields
      ensures r.Some? <==> old(fields.words) + n <= stride / 4
      ensures fields == if r.Some? then old(fields).(words := r.value + n) else old(fields)
      ensures r.Some? ==> r.value == old(fields.words)
    {
      var u := fields.words;
      if u + n > stride / 4 { return None; }
      fields := fields.(words := u + n);
      return Some(u);
    }

    /** The word a definition's first word is to share, adding the field if it is new. */
    method Unify(d: FieldDef, m: map<nat, nat>) returns (r: Option<nat>)
      requires forall w :: w in m ==> m[w] < U32
      requires stride <= LIMIT
      modifies this`fields
      ensures old(fields.words) <= fields.words <= Max(old(fields.words), stride / 4)
      ensures forall name :: name in old(fields.byName) ==> name in fields.byName && fields.byName[name] == old(fields.byName)[name]
      ensures Known(old(fields), d) ==> r == Some(old(fields.byName)[d.name].ofs as nat) && fields == old(fields)
      ensures !Known(old(fields), d) && d.offset as nat in m ==> r == Some(m[d.offset as nat]) && fields.words == old(fields.words)
      ensures !Known(old(fields), d) && d.offset as nat !in m ==>
                && r == (if old(fields.words) + Width(d) <= stride / 4 then Some(old(fields.words)) else None)
                && fields.words == old(fields.words) + if r.Some? then Width(d) else 0
      ensures r.Some? && !Known(old(fields), d) ==> fields.entries == old(fields.entries) + [FieldEntry(d.name, d.ty, r.value)]
      ensures r.Some? ==> r.value < U32
    {
      if Known(fields, d) { return Some(fields.byName[d.name].ofs); }
      if d.offset as nat in m {
        fields := fields.Push(FieldEntry(d.name, d.ty, m[d.offset as nat]));
        return Some(m[d.offset as nat]);
      }
      r := TakeWords(Width(d));
      if r.Some? {
        fields := fields.Push(FieldEntry(d.name, d.ty, r.value));
      }
    }

    /** Maps the words definitions cover. */
    method MapDefs(defs: seq<FieldDef>) returns (r: Option<map<nat, nat>>)
      requires stride <= LIMIT
      modifies this`fields
      ensures old(fields.words) <= fields.words <= Max(old(fields.words), stride / 4)
      ensures r.Some? ==> MapsDefs(r.value, defs, |defs|, old(fields))
    {
      var m: map<nat, nat> := map[];
      for i := 0 to |defs|
        invariant old(fields.words) <= fields.words <= Max(old(fields.words), stride / 4)
        invariant forall name :: name in old(fields.byName) ==> name in fields.byName && fields.byName[name] == old(fields.byName)[name]
        invariant forall w :: w in m ==> m[w] < U32
        invariant MapsDefs(m, defs, i, old(fields))
      {
        var u := Unify(defs[i], m);
        if u.None? || u.value + Width(defs[i]) > U32 || defs[i].offset + Width(defs[i]) > U32 { return None; }
        MapsNext(defs, i, m, u.value, old(fields));
        m := MapWords(m, defs[i].offset, u.value, Width(defs[i]));
      }
      return Some(m);
    }

    /** Gives every header word no definition covers a word of its own. */
    method MapRest(m: map<nat, nat>, count: word) returns (r: Option<map<nat, nat>>)
      modifies this`fields
      ensures old(fields.words) <= fields.words <= Max(old(fields.words), stride / 4)
      ensures r.Some? ==> Extends(m, r.value, count, old(fields.words), fields.words)
    {
      var t: map<nat, nat> := m;
      for w := 0 to count
        invariant old(fields.words) <= fields.words <= Max(old(fields.words), stride / 4)
        invariant Extends(m, t, w, old(fields.words), fields.words)
      {
        if w as nat !in t {
          var u := TakeWords(1);
          if u.None? { return None; }
          t := t[w as nat := u.value];
        }
      }
      return Some(t);
    }

    /** Maps the words of sorted definitions, then the rest. */
    method MapSorted(defs: seq<FieldDef>, count: word) returns (r: Option<map<nat, nat>>)
      requires stride <= LIMIT
      modifies this`fields
      ensures old(fields.words) <= fields.words <= Max(old(fields.words), stride / 4)
      ensures r.Some? ==> IsFieldMap(r.value, defs, count, old(fields), fields.words)
    {
      var m := MapDefs(defs);
      if m.None? { return None; }
      ghost var taken := fields.words;
      r := MapRest(m.value, count);
      if r.Some? { RestIsFieldMap(defs, m.value, r.value, count, old(fields), taken, fields.words); }
    }

    /** Maps another progs' field words onto the layout, adding the fields it introduces. */
    method MapFields(defs: seq<FieldDef>, count: word) returns (r: Option<map<nat, nat>>)
      requires Valid()
      modifies this`fields, this`fieldBytes
      ensures r.Some? ==>
        && Valid() && old(fields.words) <= fields.words && Value() == old(Value()).(fieldBytes := 4 * fields.words)
        && IsFieldMap(r.value, SortDefs(defs), count, old(fields), fields.words)
      ensures r.None? ==> fieldBytes == old(fieldBytes)
    {
      StrideInLimit(Value());
      r := MapSorted(SortDefs(defs), count);
      if r.Some? { fieldBytes := 4 * fields.words; }
    }

    // ---- more progs ----------------------------------------------------------------------------

    /** Lays out another progs at the end of region S. A progs that does not fit changes nothing. */
    method AddProgs(strings: seq<byte>, globals: seq<word>, defs: seq<FieldDef>, count: word) returns (r: Option<nat>)
      requires Valid()
      modifies this`s, this`fields, this`fieldBytes
      ensures Valid()
      ensures r.None? ==> Value() == old(Value()) && fields == old(fields)
      ensures r.Some? ==>
        && e == old(e) && h == old(h) && slots == old(slots) && old(fieldBytes) <= fieldBytes
        && old(|s|) + |strings| < r.value && r.value % 4 == 0
        && r.value + 4 * |globals| + 12 == |s| <= eBase
        && (forall k :: 0 <= k < old(|s|) ==> s[k] == old(s)[k])
        && (forall i :: 0 <= i < |globals| ==> G(Whole, s, Nth(r.value, i)) == globals[i])
        && r.value == GlobalsAfter(AlignUp(old(|s|), 16), |strings|)
        && StringsAt(s, old(|s|), AlignUp(old(|s|), 16), strings, r.value, 4 * |globals|)
    {
      var sbase := AlignUp(|s|, 16);
      var gbase := GlobalsAfter(sbase, |strings|);
      var end := gbase + 4 * |globals| + 12;
      if end > eBase { return None; }
      var savedFields, savedBytes := fields, fieldBytes;
      var m := MapFields(defs, count);
      if m.None? {
        fields, fieldBytes := savedFields, savedBytes;
        return None;
      }
      Append(sbase, gbase, end, strings, globals);
      return Some(gbase);
    }

    /** Grows region S to `end` and writes strings at `sbase` and globals at `gbase`. */
    method Append(sbase: nat, gbase: nat, end: nat, strings: seq<byte>, globals: seq<word>)
      requires |s| <= sbase && sbase + |strings| < gbase && gbase + 4 * |globals| <= end
      modifies this`s
      ensures |s| == end
      ensures forall k :: 0 <= k < old(|s|) ==> s[k] == old(s)[k]
      ensures forall i :: 0 <= i < |globals| ==> G(Whole, s, Nth(gbase, i)) == globals[i]
      ensures StringsAt(s, old(|s|), sbase, strings, gbase, 4 * |globals|)
    {
      var filled := Splice(s + Zeros(end - |s|), sbase, strings);
      s := filled;
      WriteGlobals(gbase, globals);
      AppendedBytes(old(s), sbase, strings, gbase, globals, end, filled, s);
      forall k: nat | k < old(|s|)
        ensures s[k] == old(s)[k]
      {
        GlobalsOnly(filled, gbase, globals, |globals|, k);
      }
      forall i | 0 <= i < |globals|
        ensures G(Whole, s, Nth(gbase, i)) == globals[i]
      {
        GlobalsRead(filled, gbase, globals, |globals|, i);
      }
    }

    method WriteGlobals(gbase: nat, globals: seq<word>)
      modifies this`s
      ensures s == PutGlobals(old(s), gbase, globals, |globals|)
    {
      for i := 0 to |globals|
        invariant s == PutGlobals(old(s), gbase, globals, i)
      {
        s := Set(Whole, s, Nth(gbase, i), globals[i]);
      }
    }
  }

  /** `r` is `m` with every word below `n` that it did not map given a word of its own, in order, out
      of those taken since. */
  ghost predicate Extends(m: map<nat, nat>, r: map<nat, nat>, n: nat, from: nat, to: nat) {
    && (forall w: nat :: w in r <==> w in m || w < n)
    && (forall w: nat :: w in m ==> r[w] == m[w])
    && (forall w: nat :: w in r && w !in m ==> from <= r[w] < to)
    && (forall v: nat, w: nat :: v in r && w in r && v < w && v !in m && w !in m ==> r[v] < r[w])
  }

  /** What mapping the fields of another progs promises: every word of its header or definitions has a
      place; a definition that shares no word with another keeps its shape, and the place of the
      field of its name and size if there was one; header words without a definition get new words,
      each its own. */
  ghost predicate IsFieldMap(r: map<nat, nat>, defs: seq<FieldDef>, count: nat, known: FieldTable, words: nat) {
    && (forall w: nat :: w in r <==> w < count || Covered(defs, w))
    && (forall i :: 0 <= i < |defs| && Alone(defs, i) ==> Placed(r, known, defs[i]))
    && (forall w: nat :: w < count && !Covered(defs, w) ==> w in r && known.words <= r[w] < words)
    && (forall v: nat, w: nat :: v < w < count && !Covered(defs, v) && !Covered(defs, w) ==> v in r && w in r && r[v] != r[w])
  }

  lemma RestIsFieldMap(defs: seq<FieldDef>, m: map<nat, nat>, r: map<nat, nat>, count: nat, known: FieldTable, from: nat, to: nat)
    requires MapsDefs(m, defs, |defs|, known) && Extends(m, r, count, from, to) && known.words <= from
    ensures IsFieldMap(r, defs, count, known, to)
  {
    forall i | 0 <= i < |defs| && Alone(defs, i)
      ensures Placed(r, known, defs[i])
    {
      PlacedGrows(m, r, known, defs[i]);
    }
  }

  lemma PlacedGrows(m: map<nat, nat>, r: map<nat, nat>, known: FieldTable, d: FieldDef)
    requires Placed(m, known, d) && forall w: nat :: w in m ==> w in r && r[w] == m[w]
    ensures Placed(r, known, d)
  {
  }

  lemma StrideInLimit(m: Mem)
    requires m.Valid()
    ensures m.stride <= LIMIT
  {
    TimesMonotone(m.stride, 1, m.maxEdicts);
    assert Times(1, m.stride) == m.stride;
  }

  /** `m` maps the words the first `n` definitions cover, and places those that stand alone. */
  ghost predicate MapsDefs(m: map<nat, nat>, defs: seq<FieldDef>, n: nat, known: FieldTable)
    requires n <= |defs|
  {
    && (forall w: nat {:trigger w in m} {:trigger CoveredByFirst(defs, n, w)} :: w in m <==> CoveredByFirst(defs, n, w))
    && (forall j :: 0 <= j < n && Alone(defs, j) ==> Placed(m, known, defs[j]))
  }

  /** Mapping one more definition places it if no other covers its words, and moves no other. */
  lemma MapsNext(defs: seq<FieldDef>, i: nat, m: map<nat, nat>, u: nat, known: FieldTable)
    requires i < |defs| && MapsDefs(m, defs, i, known)
    requires Known(known, defs[i]) ==> u == known.byName[defs[i].name].ofs
    ensures MapsDefs(MapWords(m, defs[i].offset, u, Width(defs[i])), defs, i + 1, known)
  {
    var r := MapWords(m, defs[i].offset, u, Width(defs[i]));
    forall j | 0 <= j <= i && Alone(defs, j)
      ensures Placed(r, known, defs[j])
    {
      if j < i {
        assert Placed(m, known, defs[j]);
        assert defs[j].offset as nat in m by { assert CoveredBy(defs[j], defs[j].offset); }
      } else {
        forall w: nat | CoveredBy(defs[i], w)
          ensures w !in m
        {
          assert forall k :: 0 <= k < i ==> !CoveredBy(defs[k], w);
        }
        assert CoveredBy(defs[i], defs[i].offset);
      }
    }
  }
}
