/** Walking the block `json_parse` built gives the document back (`src/stdlib/json.rs`). */
module JsonRead {
  import opened Bytes
  import opened Json
  import opened JsonTree

  // ---- reading ---------------------------------------------------------------------------------

  /** The slot a pointer into the block designates. */
  function SlotOf(base: nat, p: word): Option<nat> {
    if p < base || (p - base) % NODE != 0 then None else Some((p - base) / NODE)
  }

  /** The text at an address; null is empty. */
  function NameAt(out: seq<byte>, base: nat, p: word): seq<byte> {
    if p == 0 || p < base || p - base > |out| then [] else UntilNul(out[p - base..])
  }

  /** How many slots follow. */
  function Left(out: seq<byte>, slot: nat): nat { if slot < |out| then |out| - slot else 0 }

  /** Reads the tree whose root is node `slot`: `None` if it is not one. */
  function ReadNode(base: nat, out: seq<byte>, temps: map<word, seq<byte>>, slot: nat): Option<Json>
    decreases Left(out, slot), 0, 0
  {
    if At(slot) + NODE > |out| then None
    else
      var (ty, a, b) := (WordAt(out, At(slot)), WordAt(out, At(slot) + 8), WordAt(out, At(slot) + 12));
      if ty == 0 then if a in temps then Some(Text(PlainText(temps[a]))) else None
      else if ty == 1 then Some(Number(out[At(slot) + 8..At(slot) + 16]))
      else if ty == 2 || ty == 3 then
        match SlotOf(base, a)
        case None => None
        case Some(first) =>
          if first <= slot then None
          else match ReadKids(base, out, temps, ty == 3, first, b)
            case None => None
            case Some(kids) => Some(if ty == 3 then Array(kids) else Object(kids))
      else if ty == 4 then Some(True)
      else if ty == 5 then Some(False)
      else if ty == 6 then Some(Null)
      else None
  }

  /** A member from its parts, if both were read. */
  function Joined(key: seq<byte>, value: Option<Json>, rest: Option<Kids>): Option<Kids> {
    if value.Some? && rest.Some? then Some(Kid(key, value.value, rest.value)) else None
  }

  /** Reads `n` children in consecutive slots. */
  function ReadKids(base: nat, out: seq<byte>, temps: map<word, seq<byte>>, indexed: bool, slot: nat, n: nat): Option<Kids>
    decreases Left(out, slot), 1, n
  {
    if n == 0 then Some(End)
    else if At(slot) + NODE > |out| then None
    else
      Joined(KeyAt(out, base, indexed, slot), ReadNode(base, out, temps, slot), ReadKids(base, out, temps, indexed, Succ(slot), n - 1))
  }

  /** The key of the member in `slot` (elements have none). */
  function KeyAt(out: seq<byte>, base: nat, indexed: bool, slot: nat): seq<byte>
    requires At(slot) + NODE <= |out|
  {
    if indexed then [] else PlainText(NameAt(out, base, WordAt(out, At(slot) + 4)))
  }

  // ---- what reading a node gives ---------------------------------------------------------------

  lemma WordsOfNode(out: seq<byte>, slot: nat, ty: word, name: word, value: seq<byte>)
    requires NodeIs(out, slot, ty, name, value)
    ensures WordAt(out, At(slot)) == ty && WordAt(out, At(slot) + 4) == name
    ensures out[At(slot) + 8..At(slot) + 16] == value
    ensures WordAt(out, At(slot) + 8) == WordAt(value, 0) && WordAt(out, At(slot) + 12) == WordAt(value, 4)
  {
    var b := Block(ty, name, value);
    assert b == out[At(slot)..At(slot) + NODE];
    assert b[8..16] == value;
    WordInSlice(out, At(slot), b, 0);
    WordInSlice(out, At(slot), b, 4);
    WordInSlice(out, At(slot), b, 8);
    WordInSlice(out, At(slot), b, 12);
    assert out[At(slot) + 8..At(slot) + 16] == b[8..16];
    BlockWords(ty, name, value);
  }

  lemma BlockWords(ty: word, name: word, value: seq<byte>)
    requires |value| == 8
    ensures var b := Block(ty, name, value);
      WordAt(b, 0) == ty && WordAt(b, 4) == name && WordAt(b, 8) == WordAt(value, 0) && WordAt(b, 12) == WordAt(value, 4)
  {
    var b := Block(ty, name, value);
    assert b[0..4] == BytesOf(ty)[0..4];
    assert b[4..8] == BytesOf(name)[0..4];
    assert b[8..12] == value[0..4];
    assert b[12..16] == value[4..8];
    SameWord(b, 0, BytesOf(ty), 0);
    SameWord(b, 4, BytesOf(name), 0);
    SameWord(b, 8, value, 0);
    SameWord(b, 12, value, 4);
  }

  lemma WordInSlice(s: seq<byte>, at: nat, b: seq<byte>, o: nat)
    requires at + |b| <= |s| && s[at..at + |b|] == b && o + 4 <= |b|
    ensures WordAt(s, at + o) == WordAt(b, o)
  {
    var t := s[at..at + |b|];
    assert t[o] == s[at + o] && t[o + 1] == s[at + o + 1] && t[o + 2] == s[at + o + 2] && t[o + 3] == s[at + o + 3];
  }

  lemma SameWord(s: seq<byte>, o: nat, t: seq<byte>, p: nat)
    requires o + 4 <= |s| && p + 4 <= |t| && s[o..o + 4] == t[p..p + 4]
    ensures WordAt(s, o) == WordAt(t, p)
  {
    assert s[o..o + 4][0] == t[p..p + 4][0] && s[o..o + 4][1] == t[p..p + 4][1];
    assert s[o..o + 4][2] == t[p..p + 4][2] && s[o..o + 4][3] == t[p..p + 4][3];
  }

  lemma TwoWords(a: word, b: word)
    ensures WordAt(BytesOf(a) + BytesOf(b), 0) == a && WordAt(BytesOf(a) + BytesOf(b), 4) == b
  {
    SameWord(BytesOf(a) + BytesOf(b), 0, BytesOf(a), 0);
    SameWord(BytesOf(a) + BytesOf(b), 4, BytesOf(b), 0);
  }

  lemma SlotOfAddr(base: nat, slot: nat)
    requires base + At(slot) < U32
    ensures SlotOf(base, Addr(base, At(slot))) == Some(slot)
  {
    assert Addr(base, At(slot)) - base == NODE * slot;
  }

  /** A NUL-free name ends at its terminator. */
  lemma {:induction false} UntilNulIs(s: seq<byte>, name: seq<byte>)
    requires |name| < |s| && s[..|name|] == name && s[|name|] == 0 && 0 !in name
    ensures UntilNul(s) == name
  {
    if name != [] {
      assert s[0] == name[0];
      assert s[1..][..|name| - 1] == name[1..];
      UntilNulIs(s[1..], name[1..]);
      assert name == [name[0]] + name[1..];
    }
  }

  lemma NameReads(out: seq<byte>, base: nat, at: nat, name: seq<byte>)
    requires NameIs(out, at, name) && 0 !in name && at > 0 && base + |out| < U32
    ensures NameAt(out, base, NameRef(base, at, name)) == name
  {
    if name != [] {
      assert out[at..][..|name|] == out[at..at + |name|];
      UntilNulIs(out[at..], name);
    }
  }

  // ---- reading back ----------------------------------------------------------------------------

  /** Reading a tree that is laid out gives the document: members in order, duplicate keys kept. */
  lemma {:induction false} ReadsBack(c: Ctx, out: seq<byte>, temps: map<word, seq<byte>>, j: Json, slot: nat, name: word, lo: nat, names: nat)
    requires WellFormed(j) && Laid(c, out, temps, j, slot, name, lo, names)
    requires slot < lo && names > 0 && c.base + |out| < U32 && At(Below(lo, j)) <= |out|
    ensures ReadNode(c.base, out, temps, slot) == Some(j)
    decreases j, 0
  {
    if IsContainer(j) {
      var (a, n) := (Addr(c.base, At(lo)), AsWord(Count(j.kids)));
      WordsOfNode(out, slot, TypeOf(j), name, BytesOf(a) + BytesOf(n));
      TwoWords(a, n);
      FirstSlot(c.base, out, j, lo);
      ReadsKidsBack(c, out, temps, j.kids, j.Array?, 0, lo, SkipKids(lo, j.kids), names);
    } else if j.Text? {
      var r :| r in temps && temps[r] == QcText(j.text) && NodeIs(out, slot, 0, name, BytesOf(r) + BytesOf(0));
      WordsOfNode(out, slot, 0, name, BytesOf(r) + BytesOf(0));
      TwoWords(r, 0);
      QcTextInverse(j.text);
    } else {
      WordsOfNode(out, slot, TypeOf(j), name, Plain(j));
    }
  }

  lemma FirstSlot(base: nat, out: seq<byte>, j: Json, lo: nat)
    requires IsContainer(j) && base + |out| < U32 && At(Below(lo, j)) <= |out|
    ensures SlotOf(base, Addr(base, At(lo))) == Some(lo) && AsWord(Count(j.kids)) == Count(j.kids)
  {
    SlotOfAddr(base, lo);
  }

  /** The name word of a node that is laid out. */
  lemma NameOfNode(c: Ctx, out: seq<byte>, temps: map<word, seq<byte>>, j: Json, slot: nat, name: word, lo: nat, names: nat)
    requires WellFormed(j) && Laid(c, out, temps, j, slot, name, lo, names)
    ensures At(slot) + NODE <= |out| && WordAt(out, At(slot) + 4) == name
  {
    if IsContainer(j) {
      WordsOfNode(out, slot, TypeOf(j), name, BytesOf(Addr(c.base, At(lo))) + BytesOf(AsWord(Count(j.kids))));
    } else if j.Text? {
      var r :| r in temps && temps[r] == QcText(j.text) && NodeIs(out, slot, 0, name, BytesOf(r) + BytesOf(0));
      WordsOfNode(out, slot, 0, name, BytesOf(r) + BytesOf(0));
    } else {
      WordsOfNode(out, slot, TypeOf(j), name, Plain(j));
    }
  }

  /** One more child, read from its slot and the slots after it. */
  lemma ReadKidsStep(base: nat, out: seq<byte>, temps: map<word, seq<byte>>, indexed: bool, slot: nat, n: nat)
    requires n > 0 && At(slot) + NODE <= |out|
    ensures ReadKids(base, out, temps, indexed, slot, n)
            == Joined(KeyAt(out, base, indexed, slot), ReadNode(base, out, temps, slot), ReadKids(base, out, temps, indexed, Succ(slot), n - 1))
  {
  }

  lemma KidReads(base: nat, out: seq<byte>, temps: map<word, seq<byte>>, indexed: bool, slot: nat, n: nat,
                 key: seq<byte>, value: Option<Json>, rest: Option<Kids>)
    requires n > 0 && At(slot) + NODE <= |out| && KeyAt(out, base, indexed, slot) == key
    requires value == ReadNode(base, out, temps, slot) && rest == ReadKids(base, out, temps, indexed, Succ(slot), n - 1)
    ensures ReadKids(base, out, temps, indexed, slot, n) == Joined(key, value, rest)
  {
    ReadKidsStep(base, out, temps, indexed, slot, n);
  }

  lemma FewerKids(base: nat, out: seq<byte>, temps: map<word, seq<byte>>, indexed: bool, slot: nat, n: nat, m: nat)
    requires n == m + 1
    ensures ReadKids(base, out, temps, indexed, slot, n - 1) == ReadKids(base, out, temps, indexed, slot, m)
  {
    assert n - 1 == m;
  }

  /** A member, read from its slot and the slots after it. */
  lemma MemberReads(base: nat, out: seq<byte>, temps: map<word, seq<byte>>, indexed: bool, slot: nat, n: nat, m: nat, kids: Kids)
    requires kids.Kid? && n == m + 1 && At(slot) + NODE <= |out| && KeyAt(out, base, indexed, slot) == kids.key
    requires ReadNode(base, out, temps, slot) == Some(kids.value)
    requires ReadKids(base, out, temps, indexed, Succ(slot), m) == Some(kids.rest)
    ensures ReadKids(base, out, temps, indexed, slot, n) == Some(kids)
  {
    FewerKids(base, out, temps, indexed, Succ(slot), n, m);
    KidReads(base, out, temps, indexed, slot, n, kids.key, Some(kids.value), Some(kids.rest));
  }

  lemma KeyReads(out: seq<byte>, base: nat, indexed: bool, k: nat, key: seq<byte>, slot: nat, name: word)
    requires At(slot) + NODE <= |out| && WordAt(out, At(slot) + 4) == name
    requires NameAt(out, base, name) == NameOf(indexed, k, key) && if indexed then key == [] else IsUtf8(key)
    ensures KeyAt(out, base, indexed, slot) == key
  {
    if !indexed { QcTextInverse(key); }
  }

  lemma {:induction false} ReadsKidsBack(c: Ctx, out: seq<byte>, temps: map<word, seq<byte>>, kids: Kids, indexed: bool, k: nat,
                                         slot: nat, lo: nat, names: nat)
    requires WellFormedKids(kids, indexed) && LaidKids(c, out, temps, kids, indexed, k, slot, lo, names)
    requires SkipKids(slot, kids) <= lo && names > 0 && c.base + |out| < U32 && At(BelowKids(lo, kids)) <= |out|
    ensures ReadKids(c.base, out, temps, indexed, slot, Count(kids)) == Some(kids)
    decreases kids, 1
  {
    match kids
    case End =>
    case Kid(key, value, rest) =>
      var name := NameOf(indexed, k, key);
      var inner := AfterName(names, name);
      ReadsBack(c, out, temps, value, slot, NameRef(c.base, names, name), lo, inner);
      ReadsKidsBack(c, out, temps, rest, indexed, Succ(k), Succ(slot), Below(lo, value), NamesEnd(inner, value));
      NameOfNode(c, out, temps, value, slot, NameRef(c.base, names, name), lo, inner);
      NameReads(out, c.base, names, name);
      KeyReads(out, c.base, indexed, k, key, slot, NameRef(c.base, names, name));
      MemberReads(c.base, out, temps, indexed, slot, Count(kids), Count(rest), kids);
  }
}
