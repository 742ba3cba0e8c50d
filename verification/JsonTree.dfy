/** The block `json_parse` builds: what the writing pass leaves there, and reading the tree back
    (`src/stdlib/json.rs`). */
module JsonTree {
  import opened Bytes
  import opened Json

  // ---- places ----------------------------------------------------------------------------------

  /** The byte offset of node `slot`. */
  function At(slot: nat): nat { NODE * slot }

  function Succ(n: nat): nat { n + 1 }

  /** The slot after the children that start at `slot`. */
  function SkipKids(slot: nat, kids: Kids): nat { slot + Count(kids) }

  /** The slot after the nodes below `j`, which start at `lo`. */
  function Below(lo: nat, j: Json): nat { lo + (Nodes(j) - 1) }

  /** The slot after the nodes below the children. */
  function BelowKids(lo: nat, kids: Kids): nat { lo + Deeper(kids) }

  /** Where the next name goes after a name, after the names below a node, and after those of the
      children. */
  function AfterName(at: nat, name: seq<byte>): nat { at + NameBytes(|name|) }

  function NamesEnd(at: nat, j: Json): nat { at + Names(j) }

  function KidNamesEnd(at: nat, kids: Kids, indexed: bool, k: nat): nat { at + NamesIn(kids, indexed, k) }

  /** The address of a name stored at `at`: null for an empty one. */
  function NameRef(base: nat, at: nat, name: seq<byte>): word { if name == [] then 0 else Addr(base, at) }

  /** The address of an offset (0 when it leaves 32 bits). */
  function Addr(base: nat, offset: nat): word { if base + offset < U32 then base + offset else 0 }

  function AsWord(n: nat): word { if n < U32 then n else 0 }

  /** Bytes that do not fit the block are dropped. */
  function Put(out: seq<byte>, at: nat, b: seq<byte>): (r: seq<byte>)
    ensures |r| == |out|
  {
    if at + |b| <= |out| then Splice(out, at, b) else out
  }

  /** The blocks agree from `lo` up to `hi`. */
  predicate Agree(a: seq<byte>, b: seq<byte>, lo: nat, hi: nat) {
    |a| == |b| && forall i :: lo <= i < hi && i < |a| ==> a[i] == b[i]
  }

  predicate ZeroFrom(out: seq<byte>, lo: nat) { forall i :: lo <= i < |out| ==> out[i] == 0 }

  // ---- writing ---------------------------------------------------------------------------------

  /** Where the block is, and the references new temp strings get. */
  datatype Ctx = Ctx(base: nat, ref: nat -> word, room: nat)

  /** The writer: the block, the next free node and name, the child counts left, the temp strings by
      reference and how many were made. */
  datatype State = State(
    out: seq<byte>, nextNode: nat, nextName: nat, counts: seq<nat>,
    temps: map<word, seq<byte>>, used: nat, failed: bool)

  function TypeOf(j: Json): word {
    match j
    case Text(_) => 0
    case Number(_) => 1
    case Object(_) => 2
    case Array(_) => 3
    case True => 4
    case False => 5
    case Null => 6
  }

  /** The double 1.0. */
  const ONE: seq<byte> := [0, 0, 0, 0, 0, 0, 0xF0, 0x3F]

  function Block(ty: word, name: word, value: seq<byte>): (b: seq<byte>)
    requires |value| == 8
    ensures |b| == NODE
  {
    BytesOf(ty) + BytesOf(name) + value
  }

  /** Writes a node. */
  function PutNode(w: State, slot: nat, ty: word, name: word, value: seq<byte>): State
    requires |value| == 8
  {
    w.(out := Put(w.out, At(slot), Block(ty, name, value)))
  }

  function PutName(w: State, name: seq<byte>): State {
    if name == [] then w
    else w.(out := Put(w.out, w.nextName, name), nextName := w.nextName + |name| + 1)
  }

  /** Reserves the child slots of a container. */
  function ChildCount(w: State): nat { if w.counts == [] then 0 else w.counts[0] }

  function Reserve(w: State): State {
    w.(nextNode := w.nextNode + ChildCount(w), counts := if w.counts == [] then [] else w.counts[1..])
  }

  /** The value bytes of a node without children or text. */
  function Plain(j: Json): (b: seq<byte>)
    requires WellFormed(j)
    ensures |b| == 8
  {
    if j.Number? then j.bits else if j.True? then ONE else Zeros(8)
  }

  /** Writes a node and everything below it. */
  function WriteNode(c: Ctx, w: State, j: Json, slot: nat, name: word): State
    requires WellFormed(j)
    decreases j, 0
  {
    if IsContainer(j) then
      var first, n := w.nextNode, ChildCount(w);
      var w1 := PutNode(Reserve(w), slot, TypeOf(j), name, BytesOf(Addr(c.base, At(first))) + BytesOf(AsWord(n)));
      WriteKids(c, w1, j.kids, j.Array?, 0, n, first)
    else if j.Text? then
      if w.used >= c.room then w.(failed := true)
      else
        var r := c.ref(w.used);
        PutNode(w.(temps := w.temps[r := QcText(j.text)], used := w.used + 1), slot, 0, name, BytesOf(r) + BytesOf(0))
    else PutNode(w, slot, TypeOf(j), name, Plain(j))
  }

  /** Writes the children from number `k` on, into the slots from `slot` on; their number must be the
      one measured. */
  function WriteKids(c: Ctx, w: State, kids: Kids, indexed: bool, k: nat, n: nat, slot: nat): State
    requires WellFormedKids(kids, indexed)
    decreases kids, 1
  {
    if w.failed then w
    else if k >= n then w.(failed := kids.Kid?)
    else match kids
      case End => w.(failed := true)
      case Kid(key, value, rest) =>
        var name := NameOf(indexed, k, key);
        var w2 := WriteNode(c, PutName(w, name), value, slot, NameRef(c.base, w.nextName, name));
        WriteKids(c, w2, rest, indexed, Succ(k), n, Succ(slot))
  }

  // ---- what a tree looks like in memory --------------------------------------------------------

  /** Node `slot` has this type, name and value. */
  predicate NodeIs(out: seq<byte>, slot: nat, ty: word, name: word, value: seq<byte>) {
    && |value| == 8 && At(slot) + NODE <= |out|
    && out[At(slot)..At(slot) + NODE] == Block(ty, name, value)
  }

  /** The NUL-terminated name is stored at `at`. */
  predicate NameIs(out: seq<byte>, at: nat, name: seq<byte>) {
    name != [] ==> at + |name| < |out| && out[at..at + |name|] == name && out[at + |name|] == 0
  }

  /** `j` is laid out with its root at `slot`, the nodes below it from slot `lo` on, the names below it
      from `names` on. */
  predicate Laid(c: Ctx, out: seq<byte>, temps: map<word, seq<byte>>, j: Json, slot: nat, name: word, lo: nat, names: nat)
    requires WellFormed(j)
    decreases j, 0
  {
    if IsContainer(j) then
      && NodeIs(out, slot, TypeOf(j), name, BytesOf(Addr(c.base, At(lo))) + BytesOf(AsWord(Count(j.kids))))
      && LaidKids(c, out, temps, j.kids, j.Array?, 0, lo, SkipKids(lo, j.kids), names)
    else if j.Text? then
      exists r :: r in temps && temps[r] == QcText(j.text) && NodeIs(out, slot, 0, name, BytesOf(r) + BytesOf(0))
    else NodeIs(out, slot, TypeOf(j), name, Plain(j))
  }

  /** The children from number `k` on are laid out in consecutive slots from `slot` on. */
  predicate LaidKids(c: Ctx, out: seq<byte>, temps: map<word, seq<byte>>, kids: Kids, indexed: bool, k: nat,
                     slot: nat, lo: nat, names: nat)
    requires WellFormedKids(kids, indexed)
    decreases kids, 1
  {
    match kids
    case End => true
    case Kid(key, value, rest) =>
      var name := NameOf(indexed, k, key);
      var inner := AfterName(names, name);
      && NameIs(out, names, name)
      && Laid(c, out, temps, value, slot, NameRef(c.base, names, name), lo, inner)
      && LaidKids(c, out, temps, rest, indexed, Succ(k), Succ(slot), Below(lo, value), NamesEnd(inner, value))
  }

  // ---- a tree depends on its own bytes only ----------------------------------------------------

  predicate Extends(a: map<word, seq<byte>>, b: map<word, seq<byte>>) {
    forall r :: r in a ==> r in b && b[r] == a[r]
  }

  lemma NodeStable(a: seq<byte>, b: seq<byte>, slot: nat, ty: word, name: word, value: seq<byte>)
    requires NodeIs(a, slot, ty, name, value) && Agree(a, b, At(slot), At(Succ(slot)))
    ensures NodeIs(b, slot, ty, name, value)
  {
    assert a[At(slot)..At(slot) + NODE] == b[At(slot)..At(slot) + NODE];
  }

  lemma NameStable(a: seq<byte>, b: seq<byte>, at: nat, name: seq<byte>)
    requires NameIs(a, at, name) && Agree(a, b, at, AfterName(at, name))
    ensures NameIs(b, at, name)
  {
    if name != [] { assert a[at..at + |name|] == b[at..at + |name|]; }
  }

  lemma AgreePart(a: seq<byte>, b: seq<byte>, lo: nat, hi: nat, from: nat, to: nat)
    requires Agree(a, b, lo, hi) && lo <= from && to <= hi
    ensures Agree(a, b, from, to)
  {
  }

  /** The blocks agree where a node, the nodes below it and the names below it are. */
  predicate AgreeNode(a: seq<byte>, b: seq<byte>, j: Json, slot: nat, lo: nat, names: nat) {
    && Agree(a, b, At(slot), At(Succ(slot)))
    && Agree(a, b, At(lo), At(Below(lo, j))) && Agree(a, b, names, NamesEnd(names, j))
  }

  predicate AgreeKids(a: seq<byte>, b: seq<byte>, kids: Kids, indexed: bool, k: nat, slot: nat, lo: nat, names: nat) {
    && Agree(a, b, At(slot), At(SkipKids(slot, kids)))
    && Agree(a, b, At(lo), At(BelowKids(lo, kids))) && Agree(a, b, names, KidNamesEnd(names, kids, indexed, k))
  }

  lemma AgreeContainer(a: seq<byte>, b: seq<byte>, j: Json, slot: nat, lo: nat, names: nat)
    requires IsContainer(j) && AgreeNode(a, b, j, slot, lo, names)
    ensures AgreeKids(a, b, j.kids, j.Array?, 0, lo, SkipKids(lo, j.kids), names)
  {
    AgreePart(a, b, At(lo), At(Below(lo, j)), At(lo), At(SkipKids(lo, j.kids)));
    AgreePart(a, b, At(lo), At(Below(lo, j)), At(SkipKids(lo, j.kids)), At(BelowKids(SkipKids(lo, j.kids), j.kids)));
  }

  lemma AgreeFirstKid(a: seq<byte>, b: seq<byte>, kids: Kids, indexed: bool, k: nat, slot: nat, lo: nat, names: nat)
    requires kids.Kid? && AgreeKids(a, b, kids, indexed, k, slot, lo, names)
    ensures var inner := AfterName(names, NameOf(indexed, k, kids.key));
      && Agree(a, b, names, inner) && AgreeNode(a, b, kids.value, slot, lo, inner)
      && AgreeKids(a, b, kids.rest, indexed, Succ(k), Succ(slot), Below(lo, kids.value), NamesEnd(inner, kids.value))
  {
    var inner := AfterName(names, NameOf(indexed, k, kids.key));
    var end := KidNamesEnd(names, kids, indexed, k);
    AgreePart(a, b, names, end, names, inner);
    AgreePart(a, b, names, end, inner, NamesEnd(inner, kids.value));
    AgreePart(a, b, names, end, NamesEnd(inner, kids.value), end);
    AgreePart(a, b, At(slot), At(SkipKids(slot, kids)), At(slot), At(Succ(slot)));
    AgreePart(a, b, At(slot), At(SkipKids(slot, kids)), At(Succ(slot)), At(SkipKids(Succ(slot), kids.rest)));
    AgreePart(a, b, At(lo), At(BelowKids(lo, kids)), At(lo), At(Below(lo, kids.value)));
    AgreePart(a, b, At(lo), At(BelowKids(lo, kids)), At(Below(lo, kids.value)), At(BelowKids(lo, kids)));
  }

  /** A tree stays laid out while its node, the nodes below and the names below stay. */
  lemma {:induction false} LaidStable(c: Ctx, a: seq<byte>, b: seq<byte>, ta: map<word, seq<byte>>, tb: map<word, seq<byte>>,
                                      j: Json, slot: nat, name: word, lo: nat, names: nat)
    requires WellFormed(j) && Laid(c, a, ta, j, slot, name, lo, names) && Extends(ta, tb)
    requires AgreeNode(a, b, j, slot, lo, names)
    ensures Laid(c, b, tb, j, slot, name, lo, names)
    decreases j, 0
  {
    if IsContainer(j) {
      NodeStable(a, b, slot, TypeOf(j), name, BytesOf(Addr(c.base, At(lo))) + BytesOf(AsWord(Count(j.kids))));
      AgreeContainer(a, b, j, slot, lo, names);
      LaidKidsStable(c, a, b, ta, tb, j.kids, j.Array?, 0, lo, SkipKids(lo, j.kids), names);
    } else if j.Text? {
      var r :| r in ta && ta[r] == QcText(j.text) && NodeIs(a, slot, 0, name, BytesOf(r) + BytesOf(0));
      NodeStable(a, b, slot, 0, name, BytesOf(r) + BytesOf(0));
    } else {
      NodeStable(a, b, slot, TypeOf(j), name, Plain(j));
    }
  }

  lemma {:induction false} LaidKidsStable(c: Ctx, a: seq<byte>, b: seq<byte>, ta: map<word, seq<byte>>, tb: map<word, seq<byte>>,
                                          kids: Kids, indexed: bool, k: nat, slot: nat, lo: nat, names: nat)
    requires WellFormedKids(kids, indexed) && LaidKids(c, a, ta, kids, indexed, k, slot, lo, names) && Extends(ta, tb)
    requires AgreeKids(a, b, kids, indexed, k, slot, lo, names)
    ensures LaidKids(c, b, tb, kids, indexed, k, slot, lo, names)
    decreases kids, 1
  {
    match kids
    case End =>
    case Kid(key, value, rest) =>
      var name := NameOf(indexed, k, key);
      var inner := AfterName(names, name);
      AgreeFirstKid(a, b, kids, indexed, k, slot, lo, names);
      NameStable(a, b, names, name);
      LaidStable(c, a, b, ta, tb, value, slot, NameRef(c.base, names, name), lo, inner);
      LaidKidsStable(c, a, b, ta, tb, rest, indexed, Succ(k), Succ(slot), Below(lo, value), NamesEnd(inner, value));
  }

  // ---- the writing pass leaves the tree --------------------------------------------------------

  /** What may change: whole slots from `slot` to `slotEnd` and from `lo` to `hi`, and the bytes from
      `names` to `namesEnd`. */
  datatype Area = Area(slot: nat, slotEnd: nat, lo: nat, hi: nat, names: nat, namesEnd: nat)

  predicate Touched(r: Area, i: nat) {
    || At(r.slot) <= i < At(r.slotEnd) || At(r.lo) <= i < At(r.hi) || r.names <= i < r.namesEnd
  }

  predicate Only(a: seq<byte>, b: seq<byte>, r: Area) {
    |a| == |b| && forall i :: 0 <= i < |a| && !Touched(r, i) ==> a[i] == b[i]
  }

  /** Area `t` holds both others. */
  ghost predicate Joins(r: Area, s: Area, t: Area) {
    forall i: nat :: Touched(r, i) || Touched(s, i) ==> Touched(t, i)
  }

  ghost predicate Misses(r: Area, lo: nat, hi: nat) {
    forall i: nat :: lo <= i < hi ==> !Touched(r, i)
  }

  lemma OnlyTwice(a: seq<byte>, b: seq<byte>, c: seq<byte>, r: Area, s: Area, t: Area)
    requires Only(a, b, r) && Only(b, c, s) && Joins(r, s, t)
    ensures Only(a, c, t)
  {
  }

  /** What is not touched agrees. */
  lemma OnlyAgree(a: seq<byte>, b: seq<byte>, r: Area, lo: nat, hi: nat)
    requires Only(a, b, r) && Misses(r, lo, hi)
    ensures Agree(a, b, lo, hi)
  {
  }

  /** New temp strings get references no temp string has. */
  ghost predicate FreshRefs(c: Ctx, temps: map<word, seq<byte>>, used: nat) {
    && (forall i: nat, k: nat :: c.ref(i) == c.ref(k) ==> i == k)
    && forall i: nat :: i >= used ==> c.ref(i) !in temps
  }

  /** The writer may write `j` into `slot` of a block of `size` slots: the measured sizes fit. */
  ghost predicate Ready(c: Ctx, w: State, j: Json, slot: nat, size: nat) {
    && !w.failed && slot < w.nextNode && Below(w.nextNode, j) <= size && At(size) <= w.nextName
    && NamesEnd(w.nextName, j) <= |w.out| && ZeroFrom(w.out, w.nextName)
    && Counts(j) <= w.counts && w.used + Texts(j) <= c.room && FreshRefs(c, w.temps, w.used)
  }

  ghost predicate ReadyKids(c: Ctx, w: State, kids: Kids, indexed: bool, k: nat, slot: nat, size: nat) {
    && !w.failed && SkipKids(slot, kids) <= w.nextNode && BelowKids(w.nextNode, kids) <= size && At(size) <= w.nextName
    && KidNamesEnd(w.nextName, kids, indexed, k) <= |w.out| && ZeroFrom(w.out, w.nextName)
    && CountsIn(kids) <= w.counts && w.used + TextsIn(kids) <= c.room && FreshRefs(c, w.temps, w.used)
  }

  /** What writing a node changes. */
  function NodeArea(w: State, j: Json, slot: nat): Area {
    Area(slot, Succ(slot), w.nextNode, Below(w.nextNode, j), w.nextName, NamesEnd(w.nextName, j))
  }

  function KidsArea(w: State, kids: Kids, indexed: bool, k: nat, slot: nat): Area {
    Area(slot, SkipKids(slot, kids), w.nextNode, BelowKids(w.nextNode, kids), w.nextName, KidNamesEnd(w.nextName, kids, indexed, k))
  }

  /** The counters have advanced by what was measured, and the rest of the block is still zero. */
  ghost predicate Advanced(c: Ctx, w: State, w': State, nextNode: nat, nextName: nat, counts: nat, texts: nat) {
    && !w'.failed && w'.nextNode == nextNode && w'.nextName == nextName
    && counts <= |w.counts| && w'.counts == w.counts[counts..] && w'.used == w.used + texts
    && Extends(w.temps, w'.temps) && FreshRefs(c, w'.temps, w'.used) && ZeroFrom(w'.out, nextName)
  }

  /** The node is written as measured, and nothing else is touched. */
  ghost predicate Wrote(c: Ctx, w: State, w': State, j: Json, slot: nat, name: word)
    requires WellFormed(j)
  {
    && Advanced(c, w, w', Below(w.nextNode, j), NamesEnd(w.nextName, j), |Counts(j)|, Texts(j))
    && Only(w.out, w'.out, NodeArea(w, j, slot))
    && Laid(c, w'.out, w'.temps, j, slot, name, w.nextNode, w.nextName)
  }

  ghost predicate WroteKids(c: Ctx, w: State, w': State, kids: Kids, indexed: bool, k: nat, slot: nat)
    requires WellFormedKids(kids, indexed)
  {
    && Advanced(c, w, w', BelowKids(w.nextNode, kids), KidNamesEnd(w.nextName, kids, indexed, k), |CountsIn(kids)|, TextsIn(kids))
    && Only(w.out, w'.out, KidsArea(w, kids, indexed, k, slot))
    && LaidKids(c, w'.out, w'.temps, kids, indexed, k, slot, w.nextNode, w.nextName)
  }

  /** Writing a node that fits below the names. */
  lemma PutNodeIs(w: State, slot: nat, ty: word, name: word, value: seq<byte>)
    requires |value| == 8 && At(Succ(slot)) <= w.nextName <= |w.out| && ZeroFrom(w.out, w.nextName)
    ensures var w' := PutNode(w, slot, ty, name, value);
      && NodeIs(w'.out, slot, ty, name, value)
      && Only(w.out, w'.out, Area(slot, Succ(slot), 0, 0, 0, 0)) && ZeroFrom(w'.out, w.nextName)
  {
    var b := Block(ty, name, value);
    var w' := PutNode(w, slot, ty, name, value);
    assert w'.out[At(slot)..At(slot) + NODE] == b;
  }

  /** Storing a name where the block is still zero. */
  lemma PutNameIs(w: State, name: seq<byte>)
    requires AfterName(w.nextName, name) <= |w.out| && ZeroFrom(w.out, w.nextName)
    ensures var w' := PutName(w, name);
      && w'.nextName == AfterName(w.nextName, name) && w' == w.(out := w'.out, nextName := w'.nextName)
      && NameIs(w'.out, w.nextName, name) && ZeroFrom(w'.out, w'.nextName)
      && Only(w.out, w'.out, Area(0, 0, 0, 0, w.nextName, w'.nextName))
  {
    if name != [] {
      var w' := PutName(w, name);
      assert w'.out[w.nextName..w.nextName + |name|] == name;
    }
  }

  /** Slots are in address order. */
  lemma AtOrder(a: nat, b: nat)
    requires a <= b
    ensures At(a) <= At(b)
  {
  }

  lemma LeafLays(c: Ctx, w: State, j: Json, slot: nat, name: word, size: nat)
    requires WellFormed(j) && !IsContainer(j) && !j.Text? && Ready(c, w, j, slot, size)
    ensures Wrote(c, w, WriteNode(c, w, j, slot, name), j, slot, name)
  {
    AtOrder(Succ(slot), size);
    PutNodeIs(w, slot, TypeOf(j), name, Plain(j));
  }

  lemma FreshAfter(c: Ctx, temps: map<word, seq<byte>>, used: nat, text: seq<byte>)
    requires FreshRefs(c, temps, used)
    ensures FreshRefs(c, temps[c.ref(used) := text], used + 1) && Extends(temps, temps[c.ref(used) := text])
  {
    assert c.ref(used) !in temps;
  }

  lemma TextLays(c: Ctx, w: State, j: Json, slot: nat, name: word, size: nat)
    requires WellFormed(j) && j.Text? && Ready(c, w, j, slot, size)
    ensures Wrote(c, w, WriteNode(c, w, j, slot, name), j, slot, name)
  {
    var r := c.ref(w.used);
    AtOrder(Succ(slot), size);
    FreshAfter(c, w.temps, w.used, QcText(j.text));
    PutNodeIs(w, slot, 0, name, BytesOf(r) + BytesOf(0));
    assert r in w.temps[r := QcText(j.text)];
  }

  /** The state in which a container's children are written. */
  function Opened(c: Ctx, w: State, j: Json, slot: nat, name: word): State
    requires IsContainer(j)
  {
    PutNode(Reserve(w), slot, TypeOf(j), name, BytesOf(Addr(c.base, At(w.nextNode))) + BytesOf(AsWord(ChildCount(w))))
  }

  lemma OpenedReady(c: Ctx, w: State, j: Json, slot: nat, name: word, size: nat)
    requires WellFormed(j) && IsContainer(j) && Ready(c, w, j, slot, size)
    ensures var w1 := Opened(c, w, j, slot, name);
      && ChildCount(w) == Count(j.kids)
      && w1 == w.(out := w1.out, nextNode := SkipKids(w.nextNode, j.kids), counts := w.counts[1..])
      && ReadyKids(c, w1, j.kids, j.Array?, 0, w.nextNode, size)
      && NodeIs(w1.out, slot, TypeOf(j), name, BytesOf(Addr(c.base, At(w.nextNode))) + BytesOf(AsWord(Count(j.kids))))
      && Only(w.out, w1.out, Area(slot, Succ(slot), 0, 0, 0, 0))
  {
    assert w.counts[0] == Counts(j)[0] == Count(j.kids);
    AtOrder(Succ(slot), size);
    PutNodeIs(Reserve(w), slot, TypeOf(j), name, BytesOf(Addr(c.base, At(w.nextNode))) + BytesOf(AsWord(ChildCount(w))));
    CountsTail(w.counts, Count(j.kids), CountsIn(j.kids));
  }

  lemma CountsTail(counts: seq<nat>, n: nat, rest: seq<nat>)
    requires [n] + rest <= counts
    ensures rest <= counts[1..] && counts[1..][|rest|..] == counts[|[n] + rest|..]
  {
    assert ([n] + rest)[1..] == rest;
    assert forall i :: 0 <= i < |rest| ==> counts[1..][i] == ([n] + rest)[i + 1];
  }

  /** A container whose children are written is written. */
  lemma ClosedLays(c: Ctx, w: State, j: Json, slot: nat, name: word, size: nat, w': State)
    requires WellFormed(j) && IsContainer(j) && Ready(c, w, j, slot, size)
    requires WroteKids(c, Opened(c, w, j, slot, name), w', j.kids, j.Array?, 0, w.nextNode)
    ensures Wrote(c, w, w', j, slot, name)
  {
    var w1 := Opened(c, w, j, slot, name);
    OpenedReady(c, w, j, slot, name, size);
    CountsTail(w.counts, Count(j.kids), CountsIn(j.kids));
    var area := KidsArea(w1, j.kids, j.Array?, 0, w.nextNode);
    ClosedArea(w, w1, j, slot);
    OnlyTwice(w.out, w1.out, w'.out, Area(slot, Succ(slot), 0, 0, 0, 0), area, NodeArea(w, j, slot));
    AtOrder(Succ(slot), w.nextNode);
    AtOrder(Succ(slot), size);
    OnlyAgree(w1.out, w'.out, area, At(slot), At(Succ(slot)));
    NodeStable(w1.out, w'.out, slot, TypeOf(j), name, BytesOf(Addr(c.base, At(w.nextNode))) + BytesOf(AsWord(Count(j.kids))));
  }

  lemma ClosedArea(w: State, w1: State, j: Json, slot: nat)
    requires IsContainer(j) && w1.nextNode == SkipKids(w.nextNode, j.kids) && w1.nextName == w.nextName
    ensures Joins(Area(slot, Succ(slot), 0, 0, 0, 0), KidsArea(w1, j.kids, j.Array?, 0, w.nextNode), NodeArea(w, j, slot))
    ensures BelowKids(w1.nextNode, j.kids) == Below(w.nextNode, j)
  {
  }

  /** Writing a document into a block of the measured size leaves it laid out, whatever its shape. */
  lemma {:induction false} WriteLays(c: Ctx, w: State, j: Json, slot: nat, name: word, size: nat)
    requires WellFormed(j) && Ready(c, w, j, slot, size)
    ensures Wrote(c, w, WriteNode(c, w, j, slot, name), j, slot, name)
    decreases j, 0
  {
    if IsContainer(j) {
      var w1 := Opened(c, w, j, slot, name);
      OpenedReady(c, w, j, slot, name, size);
      WriteKidsLays(c, w1, j.kids, j.Array?, 0, Count(j.kids), w.nextNode, size);
      ClosedLays(c, w, j, slot, name, size, WriteKids(c, w1, j.kids, j.Array?, 0, Count(j.kids), w.nextNode));
    } else if j.Text? {
      TextLays(c, w, j, slot, name, size);
    } else {
      LeafLays(c, w, j, slot, name, size);
    }
  }

  /** The first child, once its name is stored. */
  lemma KidReady(c: Ctx, w: State, kids: Kids, indexed: bool, k: nat, slot: nat, size: nat)
    requires kids.Kid? && WellFormedKids(kids, indexed) && ReadyKids(c, w, kids, indexed, k, slot, size)
    ensures var name := NameOf(indexed, k, kids.key);
      var w1 := PutName(w, name);
      && Ready(c, w1, kids.value, slot, size)
      && w1 == w.(out := w1.out, nextName := AfterName(w.nextName, name))
      && NameIs(w1.out, w.nextName, name) && Only(w.out, w1.out, Area(0, 0, 0, 0, w.nextName, w1.nextName))
  {
    PutNameIs(w, NameOf(indexed, k, kids.key));
    PrefixParts(w.counts, Counts(kids.value), CountsIn(kids.rest));
  }

  lemma PrefixParts(counts: seq<nat>, a: seq<nat>, b: seq<nat>)
    requires a + b <= counts
    ensures a <= counts && b <= counts[|a|..] && counts[|a|..][|b|..] == counts[|a + b|..]
  {
    assert (a + b)[..|a|] == a && (a + b)[|a|..] == b;
    assert forall i :: 0 <= i < |b| ==> counts[|a|..][i] == (a + b)[|a| + i];
  }

  /** The other children, once the first is written. */
  lemma RestReady(c: Ctx, w: State, kids: Kids, indexed: bool, k: nat, slot: nat, size: nat, name: word, w2: State)
    requires kids.Kid? && WellFormedKids(kids, indexed) && ReadyKids(c, w, kids, indexed, k, slot, size)
    requires Wrote(c, PutName(w, NameOf(indexed, k, kids.key)), w2, kids.value, slot, name)
    ensures ReadyKids(c, w2, kids.rest, indexed, Succ(k), Succ(slot), size)
  {
    KidReady(c, w, kids, indexed, k, slot, size);
    PrefixParts(w.counts, Counts(kids.value), CountsIn(kids.rest));
  }

  /** What writing one more child touches. */
  lemma KidAreas(w: State, kids: Kids, indexed: bool, k: nat, slot: nat, w1: State, w2: State)
    requires kids.Kid? && SkipKids(slot, kids) <= w.nextNode
    requires w1.nextNode == w.nextNode && w1.nextName == AfterName(w.nextName, NameOf(indexed, k, kids.key))
    requires w2.nextNode == Below(w1.nextNode, kids.value) && w2.nextName == NamesEnd(w1.nextName, kids.value)
    ensures var all := KidsArea(w, kids, indexed, k, slot);
      && Joins(Area(0, 0, 0, 0, w.nextName, w1.nextName), NodeArea(w1, kids.value, slot), all)
      && Joins(all, KidsArea(w2, kids.rest, indexed, Succ(k), Succ(slot)), all)
      && BelowKids(w2.nextNode, kids.rest) == BelowKids(w.nextNode, kids)
      && KidNamesEnd(w2.nextName, kids.rest, indexed, Succ(k)) == KidNamesEnd(w.nextName, kids, indexed, k)
  {
  }

  /** Later children do not touch the first one, nor its name. */
  lemma RestMisses(w: State, kids: Kids, indexed: bool, k: nat, slot: nat, size: nat, w1: State, w2: State)
    requires kids.Kid? && SkipKids(slot, kids) <= w.nextNode && BelowKids(w.nextNode, kids) <= size && At(size) <= w.nextName
    requires w1.nextNode == w.nextNode && w1.nextName == AfterName(w.nextName, NameOf(indexed, k, kids.key))
    requires w2.nextNode == Below(w1.nextNode, kids.value) && w2.nextName == NamesEnd(w1.nextName, kids.value)
    ensures var rest := KidsArea(w2, kids.rest, indexed, Succ(k), Succ(slot));
      && Misses(rest, w.nextName, w1.nextName) && Misses(rest, w1.nextName, w2.nextName)
      && Misses(rest, At(slot), At(Succ(slot))) && Misses(rest, At(w1.nextNode), At(w2.nextNode))
    ensures Misses(NodeArea(w1, kids.value, slot), w.nextName, w1.nextName)
  {
  }

  /** The first child stays laid out while the others are written. */
  lemma FirstKidStays(c: Ctx, w: State, kids: Kids, indexed: bool, k: nat, slot: nat, size: nat, w1: State, w2: State, w3: State)
    requires kids.Kid? && WellFormedKids(kids, indexed) && ReadyKids(c, w, kids, indexed, k, slot, size)
    requires w1 == PutName(w, NameOf(indexed, k, kids.key)) && NameIs(w1.out, w.nextName, NameOf(indexed, k, kids.key))
    requires w1.nextNode == w.nextNode && w1.nextName == AfterName(w.nextName, NameOf(indexed, k, kids.key))
    requires Wrote(c, w1, w2, kids.value, slot, NameRef(c.base, w.nextName, NameOf(indexed, k, kids.key)))
    requires WroteKids(c, w2, w3, kids.rest, indexed, Succ(k), Succ(slot))
    ensures NameIs(w3.out, w.nextName, NameOf(indexed, k, kids.key))
    ensures Laid(c, w3.out, w3.temps, kids.value, slot, NameRef(c.base, w.nextName, NameOf(indexed, k, kids.key)), w.nextNode, w1.nextName)
  {
    var name := NameOf(indexed, k, kids.key);
    var rest := KidsArea(w2, kids.rest, indexed, Succ(k), Succ(slot));
    RestMisses(w, kids, indexed, k, slot, size, w1, w2);
    OnlyAgree(w1.out, w2.out, NodeArea(w1, kids.value, slot), w.nextName, w1.nextName);
    NameStable(w1.out, w2.out, w.nextName, name);
    OnlyAgree(w2.out, w3.out, rest, w.nextName, w1.nextName);
    NameStable(w2.out, w3.out, w.nextName, name);
    OnlyAgree(w2.out, w3.out, rest, At(slot), At(Succ(slot)));
    OnlyAgree(w2.out, w3.out, rest, At(w1.nextNode), At(w2.nextNode));
    OnlyAgree(w2.out, w3.out, rest, w1.nextName, w2.nextName);
    LaidStable(c, w2.out, w3.out, w2.temps, w3.temps, kids.value, slot, NameRef(c.base, w.nextName, name), w.nextNode, w1.nextName);
  }

  lemma KidsJoin(c: Ctx, w: State, kids: Kids, indexed: bool, k: nat, slot: nat, size: nat, w1: State, w2: State, w3: State)
    requires kids.Kid? && WellFormedKids(kids, indexed) && ReadyKids(c, w, kids, indexed, k, slot, size)
    requires w1 == PutName(w, NameOf(indexed, k, kids.key))
    requires Wrote(c, w1, w2, kids.value, slot, NameRef(c.base, w.nextName, NameOf(indexed, k, kids.key)))
    requires WroteKids(c, w2, w3, kids.rest, indexed, Succ(k), Succ(slot))
    ensures WroteKids(c, w, w3, kids, indexed, k, slot)
  {
    var all := KidsArea(w, kids, indexed, k, slot);
    KidReady(c, w, kids, indexed, k, slot, size);
    FirstKidStays(c, w, kids, indexed, k, slot, size, w1, w2, w3);
    KidAreas(w, kids, indexed, k, slot, w1, w2);
    OnlyTwice(w.out, w1.out, w2.out, Area(0, 0, 0, 0, w.nextName, w1.nextName), NodeArea(w1, kids.value, slot), all);
    OnlyTwice(w.out, w2.out, w3.out, all, KidsArea(w2, kids.rest, indexed, Succ(k), Succ(slot)), all);
    PrefixParts(w.counts, Counts(kids.value), CountsIn(kids.rest));
  }

  lemma {:induction false} WriteKidsLays(c: Ctx, w: State, kids: Kids, indexed: bool, k: nat, n: nat, slot: nat, size: nat)
    requires WellFormedKids(kids, indexed) && ReadyKids(c, w, kids, indexed, k, slot, size) && n == k + Count(kids)
    ensures WroteKids(c, w, WriteKids(c, w, kids, indexed, k, n, slot), kids, indexed, k, slot)
    decreases kids, 1
  {
    match kids
    case End =>
    case Kid(key, value, rest) =>
      var name := NameOf(indexed, k, key);
      var w1 := PutName(w, name);
      var w2 := WriteNode(c, w1, value, slot, NameRef(c.base, w.nextName, name));
      KidReady(c, w, kids, indexed, k, slot, size);
      WriteLays(c, w1, value, slot, NameRef(c.base, w.nextName, name), size);
      RestReady(c, w, kids, indexed, k, slot, size, NameRef(c.base, w.nextName, name), w2);
      WriteKidsLays(c, w2, rest, indexed, Succ(k), n, Succ(slot), size);
      KidsJoin(c, w, kids, indexed, k, slot, size, w1, w2, WriteKids(c, w2, rest, indexed, Succ(k), n, Succ(slot)));
  }

  // ---- running out of temp strings -------------------------------------------------------------

  /** A host with room for exactly `n` more temp strings than `used`. */
  function Roomy(c: Ctx, used: nat, n: nat): Ctx { c.(room := used + n) }

  /** The writer may write `j`, except that there may be too few temp strings left for its texts. */
  ghost predicate Fits(c: Ctx, w: State, j: Json, slot: nat, size: nat) {
    w.used <= c.room && Ready(Roomy(c, w.used, Texts(j)), w, j, slot, size)
  }

  ghost predicate FitKids(c: Ctx, w: State, kids: Kids, indexed: bool, k: nat, slot: nat, size: nat) {
    w.used <= c.room && ReadyKids(Roomy(c, w.used, TextsIn(kids)), w, kids, indexed, k, slot, size)
  }

  /** The writer ran out of temp strings; those it made stay. */
  predicate RanOut(w: State, w': State) { w'.failed && Extends(w.temps, w'.temps) }

  /** Writing the node ends as its texts and the temp strings left have it. */
  ghost predicate Ends(c: Ctx, w: State, w': State, j: Json, slot: nat, name: word)
    requires WellFormed(j)
  {
    if w.used + Texts(j) <= c.room then Wrote(c, w, w', j, slot, name) else RanOut(w, w')
  }

  lemma FitsReady(c: Ctx, w: State, j: Json, slot: nat, size: nat)
    requires Fits(c, w, j, slot, size)
    ensures w.used + Texts(j) <= c.room ==> Ready(c, w, j, slot, size)
  {
  }

  lemma OpenedFits(c: Ctx, w: State, j: Json, slot: nat, name: word, size: nat)
    requires WellFormed(j) && IsContainer(j) && Fits(c, w, j, slot, size)
    ensures ChildCount(w) == Count(j.kids) && Opened(c, w, j, slot, name).temps == w.temps && Opened(c, w, j, slot, name).used == w.used
    ensures FitKids(c, Opened(c, w, j, slot, name), j.kids, j.Array?, 0, w.nextNode, size)
  {
    OpenedReady(Roomy(c, w.used, Texts(j)), w, j, slot, name, size);
  }

  lemma KidFits(c: Ctx, w: State, kids: Kids, indexed: bool, k: nat, slot: nat, size: nat)
    requires kids.Kid? && WellFormedKids(kids, indexed) && FitKids(c, w, kids, indexed, k, slot, size)
    ensures var w1 := PutName(w, NameOf(indexed, k, kids.key));
      && Fits(c, w1, kids.value, slot, size) && w1 == w.(out := w1.out, nextName := w1.nextName) && |w1.out| == |w.out|
  {
    KidReady(Roomy(c, w.used, TextsIn(kids)), w, kids, indexed, k, slot, size);
  }

  /** The other children, once the first is written. */
  lemma RestFits(c: Ctx, w: State, kids: Kids, indexed: bool, k: nat, slot: nat, size: nat, name: word, w2: State)
    requires kids.Kid? && WellFormedKids(kids, indexed) && FitKids(c, w, kids, indexed, k, slot, size)
    requires w.used + Texts(kids.value) <= c.room
    requires Wrote(c, PutName(w, NameOf(indexed, k, kids.key)), w2, kids.value, slot, name)
    ensures FitKids(c, w2, kids.rest, indexed, Succ(k), Succ(slot), size)
    ensures w2.used == w.used + Texts(kids.value) && Extends(w.temps, w2.temps) && !w2.failed
  {
    KidReady(Roomy(c, w.used, TextsIn(kids)), w, kids, indexed, k, slot, size);
    PrefixParts(w.counts, Counts(kids.value), CountsIn(kids.rest));
  }

  /** Writing runs out exactly when there are more texts than temp strings left. */
  lemma {:induction false} WriteEnds(c: Ctx, w: State, j: Json, slot: nat, name: word, size: nat)
    requires WellFormed(j) && Fits(c, w, j, slot, size)
    ensures Ends(c, w, WriteNode(c, w, j, slot, name), j, slot, name)
    decreases j, 0
  {
    FitsReady(c, w, j, slot, size);
    if w.used + Texts(j) <= c.room {
      WriteLays(c, w, j, slot, name, size);
    } else if IsContainer(j) {
      OpenedFits(c, w, j, slot, name, size);
      WriteKidsRunOut(c, Opened(c, w, j, slot, name), j.kids, j.Array?, 0, Count(j.kids), w.nextNode, size);
    }
  }

  lemma {:induction false} WriteKidsRunOut(c: Ctx, w: State, kids: Kids, indexed: bool, k: nat, n: nat, slot: nat, size: nat)
    requires WellFormedKids(kids, indexed) && FitKids(c, w, kids, indexed, k, slot, size) && n == k + Count(kids)
    requires w.used + TextsIn(kids) > c.room
    ensures RanOut(w, WriteKids(c, w, kids, indexed, k, n, slot))
    decreases kids, 1
  {
    match kids
    case End =>
    case Kid(key, value, rest) =>
      var name := NameOf(indexed, k, key);
      var w1, ref := PutName(w, name), NameRef(c.base, w.nextName, name);
      var w2 := WriteNode(c, w1, value, slot, ref);
      KidFits(c, w, kids, indexed, k, slot, size);
      WriteEnds(c, w1, value, slot, ref, size);
      if w.used + Texts(value) <= c.room {
        RestFits(c, w, kids, indexed, k, slot, size, ref, w2);
        WriteKidsRunOut(c, w2, rest, indexed, Succ(k), n, Succ(slot), size);
      }
  }
}
