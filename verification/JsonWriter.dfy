/** The writing pass of `json_parse`, and both passes together (`src/stdlib/json.rs`). */
module JsonWriter {
  import opened Bytes
  import opened Json
  import opened JsonTree
  import opened JsonRead

  /** Fills the block in place. */
  class Writer {
    const c: Ctx
    const out: array<byte>
    var nextNode: nat
    var nextName: nat
    var counts: seq<nat>
    var temps: map<word, seq<byte>>
    var used: nat
    var failed: bool

    ghost function Abs(): State
      reads this, out
    {
      State(out[..], nextNode, nextName, counts, temps, used, failed)
    }

    constructor (c: Ctx, nodes: nat, names: nat, counts: seq<nat>, temps: map<word, seq<byte>>, used: nat)
      ensures fresh(out) && this.c == c
      ensures Abs() == State(Zeros(TreeBytes(nodes, names)), 1, At(nodes), counts, temps, used, false)
    {
      this.c := c;
      out := new byte[TreeBytes(nodes, names)](i => 0);
      nextNode, nextName := 1, At(nodes);
      this.counts, this.temps, this.used, failed := counts, temps, used, false;
      new;
      assert out[..] == Zeros(TreeBytes(nodes, names));
    }

    /** Copies bytes into the block, if they fit. */
    method PutBytes(at: nat, b: seq<byte>)
      modifies out
      ensures Abs() == old(Abs()).(out := Put(old(out[..]), at, b))
    {
      if at + |b| > out.Length { return; }
      for i := 0 to |b|
        invariant forall k :: 0 <= k < out.Length ==> out[k] == if at <= k < at + i then b[k - at] else old(out[k])
      {
        out[at + i] := b[i];
      }
      assert out[..] == Put(old(out[..]), at, b);
    }

    /** Stores a name; returns its address. */
    method Name(name: seq<byte>) returns (r: word)
      modifies this, out
      ensures Abs() == PutName(old(Abs()), name) && r == NameRef(c.base, old(nextName), name)
    {
      if name == [] { return 0; }
      PutBytes(nextName, name);
      r := Addr(c.base, nextName);
      nextName := nextName + |name| + 1;
    }

    /** Writes a node field by field. */
    method Fields(slot: nat, ty: word, name: word, value: seq<byte>)
      requires |value| == 8
      modifies out
      ensures At(slot) + NODE <= out.Length ==> Abs() == PutNode(old(Abs()), slot, ty, name, value)
    {
      PutBytes(At(slot), BytesOf(ty));
      PutBytes(At(slot) + 4, BytesOf(name));
      PutBytes(At(slot) + 8, value);
      assert At(slot) + NODE <= out.Length ==> out[..] == Put(old(out[..]), At(slot), Block(ty, name, value));
    }

    /** Writes a node and everything below it, or stops where the temp strings run out. */
    method Node(j: Json, slot: nat, name: word, ghost size: nat)
      requires WellFormed(j) && Fits(c, Abs(), j, slot, size)
      modifies this, out
      ensures Abs() == WriteNode(c, old(Abs()), j, slot, name) && Ends(c, old(Abs()), Abs(), j, slot, name)
      decreases j, 1
    {
      WriteEnds(c, Abs(), j, slot, name, size);
      AtOrder(Succ(slot), size);
      if IsContainer(j) {
        Container(j, slot, name, size);
      } else if j.Text? {
        if used >= c.room {
          failed := true;
          return;
        }
        var r := c.ref(used);
        temps := temps[r := QcText(j.text)];
        used := used + 1;
        Fields(slot, 0, name, BytesOf(r) + BytesOf(0));
      } else {
        Fields(slot, TypeOf(j), name, Plain(j));
      }
    }

    /** Reserves the child slots of a container and writes its node. */
    method Open(j: Json, slot: nat, name: word) returns (first: nat, n: nat)
      requires IsContainer(j) && At(slot) + NODE <= out.Length
      modifies this, out
      ensures first == old(nextNode) && n == ChildCount(old(Abs())) && Abs() == Opened(c, old(Abs()), j, slot, name)
    {
      first, n := nextNode, if counts == [] then 0 else counts[0];
      nextNode := first + n;
      counts := if counts == [] then [] else counts[1..];
      Fields(slot, TypeOf(j), name, BytesOf(Addr(c.base, At(first))) + BytesOf(AsWord(n)));
    }

    method Container(j: Json, slot: nat, name: word, ghost size: nat)
      requires WellFormed(j) && IsContainer(j) && Fits(c, Abs(), j, slot, size)
      modifies this, out
      ensures Abs() == WriteNode(c, old(Abs()), j, slot, name)
      decreases j, 0
    {
      AtOrder(Succ(slot), size);
      OpenedFits(c, Abs(), j, slot, name, size);
      var first, n := Open(j, slot, name);
      Kids(j.kids, j.Array?, n, first, size);
    }

    /** Writes child number `k`: its name, then its node. */
    method FirstKid(kids: Kids, indexed: bool, k: nat, slot: nat, ghost size: nat)
      requires kids.Kid? && WellFormedKids(kids, indexed) && FitKids(c, Abs(), kids, indexed, k, slot, size)
      modifies this, out
      ensures !failed ==> FitKids(c, Abs(), kids.rest, indexed, Succ(k), Succ(slot), size)
      ensures var name := NameOf(indexed, k, kids.key);
        Abs() == WriteNode(c, PutName(old(Abs()), name), kids.value, slot, NameRef(c.base, old(nextName), name))
      decreases kids, 0
    {
      ghost var w := Abs();
      KidFits(c, w, kids, indexed, k, slot, size);
      var addr := Name(NameOf(indexed, k, kids.key));
      Node(kids.value, slot, addr, size);
      if !failed { RestFits(c, w, kids, indexed, k, slot, size, addr, Abs()); }
    }

    /** Writes the children, in order, into consecutive slots from `first` on. */
    method Kids(kids: Kids, indexed: bool, n: nat, first: nat, ghost size: nat)
      requires WellFormedKids(kids, indexed) && FitKids(c, Abs(), kids, indexed, 0, first, size) && n == Count(kids)
      modifies this, out
      ensures Abs() == WriteKids(c, old(Abs()), kids, indexed, 0, n, first)
      decreases kids, 1
    {
      ghost var goal := WriteKids(c, Abs(), kids, indexed, 0, n, first);
      var rest, k, slot := kids, 0, first;
      while k < n && !failed
        invariant n == k + Count(rest) && (rest == kids || rest < kids)
        invariant WellFormedKids(rest, indexed) && (!failed ==> FitKids(c, Abs(), rest, indexed, k, slot, size))
        invariant WriteKids(c, Abs(), rest, indexed, k, n, slot) == goal
        decreases n - k
      {
        KidsUnfold(c, Abs(), rest, indexed, k, n, slot);
        FirstKid(rest, indexed, k, slot, size);
        rest, k, slot := rest.rest, Succ(k), Succ(slot);
      }
    }
  }

  /** Writing children is writing the first one, then the others. */
  lemma KidsUnfold(c: Ctx, w: State, kids: Kids, indexed: bool, k: nat, n: nat, slot: nat)
    requires kids.Kid? && WellFormedKids(kids, indexed) && !w.failed && k < n
    ensures var name := NameOf(indexed, k, kids.key);
      WriteKids(c, w, kids, indexed, k, n, slot)
      == WriteKids(c, WriteNode(c, PutName(w, name), kids.value, slot, NameRef(c.base, w.nextName, name)), kids.rest, indexed,
                   Succ(k), n, Succ(slot))
  {
  }

  /** The second pass over a measured document: its tree, unless the temp strings run out. */
  method WriteTree(j: Json, c: Ctx, counts: seq<nat>, temps: map<word, seq<byte>>, used: nat)
    returns (r: Option<seq<byte>>, temps': map<word, seq<byte>>)
    requires WellFormed(j) && counts == Counts(j) && used <= c.room && FreshRefs(c, temps, used)
    ensures Extends(temps, temps') && (r.Some? <==> used + Texts(j) <= c.room)
    ensures r.Some? ==> |r.value| == TreeBytes(Nodes(j), Names(j)) && Laid(c, r.value, temps', j, 0, 0, 1, At(Nodes(j)))
  {
    var w := new Writer(c, Nodes(j), Names(j), counts, temps, used);
    w.Node(j, 0, 0, Nodes(j));
    if w.failed { return None, w.temps; }
    return Some(w.out[..]), w.temps;
  }

  /** What the builtin ends with: the tree in its block, no block for it, or a block given back because
      the temp strings ran out. */
  datatype Built = Tree(bytes: seq<byte>) | TooLarge | NoBlock | GivenBack

  /** Both passes: measures the document, takes a block of exactly the measured size (at `block`, if the
      heap has one), and builds the tree in it. It is refused exactly when the tree exceeds the limit,
      there is no block, or the texts are more than the temp strings left. */
  method Build(j: Json, limit: nat, block: Option<nat>, ref: nat -> word, room: nat, temps: map<word, seq<byte>>, used: nat)
    returns (r: Built, temps': map<word, seq<byte>>)
    requires WellFormed(j) && (block.Some? ==> block.value + limit < U32)
    requires used <= room && FreshRefs(Ctx(0, ref, room), temps, used)
    ensures Extends(temps, temps')
    ensures r.TooLarge? <==> TreeBytes(Nodes(j), Names(j)) > limit
    ensures r.NoBlock? <==> TreeBytes(Nodes(j), Names(j)) <= limit && block.None?
    ensures r.GivenBack? <==> TreeBytes(Nodes(j), Names(j)) <= limit && block.Some? && used + Texts(j) > room
    ensures r.Tree? ==>
              && |r.bytes| == TreeBytes(Nodes(j), Names(j))
              && Laid(Ctx(block.value, ref, room), r.bytes, temps', j, 0, 0, 1, At(Nodes(j)))
              && ReadNode(block.value, r.bytes, temps', 0) == Some(j)
  {
    temps' := temps;
    var m := new Measure(limit);
    var ok := m.Node(j, 0);
    if !ok { return TooLarge, temps; }
    if block.None? { return NoBlock, temps; }
    var c := Ctx(block.value, ref, room);
    var out;
    out, temps' := WriteTree(j, c, m.counts, temps, used);
    if out.None? { return GivenBack, temps'; }
    ReadsBack(c, out.value, temps', j, 0, 0, 1, At(Nodes(j)));
    return Tree(out.value), temps';
  }
}
