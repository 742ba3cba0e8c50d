/** The tree `json_parse` builds: measured in one pass, written in another (`src/stdlib/json.rs`). */
module Json {
  import opened Bytes

  // ---- documents -------------------------------------------------------------------------------

  /** A parsed document. Texts and keys are UTF-8; a number is the 8 bytes of its double. The
      elements of an indexed have empty keys. */
  datatype Json =
    | Null | False | True | Number(bits: seq<byte>) | Text(text: seq<byte>)
    | Array(kids: Kids) | Object(kids: Kids)

  datatype Kids = End | Kid(key: seq<byte>, value: Json, rest: Kids)

  predicate IsContainer(j: Json) { j.Array? || j.Object? }

  /** UTF-8 has no byte `C0`. */
  predicate IsUtf8(s: seq<byte>) { 0xC0 !in s }

  predicate WellFormed(j: Json) {
    match j
    case Number(bits) => |bits| == 8
    case Text(text) => IsUtf8(text)
    case Array(kids) => WellFormedKids(kids, true)
    case Object(kids) => WellFormedKids(kids, false)
    case _ => true
  }

  predicate WellFormedKids(kids: Kids, indexed: bool) {
    match kids
    case End => true
    case Kid(key, value, rest) =>
      (if indexed then key == [] else IsUtf8(key)) && WellFormed(value) && WellFormedKids(rest, indexed)
  }

  // ---- names -----------------------------------------------------------------------------------

  /** Text as stored in VM memory: a NUL becomes the overlong `C0 80`. */
  function QcText(s: seq<byte>): (r: seq<byte>)
    ensures 0 !in r
  {
    if s == [] then [] else (if s[0] == 0 then [0xC0, 0x80] else [s[0]]) + QcText(s[1..])
  }

  /** Reads stored text back. */
  function PlainText(s: seq<byte>): seq<byte> {
    if s == [] then []
    else if |s| >= 2 && s[0] == 0xC0 && s[1] == 0x80 then [0] + PlainText(s[2..])
    else [s[0]] + PlainText(s[1..])
  }

  lemma {:induction false} QcTextInverse(s: seq<byte>)
    requires IsUtf8(s)
    ensures PlainText(QcText(s)) == s
  {
    if s != [] {
      QcTextInverse(s[1..]);
      if s[0] == 0 {
        assert QcText(s)[2..] == QcText(s[1..]);
      } else {
        assert QcText(s)[1..] == QcText(s[1..]);
      }
      assert s == [s[0]] + s[1..];
    }
  }

  /** The NULs of a text. */
  function Nuls(s: seq<byte>): nat { if s == [] then 0 else (if s[0] == 0 then 1 else 0) + Nuls(s[1..]) }

  /** The length of stored text, without building it. */
  function QcLen(s: seq<byte>): nat { |s| + Nuls(s) }

  lemma {:induction false} QcLenIsLength(s: seq<byte>)
    ensures QcLen(s) == |QcText(s)|
  {
    if s != [] { QcLenIsLength(s[1..]); }
  }

  /** Decimal digits. */
  function Digits(k: nat): (r: seq<byte>)
    ensures r != [] && forall i :: 0 <= i < |r| ==> 48 <= r[i] <= 57
  {
    if k < 10 then [48 + k] else Digits(k / 10) + [48 + k % 10]
  }

  /** The value of a string of digits. */
  function Value(s: seq<byte>): int { if s == [] then 0 else 10 * Value(s[..|s| - 1]) + (s[|s| - 1] as int - 48) }

  /** An element's name reads back as its index. */
  lemma {:induction false} DigitsInverse(k: nat)
    ensures Value(Digits(k)) == k
  {
    if k < 10 {
      assert Digits(k)[..0] == [];
    } else {
      DigitsInverse(k / 10);
      assert Digits(k)[..|Digits(k)| - 1] == Digits(k / 10);
    }
  }

  /** 10 to the power `n`. */
  function Pow10(n: nat): nat { if n == 0 then 1 else 10 * Pow10(n - 1) }

  /** The exponent of the highest power of ten not above `k`. */
  function Log10(k: nat): (n: nat)
    requires k > 0
    ensures Pow10(n) <= k < Pow10(n + 1)
  {
    if k < 10 then 0 else Log10(k / 10) + 1
  }

  /** How many digits an index has, without building them: 0 has no logarithm, and one digit. */
  function IndexDigits(k: nat): nat { if k == 0 then 1 else Log10(k) + 1 }

  lemma {:induction false} IndexDigitsIsLength(k: nat)
    ensures IndexDigits(k) == |Digits(k)|
  {
    if k >= 10 { IndexDigitsIsLength(k / 10); }
  }

  /** The stored name of the `k`th child. */
  function NameOf(indexed: bool, k: nat, key: seq<byte>): (r: seq<byte>)
    ensures 0 !in r
  {
    if indexed then Digits(k) else QcText(key)
  }

  /** Bytes a name takes (an empty name is null and takes none). */
  function NameBytes(len: nat): nat { if len == 0 then 0 else len + 1 }

  // ---- sizes -----------------------------------------------------------------------------------

  const NODE: nat := 16

  function Count(kids: Kids): nat { match kids case End => 0 case Kid(_, _, rest) => 1 + Count(rest) }

  function Nodes(j: Json): (n: nat)
    ensures n >= 1
  {
    if IsContainer(j) then 1 + NodesIn(j.kids) else 1
  }

  function NodesIn(kids: Kids): (n: nat)
    ensures n >= Count(kids)
  {
    match kids case End => 0 case Kid(_, value, rest) => Nodes(value) + NodesIn(rest)
  }

  /** Nodes below the children themselves. */
  function Deeper(kids: Kids): nat { NodesIn(kids) - Count(kids) }

  /** Bytes of the names below a node. */
  function Names(j: Json): nat { if IsContainer(j) then NamesIn(j.kids, j.Array?, 0) else 0 }

  function NamesIn(kids: Kids, indexed: bool, k: nat): nat {
    match kids
    case End => 0
    case Kid(key, value, rest) => NameBytes(|NameOf(indexed, k, key)|) + Names(value) + NamesIn(rest, indexed, k + 1)
  }

  /** Child counts of all containers, in pre-order. */
  function Counts(j: Json): seq<nat> { if IsContainer(j) then [Count(j.kids)] + CountsIn(j.kids) else [] }

  function CountsIn(kids: Kids): seq<nat> {
    match kids case End => [] case Kid(_, value, rest) => Counts(value) + CountsIn(rest)
  }

  /** Texts in a document, each a temp string. */
  function Texts(j: Json): nat { if j.Text? then 1 else if IsContainer(j) then TextsIn(j.kids) else 0 }

  function TextsIn(kids: Kids): nat {
    match kids case End => 0 case Kid(_, value, rest) => Texts(value) + TextsIn(rest)
  }

  /** Bytes of a tree whose root is named by `name` bytes. */
  function TreeBytes(nodes: nat, names: nat): nat { NODE * nodes + names }

  // ---- measuring -------------------------------------------------------------------------------

  /** The measured length of a name is its length. */
  lemma NameLength(indexed: bool, k: nat, key: seq<byte>)
    ensures (if indexed then IndexDigits(k) else QcLen(key)) == |NameOf(indexed, k, key)|
  {
    QcLenIsLength(key);
    IndexDigitsIsLength(k);
  }

  lemma FirstKid(key: seq<byte>, value: Json, rest: Kids, indexed: bool, k: nat)
    ensures var kids := Kid(key, value, rest);
      && NodesIn(kids) == Nodes(value) + NodesIn(rest) && CountsIn(kids) == Counts(value) + CountsIn(rest)
      && NamesIn(kids, indexed, k) == NameBytes(|NameOf(indexed, k, key)|) + Names(value) + NamesIn(rest, indexed, k + 1)
  {
  }

  /** The first pass: counts nodes and name bytes, and stops once they exceed the limit. */
  class Measure {
    var nodes: nat
    var names: nat
    var counts: seq<nat>
    const limit: nat

    constructor (limit: nat)
      ensures nodes == 0 && names == 0 && counts == [] && this.limit == limit
    {
      nodes, names, counts := 0, 0, [];
      this.limit := limit;
    }

    /** Measures a node with a name of `name` bytes. It fails exactly when the tree so far, with all of
        this node's, exceeds the limit. */
    method Node(j: Json, name: nat) returns (ok: bool)
      requires TreeBytes(nodes, names) <= limit
      modifies this
      ensures ok <==> TreeBytes(old(nodes) + Nodes(j), old(names) + NameBytes(name) + Names(j)) <= limit
      ensures ok ==>
                && nodes == old(nodes) + Nodes(j) && names == old(names) + NameBytes(name) + Names(j)
                && counts == old(counts) + Counts(j)
      decreases j, 0
    {
      nodes := nodes + 1;
      names := names + NameBytes(name);
      if TreeBytes(nodes, names) > limit { return false; }
      if !IsContainer(j) { return true; }
      var slot := |counts|;
      counts := counts + [0];
      var n;
      ok, n := Children(j.kids, j.Array?, 0);
      if ok {
        counts := counts[slot := n];
        assert counts == old(counts) + Counts(j);
      }
    }

    /** Measures the children from number `k` on, and counts all of them. */
    method Children(kids: Kids, indexed: bool, k: nat) returns (ok: bool, n: nat)
      requires TreeBytes(nodes, names) <= limit
      modifies this
      ensures ok <==> TreeBytes(old(nodes) + NodesIn(kids), old(names) + NamesIn(kids, indexed, k)) <= limit
      ensures ok ==>
                && nodes == old(nodes) + NodesIn(kids) && names == old(names) + NamesIn(kids, indexed, k)
                && counts == old(counts) + CountsIn(kids) && n == k + Count(kids)
      decreases kids, 1
    {
      match kids
      case End => return true, k;
      case Kid(key, value, rest) =>
        NameLength(indexed, k, key);
        FirstKid(key, value, rest, indexed, k);
        ok := Node(value, if indexed then IndexDigits(k) else QcLen(key));
        if !ok { return false, k; }
        ok, n := Children(rest, indexed, k + 1);
    }
  }
}
