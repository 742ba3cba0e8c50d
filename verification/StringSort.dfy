/** The order `buf_sort` puts strings in (`src/stdlib/strbuf.rs`): by their first bytes, either way round,
    keeping the order of those that compare equal. */
module StringSort {
  import opened Bytes

  /** Byte by byte, a shorter string before its extensions. */
  predicate LexLe(a: seq<byte>, b: seq<byte>) {
    if a == [] then true
    else if b == [] then false
    else if a[0] != b[0] then a[0] < b[0]
    else LexLe(a[1..], b[1..])
  }

  lemma {:induction false} LexTotal(a: seq<byte>, b: seq<byte>)
    ensures LexLe(a, b) || LexLe(b, a)
    ensures LexLe(a, b) && LexLe(b, a) <==> a == b
  {
    if a != [] && b != [] {
      LexTotal(a[1..], b[1..]);
      if a[0] == b[0] {
        assert a == [a[0]] + a[1..] && b == [b[0]] + b[1..];
      }
    }
  }

  lemma {:induction false} LexTransitive(a: seq<byte>, b: seq<byte>, c: seq<byte>)
    requires LexLe(a, b) && LexLe(b, c)
    ensures LexLe(a, c)
  {
    if a != [] && a[0] == b[0] && b[0] == c[0] { LexTransitive(a[1..], b[1..], c[1..]); }
  }

  /** The bytes that are compared: the first `prefix` ones, or all. */
  function Key(s: seq<byte>, prefix: Option<nat>): seq<byte> {
    if prefix.Some? && prefix.value < |s| then s[..prefix.value] else s
  }

  datatype Order = Order(prefix: Option<nat>, backward: bool)

  /** `a` does not come after `b`. */
  predicate NotAfter(o: Order, a: seq<byte>, b: seq<byte>) {
    if o.backward then LexLe(Key(b, o.prefix), Key(a, o.prefix)) else LexLe(Key(a, o.prefix), Key(b, o.prefix))
  }

  lemma OrderTotal(o: Order, a: seq<byte>, b: seq<byte>)
    ensures NotAfter(o, a, b) || NotAfter(o, b, a)
    ensures NotAfter(o, a, b) && NotAfter(o, b, a) <==> Key(a, o.prefix) == Key(b, o.prefix)
  {
    LexTotal(Key(a, o.prefix), Key(b, o.prefix));
  }

  lemma OrderTransitive(o: Order, a: seq<byte>, b: seq<byte>, c: seq<byte>)
    requires NotAfter(o, a, b) && NotAfter(o, b, c)
    ensures NotAfter(o, a, c)
  {
    if o.backward {
      LexTransitive(Key(c, o.prefix), Key(b, o.prefix), Key(a, o.prefix));
    } else {
      LexTransitive(Key(a, o.prefix), Key(b, o.prefix), Key(c, o.prefix));
    }
  }

  type Strings = seq<seq<byte>>

  /** `q` with `x` put after all that do not come after it. */
  function Insert(o: Order, q: Strings, x: seq<byte>): Strings {
    if q == [] || NotAfter(o, q[|q| - 1], x) then q + [x]
    else Insert(o, q[..|q| - 1], x) + [q[|q| - 1]]
  }

  /** The stable sort. */
  function Sorted(o: Order, q: Strings): Strings {
    if q == [] then [] else Insert(o, Sorted(o, q[..|q| - 1]), q[|q| - 1])
  }

  predicate Ordered(o: Order, q: Strings) {
    forall i, j :: 0 <= i < j < |q| ==> NotAfter(o, q[i], q[j])
  }

  /** No string of `q` comes after `b`. */
  predicate UpTo(o: Order, q: Strings, b: seq<byte>) {
    forall i :: 0 <= i < |q| ==> NotAfter(o, q[i], b)
  }

  /** The strings of `q` that compare like `k`, in order. */
  function Like(o: Order, q: Strings, k: seq<byte>): Strings {
    if q == [] then []
    else if Key(q[|q| - 1], o.prefix) == Key(k, o.prefix) then Like(o, q[..|q| - 1], k) + [q[|q| - 1]]
    else Like(o, q[..|q| - 1], k)
  }

  lemma LikeSnoc(o: Order, p: Strings, l: seq<byte>, k: seq<byte>)
    ensures Like(o, p + [l], k) == if Key(l, o.prefix) == Key(k, o.prefix) then Like(o, p, k) + [l] else Like(o, p, k)
  {
    assert (p + [l])[..|p|] == p;
  }

  /** Inserting keeps what no string comes after. */
  lemma {:induction false} InsertUpTo(o: Order, q: Strings, x: seq<byte>, b: seq<byte>)
    requires UpTo(o, q, b) && NotAfter(o, x, b)
    ensures UpTo(o, Insert(o, q, x), b)
  {
    if q != [] && !NotAfter(o, q[|q| - 1], x) { InsertUpTo(o, q[..|q| - 1], x, b); }
  }

  lemma {:induction false} InsertOrders(o: Order, q: Strings, x: seq<byte>)
    requires Ordered(o, q)
    ensures Ordered(o, Insert(o, q, x))
  {
    if q != [] {
      var p, l := q[..|q| - 1], q[|q| - 1];
      if NotAfter(o, l, x) {
        forall i | 0 <= i < |q|
          ensures NotAfter(o, q[i], x)
        {
          if i < |q| - 1 { OrderTransitive(o, q[i], l, x); }
        }
      } else {
        OrderTotal(o, l, x);
        InsertOrders(o, p, x);
        InsertUpTo(o, p, x, l);
      }
    }
  }

  lemma {:induction false} InsertKeeps(o: Order, q: Strings, x: seq<byte>)
    ensures multiset(Insert(o, q, x)) == multiset(q) + multiset{x}
  {
    if q != [] && !NotAfter(o, q[|q| - 1], x) {
      InsertKeeps(o, q[..|q| - 1], x);
      assert q == q[..|q| - 1] + [q[|q| - 1]];
    }
  }

  lemma {:induction false} InsertIsStable(o: Order, q: Strings, x: seq<byte>, k: seq<byte>)
    ensures Like(o, Insert(o, q, x), k) == if Key(x, o.prefix) == Key(k, o.prefix) then Like(o, q, k) + [x] else Like(o, q, k)
  {
    if q != [] && !NotAfter(o, q[|q| - 1], x) {
      var p, l := q[..|q| - 1], q[|q| - 1];
      InsertIsStable(o, p, x, k);
      LikeSnoc(o, Insert(o, p, x), l, k);
      OrderTotal(o, l, x);
    } else {
      LikeSnoc(o, q, x, k);
    }
  }

  /** Sorting keeps the strings, orders them, and keeps the order of those that compare equal. */
  lemma {:induction false} SortedMeans(o: Order, q: Strings, k: seq<byte>)
    ensures multiset(Sorted(o, q)) == multiset(q) && Ordered(o, Sorted(o, q))
    ensures Like(o, Sorted(o, q), k) == Like(o, q, k)
  {
    if q != [] {
      var p, x := q[..|q| - 1], q[|q| - 1];
      SortedMeans(o, p, k);
      InsertOrders(o, Sorted(o, p), x);
      InsertKeeps(o, Sorted(o, p), x);
      InsertIsStable(o, Sorted(o, p), x, k);
      assert q == p + [x];
    }
  }

  /** Bytes of all strings. */
  function Length(q: Strings): nat { if q == [] then 0 else Length(q[..|q| - 1]) + |q[|q| - 1]| }

  lemma {:induction false} InsertLength(o: Order, q: Strings, x: seq<byte>)
    ensures Length(Insert(o, q, x)) == Length(q) + |x| && |Insert(o, q, x)| == |q| + 1
  {
    if q != [] && !NotAfter(o, q[|q| - 1], x) {
      InsertLength(o, q[..|q| - 1], x);
      assert (Insert(o, q[..|q| - 1], x) + [q[|q| - 1]])[..|q|] == Insert(o, q[..|q| - 1], x);
    } else {
      assert (q + [x])[..|q|] == q;
    }
  }

  lemma {:induction false} SortedLength(o: Order, q: Strings)
    ensures Length(Sorted(o, q)) == Length(q) && |Sorted(o, q)| == |q|
  {
    if q != [] {
      SortedLength(o, q[..|q| - 1]);
      InsertLength(o, Sorted(o, q[..|q| - 1]), q[|q| - 1]);
    }
  }
}
