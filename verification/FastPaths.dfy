/** The interpreter's unchecked fast paths agree with the checked slow paths behind them, through
    either view of region S (`src/vm/interp.rs`). */
module FastPaths {
  import opened Bytes
  import opened Program
  import opened Memory
  import opened Views
  import opened Machine
  import opened Effects

  // ---- entity fields ---------------------------------------------------------------------------

  /** A field load's slice bounds accept exactly the valid fields of allocated entities, and yield
      their bytes: the bound on region E also checks the entity number. */
  lemma EntFieldExact(m: Mem, e: nat, f: nat, words: nat)
    requires m.Valid() && words > 0
    ensures EntField(m, e, f, 4 * words).Some? <==> FieldOffset(m, e, f, words).Some?
    ensures FieldOffset(m, e, f, words).Some? ==>
              var o := FieldOffset(m, e, f, words).value;
              o + 4 * words <= |m.e| && EntField(m, e, f, 4 * words).value == m.e[o..o + 4 * words]
  {
    if e < |m.slots| {
      BlockBounds(m, e);
    } else {
      TimesMonotone(m.stride, |m.slots|, e);
    }
  }

  /** Entity words written one at a time are the gathered words written at once. */
  lemma {:induction false} PutEntWordsIsSplice(m: Mem, o: nat, oc: nat, words: nat)
    requires o + 4 * words <= |m.e|
    ensures PutEntWords(m, o, oc, words) == m.(e := Splice(m.e, o, Gather(Whole, m.s, oc, words)))
  {
    if words == 0 {
      assert Splice(m.e, o, []) == m.e;
    } else {
      PutEntWordsIsSplice(m, o, oc, words - 1);
      var b := Gather(Whole, m.s, oc, words - 1);
      var w := BytesOf(G(Whole, m.s, oc + 4 * (words - 1)));
      assert Splice(Splice(m.e, o, b), o + |b|, w) == Splice(m.e, o, b + w);
    }
  }

  lemma StoreFieldFast(v: View, m: Mem, words: nat, oa: nat, ob: nat, oc: nat)
    requires m.Valid() && HasView(v, m.s) && words > 0
    requires G(v, m.s, oa) == G(Whole, m.s, oa) && G(v, m.s, ob) == G(Whole, m.s, ob)
    requires StoreFieldView(v, m, words, oa, ob, oc).Some?
    ensures var e, f := G(Whole, m.s, oa), G(Whole, m.s, ob);
      && FieldOffset(m, e, f, words).Some? && !m.slots[e].prot
      && FieldOffset(m, e, f, words).value + 4 * words <= |m.e|
      && StoreFieldView(v, m, words, oa, ob, oc).value
           == m.(e := Splice(m.e, FieldOffset(m, e, f, words).value, Gather(v, m.s, oc, words)))
  {
    BlockBounds(m, G(Whole, m.s, oa));
  }

  lemma StoreFieldRefused(v: View, m: Mem, words: nat, oa: nat, ob: nat, oc: nat)
    requires m.Valid() && HasView(v, m.s) && words > 0
    requires G(v, m.s, oa) == G(Whole, m.s, oa) && G(v, m.s, ob) == G(Whole, m.s, ob)
    requires StoreFieldView(v, m, words, oa, ob, oc).None?
    ensures StoreFieldSlow(m, words, oa, ob, oc) == m
  {
    var e := G(Whole, m.s, oa);
    if e < |m.slots| { BlockBounds(m, e); }
  }

  /** `STOREF_*`: with the operands' words agreed, whichever path runs, the result is the slow
      path's. */
  lemma StoreFieldAgrees(v: View, m: Mem, words: nat, oa: nat, ob: nat, oc: nat)
    requires m.Valid() && HasView(v, m.s) && words > 0
    requires G(v, m.s, oa) == G(Whole, m.s, oa) && G(v, m.s, ob) == G(Whole, m.s, ob)
    requires Gather(v, m.s, oc, words) == Gather(Whole, m.s, oc, words)
    ensures StoreFieldView(v, m, words, oa, ob, oc).Some? ==>
              StoreFieldView(v, m, words, oa, ob, oc).value == StoreFieldSlow(m, words, oa, ob, oc)
    ensures StoreFieldView(v, m, words, oa, ob, oc).None? ==> StoreFieldSlow(m, words, oa, ob, oc) == m
  {
    if StoreFieldView(v, m, words, oa, ob, oc).Some? {
      StoreFieldFast(v, m, words, oa, ob, oc);
      PutEntWordsIsSplice(m, FieldOffset(m, G(Whole, m.s, oa), G(Whole, m.s, ob), words).value, oc, words);
    } else {
      StoreFieldRefused(v, m, words, oa, ob, oc);
    }
  }

  // ---- pointers --------------------------------------------------------------------------------

  /** The entity target of a pointer outside region S is where `Locate` finds it. */
  lemma EntTargetIsLocate(m: Mem, p: word, n: nat)
    requires m.Valid() && n > 0
    ensures p + n <= |m.s| ==> EntTarget(m, p, n).None?
    ensures EntTarget(m, p, n).Some? ==>
              && Locate(m, p, n) == Some(InE(p - m.eBase, EntityAt(m, p)))
              && EntTarget(m, p, n).value == (p - m.eBase, m.slots[EntityAt(m, p)].prot)
              && p - m.eBase + n <= |m.e|
    ensures Locate(m, p, n).Some? && Locate(m, p, n).value.InE? ==> EntTarget(m, p, n).Some?
  {
    if EntTarget(m, p, n).Some? { EntAccess(m, p, n); }
  }

  /** When the pointer read fast path succeeds, it reads what the slow path would. */
  lemma PtrReadAgrees(v: View, m: Mem, p: word, n: nat)
    requires m.Valid() && HasView(v, m.s) && n > 0
    ensures PtrReadView(v, m, p, n).Some? ==> PtrReadView(v, m, p, n) == Read(m, p, n)
  {
    EntTargetIsLocate(m, p, n);
  }

  /** When the pointer write fast path succeeds, it writes what the slow path would. */
  lemma PtrWriteAgrees(v: View, m: Mem, p: word, b: seq<byte>)
    requires m.Valid() && HasView(v, m.s) && |b| > 0
    ensures PtrWriteView(v, m, p, b).Some? ==>
              CheckWrite(m, p, |b|).Writable? && PtrWriteView(v, m, p, b).value == Put(m, p, b)
  {
    EntTargetIsLocate(m, p, |b|);
  }

  lemma PtrWriteWritable(env: Env, m: Machine, base: word, offset: word, b: seq<byte>)
    requires m.mem.Valid() && CheckWrite(m.mem, Wrap(base + offset), |b|).Writable?
    ensures PtrWrite(env, m, base, offset, b) == Wrote(Put(m.mem, Wrap(base + offset), b), m.str)
  {
  }

  /** A pointer store whose fast path succeeds is the slow store. */
  lemma StorePtrFast(env: Env, v: View, m: Machine, base: word, idx: word, b: seq<byte>)
    requires m.mem.Valid() && HasView(v, m.mem.s) && |b| > 0
    requires PtrWriteView(v, m.mem, Indexed(base, idx), b).Some?
    ensures StorePtrSlow(env, m, base, idx, b) == Done(m.(mem := PtrWriteView(v, m.mem, Indexed(base, idx), b).value))
  {
    IndexedSum(base, idx);
    PtrWriteAgrees(v, m.mem, Indexed(base, idx), b);
    PtrWriteWritable(env, m, base, Scaled(idx), b);
  }

  /** `STOREP_*`: whichever path runs, the result is the slow path's. */
  lemma StorePtrAgrees(env: Env, v: View, m: Machine, words: nat, oa: nat, ob: nat, oc: nat)
    requires m.mem.Valid() && HasView(v, m.mem.s) && words > 0
    requires G(v, m.mem.s, ob) == G(Whole, m.mem.s, ob) && G(v, m.mem.s, oc) == G(Whole, m.mem.s, oc)
    requires Gather(v, m.mem.s, oa, words) == Gather(Whole, m.mem.s, oa, words)
    ensures StorePtrEffect(env, v, m, words, oa, ob, oc)
         == StorePtrSlow(env, m, G(Whole, m.mem.s, ob), G(Whole, m.mem.s, oc), Gather(Whole, m.mem.s, oa, words))
  {
    var base, idx := G(v, m.mem.s, ob), G(v, m.mem.s, oc);
    var b := Gather(v, m.mem.s, oa, words);
    if PtrWriteView(v, m.mem, Indexed(base, idx), b).Some? {
      StorePtrFast(env, v, m, base, idx, b);
    }
  }

  /** A pointer load whose fast path succeeds is the slow load. */
  lemma LoadPtrFast(v: View, m: Machine, base: word, idx: word, words: nat, oc: nat)
    requires m.mem.Valid() && HasView(v, m.mem.s) && words > 0
    requires PtrReadView(v, m.mem, Indexed(base, idx), 4 * words).Some?
    ensures LoadPtrSlow(m, base, idx, words, oc)
         == Done(WithS(m, Scatter(Whole, m.mem.s, oc, PtrReadView(v, m.mem, Indexed(base, idx), 4 * words).value, words)))
  {
    IndexedSum(base, idx);
    PtrReadAgrees(v, m.mem, Indexed(base, idx), 4 * words);
  }

  /** `LOADP_*`: whichever path runs, the result is the slow path's. */
  lemma LoadPtrAgrees(v: View, m: Machine, words: nat, oa: nat, ob: nat, oc: nat)
    requires m.mem.Valid() && HasView(v, m.mem.s) && words > 0
    requires G(v, m.mem.s, oa) == G(Whole, m.mem.s, oa) && G(v, m.mem.s, ob) == G(Whole, m.mem.s, ob)
    requires forall b :: |b| == 4 * words ==> Scatter(v, m.mem.s, oc, b, words) == Scatter(Whole, m.mem.s, oc, b, words)
    ensures LoadPtrEffect(v, m, words, oa, ob, oc)
         == LoadPtrSlow(m, G(Whole, m.mem.s, oa), G(Whole, m.mem.s, ob), words, oc)
  {
    var base, idx := G(v, m.mem.s, oa), G(v, m.mem.s, ob);
    if PtrReadView(v, m.mem, Indexed(base, idx), 4 * words).Some? {
      LoadPtrFast(v, m, base, idx, words, oc);
    }
  }

  /** The compound store in region S: one word read, combined, written back and copied to `C`. */
  lemma CompoundInS(env: Env, v: View, m: Mem, n: nat, p: word, oa: nat, ob: nat, oc: nat)
    requires m.Valid() && HasView(v, m.s)
    requires p == G(Whole, m.s, ob) == G(v, m.s, ob) && G(v, m.s, oa) == G(Whole, m.s, oa)
    requires InView(v, m.s, p, 4) && p != 0
    requires forall s, w :: |s| == |m.s| ==> Set(v, s, oc, w) == Set(Whole, s, oc, w)
    ensures CompoundView(env, v, m, n, oa, ob, oc).Some?
    ensures CompoundSlow(env, m, n, oa, ob, oc) == Mem1(CompoundView(env, v, m, n, oa, ob, oc).value)
  {
    assert Locate(m, p, 4) == Some(InS(p));
    var r := Read(m, p, 4);
    assert r == Some(m.s[p..p + 4]) && WordAt(r.value, 0) == WordAt(m.s, p);
    var w := env.word2(n, WordAt(m.s, p), G(Whole, m.s, oa));
    assert Put(m, p, BytesOf(w)) == m.(s := Splice(m.s, p, BytesOf(w)));
  }

  /** The compound store in an entity's fields. */
  lemma CompoundInE(env: Env, v: View, m: Mem, n: nat, p: word, oa: nat, ob: nat, oc: nat)
    requires m.Valid() && HasView(v, m.s)
    requires p == G(Whole, m.s, ob) == G(v, m.s, ob) && G(v, m.s, oa) == G(Whole, m.s, oa)
    requires !InView(v, m.s, p, 4) && EntTarget(m, p, 4).Some? && !EntTarget(m, p, 4).value.1
    requires forall s, w :: |s| == |m.s| ==> Set(v, s, oc, w) == Set(Whole, s, oc, w)
    ensures CompoundView(env, v, m, n, oa, ob, oc).Some?
    ensures CompoundSlow(env, m, n, oa, ob, oc) == Mem1(CompoundView(env, v, m, n, oa, ob, oc).value)
  {
    EntTargetIsLocate(m, p, 4);
    var off := p - m.eBase;
    assert CheckWrite(m, p, 4) == Writable(InE(off, EntityAt(m, p)));
    var r := Read(m, p, 4);
    assert r == Some(m.e[off..off + 4]) && WordAt(r.value, 0) == WordAt(m.e, off);
    var w := env.word2(n, WordAt(m.e, off), G(Whole, m.s, oa));
    assert Put(m, p, BytesOf(w)) == m.(e := Splice(m.e, off, BytesOf(w)));
  }

  /** `*STOREP_F`: whichever path runs, the result is the slow path's. */
  lemma CompoundAgrees(env: Env, v: View, m: Machine, n: nat, oa: nat, ob: nat, oc: nat)
    requires m.mem.Valid() && HasView(v, m.mem.s)
    requires G(v, m.mem.s, oa) == G(Whole, m.mem.s, oa) && G(v, m.mem.s, ob) == G(Whole, m.mem.s, ob)
    requires forall s, w :: |s| == |m.mem.s| ==> Set(v, s, oc, w) == Set(Whole, s, oc, w)
    ensures CompoundEffect(env, v, m, n, oa, ob, oc) == CompoundEffectSlow(env, m, n, oa, ob, oc)
  {
    var p := G(Whole, m.mem.s, ob);
    if InView(v, m.mem.s, p, 4) {
      if p != 0 { CompoundInS(env, v, m.mem, n, p, oa, ob, oc); }
    } else if EntTarget(m.mem, p, 4).Some? && !EntTarget(m.mem, p, 4).value.1 {
      CompoundInE(env, v, m.mem, n, p, oa, ob, oc);
    }
  }
}
