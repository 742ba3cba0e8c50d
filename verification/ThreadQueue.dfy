/** The queue of sleeping threads: which ones run when time has come, and in what order
    (`src/vm/threads.rs`). */
module ThreadQueue {
  import opened Bytes

  /** A sleeping thread: the time it wakes at, which thread it is, and the bytes it holds. */
  datatype Sleeper = Sleeper(wake: real, id: nat, size: nat)

  /** What resuming a thread leads to: an error, and the threads it suspended anew. */
  datatype Ran = Ran(failed: bool, suspended: seq<Sleeper>)

  /** The threads of `q` that are (not) due at `now`, in queue order. */
  function Due(q: seq<Sleeper>, now: real, due: bool): (r: seq<Sleeper>) {
    if q == [] then []
    else if (q[|q| - 1].wake <= now) == due then Due(q[..|q| - 1], now, due) + [q[|q| - 1]]
    else Due(q[..|q| - 1], now, due)
  }

  /** `q` with `t` put after all that wake no later. */
  function Insert(q: seq<Sleeper>, t: Sleeper): (r: seq<Sleeper>) {
    if q == [] || q[|q| - 1].wake <= t.wake then q + [t]
    else Insert(q[..|q| - 1], t) + [q[|q| - 1]]
  }

  /** The stable sort by wake time. */
  function ByWake(q: seq<Sleeper>): seq<Sleeper> {
    if q == [] then [] else Insert(ByWake(q[..|q| - 1]), q[|q| - 1])
  }

  predicate Ordered(q: seq<Sleeper>) {
    forall i, j :: 0 <= i < j < |q| ==> q[i].wake <= q[j].wake
  }

  /** The threads waking at time `w`, in order. */
  function At(q: seq<Sleeper>, w: real): seq<Sleeper> {
    if q == [] then []
    else if q[|q| - 1].wake == w then At(q[..|q| - 1], w) + [q[|q| - 1]]
    else At(q[..|q| - 1], w)
  }

  /** No thread of `q` wakes after `b`. */
  predicate UpTo(q: seq<Sleeper>, b: real) {
    forall i :: 0 <= i < |q| ==> q[i].wake <= b
  }

  lemma Split(q: seq<Sleeper>)
    requires q != []
    ensures q == q[..|q| - 1] + [q[|q| - 1]]
    ensures multiset(q) == multiset(q[..|q| - 1]) + multiset{q[|q| - 1]}
  {
  }

  lemma AtSnoc(p: seq<Sleeper>, l: Sleeper, w: real)
    ensures At(p + [l], w) == if l.wake == w then At(p, w) + [l] else At(p, w)
  {
    assert (p + [l])[..|p|] == p;
  }

  lemma {:induction false} InsertOrders(q: seq<Sleeper>, t: Sleeper)
    requires Ordered(q)
    ensures Ordered(Insert(q, t))
    ensures forall b :: UpTo(q, b) && t.wake <= b ==> UpTo(Insert(q, t), b)
  {
    if q != [] && q[|q| - 1].wake > t.wake {
      var p, l := q[..|q| - 1], q[|q| - 1];
      InsertOrders(p, t);
      assert UpTo(p, l.wake);
      assert UpTo(Insert(p, t), l.wake);
      forall b | UpTo(q, b) && t.wake <= b
        ensures UpTo(Insert(q, t), b)
      {
        assert UpTo(p, b);
        assert UpTo(Insert(p, t), b);
      }
    } else {
      forall b | UpTo(q, b) && t.wake <= b
        ensures UpTo(Insert(q, t), b)
      {
      }
    }
  }

  lemma {:induction false} InsertKeeps(q: seq<Sleeper>, t: Sleeper)
    ensures multiset(Insert(q, t)) == multiset(q) + multiset{t}
  {
    if q != [] && q[|q| - 1].wake > t.wake {
      InsertKeeps(q[..|q| - 1], t);
      Split(q);
    }
  }

  lemma {:induction false} InsertIsStable(q: seq<Sleeper>, t: Sleeper, w: real)
    ensures At(Insert(q, t), w) == if t.wake == w then At(q, w) + [t] else At(q, w)
  {
    if q != [] && q[|q| - 1].wake > t.wake {
      var p, l := q[..|q| - 1], q[|q| - 1];
      InsertIsStable(p, t, w);
      AtSnoc(Insert(p, t), l, w);
    } else {
      AtSnoc(q, t, w);
    }
  }

  /** Sorting keeps the threads, orders them by wake time, and keeps the queue order of those that
      wake at the same time. */
  lemma {:induction false} ByWakeSorts(q: seq<Sleeper>, w: real)
    ensures Ordered(ByWake(q)) && multiset(ByWake(q)) == multiset(q)
    ensures At(ByWake(q), w) == At(q, w)
  {
    if q != [] {
      var p, t := q[..|q| - 1], q[|q| - 1];
      ByWakeSorts(p, w);
      InsertOrders(ByWake(p), t);
      InsertKeeps(ByWake(p), t);
      InsertIsStable(ByWake(p), t, w);
      Split(q);
    }
  }

  lemma DueSnoc(p: seq<Sleeper>, t: Sleeper, now: real, due: bool)
    ensures Due(p + [t], now, due) == if (t.wake <= now) == due then Due(p, now, due) + [t] else Due(p, now, due)
  {
    assert (p + [t])[..|p|] == p;
  }

  lemma {:induction false} DueSplits(q: seq<Sleeper>, now: real)
    ensures multiset(Due(q, now, true)) + multiset(Due(q, now, false)) == multiset(q)
  {
    if q != [] {
      DueSplits(q[..|q| - 1], now);
      assert q == q[..|q| - 1] + [q[|q| - 1]];
    }
  }

  /** What the resumptions lead to, by their number and thread. */
  type Runs = (nat, Sleeper) -> Ran

  /** All threads the first `n` of `due` suspended when they ran. */
  function Suspended(run: Runs, due: seq<Sleeper>, n: nat): seq<Sleeper>
    requires n <= |due|
  {
    if n == 0 then [] else Suspended(run, due, n - 1) + run(n - 1, due[n - 1]).suspended
  }

  lemma SuspendedNext(asleep: seq<Sleeper>, run: Runs, due: seq<Sleeper>, n: nat)
    requires n < |due|
    ensures asleep + Suspended(run, due, n) + run(n, due[n]).suspended == asleep + Suspended(run, due, n + 1)
  {
  }

  /** The first of the threads from number `n` on that fails (`|due|` if none does). */
  function FirstFailure(run: Runs, due: seq<Sleeper>, n: nat): (k: nat)
    requires n <= |due|
    ensures n <= k <= |due|
    ensures k < |due| ==> run(k, due[k]).failed
    ensures forall i :: n <= i < k ==> !run(i, due[i]).failed
    decreases |due| - n
  {
    if n == |due| || run(n, due[n]).failed then n else FirstFailure(run, due, n + 1)
  }

  /** The due threads, in the order they run. */
  function DueOf(q: seq<Sleeper>, now: real): seq<Sleeper> { ByWake(Due(q, now, true)) }

  /** The queue after the due threads of `q` have run: those asleep, those suspended meanwhile, and,
      after a failure, those that have not run. */
  function After(q: seq<Sleeper>, now: real, run: Runs): seq<Sleeper> {
    var due := DueOf(q, now);
    var k := FirstFailure(run, due, 0);
    if k < |due| then Due(q, now, false) + Suspended(run, due, k + 1) + due[k + 1..]
    else Due(q, now, false) + Suspended(run, due, k)
  }

  /** Bytes the threads of `q` hold. */
  function Held(q: seq<Sleeper>): nat {
    if q == [] then 0 else Held(q[..|q| - 1]) + q[|q| - 1].size
  }

  predicate WithinLimits(q: seq<Sleeper>, maxThreads: nat, maxBytes: nat) {
    |q| <= maxThreads && Held(q) <= maxBytes
  }

  /** One more thread may be suspended while those of `q` sleep. */
  predicate Admits(q: seq<Sleeper>, t: Sleeper, maxThreads: nat, maxBytes: nat) {
    |q| < maxThreads && Held(q) + t.size <= maxBytes
  }

  /** Moving the first thread of `rest` to those seen. */
  lemma TakeOne(seen: seq<Sleeper>, kept: seq<Sleeper>, rest: seq<Sleeper>, now: real)
    requires rest != []
    ensures seen + rest == (seen + [rest[0]]) + rest[1..] && kept + rest == (kept + [rest[0]]) + rest[1..]
    ensures (kept + rest)[|kept|] == rest[0]
    ensures (kept + rest)[..|kept|] + (kept + rest)[|kept| + 1..] == kept + rest[1..]
    ensures Due(seen + [rest[0]], now, true) == Due(seen, now, true) + if rest[0].wake <= now then [rest[0]] else []
    ensures Due(seen + [rest[0]], now, false) == Due(seen, now, false) + if rest[0].wake <= now then [] else [rest[0]]
  {
    DueSnoc(seen, rest[0], now, true);
    DueSnoc(seen, rest[0], now, false);
  }

  class Queue {
    var threads: seq<Sleeper>

    constructor ()
      ensures threads == []
    {
      threads := [];
    }

    /** Queues a thread suspended now, unless that would exceed a limit. */
    method Suspend(t: Sleeper, maxThreads: nat, maxBytes: nat) returns (queued: bool)
      modifies this
      ensures queued <==> Admits(old(threads), t, maxThreads, maxBytes)
      ensures threads == if queued then old(threads) + [t] else old(threads)
      ensures queued ==> WithinLimits(threads, maxThreads, maxBytes)
    {
      if |threads| >= maxThreads { return false; }
      var held := t.size;
      for i := 0 to |threads|
        invariant held == t.size + Held(threads[..i])
      {
        assert threads[..i + 1][..i] == threads[..i];
        held := held + threads[i].size;
      }
      assert threads[..|threads|] == threads;
      if held > maxBytes { return false; }
      threads := threads + [t];
      assert threads[..|threads| - 1] == old(threads);
      return true;
    }

    /** Takes the due threads out of the queue, in queue order. */
    method TakeDue(now: real) returns (due: seq<Sleeper>)
      modifies this
      ensures due == Due(old(threads), now, true)
      ensures threads == Due(old(threads), now, false)
    {
      due := [];
      var i := 0;
      ghost var seen, rest := [], threads;
      ghost var kept: seq<Sleeper> := [];
      while i < |threads|
        invariant |kept| == i && threads == kept + rest && old(threads) == seen + rest
        invariant due == Due(seen, now, true) && kept == Due(seen, now, false)
        decreases |threads| - i
      {
        var t := threads[i];
        TakeOne(seen, kept, rest, now);
        if t.wake <= now {
          due := due + [t];
          threads := threads[..i] + threads[i + 1..];
        } else {
          kept := kept + [t];
          i := i + 1;
        }
        seen, rest := seen + [t], rest[1..];
      }
      assert rest == [] && seen + rest == seen && kept + rest == kept;
    }

    /** Resumes the due threads in wake order; after an error the rest goes back to the queue. */
    method RunThreads(now: real, run: Runs) returns (ran: nat, failed: bool)
      modifies this
      ensures threads == After(old(threads), now, run)
      ensures ran == FirstFailure(run, DueOf(old(threads), now), 0) && (failed <==> ran < |DueOf(old(threads), now)|)
    {
      var taken := TakeDue(now);
      var due := ByWake(taken);
      ghost var asleep := threads;
      ran := 0;
      failed := false;
      while ran < |due|
        invariant ran <= |due|
        invariant threads == asleep + Suspended(run, due, ran)
        invariant FirstFailure(run, due, 0) == FirstFailure(run, due, ran)
      {
        var r := run(ran, due[ran]);
        SuspendedNext(asleep, run, due, ran);
        threads := threads + r.suspended;
        if r.failed {
          threads := threads + due[ran + 1..];
          failed := true;
          return;
        }
        ran := ran + 1;
      }
    }
  }

  /** How many threads have been resumed when the run of the queue is over. */
  function Resumed(run: Runs, due: seq<Sleeper>): (n: nat)
    ensures n <= |due|
  {
    var k := FirstFailure(run, due, 0);
    if k < |due| then k + 1 else k
  }

  /** No thread is lost or duplicated: those that ran, and those queued when a run of the queue is
      over, are those queued before and those suspended meanwhile. */
  lemma QueueConserved(q: seq<Sleeper>, now: real, run: Runs)
    ensures var due := DueOf(q, now);
      var n := Resumed(run, due);
      multiset(due[..n]) + multiset(After(q, now, run)) == multiset(q) + multiset(Suspended(run, due, n))
  {
    var d, asleep, due := Due(q, now, true), Due(q, now, false), DueOf(q, now);
    var n := Resumed(run, due);
    ByWakeSorts(d, 0.0);
    DueSplits(q, now);
    if n == |due| { assert due[n..] == []; }
    assert After(q, now, run) == asleep + Suspended(run, due, n) + due[n..];
    Regroup(due, n, asleep, Suspended(run, due, n));
  }

  lemma Regroup(due: seq<Sleeper>, n: nat, asleep: seq<Sleeper>, more: seq<Sleeper>)
    requires n <= |due|
    ensures multiset(due[..n]) + multiset(asleep + more + due[n..]) == multiset(due) + multiset(asleep) + multiset(more)
  {
    assert due == due[..n] + due[n..];
  }

  // ---- limits ----------------------------------------------------------------------------------

  /** The threads of `more` may be suspended one after another while those of `q` sleep. */
  predicate AdmitsAll(q: seq<Sleeper>, more: seq<Sleeper>, maxThreads: nat, maxBytes: nat) {
    more == []
    || (AdmitsAll(q, more[..|more| - 1], maxThreads, maxBytes)
        && Admits(q + more[..|more| - 1], more[|more| - 1], maxThreads, maxBytes))
  }

  /** Each resumed thread suspends only what the limits admit, given those asleep and those suspended
      before it: the threads taken out of the queue are not counted. */
  predicate Lawful(q: seq<Sleeper>, now: real, run: Runs, maxThreads: nat, maxBytes: nat) {
    var due := DueOf(q, now);
    forall i :: 0 <= i < |due| && i <= FirstFailure(run, due, 0) ==>
      AdmitsAll(Due(q, now, false) + Suspended(run, due, i), run(i, due[i]).suspended, maxThreads, maxBytes)
  }

  lemma {:induction false} HeldSum(p: seq<Sleeper>, q: seq<Sleeper>)
    ensures Held(p + q) == Held(p) + Held(q)
  {
    if q == [] {
      assert p + q == p;
    } else {
      HeldSum(p, q[..|q| - 1]);
      assert (p + q)[..|p + q| - 1] == p + q[..|q| - 1];
    }
  }

  /** Suspending what is admitted stays within the limits. */
  lemma AdmittedWithin(q: seq<Sleeper>, more: seq<Sleeper>, maxThreads: nat, maxBytes: nat)
    requires WithinLimits(q, maxThreads, maxBytes) && AdmitsAll(q, more, maxThreads, maxBytes)
    ensures WithinLimits(q + more, maxThreads, maxBytes)
  {
    if more == [] {
      assert q + more == q;
    } else {
      var p := q + more[..|more| - 1];
      assert (q + more)[..|q + more| - 1] == p;
    }
  }

  lemma {:induction false} DueHolds(q: seq<Sleeper>, now: real)
    ensures |Due(q, now, true)| + |Due(q, now, false)| == |q|
    ensures Held(Due(q, now, false)) <= Held(q)
    ensures |DueOf(q, now)| == |Due(q, now, true)|
  {
    if q != [] {
      DueHolds(q[..|q| - 1], now);
      HeldSum(Due(q[..|q| - 1], now, false), [q[|q| - 1]]);
      assert [q[|q| - 1]][..0] == [];
    }
    ByWakeSorts(Due(q, now, true), 0.0);
    assert |multiset(DueOf(q, now))| == |multiset(Due(q, now, true))|;
  }

  lemma {:induction false} SuspendedWithin(q: seq<Sleeper>, now: real, run: Runs, maxThreads: nat, maxBytes: nat, n: nat)
    requires WithinLimits(q, maxThreads, maxBytes) && Lawful(q, now, run, maxThreads, maxBytes)
    requires n <= |DueOf(q, now)| && n <= FirstFailure(run, DueOf(q, now), 0) + 1
    ensures WithinLimits(Due(q, now, false) + Suspended(run, DueOf(q, now), n), maxThreads, maxBytes)
  {
    var due, asleep := DueOf(q, now), Due(q, now, false);
    DueHolds(q, now);
    if n == 0 {
      assert asleep + Suspended(run, due, n) == asleep;
    } else {
      var k: nat := n - 1;
      SuspendedWithin(q, now, run, maxThreads, maxBytes, k);
      SuspendedNext(asleep, run, due, k);
      AdmittedWithin(asleep + Suspended(run, due, k), run(k, due[k]).suspended, maxThreads, maxBytes);
    }
  }

  /** When no thread fails, the limits hold afterwards. */
  lemma NoFailureKeepsLimits(q: seq<Sleeper>, now: real, run: Runs, maxThreads: nat, maxBytes: nat)
    requires WithinLimits(q, maxThreads, maxBytes) && Lawful(q, now, run, maxThreads, maxBytes)
    requires FirstFailure(run, DueOf(q, now), 0) == |DueOf(q, now)|
    ensures WithinLimits(After(q, now, run), maxThreads, maxBytes)
  {
    SuspendedWithin(q, now, run, maxThreads, maxBytes, |DueOf(q, now)|);
  }

  /** `k` threads that hold nothing. */
  function Empties(k: nat): (r: seq<Sleeper>)
    ensures |r| == k
  {
    if k == 0 then [] else Empties(k - 1) + [Sleeper(0.0, k, 0)]
  }

  lemma {:induction false} EmptiesAdmitted(q: seq<Sleeper>, k: nat, maxThreads: nat, maxBytes: nat)
    requires |q| + k <= maxThreads && Held(q) <= maxBytes
    ensures AdmitsAll(q, Empties(k), maxThreads, maxBytes) && Held(Empties(k)) == 0
  {
    if k > 0 {
      EmptiesAdmitted(q, k - 1, maxThreads, maxBytes);
      assert Empties(k)[..k - 1] == Empties(k - 1);
      HeldSum(q, Empties(k - 1));
    }
  }

  /** A first thread that fills what the limit leaves and then fails. */
  function FillAndFail(k: nat): Runs { (i: nat, t: Sleeper) => Ran(true, Empties(k)) }

  /** With two threads due or more, such a run is lawful and leaves more asleep than the limit. */
  lemma LimitExceeded(q: seq<Sleeper>, now: real, maxThreads: nat, maxBytes: nat) returns (run: Runs)
    requires WithinLimits(q, maxThreads, maxBytes) && |Due(q, now, true)| >= 2
    ensures Lawful(q, now, run, maxThreads, maxBytes) && |After(q, now, run)| > maxThreads
  {
    DueHolds(q, now);
    var asleep, due := Due(q, now, false), DueOf(q, now);
    var k: nat := maxThreads - |asleep|;
    run := FillAndFail(k);
    EmptiesAdmitted(asleep, k, maxThreads, maxBytes);
    assert FirstFailure(run, due, 0) == 0;
    assert Suspended(run, due, 0) == [] && asleep + [] == asleep;
    assert Suspended(run, due, 1) == [] + Empties(k);
  }

  /** However lawfully the due threads run, the limits hold afterwards. */
  ghost predicate KeepsLimits(q: seq<Sleeper>, now: real, maxThreads: nat, maxBytes: nat) {
    forall run: Runs :: Lawful(q, now, run, maxThreads, maxBytes) ==> WithinLimits(After(q, now, run), maxThreads, maxBytes)
  }

  /** From a queue within its limits, the limits hold after every lawful run if and only if at most one
      thread is due: threads taken out to run and put back after a failure are not counted meanwhile. */
  lemma LimitsKeptExactly(q: seq<Sleeper>, now: real, maxThreads: nat, maxBytes: nat)
    requires WithinLimits(q, maxThreads, maxBytes)
    ensures KeepsLimits(q, now, maxThreads, maxBytes) <==> |Due(q, now, true)| <= 1
  {
    DueHolds(q, now);
    if |Due(q, now, true)| <= 1 {
      forall run: Runs | Lawful(q, now, run, maxThreads, maxBytes)
        ensures WithinLimits(After(q, now, run), maxThreads, maxBytes)
      {
        var due := DueOf(q, now);
        SuspendedWithin(q, now, run, maxThreads, maxBytes, |due|);
        assert due[|due|..] == [];
        assert After(q, now, run) == Due(q, now, false) + Suspended(run, due, |due|);
      }
    } else {
      var run := LimitExceeded(q, now, maxThreads, maxBytes);
    }
  }
}
