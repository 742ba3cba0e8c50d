/** A budgeted loop over any step function: what the interpreter's budget means, independently of
    what its statements do (`src/vm/interp.rs`, `src/vm/mod.rs`). */
module Loop {

  /** Where a step leads: on, or out of the loop. */
  datatype Outcome<S, X> = Go(s: S) | Stop(exit: X, s: S)

  /** A step that is counted (`ticks`) and finds no budget leaves the state `blocked`. */
  datatype StepResult<S, X> = StepResult(ticks: bool, blocked: S, out: Outcome<S, X>)

  /** A step function on the states `ok` accepts; `rank` bounds how many uncounted steps can follow
      one another; exits in `counted` happen only at counted steps. */
  datatype Steps<!S, !X> = Steps(ok: S -> bool, step: S -> StepResult<S, X>, rank: S -> nat, counted: X -> bool)

  /** A step stays among the accepted states, lowers the rank unless counted, and runs again as if
      it had not started when the budget stopped it. */
  ghost predicate SoundAt<S, X>(l: Steps<S, X>, s: S) {
    var r := l.step(s);
    && (r.out.Go? ==> l.ok(r.out.s) && (!r.ticks ==> l.rank(r.out.s) < l.rank(s)))
    && (r.ticks ==> l.ok(r.blocked) && l.step(r.blocked) == r)
    && (r.out.Stop? && l.counted(r.out.exit) ==> r.ticks)
  }

  ghost predicate Sound<S(!new), X>(l: Steps<S, X>) {
    forall s {:trigger SoundAt(l, s)} :: l.ok(s) ==> SoundAt(l, s)
  }

  datatype RunResult<S, X> = Spent(s: S) | Exited(exit: X, s: S, left: nat)

  /** Runs until an exit or until the budget is spent. The measure is the budget left, then the
      rank. */
  function Run<S(!new), X>(l: Steps<S, X>, s: S, budget: nat): (r: RunResult<S, X>)
    requires Sound(l) && l.ok(s)
    ensures r.Exited? ==> r.left <= budget
    ensures r.Exited? && l.counted(r.exit) ==> r.left < budget
    ensures r.Spent? ==> l.ok(r.s)
    decreases budget, l.rank(s)
  {
    assert SoundAt(l, s);
    var r := l.step(s);
    if r.ticks && budget <= 1 then Spent(r.blocked)
    else
      var left := if r.ticks then budget - 1 else budget;
      match r.out
      case Stop(exit, s') => Exited(exit, s', left)
      case Go(s') => Run(l, s', left)
  }

  /** One turn of the loop. */
  lemma RunUnfolds<S(!new), X>(l: Steps<S, X>, s: S, budget: nat)
    requires Sound(l) && l.ok(s)
    ensures var r := l.step(s);
      var left := if r.ticks then budget - 1 else budget;
      && SoundAt(l, s)
      && (r.ticks && budget <= 1 ==> Run(l, s, budget) == Spent(r.blocked))
      && (!(r.ticks && budget <= 1) && r.out.Stop? ==> Run(l, s, budget) == Exited(r.out.exit, r.out.s, left))
      && (!(r.ticks && budget <= 1) && r.out.Go? ==> l.ok(r.out.s) && Run(l, s, budget) == Run(l, r.out.s, left))
  {
    assert SoundAt(l, s);
  }

  // ---- chunks ----------------------------------------------------------------------------------

  /** Handing out `first` of a budget and, when it is spent, the rest (the statement that ran out is
      counted again) is the same as handing out all of it at once. */
  lemma {:induction false} SplitBudget<S(!new), X>(l: Steps<S, X>, s: S, first: nat, budget: nat)
    requires Sound(l) && l.ok(s) && 1 <= first <= budget
    ensures match Run(l, s, first)
            case Spent(s') => l.ok(s') && Run(l, s, budget) == Run(l, s', budget - (first - 1))
            case Exited(exit, s', left) => Run(l, s, budget) == Exited(exit, s', left + (budget - first))
    decreases first, l.rank(s)
  {
    assert SoundAt(l, s);
    var r := l.step(s);
    if r.ticks && first <= 1 {
      assert Run(l, s, first) == Spent(r.blocked);
      assert l.step(r.blocked) == r;
    } else {
      var k := if r.ticks then 1 else 0;
      if r.out.Go? { SplitBudget(l, r.out.s, first - k, budget - k); }
    }
  }

  // ---- what a budget counts --------------------------------------------------------------------

  /** `n` steps from `s`, `t` of them counted, lead to `s'`. */
  ghost predicate Executes<S, X>(l: Steps<S, X>, s: S, n: nat, t: nat, s': S)
    decreases n
  {
    if n == 0 then t == 0 && s' == s
    else
      var r := l.step(s);
      r.out.Go? && (r.ticks ==> t > 0) && Executes(l, r.out.s, n - 1, if r.ticks then t - 1 else t, s')
  }

  /** As long as fewer steps are counted than the budget, the budget has no effect. */
  lemma {:induction false} BudgetInvisible<S(!new), X>(l: Steps<S, X>, s: S, n: nat, t: nat, s': S, budget: nat)
    requires Sound(l) && l.ok(s) && Executes(l, s, n, t, s') && t < budget
    ensures l.ok(s') && Run(l, s, budget) == Run(l, s', budget - t)
    decreases n
  {
    if n > 0 {
      assert SoundAt(l, s);
      var r := l.step(s);
      var k := if r.ticks then 1 else 0;
      BudgetInvisible(l, r.out.s, n - 1, t - k, s', budget - k);
    }
  }

  /** After `n` steps from `s`, `t` of them counted, the next step is counted too. */
  ghost predicate StandsAt<S, X>(l: Steps<S, X>, s: S, n: nat, t: nat, s': S) {
    Executes(l, s, n, t, s') && l.step(s').ticks
  }

  /** A budget of `t + 1` stops a run exactly at its `t + 1`st counted step: a run that gets there is
      stopped there, and a run that is stopped has got there. */
  lemma {:induction false} StopsAtCount<S(!new), X>(l: Steps<S, X>, s: S, t: nat)
    requires Sound(l) && l.ok(s)
    ensures Run(l, s, t + 1).Spent? <==> exists n: nat, s' :: StandsAt(l, s, n, t, s')
    ensures forall n: nat, s' :: StandsAt(l, s, n, t, s') ==> Run(l, s, t + 1) == Spent(l.step(s').blocked)
  {
    forall n: nat, s' | StandsAt(l, s, n, t, s')
      ensures Run(l, s, t + 1) == Spent(l.step(s').blocked)
    {
      BudgetInvisible(l, s, n, t, s', t + 1);
    }
    if Run(l, s, t + 1).Spent? {
      var n, s' := StoppedAt(l, s, t);
    }
  }

  lemma {:induction false} StoppedAt<S(!new), X>(l: Steps<S, X>, s: S, t: nat) returns (n: nat, s': S)
    requires Sound(l) && l.ok(s) && Run(l, s, t + 1).Spent?
    ensures StandsAt(l, s, n, t, s')
    decreases t, l.rank(s)
  {
    assert SoundAt(l, s);
    var r := l.step(s);
    if r.ticks && t == 0 {
      return 0, s;
    }
    n, s' := StoppedAt(l, r.out.s, if r.ticks then t - 1 else t);
    n := n + 1;
  }

  // ---- simulation ------------------------------------------------------------------------------

  /** On the states of `inv`, the two loops take the same steps and stay there. */
  ghost predicate AgreeAt<S, X>(l1: Steps<S, X>, l2: Steps<S, X>, inv: S -> bool, s: S) {
    && l1.ok(s) && l2.ok(s) && l1.step(s) == l2.step(s)
    && (l1.step(s).out.Go? ==> inv(l1.step(s).out.s))
  }

  /** Loops that agree step by step agree run by run. */
  lemma {:induction false} Simulation<S(!new), X>(l1: Steps<S, X>, l2: Steps<S, X>, inv: S -> bool, s: S, budget: nat)
    requires Sound(l1) && Sound(l2) && inv(s)
    requires forall t :: inv(t) ==> AgreeAt(l1, l2, inv, t)
    ensures l1.ok(s) && l2.ok(s) && Run(l1, s, budget) == Run(l2, s, budget)
    decreases budget, l1.rank(s)
  {
    assert AgreeAt(l1, l2, inv, s) && SoundAt(l1, s) && SoundAt(l2, s);
    var r := l1.step(s);
    if !(r.ticks && budget <= 1) && r.out.Go? {
      Simulation(l1, l2, inv, r.out.s, if r.ticks then budget - 1 else budget);
    }
  }

  // ---- invariants ------------------------------------------------------------------------------

  /** Some number of steps leads from `s` to `t`. */
  ghost predicate Reaches<S(!new), X>(l: Steps<S, X>, s: S, t: S) {
    exists n: nat, k: nat :: Executes(l, s, n, k, t)
  }

  lemma ReachesSelf<S(!new), X>(l: Steps<S, X>, s: S)
    ensures Reaches(l, s, s)
  {
    assert Executes(l, s, 0, 0, s);
  }

  lemma ReachesThrough<S(!new), X>(l: Steps<S, X>, s: S, t: S)
    requires l.step(s).out.Go? && Reaches(l, l.step(s).out.s, t)
    ensures Reaches(l, s, t)
  {
    var n: nat, k: nat :| Executes(l, l.step(s).out.s, n, k, t);
    assert Executes(l, s, n + 1, if l.step(s).ticks then k + 1 else k, t);
  }

  /** The step from `s` keeps `rel`, whether it goes on or waits for budget. */
  ghost predicate KeepsAt<S, X>(l: Steps<S, X>, rel: S -> bool, s: S) {
    var r := l.step(s);
    && (r.out.Go? && rel(s) ==> rel(r.out.s))
    && (r.ticks && rel(s) ==> rel(r.blocked))
  }

  /** What holds at the start of a run and is kept by each step it takes holds where it stops, or
      where it takes its last step. */
  lemma {:induction false} RunKeeps<S(!new), X>(l: Steps<S, X>, rel: S -> bool, s: S, budget: nat)
    requires Sound(l) && l.ok(s) && rel(s)
    requires forall t :: Reaches(l, s, t) && l.ok(t) && rel(t) ==> KeepsAt(l, rel, t)
    ensures Run(l, s, budget).Spent? ==> rel(Run(l, s, budget).s)
    ensures Run(l, s, budget).Exited? ==>
              exists t :: l.ok(t) && rel(t) && Reaches(l, s, t) && l.step(t).out == Stop(Run(l, s, budget).exit, Run(l, s, budget).s)
    decreases budget, l.rank(s)
  {
    ReachesSelf(l, s);
    assert SoundAt(l, s) && KeepsAt(l, rel, s);
    var r := l.step(s);
    if !(r.ticks && budget <= 1) && r.out.Go? {
      forall t | Reaches(l, r.out.s, t)
        ensures Reaches(l, s, t)
      {
        ReachesThrough(l, s, t);
      }
      RunKeeps(l, rel, r.out.s, if r.ticks then budget - 1 else budget);
    }
  }
}
