/** Runs of a labelled step system.  A step function returns None when its action
    is blocked, so a schedule is a sequence of actions and the runs of a program
    are the schedules that execute. */
module Runs {
  import opened Wrappers

  /** The state after a schedule, None if one of its actions is blocked. */
  function Exec<S, A>(step: (S, A) -> Option<S>, s: S, acts: seq<A>): Option<S>
    decreases |acts|
  {
    if acts == [] then Some(s)
    else
      match step(s, acts[0])
      case None => None
      case Some(t) => Exec(step, t, acts[1..])
  }

  /** An inductive invariant holds at the end of every run. */
  lemma {:induction false} InvariantOnRuns<S(!new), A(!new)>(
      step: (S, A) -> Option<S>, inv: S -> bool, s: S, acts: seq<A>)
    requires inv(s)
    requires forall t, a :: inv(t) && step(t, a).Some? ==> inv(step(t, a).value)
    requires Exec(step, s, acts).Some?
    ensures inv(Exec(step, s, acts).value)
    decreases |acts|
  {
    if acts != [] {
      InvariantOnRuns(step, inv, step(s, acts[0]).value, acts[1..]);
    }
  }

  /** t is the state after some schedule from s. */
  ghost predicate Reaches<S, A(!new)>(step: (S, A) -> Option<S>, s: S, t: S) {
    exists acts :: Exec(step, s, acts) == Some(t)
  }

  /** No action is enabled. */
  ghost predicate Stuck<S, A(!new)>(step: (S, A) -> Option<S>, s: S) {
    forall a :: step(s, a).None?
  }

  /** An inductive invariant holds in every reachable state. */
  lemma InvariantReaches<S(!new), A(!new)>(step: (S, A) -> Option<S>, inv: S -> bool, s: S, t: S)
    requires inv(s) && Reaches(step, s, t)
    requires forall u, a :: inv(u) && step(u, a).Some? ==> inv(step(u, a).value)
    ensures inv(t)
  {
    var acts :| Exec(step, s, acts) == Some(t);
    InvariantOnRuns(step, inv, s, acts);
  }

  /** Running one schedule after another. */
  lemma {:induction false} ExecConcat<S, A>(step: (S, A) -> Option<S>, s: S, acts: seq<A>, more: seq<A>)
    requires Exec(step, s, acts).Some?
    ensures Exec(step, s, acts + more) == Exec(step, Exec(step, s, acts).value, more)
    decreases |acts|
  {
    if acts == [] {
      assert acts + more == more;
    } else {
      assert (acts + more)[0] == acts[0];
      assert (acts + more)[1..] == acts[1..] + more;
      ExecConcat(step, step(s, acts[0]).value, acts[1..], more);
    }
  }

  /** When every step lowers a measure, a run is no longer than its initial measure. */
  lemma {:induction false} RunsAreBounded<S(!new), A(!new)>(
      step: (S, A) -> Option<S>, inv: S -> bool, mu: S -> nat, s: S, acts: seq<A>)
    requires inv(s)
    requires forall t, a :: inv(t) && step(t, a).Some? ==> inv(step(t, a).value) && mu(step(t, a).value) < mu(t)
    requires Exec(step, s, acts).Some?
    ensures |acts| + mu(Exec(step, s, acts).value) <= mu(s)
    decreases |acts|
  {
    if acts != [] {
      RunsAreBounded(step, inv, mu, step(s, acts[0]).value, acts[1..]);
    }
  }

  /** When every state short of the goal has a step that lowers a measure, the goal
      can be reached. */
  lemma {:induction false} GoalReachable<S(!new), A(!new)>(
      step: (S, A) -> Option<S>, inv: S -> bool, goal: S -> bool, mu: S -> nat, s: S)
    requires inv(s)
    requires forall t :: inv(t) && !goal(t) ==>
               exists a :: step(t, a).Some? && inv(step(t, a).value) && mu(step(t, a).value) < mu(t)
    ensures exists acts :: Exec(step, s, acts).Some?
                        && inv(Exec(step, s, acts).value) && goal(Exec(step, s, acts).value)
    decreases mu(s)
  {
    if goal(s) {
      var none: seq<A> := [];
      assert Exec(step, s, none) == Some(s);
    } else {
      var a :| step(s, a).Some? && inv(step(s, a).value) && mu(step(s, a).value) < mu(s);
      var t := step(s, a).value;
      GoalReachable(step, inv, goal, mu, t);
      var acts :| Exec(step, t, acts).Some?
               && inv(Exec(step, t, acts).value) && goal(Exec(step, t, acts).value);
      assert ([a] + acts)[0] == a && ([a] + acts)[1..] == acts;
      assert Exec(step, s, [a] + acts) == Exec(step, t, acts);
    }
  }

  /** The last action of a schedule. */
  lemma {:induction false} ExecLast<S, A>(step: (S, A) -> Option<S>, s: S, acts: seq<A>)
    requires acts != [] && Exec(step, s, acts).Some?
    ensures Exec(step, s, acts[..|acts| - 1]).Some?
    ensures step(Exec(step, s, acts[..|acts| - 1]).value, acts[|acts| - 1]) == Exec(step, s, acts)
    decreases |acts|
  {
    var init := acts[..|acts| - 1];
    if |acts| == 1 {
      assert acts[1..] == [];
    } else {
      var rest := acts[1..];
      assert init[0] == acts[0] && init[1..] == rest[..|rest| - 1];
      ExecLast(step, step(s, acts[0]).value, rest);
    }
  }

  /** One more action at the end of a schedule. */
  lemma ExecSnoc<S, A>(step: (S, A) -> Option<S>, s: S, acts: seq<A>, a: A)
    requires Exec(step, s, acts).Some?
    ensures Exec(step, s, acts + [a]) == step(Exec(step, s, acts).value, a)
  {
    var t := Exec(step, s, acts).value;
    ExecConcat(step, s, acts, [a]);
    assert [a][1..] == [];
    assert Exec(step, t, [a]) == step(t, a);
  }

  /** One more step after a run. */
  lemma ReachesNext<S(!new), A(!new)>(step: (S, A) -> Option<S>, s: S, t: S, a: A)
    requires Reaches(step, s, t) && step(t, a).Some?
    ensures Reaches(step, s, step(t, a).value)
  {
    var acts :| Exec(step, s, acts) == Some(t);
    ExecSnoc(step, s, acts, a);
  }

  /** One run after another. */
  lemma ReachesFurther<S(!new), A(!new)>(step: (S, A) -> Option<S>, s: S, t: S, u: S)
    requires Reaches(step, s, t) && Reaches(step, t, u)
    ensures Reaches(step, s, u)
  {
    var acts :| Exec(step, s, acts) == Some(t);
    var more :| Exec(step, t, more) == Some(u);
    ExecConcat(step, s, acts, more);
  }

  /** A log that every step keeps or extends is extended by every run. */
  lemma LogGrowsOnRuns<S(!new), A(!new), E(!new)>(step: (S, A) -> Option<S>, log: S -> seq<E>, s: S, t: S)
    requires Reaches(step, s, t)
    requires forall u, a :: step(u, a).Some? ==> log(u) <= log(step(u, a).value)
    ensures log(s) <= log(t)
  {
    InvariantReaches(step, u => log(s) <= log(u), s, t);
  }

  /** GoalReachable in terms of Reaches. */
  lemma GoalReached<S(!new), A(!new)>(
      step: (S, A) -> Option<S>, inv: S -> bool, goal: S -> bool, mu: S -> nat, s: S) returns (t: S)
    requires inv(s)
    requires forall u :: inv(u) && !goal(u) ==>
               exists a :: step(u, a).Some? && inv(step(u, a).value) && mu(step(u, a).value) < mu(u)
    ensures Reaches(step, s, t) && inv(t) && goal(t)
  {
    GoalReachable(step, inv, goal, mu, s);
    var acts :| Exec(step, s, acts).Some?
             && inv(Exec(step, s, acts).value) && goal(Exec(step, s, acts).value);
    t := Exec(step, s, acts).value;
  }
}
