/** The rendezvous barrier of n children and their father.  The POSIX program
    (TME05) and the XSI program (TME04) run the same protocol on a pair of
    semaphores and differ only in which one is which, so both are configurations
    of one step system. */
module Barrier {
  import opened Wrappers
  import opened Totals
  import opened Runs

  datatype Api = Posix | Xsi

  /** n children; they raise semaphore Arrived() and wait on semaphore Open(). */
  datatype Config = Config(n: nat, api: Api) {
    /** sem_pere is the first field of the shared record; XSI children do V(1). */
    function Arrived(): (k: nat) ensures k < 2 { if api.Posix? then 0 else 1 }

    /** sem_fils is the second field; XSI children do P(0). */
    function Open(): (k: nat) ensures k == 1 - Arrived() { if api.Posix? then 1 else 0 }
  }

  /** A child before its post, before its wait, and past the barrier. */
  datatype Child = Before | Posted | Passed

  type SemPair = s: seq<nat> | |s| == 2 witness [0, 0]

  /** The semaphores, the children, and how far the father's three loops are. */
  datatype State = State(sem: SemPair, children: seq<Child>, waited: nat, posted: nat, reaped: nat)

  datatype Action = ChildPost(i: nat) | ChildWait(i: nat) | FatherWait | FatherPost | FatherReap

  function Init(c: Config): State {
    State([0, 0], seq(c.n, _ => Before), 0, 0, 0)
  }

  function IsBefore(c: Child): nat { if c.Before? then 1 else 0 }
  function IsPassed(c: Child): nat { if c.Passed? then 1 else 0 }

  /** One semaphore operation, or one wait(NULL) of the father. */
  function Step(c: Config, s: State, a: Action): Option<State> {
    var up, down := c.Arrived(), c.Open();
    match a
    case ChildPost(i) =>
      if i < |s.children| && s.children[i].Before? then
        Some(s.(sem := s.sem[up := s.sem[up] + 1], children := s.children[i := Posted]))
      else None
    case ChildWait(i) =>
      if i < |s.children| && s.children[i].Posted? && s.sem[down] > 0 then
        Some(s.(sem := s.sem[down := s.sem[down] - 1], children := s.children[i := Passed]))
      else None
    case FatherWait =>
      if s.waited < c.n && s.sem[up] > 0 then
        Some(s.(sem := s.sem[up := s.sem[up] - 1], waited := s.waited + 1))
      else None
    case FatherPost =>
      if s.waited == c.n && s.posted < c.n then
        Some(s.(sem := s.sem[down := s.sem[down] + 1], posted := s.posted + 1))
      else None
    case FatherReap =>
      if s.posted == c.n && s.reaped < c.n && s.reaped < Total(s.children, IsPassed) then
        Some(s.(reaped := s.reaped + 1))
      else None
  }

  function Steps(c: Config): (State, Action) -> Option<State> {
    (s, a) => Step(c, s, a)
  }

  /** Every post is either waited for or still in its semaphore, and nothing opens
      before everyone has arrived. */
  ghost predicate Inv(c: Config, s: State) {
    && |s.children| == c.n
    && s.waited <= c.n && s.posted <= c.n && s.reaped <= c.n
    && s.sem[c.Arrived()] + s.waited + Total(s.children, IsBefore) == c.n
    && s.sem[c.Open()] + Total(s.children, IsPassed) == s.posted
    && (s.posted > 0 ==> s.waited == c.n)
    && (s.reaped > 0 ==> s.posted == c.n)
    && s.reaped <= Total(s.children, IsPassed)
  }

  /** Which semaphore each operation uses, and how: on XSI the children do V(1) and P(0)
      and the father P(1) and V(0), on POSIX it is the other way round. */
  lemma SemaphoresUsed(c: Config, s: State, a: Action)
    requires Step(c, s, a).Some?
    ensures var v, t := s.sem, Step(c, s, a).value.sem;
            match a
            case ChildPost(_) => t == if c.api.Xsi? then [v[0], v[1] + 1] else [v[0] + 1, v[1]]
            case ChildWait(_) => t == if c.api.Xsi? then [v[0] - 1, v[1]] else [v[0], v[1] - 1]
            case FatherWait => t == if c.api.Xsi? then [v[0], v[1] - 1] else [v[0] - 1, v[1]]
            case FatherPost => t == if c.api.Xsi? then [v[0] + 1, v[1]] else [v[0], v[1] + 1]
            case FatherReap => t == v
  {
  }

  function Rank(c: Child): nat { match c case Before => 2 case Posted => 1 case Passed => 0 }

  /** Operations still to come: two a child and three loops of the father. */
  ghost function Remaining(c: Config, s: State): nat {
    var father := 3 * c.n - s.waited - s.posted - s.reaped;
    Total(s.children, Rank) + if father < 0 then 0 else father
  }

  /** Each step keeps the invariant and is one of the operations to come. */
  lemma InvStep(c: Config, s: State, a: Action)
    requires Inv(c, s) && Step(c, s, a).Some?
    ensures Inv(c, Step(c, s, a).value)
    ensures Remaining(c, Step(c, s, a).value) == Remaining(c, s) - 1
  {
    match a
    case ChildPost(i) =>
      TotalUpdate(s.children, i, Posted, IsBefore);
      TotalUpdate(s.children, i, Posted, IsPassed);
      TotalUpdate(s.children, i, Posted, Rank);
    case ChildWait(i) =>
      TotalUpdate(s.children, i, Passed, IsBefore);
      TotalUpdate(s.children, i, Passed, IsPassed);
      TotalUpdate(s.children, i, Passed, Rank);
    case _ =>
  }

  lemma InvInit(c: Config)
    ensures Inv(c, Init(c)) && Remaining(c, Init(c)) == 5 * c.n
  {
    TotalConstant(Init(c).children, 1, IsBefore);
    TotalConstant(Init(c).children, 0, IsPassed);
    TotalConstant(Init(c).children, 2, Rank);
  }

  /** The invariant holds in every reachable state. */
  lemma Reachable(c: Config, s: State)
    requires Reaches(Steps(c), Init(c), s)
    ensures Inv(c, s)
  {
    InvInit(c);
    forall t, a | Inv(c, t) && Steps(c)(t, a).Some? ensures Inv(c, Steps(c)(t, a).value) {
      InvStep(c, t, a);
    }
    InvariantReaches(Steps(c), t => Inv(c, t), Init(c), s);
  }

  /** No child passes the barrier before all n children have arrived at it. */
  lemma NobodyPassesEarly(c: Config, s: State, i: nat, j: nat)
    requires Reaches(Steps(c), Init(c), s)
    requires i < |s.children| && j < |s.children| && s.children[i].Passed?
    ensures !s.children[j].Before?
  {
    Reachable(c, s);
    TotalAtLeast(s.children, i, IsPassed);
    TotalAtLeast(s.children, j, IsBefore);
  }

  /** The father reaps n children only when all have passed, which leaves both
      semaphores at 0. */
  lemma AllPassed(c: Config, s: State)
    requires Inv(c, s) && s.reaped == c.n
    ensures forall i :: 0 <= i < c.n ==> s.children[i].Passed?
    ensures s.sem == [0, 0]
  {
    TotalBound(s.children, 1, IsPassed);
    forall i | 0 <= i < c.n ensures s.children[i].Passed? {
      if !s.children[i].Passed? {
        TotalUpdate(s.children, i, Passed, IsPassed);
        TotalBound(s.children[i := Passed], 1, IsPassed);
      }
    }
  }

  /** The protocol has no deadlock: only its final state is stuck. */
  lemma NoDeadlock(c: Config, s: State)
    requires Reaches(Steps(c), Init(c), s)
    ensures Stuck(Steps(c), s) <==> s.reaped == c.n
  {
    Reachable(c, s);
    TotalPositive(s.children, IsBefore);
    TotalBound(s.children, 1, IsPassed);
    if s.reaped < c.n {
      if i :| 0 <= i < |s.children| && s.children[i].Before? {
        assert Steps(c)(s, ChildPost(i)).Some?;
      } else if s.waited < c.n {
        assert Steps(c)(s, FatherWait).Some?;
      } else if s.posted < c.n {
        assert Steps(c)(s, FatherPost).Some?;
      } else if s.reaped < Total(s.children, IsPassed) {
        assert Steps(c)(s, FatherReap).Some?;
      } else {
        if forall i :: 0 <= i < |s.children| ==> IsPassed(s.children[i]) == 1 {
          TotalConstant(s.children, 1, IsPassed);
        }
        var i :| 0 <= i < |s.children| && !s.children[i].Passed?;
        assert Steps(c)(s, ChildWait(i)).Some?;
      }
    } else {
      AllPassed(c, s);
    }
  }

  lemma AtMost(c: Config, acts: seq<Action>)
    requires Exec(Steps(c), Init(c), acts).Some?
    ensures |acts| <= 5 * c.n
  {
    InvInit(c);
    forall t, a | Inv(c, t) && Steps(c)(t, a).Some?
      ensures Inv(c, Steps(c)(t, a).value) && Remaining(c, Steps(c)(t, a).value) < Remaining(c, t)
    {
      InvStep(c, t, a);
    }
    RunsAreBounded(Steps(c), t => Inv(c, t), t => Remaining(c, t), Init(c), acts);
  }

  /** Every schedule is finite, of at most 5n operations, and one that cannot be
      prolonged has taken every child through and left both semaphores at 0. */
  lemma EveryRunEnds(c: Config, acts: seq<Action>)
    requires Exec(Steps(c), Init(c), acts).Some?
    ensures |acts| <= 5 * c.n
    ensures var s := Exec(Steps(c), Init(c), acts).value;
            Stuck(Steps(c), s) ==>
              && s.sem == [0, 0]
              && |s.children| == c.n
              && forall i :: 0 <= i < c.n ==> s.children[i].Passed?
  {
    var s := Exec(Steps(c), Init(c), acts).value;
    AtMost(c, acts);
    assert Reaches(Steps(c), Init(c), s);
    Reachable(c, s);
    NoDeadlock(c, s);
    if s.reaped == c.n {
      AllPassed(c, s);
    }
  }

  /** struct sembuf of an XSI semaphore operation. */
  datatype Sembuf = Sembuf(num: nat, op: int)

  /** The XSI program's global operation table and its semaphore set. */
  class SemaphoreSet {
    const operation: array<Sembuf>
    const values: array<nat>

    ghost predicate Valid()
      reads this, values
    {
      values.Length == 2 && operation.Length >= 2
    }

    /** semget and semctl(SETALL) with the table {0, 0}. */
    constructor (procs: nat)
      requires procs > 0
      ensures Valid() && values[..] == Init(Config(procs, Xsi)).sem
      ensures fresh(values) && fresh(operation)
    {
      operation := new Sembuf[procs + 1](_ => Sembuf(0, 0));
      values := new nat[2](_ => 0);
    }

    /** Lowers a semaphore; false when the caller would have to sleep. */
    method P(sem: nat) returns (done: bool)
      requires Valid() && sem < 2
      modifies operation, values
      ensures Valid() && operation[sem] == Sembuf(sem, -1)
      ensures done <==> old(values[sem]) > 0
      ensures values[..] == if done then old(values[..])[sem := old(values[sem]) - 1] else old(values[..])
    {
      operation[sem] := Sembuf(sem, -1);
      done := values[sem] > 0;
      if done {
        values[sem] := values[sem] - 1;
      }
    }

    /** Raises a semaphore. */
    method V(sem: nat)
      requires Valid() && sem < 2
      modifies operation, values
      ensures Valid() && operation[sem] == Sembuf(sem, 1)
      ensures values[..] == old(values[..])[sem := old(values[sem]) + 1]
    {
      operation[sem] := Sembuf(sem, 1);
      values[sem] := values[sem] + 1;
    }

    /** The father's second loop: n posts of the semaphore the children wait on. */
    method OpenBarrier(n: nat)
      requires Valid()
      modifies operation, values
      ensures Valid()
      ensures values[..] == old(values[..])[0 := old(values[0]) + n]
    {
      for i := 0 to n
        invariant Valid()
        invariant values[..] == old(values[..])[0 := old(values[0]) + i]
      {
        V(0);
      }
    }
  }
}
