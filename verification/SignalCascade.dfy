/** The cascade of signals (ex5): the last of n children prints and signals the one
    before it, and so on down to the first.  The signal is blocked before the forks, so
    one that comes early stays pending until the child suspends itself. */
module SignalCascade {
  import opened Wrappers
  import opened Totals
  import opened Runs

  /** A child before its fork, from its fork to its wake-up, woken, past its print
      (the last child signals twice), and past its signals. */
  datatype Child = Unborn | Started | Woken | Printed(kills: nat) | Exited

  /** Pending signals of each child, and the children in the order they printed. */
  datatype State = State(forked: nat, children: seq<Child>, pending: seq<nat>, trace: seq<nat>)

  /** Sigsuspend may deliver several pending signals at once. */
  datatype Action = Fork | Wake(i: nat, m: nat) | Print(i: nat) | Kill(i: nat)

  function Init(n: nat): State {
    State(0, seq(n, _ => Unborn), seq(n, _ => 0), [])
  }

  /** Signals that child i sends to the one before it. */
  function Signals(n: nat, i: nat): nat {
    if i + 1 == n then 2 else if i > 0 then 1 else 0
  }

  function Step(n: nat, s: State, a: Action): Option<State> {
    if |s.children| != n || |s.pending| != n then None
    else
      match a
      case Fork =>
        if s.forked < n then
          Some(s.(forked := s.forked + 1, children := s.children[s.forked := Started]))
        else None
      case Wake(i, m) =>
        if i < n && i != n - 1 && s.children[i].Started? && 0 < m <= s.pending[i] then
          Some(s.(children := s.children[i := Woken], pending := s.pending[i := s.pending[i] - m]))
        else None
      case Print(i) =>
        if i < n && (s.children[i].Woken? || (i == n - 1 && s.children[i].Started?)) then
          Some(s.(children := s.children[i := Printed(Signals(n, i))],
                  trace := s.trace + [i]))
        else None
      case Kill(i) =>
        if i < n && s.children[i].Printed? then
          var left := s.children[i].kills;
          if left == 0 then Some(s.(children := s.children[i := Exited]))
          else if i == 0 then None
          else
            Some(s.(children := s.children[i := Printed(left - 1)],
                    pending := s.pending[i - 1 := s.pending[i - 1] + 1]))
        else None
  }

  function Steps(n: nat): (State, Action) -> Option<State> { (s, a) => Step(n, s, a) }

  // ----- The invariant -----

  /** Where child i stands when `printed` children have printed: those from the end
      have; the next one is woken or has a signal pending once the one after it has
      sent one; the others have neither printed nor been signalled. */
  ghost predicate ChildOk(n: nat, s: State, i: nat)
    requires i < n == |s.children| == |s.pending| && |s.trace| <= n
  {
    var next := n - 1 - |s.trace|;
    var x := s.children[i];
    if i > next then
      && (x.Printed? || x.Exited?)
      && (x.Printed? ==> x.kills <= Signals(n, i))
    else if i == next && i < n - 1 then
      && (x.Started? || x.Woken?)
      && var after := s.children[i + 1];
      if after.Printed? && after.kills == Signals(n, i + 1) then x.Started? && s.pending[i] == 0
      else x.Woken? || s.pending[i] > 0
    else
      && x == (if i < s.forked then Started else Unborn)
      && s.pending[i] == 0
  }

  ghost predicate Inv(n: nat, s: State) {
    && |s.children| == n && |s.pending| == n && s.forked <= n
    && |s.trace| <= n
    && (s.trace != [] ==> s.forked == n)
    && (forall k :: 0 <= k < |s.trace| ==> s.trace[k] == n - 1 - k)
    && (forall i :: 0 <= i < n ==> ChildOk(n, s, i))
  }

  lemma InvInit(n: nat)
    requires n >= 2
    ensures Inv(n, Init(n))
  {
  }

  lemma ChildStep(n: nat, s: State, a: Action, j: nat)
    requires n >= 2 && Inv(n, s) && Step(n, s, a).Some? && j < n
    ensures var t := Step(n, s, a).value;
            |t.children| == |t.pending| == n && |t.trace| <= n && ChildOk(n, t, j)
  {
    assert ChildOk(n, s, j);
    if j + 1 < n { assert ChildOk(n, s, j + 1); }
    if !a.Fork? { assert ChildOk(n, s, a.i); }
  }

  lemma InvStep(n: nat, s: State, a: Action)
    requires n >= 2 && Inv(n, s) && Step(n, s, a).Some?
    ensures Inv(n, Step(n, s, a).value)
  {
    var t := Step(n, s, a).value;
    if !a.Fork? { assert ChildOk(n, s, a.i); }
    forall j | 0 <= j < n ensures |t.children| == |t.pending| == n && |t.trace| <= n && ChildOk(n, t, j) {
      ChildStep(n, s, a, j);
    }
  }

  lemma Reachable(n: nat, s: State)
    requires n >= 2 && Reaches(Steps(n), Init(n), s)
    ensures Inv(n, s)
  {
    InvInit(n);
    forall t, a | Inv(n, t) && Steps(n)(t, a).Some? ensures Inv(n, Steps(n)(t, a).value) {
      InvStep(n, t, a);
    }
    InvariantReaches(Steps(n), t => Inv(n, t), Init(n), s);
  }

  // ----- Theorems -----

  /** The trace is always a prefix of n - 1, n - 2, ..., 0. */
  lemma TraceIsPrefix(n: nat, s: State)
    requires n >= 2 && Reaches(Steps(n), Init(n), s)
    ensures |s.trace| <= n
    ensures forall k :: 0 <= k < |s.trace| ==> s.trace[k] == n - 1 - k
  {
    Reachable(n, s);
  }

  /** No wake-up is lost: from a child's first signal on, the child before it has been
      woken or has a signal pending, however early the signal came. */
  lemma NoLostWakeup(n: nat, s: State, i: nat)
    requires n >= 2 && Reaches(Steps(n), Init(n), s) && i + 1 < n
    ensures |s.children| == |s.pending| == n
    ensures var after := s.children[i + 1];
            after.Exited? || (after.Printed? && after.kills < Signals(n, i + 1)) ==>
              !s.children[i].Unborn? && (s.children[i].Started? ==> s.pending[i] > 0)
  {
    Reachable(n, s);
    assert ChildOk(n, s, i) && ChildOk(n, s, i + 1);
  }

  /** How often child i has acted after its print: its signals, and then its end. */
  function Acts(acts: seq<Action>, i: nat): nat {
    if acts == [] then 0
    else Acts(acts[..|acts| - 1], i) + if acts[|acts| - 1] == Kill(i) then 1 else 0
  }

  /** What a child has left to do after its print. */
  function ToSend(n: nat, x: Child, i: nat): nat {
    match x case Printed(kills) => kills + 1 case Exited => 0 case _ => Signals(n, i) + 1
  }

  lemma ToSendStep(n: nat, s: State, a: Action, i: nat)
    requires n >= 2 && Inv(n, s) && Step(n, s, a).Some? && i < n
    ensures var t := Step(n, s, a).value;
            && |t.children| == |s.children| == n && |t.pending| == |s.pending| == n
            && ToSend(n, t.children[i], i) + (if a == Kill(i) then 1 else 0) == ToSend(n, s.children[i], i)
    ensures var t := Step(n, s, a).value;
            forall j :: 0 <= j < n ==>
              t.pending[j] == s.pending[j]
                              + (if a == Kill(j + 1) && !t.children[j + 1].Exited? then 1 else 0)
                              - (if a.Wake? && a.i == j then a.m else 0)
  {
    assert ChildOk(n, s, i);
  }

  lemma {:induction false} SignalsAccounted(n: nat, acts: seq<Action>, i: nat)
    requires n >= 2 && i < n && Exec(Steps(n), Init(n), acts).Some?
    ensures var s := Exec(Steps(n), Init(n), acts).value;
            |s.children| == n && Acts(acts, i) + ToSend(n, s.children[i], i) == Signals(n, i) + 1
    decreases |acts|
  {
    if acts != [] {
      var before := acts[..|acts| - 1];
      ExecLast(Steps(n), Init(n), acts);
      SignalsAccounted(n, before, i);
      assert Reaches(Steps(n), Init(n), Exec(Steps(n), Init(n), before).value);
      Reachable(n, Exec(Steps(n), Init(n), before).value);
      ToSendStep(n, Exec(Steps(n), Init(n), before).value, acts[|acts| - 1], i);
    }
  }

  /** Once a child has ended it has signalled the one before it twice if it is the last,
      not at all if it is the first, and else once. */
  lemma SignalsSent(n: nat, acts: seq<Action>, i: nat)
    requires n >= 2 && i < n && Exec(Steps(n), Init(n), acts).Some?
    ensures var s := Exec(Steps(n), Init(n), acts).value;
            && |s.children| == n
            && (s.children[i].Exited? ==> Acts(acts, i) == 1 + if i == n - 1 then 2 else if i == 0 then 0 else 1)
  {
    SignalsAccounted(n, acts, i);
  }

  /** Steps a child has left. */
  function Rank(x: Child): nat {
    match x
    case Unborn => 6 case Started => 5 case Woken => 4
    case Printed(kills) => 1 + kills
    case Exited => 0
  }

  lemma RankStep(n: nat, s: State, a: Action)
    requires n >= 2 && Inv(n, s) && Step(n, s, a).Some?
    ensures Total(Step(n, s, a).value.children, Rank) < Total(s.children, Rank)
  {
    var i := if a.Fork? then s.forked else a.i;
    assert ChildOk(n, s, i);
    TotalUpdate(s.children, i, Step(n, s, a).value.children[i], Rank);
  }

  /** Until every child has ended, some step can be taken. */
  lemma CanStep(n: nat, s: State) returns (a: Action)
    requires n >= 2 && Inv(n, s) && exists i :: 0 <= i < n && !s.children[i].Exited?
    ensures Step(n, s, a).Some?
  {
    if s.forked < n {
      return Fork;
    }
    var i :| 0 <= i < n && !s.children[i].Exited?;
    assert ChildOk(n, s, i);
    if s.children[i].Printed? {
      return Kill(i);
    }
    var next := n - 1 - |s.trace|;
    assert ChildOk(n, s, next);
    if next < n - 1 && s.children[next].Started? {
      assert ChildOk(n, s, next + 1);
      return if s.children[next + 1].Printed? then Kill(next + 1) else Wake(next, 1);
    }
    return Print(next);
  }

  lemma NotStuck(n: nat, s: State)
    requires n >= 2 && Inv(n, s) && exists i :: 0 <= i < n && !s.children[i].Exited?
    ensures !Stuck(Steps(n), s)
  {
    var a := CanStep(n, s);
    assert Steps(n)(s, a).Some?;
  }

  /** Every schedule is finite, and one that cannot be prolonged has printed the whole
      sequence n - 1, ..., 0 and ended every child. */
  lemma EveryRunEnds(n: nat, acts: seq<Action>)
    requires n >= 2 && Exec(Steps(n), Init(n), acts).Some?
    ensures |acts| <= 6 * n
    ensures var s := Exec(Steps(n), Init(n), acts).value;
            Stuck(Steps(n), s) ==>
              && |s.children| == n && (forall i :: 0 <= i < n ==> s.children[i].Exited?)
              && s.trace == seq(n, k => n - 1 - k)
  {
    InvInit(n);
    forall t, a | Inv(n, t) && Steps(n)(t, a).Some?
      ensures Inv(n, Steps(n)(t, a).value) && Total(Steps(n)(t, a).value.children, Rank) < Total(t.children, Rank)
    {
      InvStep(n, t, a);
      RankStep(n, t, a);
    }
    RunsAreBounded(Steps(n), t => Inv(n, t), (t: State) => Total(t.children, Rank), Init(n), acts);
    TotalConstant(Init(n).children, 6, Rank);
    InvariantOnRuns(Steps(n), t => Inv(n, t), Init(n), acts);
    var s := Exec(Steps(n), Init(n), acts).value;
    if Stuck(Steps(n), s) {
      WhenStuck(n, s);
    }
  }

  lemma WhenStuck(n: nat, s: State)
    requires n >= 2 && Inv(n, s) && Stuck(Steps(n), s)
    ensures forall i :: 0 <= i < n ==> s.children[i].Exited?
    ensures |s.trace| == n
  {
    if i :| 0 <= i < n && !s.children[i].Exited? {
      NotStuck(n, s);
    }
    assert ChildOk(n, s, 0);
  }
}
