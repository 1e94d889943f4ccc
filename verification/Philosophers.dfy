/** The dining philosophers: a fork array guarded by one regulator semaphore, and a
    gate semaphore per fork that a refused philosopher goes through. */
module Philosophers {
  import opened Wrappers
  import opened Totals
  import opened Runs

  /** Places of the loop, in the order of the code: at the regulator, testing the
      forks, forks taken, eating until the regulator is asked for again, putting the
      forks back, forks put back, refused, before and inside the left gate, before
      and inside the right gate. */
  datatype Place =
    | Waiting | Testing | Taken | Eating | Putting | Put | Refused
    | LeftGate | InLeft | RightGate | InRight

  /** A philosopher with its flags gauche and droite. */
  datatype Philosopher = Philosopher(at: Place, gauche: bool, droite: bool)

  datatype State = State(forks: seq<nat>, gates: seq<nat>, regulator: nat, table: seq<Philosopher>)

  function Right(n: nat, i: nat): (r: nat)
    requires i < n
    ensures r == if i == n - 1 then 0 else i + 1
  {
    (i + 1) % n
  }

  function Init(n: nat): State {
    State(seq(n, _ => 1), seq(n, _ => 1), 1, seq(n, _ => Philosopher(Waiting, false, false)))
  }

  /** Both forks of philosopher i set to v. */
  function SetForks(forks: seq<nat>, i: nat, v: nat): seq<nat>
    requires i < |forks|
  {
    forks[i := v][Right(|forks|, i) := v]
  }

  /** Lines 144-151: raise the flags of missing forks, and take both if neither is. */
  function Test(s: State, i: nat): State
    requires i < |s.table| == |s.forks|
  {
    var p := s.table[i];
    var gauche := p.gauche || s.forks[i] == 0;
    var droite := p.droite || s.forks[Right(|s.forks|, i)] == 0;
    if !gauche && !droite then
      s.(forks := SetForks(s.forks, i, 0), table := s.table[i := Philosopher(Taken, false, false)])
    else
      s.(table := s.table[i := Philosopher(Refused, gauche, droite)])
  }

  function Move(s: State, i: nat, at: Place): State
    requires i < |s.table|
  {
    s.(table := s.table[i := s.table[i].(at := at)])
  }

  /** Where the philosopher goes after the left gate, and after the right one. */
  function AfterLeft(p: Philosopher): Philosopher {
    if p.droite then p.(at := RightGate) else Philosopher(Waiting, false, false)
  }

  function Gates(p: Philosopher): Philosopher {
    if p.gauche then p.(at := LeftGate) else AfterLeft(p)
  }

  /** The next step of philosopher i: one semaphore operation or one access to the
      forks under the regulator. */
  function Step(s: State, i: nat): Option<State> {
    if i >= |s.table| || |s.forks| != |s.table| || |s.gates| != |s.table| then None
    else
      var n := |s.table|;
      var p := s.table[i];
      match p.at
      case Waiting =>
        if s.regulator > 0 then Some(Move(s.(regulator := s.regulator - 1), i, Testing)) else None
      case Testing => Some(Test(s, i))
      case Taken => Some(Move(s.(regulator := s.regulator + 1), i, Eating))
      case Eating =>
        if s.regulator > 0 then Some(Move(s.(regulator := s.regulator - 1), i, Putting)) else None
      case Putting => Some(Move(s.(forks := SetForks(s.forks, i, 1)), i, Put))
      case Put =>
        Some(s.(regulator := s.regulator + 1, table := s.table[i := Gates(p)]))
      case Refused =>
        Some(s.(regulator := s.regulator + 1, table := s.table[i := Gates(p)]))
      case LeftGate =>
        if s.gates[i] > 0 then Some(Move(s.(gates := s.gates[i := s.gates[i] - 1]), i, InLeft)) else None
      case InLeft =>
        Some(s.(gates := s.gates[i := s.gates[i] + 1], table := s.table[i := AfterLeft(p)]))
      case RightGate =>
        var r := Right(n, i);
        if s.gates[r] > 0 then Some(Move(s.(gates := s.gates[r := s.gates[r] - 1]), i, InRight)) else None
      case InRight =>
        var r := Right(n, i);
        Some(s.(gates := s.gates[r := s.gates[r] + 1], table := s.table[i := Philosopher(Waiting, false, false)]))
  }

  function Steps(): (State, nat) -> Option<State> { (s: State, i: nat) => Step(s, i) }

  // ----- The invariant -----

  /** The philosopher holds both its forks. */
  function Holds(p: Philosopher): nat { if p.at.Taken? || p.at.Eating? || p.at.Putting? then 1 else 0 }

  /** The philosopher is inside the regulator's critical section. */
  function Critical(p: Philosopher): nat {
    if p.at.Testing? || p.at.Taken? || p.at.Putting? || p.at.Put? || p.at.Refused? then 1 else 0
  }

  function Left(n: nat, k: nat): (r: nat)
    requires k < n
    ensures r < n
  {
    if k == 0 then n - 1 else k - 1
  }

  function InsideLeft(p: Philosopher): nat { if p.at.InLeft? then 1 else 0 }
  function InsideRight(p: Philosopher): nat { if p.at.InRight? then 1 else 0 }

  /** A fork is on the table or with exactly one of the two philosophers beside it. */
  ghost predicate ForkOk(s: State, k: nat)
    requires k < |s.table| == |s.forks|
  {
    s.forks[k] + Holds(s.table[k]) + Holds(s.table[Left(|s.table|, k)]) == 1
  }

  /** A gate is open or has exactly one of its two philosophers inside. */
  ghost predicate GateOk(s: State, k: nat)
    requires k < |s.table| == |s.gates|
  {
    s.gates[k] + InsideLeft(s.table[k]) + InsideRight(s.table[Left(|s.table|, k)]) == 1
  }

  /** Flags are up only from a refusal to the end of the gates. */
  ghost predicate FlagsOk(p: Philosopher) {
    match p.at
    case Refused => p.gauche || p.droite
    case LeftGate => p.gauche
    case InLeft => p.gauche
    case RightGate => p.droite
    case InRight => p.droite
    case _ => !p.gauche && !p.droite
  }

  ghost predicate Inv(n: nat, s: State) {
    && |s.table| == n && |s.forks| == n && |s.gates| == n
    && s.regulator + Total(s.table, Critical) == 1
    && (forall k :: 0 <= k < n ==> ForkOk(s, k))
    && (forall k :: 0 <= k < n ==> GateOk(s, k))
    && (forall k :: 0 <= k < n ==> FlagsOk(s.table[k]))
  }

  lemma InvInit(n: nat)
    ensures Inv(n, Init(n))
  {
    TotalConstant(Init(n).table, 0, Critical);
  }

  /** The fork beside a philosopher that moves, and any other fork. */
  lemma ForkStep(s: State, i: nat, k: nat)
    requires |s.table| == |s.forks| == |s.gates| >= 2 && Step(s, i).Some?
    requires k < |s.table| && ForkOk(s, k) && FlagsOk(s.table[i])
    ensures var t := Step(s, i).value;
            |t.table| == |t.forks| == |s.table| && ForkOk(t, k)
  {
  }

  /** Only the four places around the gates touch them. */
  lemma GateStep(s: State, i: nat, k: nat)
    requires |s.table| == |s.forks| == |s.gates| >= 2 && Step(s, i).Some?
    requires k < |s.table| && GateOk(s, k)
    ensures var t := Step(s, i).value;
            |t.table| == |t.gates| == |s.table| && GateOk(t, k)
  {
    if s.table[i].at.LeftGate? || s.table[i].at.InLeft? {
      LeftGateStep(s, i, k);
    } else if s.table[i].at.RightGate? || s.table[i].at.InRight? {
      RightGateStep(s, i, k);
    } else {
      FreeStep(s, i);
    }
  }

  lemma LeftGateStep(s: State, i: nat, k: nat)
    requires |s.table| == |s.forks| == |s.gates| >= 2 && Step(s, i).Some?
    requires k < |s.table| && GateOk(s, k) && (s.table[i].at.LeftGate? || s.table[i].at.InLeft?)
    ensures var t := Step(s, i).value;
            |t.table| == |t.gates| == |s.table| && GateOk(t, k)
  {
  }

  lemma RightGateStep(s: State, i: nat, k: nat)
    requires |s.table| == |s.forks| == |s.gates| >= 2 && Step(s, i).Some?
    requires k < |s.table| && GateOk(s, k) && (s.table[i].at.RightGate? || s.table[i].at.InRight?)
    ensures var t := Step(s, i).value;
            |t.table| == |t.gates| == |s.table| && GateOk(t, k)
  {
  }

  lemma FreeStep(s: State, i: nat)
    requires |s.table| == |s.forks| == |s.gates| && Step(s, i).Some?
    requires !s.table[i].at.LeftGate? && !s.table[i].at.InLeft? && !s.table[i].at.RightGate? && !s.table[i].at.InRight?
    ensures var t := Step(s, i).value;
            && t.gates == s.gates && t.table == s.table[i := t.table[i]]
            && InsideLeft(t.table[i]) == 0 && InsideRight(t.table[i]) == 0
  {
  }

  lemma FlagsStep(s: State, i: nat)
    requires |s.table| == |s.forks| == |s.gates| && Step(s, i).Some? && FlagsOk(s.table[i])
    ensures var t := Step(s, i).value;
            && |t.table| == |t.forks| == |t.gates| == |s.table|
            && FlagsOk(t.table[i]) && t.table == s.table[i := t.table[i]]
    ensures var t := Step(s, i).value;
            t.regulator + Critical(t.table[i]) == s.regulator + Critical(s.table[i])
  {
  }

  /** A step keeps every fork and gate accounted for when there are two or more. */
  lemma InvStep(n: nat, s: State, i: nat)
    requires n >= 2 && Inv(n, s) && Step(s, i).Some?
    ensures Inv(n, Step(s, i).value)
  {
    var t := Step(s, i).value;
    FlagsStep(s, i);
    TotalUpdate(s.table, i, t.table[i], Critical);
    forall k | 0 <= k < n ensures ForkOk(t, k) && GateOk(t, k) && FlagsOk(t.table[k]) {
      ForkStep(s, i, k);
      GateStep(s, i, k);
    }
  }

  function Free(f: nat): nat { f }

  /** Setting two forks alike. */
  lemma TwoForks(forks: seq<nat>, i: nat, v: nat)
    requires |forks| >= 2 && i < |forks|
    ensures Total(SetForks(forks, i, v), Free) + forks[i] + forks[Right(|forks|, i)] == Total(forks, Free) + 2 * v
  {
    TotalUpdate(forks, i, v, Free);
    TotalUpdate(forks[i := v], Right(|forks|, i), v, Free);
  }

  /** A step that sets forks sets both of philosopher i, from 1 to 0 or from 0 to 1. */
  lemma ForksSet(s: State, i: nat)
    requires |s.table| == |s.forks| == |s.gates| >= 2 && Step(s, i).Some?
    requires ForkOk(s, i) && ForkOk(s, Right(|s.table|, i)) && FlagsOk(s.table[i])
    ensures var t, r := Step(s, i).value, Right(|s.table|, i);
            || (t.forks == s.forks && Holds(t.table[i]) == Holds(s.table[i]))
            || (t.forks == SetForks(s.forks, i, 0) && s.forks[i] == s.forks[r] == 1
                && Holds(t.table[i]) == 1 && Holds(s.table[i]) == 0)
            || (t.forks == SetForks(s.forks, i, 1) && s.forks[i] == s.forks[r] == 0
                && Holds(t.table[i]) == 0 && Holds(s.table[i]) == 1)
  {
  }

  /** Each philosopher that takes or puts back forks moves exactly two. */
  lemma FreeForksStep(s: State, i: nat)
    requires |s.table| == |s.forks| == |s.gates| >= 2 && Step(s, i).Some?
    requires ForkOk(s, i) && ForkOk(s, Right(|s.table|, i)) && FlagsOk(s.table[i])
    ensures var t := Step(s, i).value;
            Total(t.forks, Free) + 2 * Total(t.table, Holds) == Total(s.forks, Free) + 2 * Total(s.table, Holds)
  {
    var t := Step(s, i).value;
    FlagsStep(s, i);
    TotalUpdate(s.table, i, t.table[i], Holds);
    ForksSet(s, i);
    TwoForks(s.forks, i, t.forks[i]);
  }

  lemma Reachable(n: nat, s: State)
    requires n >= 2 && Reaches(Steps(), Init(n), s)
    ensures Inv(n, s) && Total(s.forks, Free) + 2 * Total(s.table, Holds) == n
  {
    InvInit(n);
    TotalConstant(Init(n).forks, 1, Free);
    TotalConstant(Init(n).table, 0, Holds);
    var inv := (t: State) => Inv(n, t) && Total(t.forks, Free) + 2 * Total(t.table, Holds) == n;
    forall t, i | inv(t) && Steps()(t, i).Some? ensures inv(Steps()(t, i).value) {
      InvStep(n, t, i);
      assert ForkOk(t, i) && ForkOk(t, Right(n, i));
      FreeForksStep(t, i);
    }
    InvariantReaches(Steps(), inv, Init(n), s);
  }

  // ----- Theorems -----

  /** A fork is off the table exactly when one of the two philosophers beside it has
      it, never both; so neighbours do not eat together, the free forks are
      n - 2 * holders, and at most half of the philosophers hold forks. */
  lemma ForkAccounting(n: nat, s: State, k: nat)
    requires n >= 2 && Reaches(Steps(), Init(n), s) && k < n
    ensures |s.table| == n && |s.forks| == n
    ensures s.forks[k] == 0 <==> Holds(s.table[k]) + Holds(s.table[Left(n, k)]) == 1
    ensures !(s.table[k].at.Eating? && s.table[Left(n, k)].at.Eating?)
    ensures Total(s.forks, Free) == n - 2 * Total(s.table, Holds)
    ensures Total(s.table, Holds) <= n / 2
  {
    Reachable(n, s);
    assert ForkOk(s, k);
  }

  /** Steps left on the way back to the regulator. */
  function Rank(p: Philosopher): nat {
    match p.at
    case Testing => 10 case Taken => 9 case Eating => 8 case Putting => 7 case Put => 6
    case Refused => 5 case LeftGate => 4 case InLeft => 3 case RightGate => 2 case InRight => 1
    case Waiting => 0
  }

  predicate AllWaiting(s: State) { forall i :: 0 <= i < |s.table| ==> s.table[i].at.Waiting? }

  /** Unless all wait at the regulator, someone can take a step towards it. */
  lemma SomeoneReturns(n: nat, s: State) returns (i: nat)
    requires Inv(n, s) && !AllWaiting(s)
    ensures i < n && !s.table[i].at.Waiting? && Step(s, i).Some?
  {
    TotalPositive(s.table, Critical);
    if j :| 0 <= j < n && Critical(s.table[j]) > 0 {
      return j;
    }
    i :| 0 <= i < n && !s.table[i].at.Waiting?;
    assert Critical(s.table[i]) == 0;
    if s.table[i].at.LeftGate? && s.gates[i] == 0 {
      assert GateOk(s, i);
      i := Left(n, i);
    } else if s.table[i].at.RightGate? && s.gates[Right(n, i)] == 0 {
      assert GateOk(s, Right(n, i));
      i := Right(n, i);
    }
  }

  lemma ReturnLowersRank(n: nat, s: State, i: nat)
    requires Inv(n, s) && i < n && !s.table[i].at.Waiting? && Step(s, i).Some?
    ensures Total(Step(s, i).value.table, Rank) < Total(s.table, Rank)
  {
    FlagsStep(s, i);
    TotalUpdate(s.table, i, Step(s, i).value.table[i], Rank);
  }

  /** No reachable state is stuck, whoever sits inside the gates. */
  lemma NoDeadlock(n: nat, s: State)
    requires n >= 2 && Reaches(Steps(), Init(n), s)
    ensures !Stuck(Steps(), s)
  {
    Reachable(n, s);
    if AllWaiting(s) {
      TotalConstant(s.table, 0, Critical);
      assert Steps()(s, 0).Some?;
    } else {
      var i := SomeoneReturns(n, s);
      assert Steps()(s, i).Some?;
    }
  }

  /** Everybody can be brought back to the regulator. */
  lemma AllCanWait(n: nat, s: State) returns (t: State)
    requires n >= 2 && Inv(n, s)
    ensures Reaches(Steps(), s, t) && Inv(n, t) && AllWaiting(t)
  {
    var inv := (u: State) => Inv(n, u);
    var goal := (u: State) => AllWaiting(u);
    var mu := (u: State) => Total(u.table, Rank);
    forall u | inv(u) && !goal(u)
      ensures exists i :: Steps()(u, i).Some? && inv(Steps()(u, i).value) && mu(Steps()(u, i).value) < mu(u)
    {
      var i := SomeoneReturns(n, u);
      InvStep(n, u, i);
      ReturnLowersRank(n, u, i);
      assert Steps()(u, i).Some?;
    }
    t := GoalReached(Steps(), inv, goal, mu, s);
  }

  /** From every reachable state every philosopher can still come to eat. */
  lemma EveryoneCanEat(n: nat, s: State, i: nat)
    requires n >= 2 && Reaches(Steps(), Init(n), s) && i < n
    ensures exists t :: Reaches(Steps(), s, t) && i < |t.table| && t.table[i].at.Eating?
  {
    Reachable(n, s);
    var u := AllCanWait(n, s);
    TotalConstant(u.table, 0, Critical);
    assert ForkOk(u, i) && ForkOk(u, Right(n, i)) && FlagsOk(u.table[i]);
    var u1 := Step(u, i).value;
    var u2 := Step(u1, i).value;
    var u3 := Step(u2, i).value;
    ReachesNext(Steps(), s, u, i);
    ReachesNext(Steps(), s, u1, i);
    ReachesNext(Steps(), s, u2, i);
    assert u3.table[i].at.Eating?;
  }

  // ----- The way through the loop -----

  /** The places of a philosopher that tests its forks, with the flags its test raises:
      a meal when none is missing, else the gates of the missing forks, the left one
      first. */
  function Route(gauche: bool, droite: bool): seq<Place> {
    if !gauche && !droite then [Testing, Taken, Eating, Putting, Put, Waiting]
    else
      [Testing, Refused]
      + (if gauche then [LeftGate, InLeft] else []) + (if droite then [RightGate, InRight] else [])
      + [Waiting]
  }

  /** All four routes. */
  lemma Routes()
    ensures Route(false, false) == [Testing, Taken, Eating, Putting, Put, Waiting]
    ensures Route(true, false) == [Testing, Refused, LeftGate, InLeft, Waiting]
    ensures Route(false, true) == [Testing, Refused, RightGate, InRight, Waiting]
    ensures Route(true, true) == [Testing, Refused, LeftGate, InLeft, RightGate, InRight, Waiting]
  {
  }

  /** The philosopher at one of these places. */
  function Standing(gauche: bool, droite: bool, j: nat): Philosopher
    requires j < |Route(gauche, droite)|
  {
    var at := Route(gauche, droite)[j];
    Philosopher(at, gauche && !at.Waiting?, droite && !at.Waiting?)
  }

  /** The test raises exactly the flags of the missing forks. */
  lemma TestRaises(s: State, i: nat)
    requires Step(s, i).Some? && s.table[i] == Philosopher(Testing, false, false)
    ensures var t, r := Step(s, i).value, Right(|s.table|, i);
            |t.table| == |s.table| && t.table[i] == Standing(s.forks[i] == 0, s.forks[r] == 0, 1)
  {
  }

  lemma OwnStep(s: State, i: nat, gauche: bool, droite: bool, j: nat)
    requires Step(s, i).Some? && 1 <= j < |Route(gauche, droite)| - 1
    requires s.table[i] == Standing(gauche, droite, j)
    ensures var t := Step(s, i).value;
            |t.table| == |s.table| && t.table[i] == Standing(gauche, droite, j + 1)
  {
  }

  lemma OtherStep(s: State, i: nat, k: nat)
    requires Step(s, k).Some? && i != k && i < |s.table|
    ensures var t := Step(s, k).value;
            |t.table| == |s.table| && t.table[i] == s.table[i]
  {
  }

  /** The steps of philosopher i in a schedule. */
  function Turns(acts: seq<nat>, i: nat): nat {
    if acts == [] then 0 else (if acts[0] == i then 1 else 0) + Turns(acts[1..], i)
  }

  lemma {:induction false} FollowsRoute(s: State, acts: seq<nat>, i: nat, gauche: bool, droite: bool, j: nat)
    requires i < |s.table| && 1 <= j && j + Turns(acts, i) < |Route(gauche, droite)|
    requires s.table[i] == Standing(gauche, droite, j) && Exec(Steps(), s, acts).Some?
    ensures var t := Exec(Steps(), s, acts).value;
            i < |t.table| && t.table[i] == Standing(gauche, droite, j + Turns(acts, i))
    decreases |acts|
  {
    if acts != [] {
      var t := Step(s, acts[0]).value;
      if acts[0] == i {
        OwnStep(s, i, gauche, droite, j);
        FollowsRoute(t, acts[1..], i, gauche, droite, j + 1);
      } else {
        OtherStep(s, i, acts[0]);
        FollowsRoute(t, acts[1..], i, gauche, droite, j);
      }
    }
  }

  /** From its test on a philosopher goes, step by step and whatever the others do
      meanwhile, through a meal exactly when both its forks were on the table at the
      test, and else through the gate of fork i when that one was missing, then through
      the gate of fork i + 1 when that one was missing, and back to the regulator. */
  lemma RouteAfterTest(n: nat, s: State, i: nat, acts: seq<nat>)
    requires n >= 2 && Reaches(Steps(), Init(n), s)
    requires Step(s, i).Some? && s.table[i].at.Testing? && Exec(Steps(), Step(s, i).value, acts).Some?
    requires 1 + Turns(acts, i) < |Route(s.forks[i] == 0, s.forks[Right(|s.table|, i)] == 0)|
    ensures var t := Exec(Steps(), Step(s, i).value, acts).value;
            && i < |t.table|
            && t.table[i].at == Route(s.forks[i] == 0, s.forks[Right(|s.table|, i)] == 0)[1 + Turns(acts, i)]
  {
    Reachable(n, s);
    assert FlagsOk(s.table[i]);
    TestRaises(s, i);
    FollowsRoute(Step(s, i).value, acts, i, s.forks[i] == 0, s.forks[Right(|s.table|, i)] == 0, 1);
  }

  /** Which semaphore each place uses: the gate of fork i on the left, that of fork
      i + 1 on the right, and the regulator everywhere else. */
  lemma SemaphoresUsed(s: State, i: nat)
    requires Step(s, i).Some?
    ensures var t, at, r := Step(s, i).value, s.table[i].at, Right(|s.table|, i);
            match at
            case LeftGate => t == s.(gates := s.gates[i := s.gates[i] - 1], table := t.table)
            case InLeft => t == s.(gates := s.gates[i := s.gates[i] + 1], table := t.table)
            case RightGate => t == s.(gates := s.gates[r := s.gates[r] - 1], table := t.table)
            case InRight => t == s.(gates := s.gates[r := s.gates[r] + 1], table := t.table)
            case _ => t.gates == s.gates
  {
  }

  // ----- Starvation -----

  /** The steps that do not leave philosopher i with its forks in hand. */
  function StepsWithoutMeal(i: nat): (State, nat) -> Option<State> {
    (s: State, k: nat) =>
      match Step(s, k)
      case None => None
      case Some(t) => if i < |t.table| && Holds(t.table[i]) == 1 then None else Some(t)
  }

  const AT_REGULATOR := Philosopher(Waiting, false, false)

  /** The right neighbour of philosopher i eats, all others are at the regulator. */
  function Hungry(n: nat, i: nat): (s: State)
    requires i < n
    ensures |s.table| == |s.forks| == |s.gates| == n
  {
    var r := Right(n, i);
    State(SetForks(seq(n, _ => 1), r, 0), seq(n, _ => 1), 1,
          seq(n, _ => AT_REGULATOR)[r := Philosopher(Eating, false, false)])
  }

  /** A schedule from Hungry in which i never has its forks. */
  ghost predicate Starving(n: nat, i: nat, acts: seq<nat>, s: State)
    requires i < n
  {
    Exec(StepsWithoutMeal(i), Hungry(n, i), acts) == Some(s)
  }

  lemma Grow(n: nat, i: nat, acts: seq<nat>, s: State, k: nat) returns (more: seq<nat>, t: State)
    requires i < n && Starving(n, i, acts, s) && StepsWithoutMeal(i)(s, k).Some?
    ensures more == acts + [k] && Step(s, k) == Some(t) && Starving(n, i, more, t)
  {
    ExecSnoc(StepsWithoutMeal(i), Hungry(n, i), acts, k);
    more, t := acts + [k], StepsWithoutMeal(i)(s, k).value;
  }

  /** One philosopher k away from its place in Hungry, and the regulator. */
  function With(n: nat, i: nat, k: nat, p: Philosopher, regulator: nat): State
    requires i < n && k < n
  {
    var h := Hungry(n, i);
    h.(regulator := regulator, table := h.table[k := p])
  }

  /** Through the left gate, or past it. */
  lemma PassLeft(n: nat, i: nat, k: nat, p: Philosopher, before: seq<nat>) returns (acts: seq<nat>)
    requires 2 <= n && i < n && k < n && k != Right(n, i)
    requires Starving(n, i, before, With(n, i, k, Gates(p), 1)) && k in before
    ensures Starving(n, i, acts, With(n, i, k, AfterLeft(p), 1)) && k in acts
  {
    acts := before;
    if p.gauche {
      var s;
      acts, s := Grow(n, i, acts, With(n, i, k, Gates(p), 1), k);
      acts, s := Grow(n, i, acts, s, k);
      assert s.table == With(n, i, k, AfterLeft(p), 1).table && s.gates == Hungry(n, i).gates;
    }
  }

  lemma PassRight(n: nat, i: nat, k: nat, p: Philosopher, before: seq<nat>) returns (acts: seq<nat>)
    requires 2 <= n && i < n && k < n && k != Right(n, i)
    requires Starving(n, i, before, With(n, i, k, AfterLeft(p), 1)) && k in before
    ensures Starving(n, i, acts, Hungry(n, i)) && k in acts
  {
    acts := before;
    var s := With(n, i, k, AfterLeft(p), 1);
    if p.droite {
      acts, s := Grow(n, i, acts, s, k);
      acts, s := Grow(n, i, acts, s, k);
    }
    assert s.table == Hungry(n, i).table && s.gates == Hungry(n, i).gates;
  }

  /** Philosopher k comes to test its forks. */
  lemma ComesToTest(n: nat, i: nat, k: nat) returns (acts: seq<nat>)
    requires 2 <= n && i < n && k < n && k != Right(n, i)
    ensures Starving(n, i, acts, With(n, i, k, Philosopher(Testing, false, false), 0)) && k in acts
  {
    var s := Hungry(n, i);
    acts, s := Grow(n, i, [], s, k);
  }

  /** If one is missing it is refused. */
  lemma IsRefused(n: nat, i: nat, k: nat) returns (p: Philosopher, acts: seq<nat>)
    requires 2 <= n && i < n && k < n && k != Right(n, i)
    requires Hungry(n, i).forks[k] == 0 || Hungry(n, i).forks[Right(n, k)] == 0
    ensures p.at.Refused? && Starving(n, i, acts, With(n, i, k, p, 0)) && k in acts
  {
    var before := ComesToTest(n, i, k);
    var s := With(n, i, k, Philosopher(Testing, false, false), 0);
    p := Philosopher(Refused, s.forks[k] == 0, s.forks[Right(n, k)] == 0);
    acts, s := Grow(n, i, before, s, k);
    assert s.table == With(n, i, k, p, 0).table;
  }

  /** It gives the regulator back. */
  lemma GoesToGates(n: nat, i: nat, k: nat, p: Philosopher, before: seq<nat>) returns (acts: seq<nat>)
    requires 2 <= n && i < n && k < n && k != Right(n, i) && p.at.Refused?
    requires Starving(n, i, before, With(n, i, k, p, 0)) && k in before
    ensures Starving(n, i, acts, With(n, i, k, Gates(p), 1)) && k in acts
  {
    var s;
    acts, s := Grow(n, i, before, With(n, i, k, p, 0), k);
    assert s.table == With(n, i, k, Gates(p), 1).table;
  }

  /** Then it passes the gates. */
  lemma RefusedRound(n: nat, i: nat, k: nat) returns (acts: seq<nat>)
    requires 2 <= n && i < n && k < n && k != Right(n, i)
    requires Hungry(n, i).forks[k] == 0 || Hungry(n, i).forks[Right(n, k)] == 0
    ensures Starving(n, i, acts, Hungry(n, i)) && k in acts
  {
    var p;
    p, acts := IsRefused(n, i, k);
    acts := GoesToGates(n, i, k, p, acts);
    acts := PassLeft(n, i, k, p, acts);
    acts := PassRight(n, i, k, p, acts);
  }

  /** Another one has a meal. */
  lemma Meal(n: nat, i: nat, k: nat) returns (acts: seq<nat>)
    requires 2 <= n && i < n && k < n && k != Right(n, i)
    requires Hungry(n, i).forks[k] == 1 && Hungry(n, i).forks[Right(n, k)] == 1
    ensures Starving(n, i, acts, Hungry(n, i)) && k in acts
  {
    var s := Hungry(n, i);
    assert k != i;
    acts, s := Grow(n, i, [], s, k);
    acts, s := Grow(n, i, acts, s, k);
    acts, s := Grow(n, i, acts, s, k);
    assert s == With(n, i, k, Philosopher(Eating, false, false), 1).(forks := SetForks(Hungry(n, i).forks, k, 0));
    acts, s := Grow(n, i, acts, s, k);
    acts, s := Grow(n, i, acts, s, k);
    acts, s := Grow(n, i, acts, s, k);
    assert s.table == Hungry(n, i).table && s.forks == Hungry(n, i).forks;
  }

  /** The one that eats puts its forks back and takes them again. */
  lemma EatAgain(n: nat, i: nat) returns (acts: seq<nat>)
    requires 2 <= n && i < n
    ensures Starving(n, i, acts, Hungry(n, i)) && Right(n, i) in acts
  {
    var r := Right(n, i);
    var s := Hungry(n, i);
    acts, s := Grow(n, i, [], s, r);
    acts, s := Grow(n, i, acts, s, r);
    acts, s := Grow(n, i, acts, s, r);
    assert s == With(n, i, r, AT_REGULATOR, 1).(forks := SetForks(Hungry(n, i).forks, r, 1));
    acts, s := Grow(n, i, acts, s, r);
    acts, s := Grow(n, i, acts, s, r);
    acts, s := Grow(n, i, acts, s, r);
    assert s.table == Hungry(n, i).table && s.forks == Hungry(n, i).forks;
  }

  lemma TakesPart(n: nat, i: nat, k: nat) returns (acts: seq<nat>)
    requires 2 <= n && i < n && k < n
    ensures Starving(n, i, acts, Hungry(n, i)) && k in acts
  {
    if k == Right(n, i) {
      acts := EatAgain(n, i);
    } else if Hungry(n, i).forks[k] == 0 || Hungry(n, i).forks[Right(n, k)] == 0 {
      acts := RefusedRound(n, i, k);
    } else {
      acts := Meal(n, i, k);
    }
  }

  lemma TwoCycles(n: nat, i: nat, first: seq<nat>, last: seq<nat>)
    requires i < n && Starving(n, i, first, Hungry(n, i)) && Starving(n, i, last, Hungry(n, i))
    ensures Starving(n, i, first + last, Hungry(n, i))
  {
    ExecConcat(StepsWithoutMeal(i), Hungry(n, i), first, last);
  }

  /** One after the other, the first m philosophers take part. */
  lemma {:induction false} ManyTakePart(n: nat, i: nat, m: nat) returns (acts: seq<nat>)
    requires 2 <= n && i < n && m <= n
    ensures Starving(n, i, acts, Hungry(n, i)) && forall k :: 0 <= k < m ==> k in acts
  {
    if m == 0 {
      acts := [];
    } else {
      var first := ManyTakePart(n, i, m - 1);
      var last := TakesPart(n, i, m - 1);
      TwoCycles(n, i, first, last);
      acts := first + last;
    }
  }

  lemma HungryReachable(n: nat, i: nat)
    requires 2 <= n && i < n
    ensures Reaches(Steps(), Init(n), Hungry(n, i))
  {
    var r := Right(n, i);
    var s0 := Init(n);
    assert Exec(Steps(), s0, []) == Some(s0);
    ReachesNext(Steps(), s0, s0, r);
    var s1 := Step(s0, r).value;
    ReachesNext(Steps(), s0, s1, r);
    var s2 := Step(s1, r).value;
    ReachesNext(Steps(), s0, s2, r);
    var s3 := Step(s2, r).value;
    assert s3.table == Hungry(n, i).table && s3.forks == Hungry(n, i).forks;
  }

  /** A philosopher alone is never refused, and unless it is given its forks it comes
      to a stop. */
  ghost predicate Alone(s: State) {
    && |s.table| == |s.forks| == |s.gates| == 1
    && !s.table[0].gauche && !s.table[0].droite
    && s.forks[0] + Holds(s.table[0]) == 1
    && (s.table[0].at.Waiting? || s.table[0].at.Testing? || s.table[0].at.Put? || Holds(s.table[0]) == 1)
  }

  function UntilForks(s: State): nat {
    if s.table == [] then 0
    else match s.table[0].at case Putting => 3 case Put => 2 case Waiting => 1 case _ => 0
  }

  lemma AloneStep(s: State, k: nat)
    requires Alone(s) && Step(s, k).Some?
    ensures Alone(Step(s, k).value)
    ensures StepsWithoutMeal(0)(s, k).Some? ==> UntilForks(Step(s, k).value) < UntilForks(s)
  {
  }

  lemma AloneNoCycle(s: State, acts: seq<nat>)
    requires Reaches(Steps(), Init(1), s) && Exec(StepsWithoutMeal(0), s, acts) == Some(s)
    ensures acts == []
  {
    forall t, k | Alone(t) && Steps()(t, k).Some? ensures Alone(Steps()(t, k).value) {
      AloneStep(t, k);
    }
    InvariantReaches(Steps(), t => Alone(t), Init(1), s);
    forall t, k | Alone(t) && StepsWithoutMeal(0)(t, k).Some?
      ensures Alone(StepsWithoutMeal(0)(t, k).value) && UntilForks(StepsWithoutMeal(0)(t, k).value) < UntilForks(t)
    {
      AloneStep(t, k);
    }
    RunsAreBounded(StepsWithoutMeal(0), t => Alone(t), UntilForks, s, acts);
  }

  /** A cycle of n philosophers in which all take part and i never has its forks. */
  ghost predicate Starves(n: nat, i: nat, s: State, acts: seq<nat>) {
    && Reaches(Steps(), Init(n), s) && Exec(StepsWithoutMeal(i), s, acts) == Some(s)
    && forall k :: 0 <= k < n ==> k in acts
  }

  /** Being able to eat is not being bound to: philosopher i can be passed over for
      ever, although it and all the others keep moving, exactly when it is not alone. */
  lemma StarvationIff(n: nat, i: nat)
    requires i < n
    ensures n >= 2 <==> exists s, acts :: Starves(n, i, s, acts)
  {
    if n >= 2 {
      HungryReachable(n, i);
      var acts := ManyTakePart(n, i, n);
      assert Starves(n, i, Hungry(n, i), acts);
    } else {
      forall s, acts ensures !Starves(n, i, s, acts) {
        if Starves(n, i, s, acts) {
          assert 0 in acts;
          AloneNoCycle(s, acts);
        }
      }
    }
  }

  // ----- The fork array -----

  /** The shared fork array of the program, used under the regulator. */
  class Forks {
    const baguettes: array<nat>

    constructor (n: nat)
      ensures fresh(baguettes) && baguettes[..] == Init(n).forks
    {
      baguettes := new nat[n];
      new;
      for i := 0 to n
        invariant forall k :: 0 <= k < i ==> baguettes[k] == 1
      {
        baguettes[i] := 1;
      }
    }

    /** Lines 144-151 for philosopher i with its flags: whether it took its forks. */
    method Take(i: nat, gauche0: bool, droite0: bool) returns (gauche: bool, droite: bool, taken: bool)
      requires i < baguettes.Length
      modifies baguettes
      ensures gauche == (gauche0 || old(baguettes[i]) == 0)
      ensures droite == (droite0 || old(baguettes[Right(baguettes.Length, i)]) == 0)
      ensures taken == (!gauche && !droite)
      ensures baguettes[..] == if taken then SetForks(old(baguettes[..]), i, 0) else old(baguettes[..])
      ensures taken ==> baguettes[i] == 0 && baguettes[Right(baguettes.Length, i)] == 0
    {
      gauche, droite, taken := gauche0, droite0, false;
      if baguettes[i] == 0 {
        gauche := true;
      }
      if baguettes[(i + 1) % baguettes.Length] == 0 {
        droite := true;
      }
      if !droite && !gauche {
        baguettes[i] := 0;
        baguettes[(i + 1) % baguettes.Length] := 0;
        taken := true;
      }
    }

    /** Line 155. */
    method PutBack(i: nat)
      requires i < baguettes.Length
      modifies baguettes
      ensures baguettes[..] == SetForks(old(baguettes[..]), i, 1)
      ensures baguettes[i] == 1 && baguettes[Right(baguettes.Length, i)] == 1
    {
      baguettes[i] := 1;
      baguettes[(i + 1) % baguettes.Length] := 1;
    }
  }
}
