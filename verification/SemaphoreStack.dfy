/** The stack guarded by an XSI semaphore set (TME04): semaphore 1 is the mutex,
    semaphore 0 wakes the poppers that nb_endormis counted as asleep. */
module SemaphoreStack {
  import opened Wrappers
  import opened Totals
  import opened Runs
  import opened BoundedStack

  /** Places in Pop and Push: at P(1), inside before the test, about to do V(1) after
      the test, at P(0); a push also wakes `i` sleepers, and stores after having woken
      `woken`. */
  datatype Place =
    | Idle
    | PopEnter | PopTest | PopUnlockEmpty | PopSleep | PopUnlock(c: char)
    | PushEnter(c: char) | PushTest(c: char) | PushWake(c: char, i: nat)
    | PushStore(c: char, woken: nat) | PushUnlock(c: char)

  /** A thread and the calls it has completed. */
  datatype Thread = Thread(at: Place, done: seq<Event>)

  /** `asleep` is nb_endormis, `sleep` semaphore 0, `mutex` semaphore 1; the log lists
      the calls in the order of their critical sections. */
  datatype State = State(
    mutex: nat, sleep: nat, asleep: nat, sp: nat, cells: seq<char>,
    threads: seq<Thread>, log: seq<Entry>)

  datatype Action = CallPop(k: nat) | CallPush(k: nat, c: char) | Go(k: nat)

  function Init(cap: nat, n: nat): State {
    State(1, 0, 0, 0, seq(cap, _ => NUL), seq(n, _ => Thread(Idle, [])), [])
  }

  function Move(s: State, k: nat, at: Place): State
    requires k < |s.threads|
  {
    s.(threads := s.threads[k := s.threads[k].(at := at)])
  }

  function Record(s: State, k: nat, e: Event): State {
    s.(log := s.log + [Entry(k, e)])
  }

  function Return(s: State, k: nat, e: Event): State
    requires k < |s.threads|
  {
    s.(threads := s.threads[k := Thread(Idle, s.threads[k].done + [e])])
  }

  /** Lines 72-80. */
  function PopBody(s: State, k: nat): State
    requires k < |s.threads| && s.sp <= |s.cells|
  {
    if s.sp <= 0 then Move(Record(s.(asleep := s.asleep + 1), k, Pop(NUL)), k, PopUnlockEmpty)
    else
      var c := s.cells[s.sp - 1];
      Move(Record(s.(sp := s.sp - 1), k, Pop(c)), k, PopUnlock(c))
  }

  /** Lines 100-102. */
  function StoreBody(s: State, k: nat, c: char): State
    requires k < |s.threads| && s.sp < |s.cells|
  {
    Move(Record(s.(asleep := 0, cells := s.cells[s.sp := c], sp := s.sp + 1), k, Push(c)), k, PushUnlock(c))
  }

  function Step(s: State, a: Action): Option<State> {
    if a.k >= |s.threads| || s.sp > |s.cells| then None
    else
      var k := a.k;
      var t := s.threads[k];
      match a
      case CallPop(_) => if t.at.Idle? then Some(Move(s, k, PopEnter)) else None
      case CallPush(_, c) => if t.at.Idle? then Some(Move(s, k, PushEnter(c))) else None
      case Go(_) =>
        match t.at
        case Idle => None
        case PopEnter => if s.mutex > 0 then Some(Move(s.(mutex := s.mutex - 1), k, PopTest)) else None
        case PopTest => Some(PopBody(s, k))
        case PopUnlockEmpty => Some(Move(s.(mutex := s.mutex + 1), k, PopSleep))
        case PopSleep => if s.sleep > 0 then Some(Return(s.(sleep := s.sleep - 1), k, Pop(NUL))) else None
        case PopUnlock(c) => Some(Return(s.(mutex := s.mutex + 1), k, Pop(c)))
        case PushEnter(c) => if s.mutex > 0 then Some(Move(s.(mutex := s.mutex - 1), k, PushTest(c))) else None
        case PushTest(c) =>
          if s.sp >= |s.cells| then Some(Move(Record(s, k, Push(c)), k, PushUnlock(c)))
          else if s.sp <= 0 then Some(Move(s, k, PushWake(c, 0)))
          else Some(Move(s, k, PushStore(c, 0)))
        case PushWake(c, i) =>
          if i < s.asleep then Some(Move(s.(sleep := s.sleep + 1), k, PushWake(c, i + 1)))
          else Some(Move(s, k, PushStore(c, i)))
        case PushStore(c, _) => if s.sp < |s.cells| then Some(StoreBody(s, k, c)) else None
        case PushUnlock(c) => Some(Return(s.(mutex := s.mutex + 1), k, Push(c)))
  }

  function Steps(): (State, Action) -> Option<State> { (s, a) => Step(s, a) }

  // ----- The invariant -----

  function Inside(t: Thread): nat {
    if t.at.Idle? || t.at.PopEnter? || t.at.PushEnter? || t.at.PopSleep? then 0 else 1
  }

  /** A popper that found the stack empty and has not finished P(0). */
  function Sleeper(t: Thread): nat { if t.at.PopUnlockEmpty? || t.at.PopSleep? then 1 else 0 }

  /** Tokens a push under way has posted for sleepers still counted in nb_endormis. */
  function Woken(t: Thread): nat {
    match t.at case PushWake(_, i) => i case PushStore(_, w) => w case _ => 0
  }

  /** The call a thread has made in its critical section and not returned from. */
  function Unreturned(p: Place): seq<Event> {
    match p
    case PopUnlockEmpty => [Pop(NUL)]
    case PopSleep => [Pop(NUL)]
    case PopUnlock(c) => [Pop(c)]
    case PushUnlock(c) => [Push(c)]
    case _ => []
  }

  /** A push under way relies on nb_endormis and on the stack pointer, which no other
      thread can change meanwhile. */
  ghost predicate PushOk(s: State, t: Thread) {
    && (t.at.PushWake? ==> t.at.i <= s.asleep && s.sp == 0 < |s.cells|)
    && (t.at.PushStore? ==> t.at.woken == s.asleep && s.sp < |s.cells|)
  }

  ghost predicate ThreadOk(s: State, k: nat)
    requires k < |s.threads|
  {
    var t := s.threads[k];
    OfThread(s.log, k) == t.done + Unreturned(t.at) && PushOk(s, t)
  }

  ghost predicate Inv(cap: nat, s: State) {
    && |s.cells| == cap && s.sp <= cap
    && s.mutex + Total(s.threads, Inside) == 1
    && Total(s.threads, Sleeper) + Total(s.threads, Woken) == s.sleep + s.asleep
    && (s.asleep > 0 ==> s.sp == 0)
    && LegalLog(cap, s.log) && s.cells[..s.sp] == Contents(cap, s.log)
    && forall k :: 0 <= k < |s.threads| ==> ThreadOk(s, k)
  }

  lemma InvInit(cap: nat, n: nat)
    ensures Inv(cap, Init(cap, n))
  {
    var s := Init(cap, n);
    TotalConstant(s.threads, 0, Inside);
    TotalConstant(s.threads, 0, Sleeper);
    TotalConstant(s.threads, 0, Woken);
  }

  lemma Counts(s: State, k: nat, x: Thread)
    requires k < |s.threads|
    ensures var t := s.threads[k := x];
            && Total(t, Inside) + Inside(s.threads[k]) == Total(s.threads, Inside) + Inside(x)
            && Total(t, Sleeper) + Sleeper(s.threads[k]) == Total(s.threads, Sleeper) + Sleeper(x)
            && Total(t, Woken) + Woken(s.threads[k]) == Total(s.threads, Woken) + Woken(x)
  {
    TotalUpdate(s.threads, k, x, Inside);
    TotalUpdate(s.threads, k, x, Sleeper);
    TotalUpdate(s.threads, k, x, Woken);
  }

  /** Two threads are never inside together. */
  lemma Exclusion(s: State, j: nat, k: nat)
    requires j < |s.threads| && k < |s.threads| && j != k
    requires s.mutex + Total(s.threads, Inside) == 1
    ensures Inside(s.threads[j]) + Inside(s.threads[k]) <= 1
  {
    TotalAtLeastTwo(s.threads, if j < k then j else k, if j < k then k else j, Inside);
  }

  /** What a step conserves: the mutex or its holder, and sleepers against tokens. */
  lemma LocalBalance(s: State, a: Action)
    requires Step(s, a).Some? && ThreadOk(s, a.k) && (s.asleep > 0 ==> s.sp == 0)
    ensures var t, k := Step(s, a).value, a.k;
            && |t.threads| == |s.threads| && t.threads == s.threads[k := t.threads[k]]
            && t.mutex + Inside(t.threads[k]) == s.mutex + Inside(s.threads[k])
            && Sleeper(t.threads[k]) + Woken(t.threads[k]) + s.sleep + s.asleep
               == Sleeper(s.threads[k]) + Woken(s.threads[k]) + t.sleep + t.asleep
            && (t.asleep > 0 ==> t.sp == 0)
  {
  }

  /** The array and the log move together. */
  lemma ContentsStep(cap: nat, s: State, a: Action)
    requires |s.cells| == cap && s.sp <= cap && Step(s, a).Some?
    requires LegalLog(cap, s.log) && s.cells[..s.sp] == Contents(cap, s.log)
    ensures var t := Step(s, a).value;
            && |t.cells| == cap && t.sp <= cap
            && LegalLog(cap, t.log) && t.cells[..t.sp] == Contents(cap, t.log)
  {
    var t := Step(s, a).value;
    if a.Go? && s.threads[a.k].at.PopTest? {
      PopBodyMatches(cap, s, a.k);
    } else if a.Go? && s.threads[a.k].at.PushStore? {
      StoreBodyMatches(cap, s, a.k, s.threads[a.k].at.c);
    } else if a.Go? && s.threads[a.k].at.PushTest? && s.sp >= cap {
      LogGrows(cap, s.log, Entry(a.k, Push(s.threads[a.k].at.c)));
    } else {
      assert t.log == s.log && t.cells == s.cells && t.sp == s.sp;
    }
  }

  lemma PopBodyMatches(cap: nat, s: State, k: nat)
    requires k < |s.threads| && |s.cells| == cap && s.sp <= cap
    requires LegalLog(cap, s.log) && s.cells[..s.sp] == Contents(cap, s.log)
    ensures var t := PopBody(s, k);
            && |t.cells| == cap && t.sp <= cap
            && LegalLog(cap, t.log) && t.cells[..t.sp] == Contents(cap, t.log)
  {
    if s.sp == 0 {
      LogGrows(cap, s.log, Entry(k, Pop(NUL)));
    } else {
      LogGrows(cap, s.log, Entry(k, Pop(s.cells[s.sp - 1])));
      assert s.cells[..s.sp][..s.sp - 1] == s.cells[..s.sp - 1];
    }
  }

  lemma StoreBodyMatches(cap: nat, s: State, k: nat, c: char)
    requires k < |s.threads| && |s.cells| == cap && s.sp < cap
    requires LegalLog(cap, s.log) && s.cells[..s.sp] == Contents(cap, s.log)
    ensures var t := StoreBody(s, k, c);
            && |t.cells| == cap && t.sp <= cap
            && LegalLog(cap, t.log) && t.cells[..t.sp] == Contents(cap, t.log)
  {
    LogGrows(cap, s.log, Entry(k, Push(c)));
    assert s.cells[s.sp := c][..s.sp + 1] == s.cells[..s.sp] + [c];
  }

  /** The call a step records in the log, if any. */
  function Recorded(s: State, a: Action): (r: seq<Event>)
    requires Step(s, a).Some?
  {
    if !a.Go? then []
    else
      match s.threads[a.k].at
      case PopTest => [Pop(if s.sp == 0 then NUL else s.cells[s.sp - 1])]
      case PushTest(c) => if s.sp >= |s.cells| then [Push(c)] else []
      case PushStore(c, _) => [Push(c)]
      case _ => []
  }

  /** A step records a call exactly when its thread gets it to return. */
  lemma RecordedIsReturned(s: State, a: Action)
    requires Step(s, a).Some?
    ensures var t, x, y := Step(s, a).value, s.threads[a.k], Step(s, a).value.threads[a.k];
            && t.threads == s.threads[a.k := y]
            && y.done + Unreturned(y.at) == x.done + Unreturned(x.at) + Recorded(s, a)
            && t.log == s.log + (if Recorded(s, a) == [] then [] else [Entry(a.k, Recorded(s, a)[0])])
            && |Recorded(s, a)| <= 1
  {
  }

  /** The log restricted to each thread after a step. */
  lemma CallsStep(s: State, a: Action, j: nat)
    requires Step(s, a).Some? && j < |s.threads|
    requires OfThread(s.log, j) == s.threads[j].done + Unreturned(s.threads[j].at)
    ensures var t := Step(s, a).value;
            && |t.threads| == |s.threads|
            && OfThread(t.log, j) == t.threads[j].done + Unreturned(t.threads[j].at)
  {
    RecordedIsReturned(s, a);
    RecordOfThread(s.log, a.k, Recorded(s, a), j);
    if j != a.k {
      assert OfThread(s.log, j) + [] == OfThread(s.log, j);
    }
  }

  /** A push under way is alone inside. */
  lemma PushStep(s: State, a: Action, j: nat)
    requires s.mutex + Total(s.threads, Inside) == 1 && Step(s, a).Some? && (s.asleep > 0 ==> s.sp == 0)
    requires j < |s.threads| && PushOk(s, s.threads[j])
    ensures var t := Step(s, a).value;
            |t.threads| == |s.threads| && PushOk(t, t.threads[j])
  {
    if j == a.k {
      OwnPushStep(s, a);
    } else if Inside(s.threads[j]) == 1 {
      Exclusion(s, j, a.k);
      OtherPushStep(s, a, j);
    }
  }

  lemma OwnPushStep(s: State, a: Action)
    requires Step(s, a).Some? && PushOk(s, s.threads[a.k]) && (s.asleep > 0 ==> s.sp == 0)
    ensures var t := Step(s, a).value;
            |t.threads| == |s.threads| && PushOk(t, t.threads[a.k])
  {
  }

  lemma OtherPushStep(s: State, a: Action, j: nat)
    requires s.mutex + Total(s.threads, Inside) == 1 && Step(s, a).Some? && Inside(s.threads[a.k]) == 0
    requires j < |s.threads| && j != a.k && PushOk(s, s.threads[j]) && Inside(s.threads[j]) == 1
    ensures var t := Step(s, a).value;
            |t.threads| == |s.threads| && PushOk(t, t.threads[j])
  {
    TotalAtLeast(s.threads, j, Inside);
  }

  lemma InvStep(cap: nat, s: State, a: Action)
    requires Inv(cap, s) && Step(s, a).Some?
    ensures Inv(cap, Step(s, a).value)
  {
    assert ThreadOk(s, a.k);
    LocalBalance(s, a);
    Counts(s, a.k, Step(s, a).value.threads[a.k]);
    ContentsStep(cap, s, a);
    forall j | 0 <= j < |s.threads| ensures ThreadOk(Step(s, a).value, j) {
      assert ThreadOk(s, j);
      CallsStep(s, a, j);
      PushStep(s, a, j);
    }
  }

  lemma Reachable(cap: nat, n: nat, s: State)
    requires Reaches(Steps(), Init(cap, n), s)
    ensures Inv(cap, s)
  {
    InvInit(cap, n);
    forall t, a | Inv(cap, t) && Steps()(t, a).Some? ensures Inv(cap, Steps()(t, a).value) {
      InvStep(cap, t, a);
    }
    InvariantReaches(Steps(), t => Inv(cap, t), Init(cap, n), s);
  }

  // ----- Theorems -----

  /** A thread's calls in the log are those it has returned from and the one it has
      made and not returned from. */
  lemma CallsInLog(cap: nat, n: nat, s: State, k: nat)
    requires Reaches(Steps(), Init(cap, n), s) && k < |s.threads|
    ensures OfThread(s.log, k) == s.threads[k].done + Unreturned(s.threads[k].at)
  {
    Reachable(cap, n, s);
    assert ThreadOk(s, k);
  }

  /** Under any interleaving the calls, taken in the order of their critical sections,
      are a history of the sequential stack, and that order keeps each thread's own:
      its completed calls with their results, then the one under way.  The array holds
      the sequential contents, and characters are neither lost nor invented. */
  lemma Linearizable(cap: nat, n: nat, s: State)
    requires Reaches(Steps(), Init(cap, n), s)
    ensures LegalLog(cap, s.log)
    ensures s.sp <= |s.cells| == cap && s.cells[..s.sp] == Contents(cap, s.log)
    ensures forall k :: 0 <= k < |s.threads| ==>
              OfThread(s.log, k) == s.threads[k].done + Unreturned(s.threads[k].at)
    ensures multiset(Accepted(cap, s.log)) == multiset(Popped(cap, s.log)) + multiset(s.cells[..s.sp])
  {
    Reachable(cap, n, s);
    forall k | 0 <= k < |s.threads|
      ensures OfThread(s.log, k) == s.threads[k].done + Unreturned(s.threads[k].at)
    {
      CallsInLog(cap, n, s, k);
    }
    Conservation(cap, s.log);
  }

  /** Real time is respected: a call that has returned by some moment comes before any
      call made later.  Here call i of thread j has returned in s, call m of thread k is
      not in the log yet, and t is a later state. */
  lemma RealTimeOrder(cap: nat, n: nat, s: State, t: State, j: nat, i: nat, k: nat, m: nat)
    requires Reaches(Steps(), Init(cap, n), s) && Reaches(Steps(), s, t)
    requires j < |s.threads| && i < |s.threads[j].done|
    requires k < |s.threads| && |s.threads[k].done + Unreturned(s.threads[k].at)| <= m < |OfThread(t.log, k)|
    ensures s.log <= t.log && i < |OfThread(t.log, j)|
    ensures IndexOf(t.log, j, i) < IndexOf(t.log, k, m)
    ensures t.log[IndexOf(t.log, j, i)] == Entry(j, s.threads[j].done[i])
  {
    CallsInLog(cap, n, s, j);
    CallsInLog(cap, n, s, k);
    RunExtendsLog(s, t);
    LaterCalls(s.log, t.log, j);
    PlaceWhenGrown(s.log, t.log, j, i);
    PlaceWhenGrown(s.log, t.log, k, m);
  }

  lemma RunExtendsLog(s: State, t: State)
    requires Reaches(Steps(), s, t)
    ensures s.log <= t.log
  {
    forall u, a | Steps()(u, a).Some? ensures u.log <= Steps()(u, a).value.log {
      RecordedIsReturned(u, a);
    }
    LogGrowsOnRuns(Steps(), (u: State) => u.log, s, t);
  }

  /** The call that an action makes thread k begin. */
  function NewCall(a: Action, k: nat): seq<Call> {
    if a.CallPop? && a.k == k then [CallOfPop]
    else if a.CallPush? && a.k == k then [CallOfPush(a.c)]
    else []
  }

  /** The calls that a schedule makes thread k begin. */
  function Begun(acts: seq<Action>, k: nat): seq<Call> {
    if acts == [] then [] else Begun(acts[..|acts| - 1], k) + NewCall(acts[|acts| - 1], k)
  }

  /** The call under way. */
  function UnderWay(p: Place): seq<Call> {
    match p
    case Idle => []
    case PushEnter(c) => [CallOfPush(c)]
    case PushTest(c) => [CallOfPush(c)]
    case PushWake(c, _) => [CallOfPush(c)]
    case PushStore(c, _) => [CallOfPush(c)]
    case PushUnlock(c) => [CallOfPush(c)]
    case _ => [CallOfPop]
  }

  /** A thread that steps begins a call, goes on with it, or completes it. */
  lemma OwnCalls(s: State, a: Action)
    requires Step(s, a).Some?
    ensures var t, x := Step(s, a).value, s.threads[a.k];
            && |t.threads| == |s.threads|
            && var y := t.threads[a.k];
            if y.done == x.done then UnderWay(y.at) == UnderWay(x.at) + NewCall(a, a.k)
            else
              && UnderWay(y.at) == [] == NewCall(a, a.k)
              && |y.done| > 0 && y.done == x.done + [y.done[|y.done| - 1]]
              && CallsMade([y.done[|y.done| - 1]]) == UnderWay(x.at)
  {
  }

  lemma OtherCalls(s: State, a: Action, k: nat)
    requires Step(s, a).Some? && k < |s.threads| && k != a.k
    ensures var t := Step(s, a).value;
            && |t.threads| == |s.threads|
            && t.threads[k].done == s.threads[k].done && UnderWay(t.threads[k].at) == UnderWay(s.threads[k].at)
  {
  }

  /** What one step does to the calls of thread k. */
  lemma CallsOfStep(s: State, a: Action, k: nat)
    requires Step(s, a).Some? && k < |s.threads|
    ensures var t, x := Step(s, a).value, s.threads[k];
            && |t.threads| == |s.threads|
            && CallsMade(t.threads[k].done) + UnderWay(t.threads[k].at)
               == CallsMade(x.done) + UnderWay(x.at) + NewCall(a, k)
  {
    if k == a.k {
      OwnCalls(s, a);
    } else {
      OtherCalls(s, a, k);
    }
    CallsGrow(s.threads[k].done, Step(s, a).value.threads[k].done);
  }

  /** Each thread completes the calls it was told to make, in order and with their
      arguments, but for the one under way. */
  lemma {:induction false} CallsAsTold(cap: nat, n: nat, acts: seq<Action>, k: nat)
    requires Exec(Steps(), Init(cap, n), acts).Some? && k < n
    ensures var s := Exec(Steps(), Init(cap, n), acts).value;
            k < |s.threads| && CallsMade(s.threads[k].done) + UnderWay(s.threads[k].at) == Begun(acts, k)
    decreases |acts|
  {
    if acts != [] {
      var before, a := acts[..|acts| - 1], acts[|acts| - 1];
      ExecLast(Steps(), Init(cap, n), acts);
      CallsAsTold(cap, n, before, k);
      CallsOfStep(Exec(Steps(), Init(cap, n), before).value, a, k);
    }
  }

  /** While the mutex is free the poppers that wait for semaphore 0 are exactly those
      counted in nb_endormis and those a token is ready for; none is counted while the
      stack holds something, so then every sleeper has its token. */
  lemma SleeperAccounting(cap: nat, n: nat, s: State)
    requires Reaches(Steps(), Init(cap, n), s) && s.mutex > 0
    ensures Total(s.threads, Sleeper) == s.asleep + s.sleep
    ensures s.asleep > 0 ==> s.sp == 0
    ensures s.sp > 0 ==> s.sleep == Total(s.threads, Sleeper)
  {
    Reachable(cap, n, s);
    TotalPositive(s.threads, Woken);
    if k :| 0 <= k < |s.threads| && Woken(s.threads[k]) > 0 {
      TotalAtLeast(s.threads, k, Inside);
    }
  }

  /** The unconditional reset of nb_endormis forgets nobody: when a push stores, each
      sleeper has a token. */
  lemma ResetForgetsNobody(cap: nat, n: nat, s: State, k: nat)
    requires Reaches(Steps(), Init(cap, n), s)
    requires k < |s.threads| && s.threads[k].at.PushStore?
    ensures s.sleep == Total(s.threads, Sleeper)
    ensures Step(s, Go(k)).Some? && Step(s, Go(k)).value.asleep == 0
  {
    Reachable(cap, n, s);
    assert ThreadOk(s, k);
    forall j | 0 <= j < |s.threads| && j != k ensures Woken(s.threads[j]) == 0 {
      Exclusion(s, j, k);
    }
    var x := s.threads[k].(at := Idle);
    TotalUpdate(s.threads, k, x, Woken);
    TotalConstant(s.threads[k := x], 0, Woken);
  }

  /** A sleeper can wake as soon as the stack holds something, whoever has the mutex:
      every push under way then finds nobody counted asleep. */
  lemma SleeperCanWake(cap: nat, n: nat, s: State, k: nat)
    requires Reaches(Steps(), Init(cap, n), s) && s.sp > 0
    requires k < |s.threads| && s.threads[k].at.PopSleep?
    ensures Step(s, Go(k)).Some?
  {
    Reachable(cap, n, s);
    forall j | 0 <= j < |s.threads| ensures Woken(s.threads[j]) == 0 {
      assert ThreadOk(s, j);
    }
    TotalConstant(s.threads, 0, Woken);
    TotalAtLeast(s.threads, k, Sleeper);
  }

  lemma GoOn(s: State, t: State, a: Action) returns (u: State)
    requires Reaches(Steps(), s, t) && Step(t, a).Some?
    ensures Step(t, a) == Some(u) && Reaches(Steps(), s, u)
  {
    ReachesNext(Steps(), s, t, a);
    u := Step(t, a).value;
  }

  lemma EntersPop(cap: nat, s: State, k: nat) returns (t: State)
    requires Inv(cap, s) && s.mutex > 0 && k < |s.threads| && s.threads[k].at.Idle?
    ensures Reaches(Steps(), s, t)
    ensures t == s.(mutex := s.mutex - 1, threads := s.threads[k := s.threads[k].(at := PopTest)])
  {
    assert Exec(Steps(), s, []) == Some(s);
    t := GoOn(s, s, CallPop(k));
    t := GoOn(s, t, Go(k));
  }

  lemma ReturnsPop(s: State, t: State, k: nat) returns (u: State)
    requires Reaches(Steps(), s, t) && k < |t.threads| && t.threads[k].at.PopTest? && 0 < t.sp <= |t.cells|
    ensures Reaches(Steps(), s, u) && u.mutex == t.mutex + 1 && u.sp == t.sp - 1 && u.cells == t.cells
    ensures k < |u.threads| && u.threads[k] == Thread(Idle, t.threads[k].done + [Pop(t.cells[t.sp - 1])])
  {
    u := GoOn(s, t, Go(k));
    u := GoOn(s, u, Go(k));
  }

  /** A thread that calls Pop while the mutex is free and the stack holds something can
      complete it with the character on top, and the mutex is free again. */
  lemma PopCanComplete(cap: nat, n: nat, s: State, k: nat)
    requires Reaches(Steps(), Init(cap, n), s) && s.mutex > 0 && s.sp > 0
    requires k < |s.threads| && s.threads[k].at.Idle?
    ensures exists t :: Reaches(Steps(), s, t) && t.mutex == s.mutex && t.sp == s.sp - 1 && t.cells == s.cells
                     && s.sp <= |s.cells| && k < |t.threads|
                     && t.threads[k] == Thread(Idle, s.threads[k].done + [Pop(s.cells[s.sp - 1])])
  {
    Reachable(cap, n, s);
    var t := EntersPop(cap, s, k);
    t := ReturnsPop(s, t, k);
  }

  /** A push under way that wakes sleepers. */
  ghost predicate Waking(s: State, t: State, k: nat, c: char) {
    && k < |s.threads| == |t.threads| && t.mutex + 1 == s.mutex
    && t.sp == s.sp && t.cells == s.cells && t.sp < |t.cells| && t.asleep == s.asleep
    && t.threads[k].done == s.threads[k].done
    && ((t.threads[k].at.PushWake? && t.threads[k].at.c == c && t.threads[k].at.i <= t.asleep)
        || t.threads[k].at == PushStore(c, if s.sp == 0 then t.asleep else 0))
    && (t.threads[k].at.PushWake? ==> t.sleep == s.sleep + t.threads[k].at.i && s.sp == 0)
    && (t.threads[k].at.PushStore? ==> t.sleep == s.sleep + if s.sp == 0 then s.asleep else 0)
  }

  function WakesLeft(t: State, k: nat): nat {
    if k < |t.threads| && t.threads[k].at.PushWake? && t.threads[k].at.i <= t.asleep
    then 1 + t.asleep - t.threads[k].at.i else 0
  }

  lemma WakingStep(s: State, t: State, k: nat, c: char)
    requires Waking(s, t, k, c) && !t.threads[k].at.PushStore?
    ensures Step(t, Go(k)).Some? && Waking(s, Step(t, Go(k)).value, k, c)
    ensures WakesLeft(Step(t, Go(k)).value, k) < WakesLeft(t, k)
  {
  }

  lemma WakesAll(s: State, t: State, k: nat, c: char) returns (u: State)
    requires Waking(s, t, k, c)
    ensures Reaches(Steps(), t, u) && Waking(s, u, k, c) && u.threads[k].at.PushStore?
  {
    var inv := (v: State) => Waking(s, v, k, c);
    var goal := (v: State) => k < |v.threads| && v.threads[k].at.PushStore?;
    var mu := (v: State) => WakesLeft(v, k);
    forall v | inv(v) && !goal(v)
      ensures exists a :: Steps()(v, a).Some? && inv(Steps()(v, a).value) && mu(Steps()(v, a).value) < mu(v)
    {
      WakingStep(s, v, k, c);
      assert Steps()(v, Go(k)).Some?;
    }
    u := GoalReached(Steps(), inv, goal, mu, t);
  }

  lemma EntersPush(cap: nat, s: State, k: nat, c: char) returns (t: State)
    requires Inv(cap, s) && s.mutex > 0 && s.sp < cap && k < |s.threads| && s.threads[k].at.Idle?
    ensures Reaches(Steps(), s, t) && Waking(s, t, k, c)
  {
    assert Exec(Steps(), s, []) == Some(s);
    t := GoOn(s, s, CallPush(k, c));
    t := GoOn(s, t, Go(k));
    t := GoOn(s, t, Go(k));
  }

  lemma ReturnsPush(s: State, t: State, k: nat) returns (u: State)
    requires Reaches(Steps(), s, t) && k < |t.threads| && t.threads[k].at.PushStore? && t.sp < |t.cells|
    ensures Reaches(Steps(), s, u) && u.mutex == t.mutex + 1 && u.sleep == t.sleep && u.asleep == 0
    ensures u.sp == t.sp + 1 <= |u.cells| && u.cells[..u.sp] == t.cells[..t.sp] + [t.threads[k].at.c]
    ensures k < |u.threads| && u.threads[k] == Thread(Idle, t.threads[k].done + [Push(t.threads[k].at.c)])
  {
    u := GoOn(s, t, Go(k));
    assert t.cells[t.sp := t.threads[k].at.c][..t.sp + 1] == t.cells[..t.sp] + [t.threads[k].at.c];
    u := GoOn(s, u, Go(k));
  }

  /** A thread that calls Push while the mutex is free and the stack is not full can
      complete it: the character is then on top, every thread counted asleep has been
      given a token, nobody is counted any more, and the mutex is free again. */
  lemma PushCanComplete(cap: nat, n: nat, s: State, k: nat, c: char)
    requires Reaches(Steps(), Init(cap, n), s) && s.mutex > 0 && s.sp < cap
    requires k < |s.threads| && s.threads[k].at.Idle?
    ensures exists t :: Reaches(Steps(), s, t) && t.mutex == s.mutex
                     && t.sleep == s.sleep + s.asleep && t.asleep == 0
                     && t.sp <= |t.cells| && s.sp <= |s.cells| && t.cells[..t.sp] == s.cells[..s.sp] + [c]
                     && k < |t.threads| && t.threads[k] == Thread(Idle, s.threads[k].done + [Push(c)])
  {
    Reachable(cap, n, s);
    var t := EntersPush(cap, s, k, c);
    var u := WakesAll(s, t, k, c);
    ReachesFurther(Steps(), s, t, u);
    u := ReturnsPush(s, u, k);
  }

  // ----- The shared segment -----

  /** The array, the counters and semaphore 0, as the code between P(1) and V(1)
      uses them. */
  class Segment {
    const cells: array<char>
    var sp: nat
    var asleep: nat
    var sleep: nat

    ghost predicate Valid()
      reads this, cells
    {
      cells.Length == STACK_SIZE && sp <= STACK_SIZE && (asleep > 0 ==> sp == 0)
    }

    ghost function Stack(): seq<char>
      requires Valid()
      reads this, cells
    {
      cells[..sp]
    }

    constructor ()
      ensures Valid() && fresh(cells) && Stack() == [] && asleep == 0 && sleep == 0
    {
      cells := new char[STACK_SIZE](_ => NUL);
      sp, asleep, sleep := 0, 0, 0;
    }

    /** Pop between P(1) and V(1); the caller must sleep when `mustSleep`. */
    method Pop() returns (c: char, mustSleep: bool)
      requires Valid()
      modifies this
      ensures Valid() && sleep == old(sleep)
      ensures if mustSleep then Stack() == [] && c as int == 0 else Stack() + [c] == old(Stack())
      ensures Legal(old(Stack()), Event.Pop(c))
      ensures Stack() == Apply(STACK_SIZE, old(Stack()), Event.Pop(c))
      ensures mustSleep <==> old(Stack()) == []
      ensures asleep == old(asleep) + if mustSleep then 1 else 0
    {
      if sp <= 0 {
        asleep := asleep + 1;
        return NUL, true;
      }
      sp := sp - 1;
      return cells[sp], false;
    }

    /** Push between P(1) and V(1): whatever was counted asleep gets a token. */
    method Push(c: char)
      requires Valid()
      modifies this, cells
      ensures Valid()
      ensures Stack() == if |old(Stack())| < 100 then old(Stack()) + [c] else old(Stack())
      ensures Stack() == Apply(STACK_SIZE, old(Stack()), Event.Push(c))
      ensures asleep == 0 && sleep == old(sleep) + old(asleep)
    {
      if sp >= STACK_SIZE {
        return;
      }
      if sp <= 0 {
        for i := 0 to asleep
          invariant sleep == old(sleep) + i && asleep == old(asleep) && sp == old(sp)
          invariant cells[..] == old(cells[..])
        {
          sleep := sleep + 1;
        }
      }
      asleep := 0;
      cells[sp] := c;
      sp := sp + 1;
      assert cells[..sp] == old(cells[..sp]) + [c];
    }
  }
}
