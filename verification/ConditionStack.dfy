/** The stack guarded by a mutex and a condition variable (TME03): poppers wait while
    it is empty, and a push broadcasts only when it found it empty. */
module ConditionStack {
  import opened Wrappers
  import opened Totals
  import opened Runs
  import opened BoundedStack

  /** Places in Pop and Push: before the lock, holding it, in the condition's wait set,
      woken and about to take the lock again, about to unlock; a push broadcasts after
      it has stored. */
  datatype Place =
    | Idle
    | PopEnter | PopTest | PopWait | PopWoken | PopUnlock(c: char)
    | PushEnter(c: char) | PushTest(c: char) | PushBroadcast(c: char, wasEmpty: bool) | PushUnlock(c: char)

  /** A thread and the calls it has completed. */
  datatype Thread = Thread(at: Place, done: seq<Event>)

  datatype State = State(mutex: nat, size: nat, cells: seq<char>, threads: seq<Thread>, log: seq<Entry>)

  /** A thread may also leave the wait set of its own accord. */
  datatype Action = CallPop(k: nat) | CallPush(k: nat, c: char) | Go(k: nat) | Spurious(k: nat)

  function Init(cap: nat, n: nat): State {
    State(1, 0, seq(cap, _ => NUL), seq(n, _ => Thread(Idle, [])), [])
  }

  function Move(s: State, k: nat, at: Place): State
    requires k < |s.threads|
  {
    s.(threads := s.threads[k := s.threads[k].(at := at)])
  }

  function Return(s: State, k: nat, e: Event): State
    requires k < |s.threads|
  {
    s.(threads := s.threads[k := Thread(Idle, s.threads[k].done + [e])])
  }

  function Woken(t: Thread): Thread { if t.at.PopWait? then t.(at := PopWoken) else t }

  /** pthread_cond_broadcast: the wait set is emptied. */
  function Broadcast(ts: seq<Thread>): (r: seq<Thread>)
    ensures |r| == |ts| && forall i :: 0 <= i < |ts| ==> r[i] == Woken(ts[i])
  {
    seq(|ts|, i requires 0 <= i < |ts| => Woken(ts[i]))
  }

  /** Lines 53-57: wait while the stack is empty, else take the last character. */
  function PopBody(s: State, k: nat): State
    requires k < |s.threads| && s.size <= |s.cells|
  {
    if s.size == 0 then Move(s.(mutex := s.mutex + 1), k, PopWait)
    else
      var c := s.cells[s.size - 1];
      Move(s.(size := s.size - 1, log := s.log + [Entry(k, Pop(c))]), k, PopUnlock(c))
  }

  /** Lines 23-28. */
  function PushBody(s: State, k: nat, c: char): State
    requires k < |s.threads| && s.size <= |s.cells|
  {
    var t := Move(s.(log := s.log + [Entry(k, Push(c))]), k, PushBroadcast(c, s.size == 0));
    if s.size >= |s.cells| then t else t.(cells := s.cells[s.size := c], size := s.size + 1)
  }

  function Step(s: State, a: Action): Option<State> {
    if a.k >= |s.threads| || s.size > |s.cells| then None
    else
      var k := a.k;
      var t := s.threads[k];
      match a
      case CallPop(_) => if t.at.Idle? then Some(Move(s, k, PopEnter)) else None
      case CallPush(_, c) => if t.at.Idle? then Some(Move(s, k, PushEnter(c))) else None
      case Spurious(_) => if t.at.PopWait? then Some(Move(s, k, PopWoken)) else None
      case Go(_) =>
        match t.at
        case Idle => None
        case PopWait => None
        case PopEnter => if s.mutex > 0 then Some(Move(s.(mutex := s.mutex - 1), k, PopTest)) else None
        case PopWoken => if s.mutex > 0 then Some(Move(s.(mutex := s.mutex - 1), k, PopTest)) else None
        case PopTest => Some(PopBody(s, k))
        case PopUnlock(c) => Some(Return(s.(mutex := s.mutex + 1), k, Pop(c)))
        case PushEnter(c) => if s.mutex > 0 then Some(Move(s.(mutex := s.mutex - 1), k, PushTest(c))) else None
        case PushTest(c) => Some(PushBody(s, k, c))
        case PushBroadcast(c, wasEmpty) =>
          Some(Move(if wasEmpty then s.(threads := Broadcast(s.threads)) else s, k, PushUnlock(c)))
        case PushUnlock(c) => Some(Return(s.(mutex := s.mutex + 1), k, Push(c)))
  }

  function Steps(): (State, Action) -> Option<State> { (s, a) => Step(s, a) }

  // ----- The invariant -----

  function Inside(t: Thread): nat {
    match t.at
    case PopTest => 1 case PopUnlock(_) => 1
    case PushTest(_) => 1 case PushBroadcast(_, _) => 1 case PushUnlock(_) => 1
    case _ => 0
  }

  function InWait(t: Thread): nat { if t.at.PopWait? then 1 else 0 }

  /** A broadcast is about to be made. */
  function Announcing(t: Thread): nat { if t.at.PushBroadcast? && t.at.wasEmpty then 1 else 0 }

  /** The call a thread has made in its critical section and not returned from. */
  function Unreturned(p: Place): seq<Event> {
    match p
    case PopUnlock(c) => [Pop(c)]
    case PushBroadcast(c, _) => [Push(c)]
    case PushUnlock(c) => [Push(c)]
    case _ => []
  }

  ghost predicate CallsOk(s: State, k: nat)
    requires k < |s.threads|
  {
    OfThread(s.log, k) == s.threads[k].done + Unreturned(s.threads[k].at)
  }

  /** Nobody waits on a stack that holds something, unless the push that made it so is
      about to broadcast. */
  ghost predicate Inv(cap: nat, s: State) {
    && |s.cells| == cap && s.size <= cap
    && s.mutex + Total(s.threads, Inside) == 1
    && (Total(s.threads, InWait) > 0 && s.size > 0 ==> Total(s.threads, Announcing) > 0)
    && LegalLog(cap, s.log) && NoEmptyPop(cap, s.log) && s.cells[..s.size] == Contents(cap, s.log)
    && forall k :: 0 <= k < |s.threads| ==> CallsOk(s, k)
  }

  lemma InvInit(cap: nat, n: nat)
    ensures Inv(cap, Init(cap, n))
  {
    var s := Init(cap, n);
    TotalConstant(s.threads, 0, Inside);
    TotalConstant(s.threads, 0, InWait);
  }

  lemma Counts(ts: seq<Thread>, k: nat, x: Thread)
    requires k < |ts|
    ensures var t := ts[k := x];
            && Total(t, Inside) + Inside(ts[k]) == Total(ts, Inside) + Inside(x)
            && Total(t, InWait) + InWait(ts[k]) == Total(ts, InWait) + InWait(x)
            && Total(t, Announcing) + Announcing(ts[k]) == Total(ts, Announcing) + Announcing(x)
  {
    TotalUpdate(ts, k, x, Inside);
    TotalUpdate(ts, k, x, InWait);
    TotalUpdate(ts, k, x, Announcing);
  }

  /** A broadcast leaves nobody waiting and nobody's lock changed. */
  lemma BroadcastCounts(ts: seq<Thread>)
    ensures Total(Broadcast(ts), InWait) == 0
    ensures Total(Broadcast(ts), Inside) == Total(ts, Inside)
    ensures Total(Broadcast(ts), Announcing) == Total(ts, Announcing)
  {
    TotalConstant(Broadcast(ts), 0, InWait);
    TotalAgree(Broadcast(ts), Inside, ts, Inside);
    TotalAgree(Broadcast(ts), Announcing, ts, Announcing);
  }

  /** The threads just before the moving one takes its new place. */
  function Prepared(s: State, a: Action): (r: seq<Thread>)
    requires a.k < |s.threads|
    ensures |r| == |s.threads|
  {
    if a.Go? && s.threads[a.k].at.PushBroadcast? && s.threads[a.k].at.wasEmpty
    then Broadcast(s.threads) else s.threads
  }

  /** What the moving thread does to the lock, the wait set and the stack. */
  lemma LocalStep(s: State, a: Action)
    requires Step(s, a).Some?
    ensures var t, x := Step(s, a).value, s.threads[a.k];
            && |t.threads| == |s.threads| && t.threads == Prepared(s, a)[a.k := t.threads[a.k]]
            && t.mutex + Inside(t.threads[a.k]) == s.mutex + Inside(x)
            && (InWait(t.threads[a.k]) > InWait(x) ==> t.size == 0)
            && (Announcing(t.threads[a.k]) < Announcing(x) ==> Prepared(s, a) == Broadcast(s.threads))
            && (t.size > 0 && s.size == 0 ==> Announcing(t.threads[a.k]) == 1)
  {
  }

  /** The lock and the wait set after a step. */
  lemma WaitersStep(s: State, a: Action)
    requires s.mutex + Total(s.threads, Inside) == 1 && Step(s, a).Some?
    requires Total(s.threads, InWait) > 0 && s.size > 0 ==> Total(s.threads, Announcing) > 0
    ensures var t := Step(s, a).value;
            && t.mutex + Total(t.threads, Inside) == 1
            && (Total(t.threads, InWait) > 0 && t.size > 0 ==> Total(t.threads, Announcing) > 0)
  {
    var t := Step(s, a).value;
    LocalStep(s, a);
    BroadcastCounts(s.threads);
    Counts(Prepared(s, a), a.k, t.threads[a.k]);
    if Announcing(t.threads[a.k]) > 0 {
      TotalAtLeast(t.threads, a.k, Announcing);
    }
  }

  /** The array and the log move together, and no pop is made of an empty stack. */
  ghost predicate StackOk(cap: nat, s: State) {
    && |s.cells| == cap && s.size <= cap
    && LegalLog(cap, s.log) && NoEmptyPop(cap, s.log) && s.cells[..s.size] == Contents(cap, s.log)
  }

  lemma PopBodyMatches(cap: nat, s: State, k: nat)
    requires k < |s.threads| && StackOk(cap, s)
    ensures StackOk(cap, PopBody(s, k))
  {
    if s.size > 0 {
      LogGrows(cap, s.log, Entry(k, Pop(s.cells[s.size - 1])));
      assert s.cells[..s.size][..s.size - 1] == s.cells[..s.size - 1];
    }
  }

  lemma PushBodyMatches(cap: nat, s: State, k: nat, c: char)
    requires k < |s.threads| && StackOk(cap, s)
    ensures StackOk(cap, PushBody(s, k, c))
  {
    LogGrows(cap, s.log, Entry(k, Push(c)));
    if s.size < cap {
      assert s.cells[s.size := c][..s.size + 1] == s.cells[..s.size] + [c];
    }
  }

  lemma StackStep(cap: nat, s: State, a: Action)
    requires StackOk(cap, s) && Step(s, a).Some?
    ensures StackOk(cap, Step(s, a).value)
  {
    if a.Go? && s.threads[a.k].at.PopTest? {
      PopBodyMatches(cap, s, a.k);
    } else if a.Go? && s.threads[a.k].at.PushTest? {
      PushBodyMatches(cap, s, a.k, s.threads[a.k].at.c);
    }
  }

  /** The call a step records in the log, if any. */
  function Recorded(s: State, a: Action): seq<Event>
    requires Step(s, a).Some?
  {
    if !a.Go? then []
    else
      match s.threads[a.k].at
      case PopTest => if s.size == 0 then [] else [Pop(s.cells[s.size - 1])]
      case PushTest(c) => [Push(c)]
      case _ => []
  }

  /** A step records a call exactly when its thread gets it to return. */
  lemma RecordedIsReturned(s: State, a: Action)
    requires Step(s, a).Some?
    ensures var t, x, y := Step(s, a).value, s.threads[a.k], Step(s, a).value.threads[a.k];
            && |t.threads| == |s.threads| && |Recorded(s, a)| <= 1
            && t.log == s.log + (if Recorded(s, a) == [] then [] else [Entry(a.k, Recorded(s, a)[0])])
            && y.done + Unreturned(y.at) == x.done + Unreturned(x.at) + Recorded(s, a)
  {
  }

  /** The other threads have nothing more to return. */
  lemma OthersUnchanged(s: State, a: Action, j: nat)
    requires Step(s, a).Some? && j < |s.threads| && j != a.k
    ensures var t := Step(s, a).value;
            && |t.threads| == |s.threads| && t.threads[j].done == s.threads[j].done
            && Unreturned(t.threads[j].at) == Unreturned(s.threads[j].at)
  {
  }

  lemma CallsStep(s: State, a: Action, j: nat)
    requires Step(s, a).Some? && j < |s.threads| && CallsOk(s, j)
    ensures var t := Step(s, a).value;
            |t.threads| == |s.threads| && CallsOk(t, j)
  {
    RecordedIsReturned(s, a);
    if j != a.k {
      OthersUnchanged(s, a, j);
    }
    RecordOfThread(s.log, a.k, Recorded(s, a), j);
  }

  lemma AllCallsStep(s: State, a: Action)
    requires Step(s, a).Some? && forall j :: 0 <= j < |s.threads| ==> CallsOk(s, j)
    ensures var t := Step(s, a).value;
            |t.threads| == |s.threads| && forall j :: 0 <= j < |t.threads| ==> CallsOk(t, j)
  {
    RecordedIsReturned(s, a);
    forall j | 0 <= j < |s.threads| ensures CallsOk(Step(s, a).value, j) {
      CallsStep(s, a, j);
    }
  }

  lemma InvStep(cap: nat, s: State, a: Action)
    requires Inv(cap, s) && Step(s, a).Some?
    ensures Inv(cap, Step(s, a).value)
  {
    WaitersStep(s, a);
    StackStep(cap, s, a);
    AllCallsStep(s, a);
  }

  lemma Reachable(cap: nat, n: nat, s: State)
    requires Reaches(Steps(), Init(cap, n), s)
    ensures Inv(cap, s)
  {
    InvInit(cap, n);
    forall t, a | Inv(cap, t) && Steps()(t, a).Some? ensures Inv(cap, Steps()(t, a).value) {
      InvStep(cap, t, a);
    }
    InvariantReaches(Steps(), t => Inv(cap, t), Init(cap, n), s);
  }

  // ----- Theorems -----

  /** A thread's calls in the log are those it has returned from and the one it has
      made and not returned from. */
  lemma CallsInLog(cap: nat, n: nat, s: State, k: nat)
    requires Reaches(Steps(), Init(cap, n), s) && k < |s.threads|
    ensures OfThread(s.log, k) == s.threads[k].done + Unreturned(s.threads[k].at)
  {
    Reachable(cap, n, s);
    assert CallsOk(s, k);
  }

  /** Under any interleaving the calls, taken in the order of their critical sections,
      are a history of the sequential stack in which no pop meets an empty stack, even
      with spurious wake-ups; each thread's own order is kept, and characters are
      neither lost nor invented. */
  lemma Linearizable(cap: nat, n: nat, s: State)
    requires Reaches(Steps(), Init(cap, n), s)
    ensures LegalLog(cap, s.log) && NoEmptyPop(cap, s.log)
    ensures s.size <= |s.cells| == cap && s.cells[..s.size] == Contents(cap, s.log)
    ensures forall k :: 0 <= k < |s.threads| ==>
              OfThread(s.log, k) == s.threads[k].done + Unreturned(s.threads[k].at)
    ensures multiset(Accepted(cap, s.log)) == multiset(Popped(cap, s.log)) + multiset(s.cells[..s.size])
  {
    Reachable(cap, n, s);
    forall k | 0 <= k < |s.threads|
      ensures OfThread(s.log, k) == s.threads[k].done + Unreturned(s.threads[k].at)
    {
      CallsInLog(cap, n, s, k);
    }
    Conservation(cap, s.log);
  }

  /** Real time is respected: a call that has returned by some moment comes before any
      call made later.  Here call i of thread j has returned in s, call m of thread k is
      not in the log yet, and t is a later state. */
  lemma RealTimeOrder(cap: nat, n: nat, s: State, t: State, j: nat, i: nat, k: nat, m: nat)
    requires Reaches(Steps(), Init(cap, n), s) && Reaches(Steps(), s, t)
    requires j < |s.threads| && i < |s.threads[j].done|
    requires k < |s.threads| && |s.threads[k].done + Unreturned(s.threads[k].at)| <= m < |OfThread(t.log, k)|
    ensures s.log <= t.log && i < |OfThread(t.log, j)|
    ensures IndexOf(t.log, j, i) < IndexOf(t.log, k, m)
    ensures t.log[IndexOf(t.log, j, i)] == Entry(j, s.threads[j].done[i])
  {
    CallsInLog(cap, n, s, j);
    CallsInLog(cap, n, s, k);
    RunExtendsLog(s, t);
    LaterCalls(s.log, t.log, j);
    PlaceWhenGrown(s.log, t.log, j, i);
    PlaceWhenGrown(s.log, t.log, k, m);
  }

  lemma RunExtendsLog(s: State, t: State)
    requires Reaches(Steps(), s, t)
    ensures s.log <= t.log
  {
    forall u, a | Steps()(u, a).Some? ensures u.log <= Steps()(u, a).value.log {
      RecordedIsReturned(u, a);
    }
    LogGrowsOnRuns(Steps(), (u: State) => u.log, s, t);
  }

  /** The call that an action makes thread k begin. */
  function NewCall(a: Action, k: nat): seq<Call> {
    if a.CallPop? && a.k == k then [CallOfPop]
    else if a.CallPush? && a.k == k then [CallOfPush(a.c)]
    else []
  }

  /** The calls that a schedule makes thread k begin. */
  function Begun(acts: seq<Action>, k: nat): seq<Call> {
    if acts == [] then [] else Begun(acts[..|acts| - 1], k) + NewCall(acts[|acts| - 1], k)
  }

  /** The call under way. */
  function UnderWay(p: Place): seq<Call> {
    match p
    case Idle => []
    case PushEnter(c) => [CallOfPush(c)]
    case PushTest(c) => [CallOfPush(c)]
    case PushBroadcast(c, _) => [CallOfPush(c)]
    case PushUnlock(c) => [CallOfPush(c)]
    case _ => [CallOfPop]
  }

  /** A thread that steps begins a call, goes on with it, or completes it. */
  lemma OwnCalls(s: State, a: Action)
    requires Step(s, a).Some?
    ensures var t, x := Step(s, a).value, s.threads[a.k];
            && |t.threads| == |s.threads|
            && var y := t.threads[a.k];
            if y.done == x.done then UnderWay(y.at) == UnderWay(x.at) + NewCall(a, a.k)
            else
              && UnderWay(y.at) == [] == NewCall(a, a.k)
              && |y.done| > 0 && y.done == x.done + [y.done[|y.done| - 1]]
              && CallsMade([y.done[|y.done| - 1]]) == UnderWay(x.at)
  {
  }

  lemma OtherCalls(s: State, a: Action, k: nat)
    requires Step(s, a).Some? && k < |s.threads| && k != a.k
    ensures var t := Step(s, a).value;
            && |t.threads| == |s.threads|
            && t.threads[k].done == s.threads[k].done && UnderWay(t.threads[k].at) == UnderWay(s.threads[k].at)
  {
  }

  /** What one step does to the calls of thread k. */
  lemma CallsOfStep(s: State, a: Action, k: nat)
    requires Step(s, a).Some? && k < |s.threads|
    ensures var t, x := Step(s, a).value, s.threads[k];
            && |t.threads| == |s.threads|
            && CallsMade(t.threads[k].done) + UnderWay(t.threads[k].at)
               == CallsMade(x.done) + UnderWay(x.at) + NewCall(a, k)
  {
    if k == a.k {
      OwnCalls(s, a);
    } else {
      OtherCalls(s, a, k);
    }
    CallsGrow(s.threads[k].done, Step(s, a).value.threads[k].done);
  }

  /** Each thread completes the calls it was told to make, in order and with their
      arguments, but for the one under way. */
  lemma {:induction false} CallsAsTold(cap: nat, n: nat, acts: seq<Action>, k: nat)
    requires Exec(Steps(), Init(cap, n), acts).Some? && k < n
    ensures var s := Exec(Steps(), Init(cap, n), acts).value;
            k < |s.threads| && CallsMade(s.threads[k].done) + UnderWay(s.threads[k].at) == Begun(acts, k)
    decreases |acts|
  {
    if acts != [] {
      var before, a := acts[..|acts| - 1], acts[|acts| - 1];
      ExecLast(Steps(), Init(cap, n), acts);
      CallsAsTold(cap, n, before, k);
      CallsOfStep(Exec(Steps(), Init(cap, n), before).value, a, k);
    }
  }

  /** No wake-up is lost although a push broadcasts only from empty to non-empty: while
      the mutex is free and a thread is in the wait set, the stack is empty. */
  lemma NoLostWakeup(cap: nat, n: nat, s: State, k: nat)
    requires Reaches(Steps(), Init(cap, n), s) && s.mutex > 0
    requires k < |s.threads| && s.threads[k].at.PopWait?
    ensures s.size == 0
  {
    Reachable(cap, n, s);
    TotalAtLeast(s.threads, k, InWait);
    TotalPositive(s.threads, Announcing);
    if j :| 0 <= j < |s.threads| && Announcing(s.threads[j]) > 0 {
      TotalAtLeast(s.threads, j, Inside);
    }
  }

  /** Hence every popper can go on once the stack holds something. */
  lemma PopperCanProceed(cap: nat, n: nat, s: State, k: nat)
    requires Reaches(Steps(), Init(cap, n), s) && s.mutex > 0 && s.size > 0
    requires k < |s.threads|
    requires s.threads[k].at.PopEnter? || s.threads[k].at.PopWait? || s.threads[k].at.PopWoken?
    ensures exists t :: Reaches(Steps(), s, t) && k < |t.threads| && t.threads[k].at.PopUnlock?
                     && t.threads[k].at.c == s.cells[s.size - 1]
  {
    Reachable(cap, n, s);
    if s.threads[k].at.PopWait? {
      NoLostWakeup(cap, n, s, k);
    } else {
      assert Exec(Steps(), s, []) == Some(s);
      ReachesNext(Steps(), s, s, Go(k));
      ReachesNext(Steps(), s, Step(s, Go(k)).value, Go(k));
      assert PopBody(Step(s, Go(k)).value, k).threads[k].at.PopUnlock?;
    }
  }

  lemma GoOn(s: State, t: State, a: Action) returns (u: State)
    requires Reaches(Steps(), s, t) && Step(t, a).Some?
    ensures Step(t, a) == Some(u) && Reaches(Steps(), s, u)
  {
    ReachesNext(Steps(), s, t, a);
    u := Step(t, a).value;
  }

  /** The call up to the store. */
  lemma StoresPush(cap: nat, s: State, k: nat, c: char) returns (t: State)
    requires Inv(cap, s) && s.mutex > 0 && k < |s.threads| && s.threads[k].at.Idle?
    ensures Reaches(Steps(), s, t) && t.mutex == s.mutex - 1 && k < |t.threads|
    ensures t.threads[k].done == s.threads[k].done
    ensures t.threads[k].at.PushBroadcast? && t.threads[k].at.c == c
    ensures t.size <= |t.cells| && s.size <= |s.cells|
    ensures t.cells[..t.size] == (if s.size < cap then s.cells[..s.size] + [c] else s.cells[..s.size])
  {
    assert Exec(Steps(), s, []) == Some(s);
    t := GoOn(s, s, CallPush(k, c));
    t := GoOn(s, t, Go(k));
    t := GoOn(s, t, Go(k));
    assert s.size < cap ==> s.cells[s.size := c][..s.size + 1] == s.cells[..s.size] + [c];
  }

  /** The broadcast and the return. */
  lemma ReturnsPush(s: State, t: State, k: nat) returns (u: State)
    requires Reaches(Steps(), s, t) && k < |t.threads| && t.threads[k].at.PushBroadcast? && t.size <= |t.cells|
    ensures Reaches(Steps(), s, u) && u.mutex == t.mutex + 1 && u.size == t.size && u.cells == t.cells
    ensures k < |u.threads| && u.threads[k] == Thread(Idle, t.threads[k].done + [Push(t.threads[k].at.c)])
  {
    u := GoOn(s, t, Go(k));
    u := GoOn(s, u, Go(k));
  }

  /** A thread that calls Push while the mutex is free can complete it: the character is
      then on top, unless the stack was full, and the mutex is free again. */
  lemma PushCanComplete(cap: nat, n: nat, s: State, k: nat, c: char)
    requires Reaches(Steps(), Init(cap, n), s) && s.mutex > 0 && k < |s.threads| && s.threads[k].at.Idle?
    ensures exists t :: Reaches(Steps(), s, t) && t.mutex == s.mutex
                     && t.size <= |t.cells| && s.size <= |s.cells|
                     && t.cells[..t.size] == (if s.size < cap then s.cells[..s.size] + [c] else s.cells[..s.size])
                     && k < |t.threads| && t.threads[k] == Thread(Idle, s.threads[k].done + [Push(c)])
  {
    Reachable(cap, n, s);
    var t := StoresPush(cap, s, k, c);
    t := ReturnsPush(s, t, k);
  }

  /** The call up to the test. */
  lemma EntersPop(cap: nat, s: State, k: nat) returns (t: State)
    requires Inv(cap, s) && s.mutex > 0 && k < |s.threads| && s.threads[k].at.Idle?
    ensures Reaches(Steps(), s, t)
    ensures t == s.(mutex := s.mutex - 1, threads := s.threads[k := s.threads[k].(at := PopTest)])
  {
    assert Exec(Steps(), s, []) == Some(s);
    t := GoOn(s, s, CallPop(k));
    t := GoOn(s, t, Go(k));
  }

  lemma ReturnsPop(s: State, t: State, k: nat) returns (u: State)
    requires Reaches(Steps(), s, t) && k < |t.threads| && t.threads[k].at.PopTest? && 0 < t.size <= |t.cells|
    ensures Reaches(Steps(), s, u) && u.mutex == t.mutex + 1 && u.size == t.size - 1 && u.cells == t.cells
    ensures k < |u.threads| && u.threads[k] == Thread(Idle, t.threads[k].done + [Pop(t.cells[t.size - 1])])
  {
    u := GoOn(s, t, Go(k));
    u := GoOn(s, u, Go(k));
  }

  /** A thread that calls Pop while the mutex is free and the stack holds something can
      complete it with the character on top, and the mutex is free again. */
  lemma PopCanComplete(cap: nat, n: nat, s: State, k: nat)
    requires Reaches(Steps(), Init(cap, n), s) && s.mutex > 0 && s.size > 0
    requires k < |s.threads| && s.threads[k].at.Idle?
    ensures exists t :: Reaches(Steps(), s, t) && t.mutex == s.mutex && t.size == s.size - 1 && t.cells == s.cells
                     && s.size <= |s.cells| && k < |t.threads|
                     && t.threads[k] == Thread(Idle, s.threads[k].done + [Pop(s.cells[s.size - 1])])
  {
    Reachable(cap, n, s);
    var t := EntersPop(cap, s, k);
    t := ReturnsPop(s, t, k);
  }

  /** A thread woken for nothing finds the stack empty and waits again: nothing has
      changed. */
  lemma SpuriousWakeup(cap: nat, n: nat, s: State, k: nat)
    requires Reaches(Steps(), Init(cap, n), s) && s.mutex > 0 && k < |s.threads| && s.threads[k].at.PopWait?
    ensures Exec(Steps(), s, [Spurious(k), Go(k), Go(k)]) == Some(s)
  {
    NoLostWakeup(cap, n, s, k);
    Reachable(cap, n, s);
    var t := Step(s, Spurious(k)).value;
    var u := Step(t, Go(k)).value;
    var v := Step(u, Go(k)).value;
    assert v.threads == s.threads;
    assert Exec(Steps(), v, []) == Some(v);
    assert [Spurious(k), Go(k), Go(k)][1..] == [Go(k), Go(k)] && [Go(k), Go(k)][1..] == [Go(k)] && [Go(k)][1..] == [];
    assert Exec(Steps(), u, [Go(k)]) == Some(v);
    assert Exec(Steps(), t, [Go(k), Go(k)]) == Some(v);
  }

  // ----- The array -----

  /** pile and stack_size, as the code between lock and unlock uses them. */
  class Pile {
    const cells: array<char>
    var size: nat

    ghost predicate Valid()
      reads this
    {
      cells.Length == STACK_SIZE && size <= STACK_SIZE
    }

    ghost function Stack(): seq<char>
      requires Valid()
      reads this, cells
    {
      cells[..size]
    }

    constructor ()
      ensures Valid() && fresh(cells) && Stack() == []
    {
      cells := new char[STACK_SIZE](_ => NUL);
      size := 0;
    }

    /** est_pleine_PRODUC */
    method IsFull() returns (r: bool)
      requires Valid()
      ensures r <==> |Stack()| == 100
    {
      return size >= STACK_SIZE;
    }

    /** est_vide_PRODUC */
    method IsEmpty() returns (r: bool)
      requires Valid()
      ensures r <==> Stack() == []
    {
      return size == 0;
    }

    /** Push between lock and unlock; it broadcasts exactly when the stack was empty. */
    method Push(c: char) returns (broadcast: bool)
      requires Valid()
      modifies this, cells
      ensures Valid() && Stack() == Apply(STACK_SIZE, old(Stack()), Event.Push(c))
      ensures Stack() == if |old(Stack())| < 100 then old(Stack()) + [c] else old(Stack())
      ensures broadcast <==> old(Stack()) == []
    {
      broadcast := IsEmpty();
      var full := IsFull();
      if !full {
        var place := size;
        size := size + 1;
        cells[place] := c;
        assert cells[..size] == old(cells[..size]) + [c];
      }
    }

    /** Pop after its wait loop, which leaves only on a stack that is not empty. */
    method Pop() returns (c: char)
      requires Valid() && Stack() != []
      modifies this
      ensures Valid() && Stack() + [c] == old(Stack())
      ensures Legal(old(Stack()), Event.Pop(c))
      ensures Stack() == Apply(STACK_SIZE, old(Stack()), Event.Pop(c))
    {
      size := size - 1;
      c := cells[size];
    }
  }
}
