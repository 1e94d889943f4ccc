/** Conservation, deadlock and termination of the single-queue server, and the
    simulation of serverMultiFile by serverUniq. */
module SingleQueueTheorems {
  import opened Wrappers
  import opened Totals
  import opened Runs
  import M = MultiQueueServer
  import opened SingleQueueServer

  /** Requested = received + queued under the child's type + still owed; the values
      received are the first ones sent, in order; `res` is their sum. */
  lemma Conservation(c: M.Config, s: State, k: nat)
    requires Reaches(Steps(c), Init(c), s) && k < |c.wants|
    ensures k < |s.children|
    ensures c.wants[k] == |s.children[k].got| + |Project(s.queue, k + 1)| + M.Outstanding(Abs(s), k)
    ensures s.children[k].given == s.children[k].got + M.Values(Project(s.queue, k + 1))
    ensures s.children[k].res == M.Sum(s.children[k].got)
  {
    Reachable(c, s);
    assert M.ChildOk(Abs(s), k);
  }

  /** Every child has ended and the server has done its n rounds. */
  predicate Final(s: State) { M.Final(Abs(s)) }

  /** The invariant of child k read on the single queue. */
  ghost predicate ChildView(c: M.Config, s: State, k: nat)
    requires k < |s.children| == |c.wants|
  {
    var x := s.children[k];
    var owed := if s.server.Replying? && s.server.file == k + 1 then s.server.left else 0;
    && x.want == c.wants[k]
    && x.given == x.got + M.Values(Project(s.queue, k + 1))
    && |x.given| == |x.got| + |Project(s.queue, k + 1)|
    && |x.given| + owed == (if x.served then x.want else 0)
    && (x.served ==> x.sent)
    && (x.exited ==> |x.got| == x.want && x.sent)
    && x.res == M.Sum(x.got)
  }

  /** The invariant read on the single queue. */
  ghost predicate View(c: M.Config, s: State) {
    var n := |s.children|;
    && n == |c.wants| && Typed(s) && EndedEmpty(s)
    && |Project(s.queue, n + 1)| == Total(s.children, M.Waiting)
    && s.rounds + (if s.server.Replying? then 1 else 0) == Total(s.children, M.Served)
    && (s.server.Replying? ==>
          1 <= s.server.file <= n && s.server.left > 0 && s.children[s.server.file - 1].served)
    && forall k :: 0 <= k < n ==> ChildView(c, s, k)
  }

  lemma ViewHolds(c: M.Config, s: State)
    requires Inv(c, s)
    ensures View(c, s)
  {
    assert Abs(s).queues[|s.children|] == AbsQueue(s, |s.children|);
    forall k | 0 <= k < |s.children| ensures ChildView(c, s, k) {
      assert M.ChildOk(Abs(s), k);
      assert Abs(s).queues[k] == AbsQueue(s, k);
    }
  }

  /** At the end each child has exactly the values sent to it, as many as it asked
      for, and their sum; and the queue is empty. */
  lemma AtTheEnd(c: M.Config, s: State)
    requires Reaches(Steps(c), Init(c), s) && Final(s)
    ensures |s.children| == |c.wants| && s.queue == []
    ensures forall k :: 0 <= k < |c.wants| ==>
              && s.children[k].got == s.children[k].given && |s.children[k].given| == c.wants[k]
              && s.children[k].res == M.Sum(s.children[k].given)
  {
    Reachable(c, s);
    ViewHolds(c, s);
    EveryoneServed(c, s);
    NothingLeft(c, s);
    forall k | 0 <= k < |c.wants|
      ensures s.children[k].got == s.children[k].given && |s.children[k].given| == c.wants[k]
      ensures s.children[k].res == M.Sum(s.children[k].given)
    {
      assert ChildView(c, s, k);
    }
  }

  lemma EveryoneServed(c: M.Config, s: State)
    requires Inv(c, s) && Final(s)
    ensures forall k :: 0 <= k < |s.children| ==> s.children[k].served && s.children[k].exited
  {
    M.AllServed(c, Abs(s));
    assert forall k :: 0 <= k < |s.children| ==> Abs(s).children[k].served && Abs(s).children[k].exited;
  }

  lemma NothingLeft(c: M.Config, s: State)
    requires View(c, s) && forall k :: 0 <= k < |s.children| ==> s.children[k].served && s.children[k].exited
    ensures s.queue == []
  {
    TotalConstant(s.children, 0, M.Waiting);
    if s.queue != [] {
      var k := s.queue[0].ty - 1;
      assert k < |s.children| ==> s.children[k].exited;
      ProjectEmpty(s.queue, k + 1);
    }
  }

  // ----- Deadlock -----

  /** A queue whose messages all have one type projects whole on that type. */
  lemma {:induction false} ProjectWhole(q: seq<Message>, ty: int)
    requires forall i :: 0 <= i < |q| ==> q[i].ty == ty
    ensures |Project(q, ty)| == |q|
  {
    if q != [] {
      assert forall i :: 0 <= i < |q| - 1 ==> q[..|q| - 1][i] == q[i];
      ProjectWhole(q[..|q| - 1], ty);
    }
  }

  /** A child with a reply in the queue can receive it. */
  lemma ReplyIsReceivable(c: M.Config, s: State, i: nat)
    requires View(c, s) && i < |s.queue| && s.queue[i].ty != |s.children| + 1
    ensures Step(c, s, M.ChildRecv(s.queue[i].ty - 1)).Some?
  {
    var k := s.queue[i].ty - 1;
    ProjectEmpty(s.queue, k + 1);
    assert ChildView(c, s, k);
  }

  /** With more messages than requests one of them is a reply. */
  lemma SomeReply(s: State) returns (i: nat)
    requires |Project(s.queue, |s.children| + 1)| < |s.queue|
    ensures i < |s.queue| && s.queue[i].ty != |s.children| + 1
  {
    if forall i :: 0 <= i < |s.queue| ==> s.queue[i].ty == |s.children| + 1 {
      ProjectWhole(s.queue, |s.children| + 1);
    }
    i :| 0 <= i < |s.queue| && s.queue[i].ty != |s.children| + 1;
  }

  /** The queue can hold a message of every child, or one message when no child asks
      for anything. */
  predicate EnoughRoom(c: M.Config) {
    c.cap >= |c.wants| || (c.cap >= 1 && forall k :: 0 <= k < |c.wants| ==> c.wants[k] == 0)
  }

  /** A full queue that holds more than requests lets a child receive. */
  lemma FullCanStep(c: M.Config, s: State)
    requires View(c, s) && |Project(s.queue, |s.children| + 1)| < |s.queue|
    ensures !Stuck(Steps(c), s)
  {
    var i := SomeReply(s);
    ReplyIsReceivable(c, s, i);
    assert Steps(c)(s, M.ChildRecv(s.queue[i].ty - 1)).Some?;
  }

  /** While the server replies to one child, at most n - 1 requests are pending. */
  lemma FewRequests(c: M.Config, s: State)
    requires View(c, s) && s.server.Replying?
    ensures |Project(s.queue, |s.children| + 1)| < |s.children|
  {
    var f := s.server.file - 1;
    assert ChildView(c, s, f);
    var x := s.children[f].(served := false);
    TotalUpdate(s.children, f, x, M.Waiting);
    TotalBound(s.children[f := x], 1, M.Waiting);
  }

  /** So a full queue holds a reply, which its child can receive. */
  lemma ReplyingCanStep(c: M.Config, s: State)
    requires View(c, s) && EnoughRoom(c) && s.server.Replying?
    ensures !Stuck(Steps(c), s)
  {
    if |s.queue| < c.cap {
      assert Steps(c)(s, M.ServerSend(0)).Some?;
    } else {
      FewRequests(c, s);
      assert ChildView(c, s, s.server.file - 1);
      FullCanStep(c, s);
    }
  }

  lemma RequestIsReceivable(c: M.Config, s: State)
    requires View(c, s) && s.server.Receiving? && Project(s.queue, |s.children| + 1) != []
    ensures !Stuck(Steps(c), s)
  {
    TotalPositive(s.children, M.Waiting);
    var k :| 0 <= k < |s.children| && M.Waiting(s.children[k]) > 0;
    M.NotYetServed(Abs(s), k);
    ProjectEmpty(s.queue, |s.children| + 1);
    assert Steps(c)(s, M.ServerRecv).Some?;
  }

  /** Once every child was served it can receive or end. */
  lemma AllSentCanStep(c: M.Config, s: State)
    requires View(c, s) && s.server.Receiving? && !Final(s)
    requires Project(s.queue, |s.children| + 1) == []
    requires forall k :: 0 <= k < |s.children| ==> s.children[k].sent
    ensures !Stuck(Steps(c), s)
  {
    TotalPositive(s.children, M.Waiting);
    assert forall k :: 0 <= k < |s.children| ==> M.Waiting(s.children[k]) == 0;
    TotalConstant(s.children, 1, M.Served);
    var k :| 0 <= k < |s.children| && !s.children[k].exited;
    assert ChildView(c, s, k);
    ProjectEmpty(s.queue, k + 1);
    assert Steps(c)(s, M.ChildRecv(k)).Some? || Steps(c)(s, M.ChildExit(k)).Some?;
  }

  /** While the server waits, a pending request, an unsent one, a reply or an ending
      child can go on. */
  lemma ReceivingCanStep(c: M.Config, s: State)
    requires View(c, s) && c.cap > 0 && s.server.Receiving? && !Final(s)
    ensures !Stuck(Steps(c), s)
  {
    if Project(s.queue, |s.children| + 1) != [] {
      RequestIsReceivable(c, s);
    } else if k :| 0 <= k < |s.children| && !s.children[k].sent {
      if |s.queue| < c.cap {
        assert Steps(c)(s, M.ChildSend(k)).Some?;
      } else {
        FullCanStep(c, s);
      }
    } else {
      AllSentCanStep(c, s);
    }
  }

  // ----- The deadlock when there is too little room -----

  function Sent(x: M.Child): nat { if x.sent then 1 else 0 }

  /** Operations still to come. */
  function Left(s: State): nat { M.Remaining(Abs(s)) }

  lemma ReachedStep(c: M.Config, s: State, a: M.Action)
    requires Reaches(Steps(c), Init(c), s) && Steps(c)(s, a).Some?
    ensures Reaches(Steps(c), Init(c), Steps(c)(s, a).value)
    ensures Left(Steps(c)(s, a).value) < Left(s)
  {
    Reachable(c, s);
    InvStep(c, s, a);
    ReachesNext(Steps(c), Init(c), s, a);
  }

  lemma ReachedView(c: M.Config, s: State)
    requires Reaches(Steps(c), Init(c), s)
    ensures View(c, s)
  {
    Reachable(c, s);
    ViewHolds(c, s);
  }

  /** The queue holds nothing but requests while the server replies. */
  ghost predicate OnlyRequests(s: State) {
    s.server.Replying? && forall i :: 0 <= i < |s.queue| ==> s.queue[i].ty == |s.children| + 1
  }

  /** The queue fills up with requests behind the first one. */
  ghost predicate Clogging(c: M.Config, s: State) {
    Reaches(Steps(c), Init(c), s) && OnlyRequests(s) && |s.queue| <= c.cap && Total(s.children, M.Served) == 1
  }

  /** The queue is full of requests. */
  ghost predicate Clogged(c: M.Config, s: State) {
    Reaches(Steps(c), Init(c), s) && OnlyRequests(s) && |s.queue| == c.cap
  }

  /** Some child has not sent its request while the queue holds fewer than n - 1. */
  lemma SomeUnsent(c: M.Config, s: State) returns (k: nat)
    requires View(c, s) && OnlyRequests(s) && Total(s.children, M.Served) == 1
    requires |s.queue| + 1 < |s.children|
    ensures k < |s.children| && !s.children[k].sent
  {
    ProjectWhole(s.queue, |s.children| + 1);
    forall i | 0 <= i < |s.children| ensures Sent(s.children[i]) == M.Waiting(s.children[i]) + M.Served(s.children[i]) {
      assert ChildView(c, s, i);
    }
    TotalSplit(s.children, Sent, M.Waiting, M.Served);
    if forall i :: 0 <= i < |s.children| ==> s.children[i].sent {
      TotalConstant(s.children, 1, Sent);
    }
    k :| 0 <= k < |s.children| && !s.children[k].sent;
  }

  lemma SendClogs(c: M.Config, s: State, k: nat)
    requires OnlyRequests(s) && Step(c, s, M.ChildSend(k)).Some?
    ensures var t := Step(c, s, M.ChildSend(k)).value;
            OnlyRequests(t) && |t.queue| <= c.cap && Total(t.children, M.Served) == Total(s.children, M.Served)
  {
    TotalUpdate(s.children, k, s.children[k].(sent := true), M.Served);
  }

  lemma ClogMore(c: M.Config, s: State) returns (a: M.Action)
    requires Clogging(c, s) && |s.queue| != c.cap < |c.wants|
    ensures Steps(c)(s, a).Some? && Clogging(c, Steps(c)(s, a).value) && Left(Steps(c)(s, a).value) < Left(s)
  {
    ReachedView(c, s);
    var k := SomeUnsent(c, s);
    a := M.ChildSend(k);
    SendClogs(c, s, k);
    ReachedStep(c, s, a);
  }

  /** Only a child that ends can move. */
  lemma OnlyExits(c: M.Config, s: State, a: M.Action)
    requires OnlyRequests(s) && |s.queue| == c.cap && Step(c, s, a).Some?
    ensures var t := Step(c, s, a).value;
            OnlyRequests(t) && |t.queue| == c.cap
  {
  }

  lemma ClogPersists(c: M.Config, s: State, a: M.Action)
    requires Clogged(c, s) && Steps(c)(s, a).Some?
    ensures Clogged(c, Steps(c)(s, a).value) && Left(Steps(c)(s, a).value) < Left(s)
  {
    OnlyExits(c, s, a);
    ReachedStep(c, s, a);
  }

  /** The first request alone in the queue. */
  lemma FirstSend(c: M.Config, k: nat) returns (s: State)
    requires c.cap > 0 && k < |c.wants|
    ensures Step(c, Init(c), M.ChildSend(k)) == Some(s)
    ensures s.server.Receiving? && s.rounds == 0 && s.queue == [Message(|c.wants| + 1, c.wants[k], k + 1)]
    ensures |s.children| == |c.wants| && Total(s.children, M.Served) == 0 && !s.children[k].served
  {
    var x := M.Init(c).children;
    s := Step(c, Init(c), M.ChildSend(k)).value;
    TotalConstant(x, 0, M.Served);
    TotalUpdate(x, k, s.children[k], M.Served);
  }

  /** A child that wants something is served while the queue is empty. */
  lemma FirstServed(c: M.Config, s: State, k: nat) returns (t: State)
    requires k < |s.children| && !s.children[k].served && Total(s.children, M.Served) == 0
    requires s.server.Receiving? && s.rounds == 0 && k < |c.wants| && c.wants[k] > 0
    requires s.queue == [Message(|s.children| + 1, c.wants[k], k + 1)]
    ensures Step(c, s, M.ServerRecv) == Some(t)
    ensures t.queue == [] && t.server.Replying? && Total(t.children, M.Served) == 1
  {
    assert FirstOfType(s.queue, |s.children| + 1) == Some(0);
    t := Step(c, s, M.ServerRecv).value;
    TotalUpdate(s.children, k, t.children[k], M.Served);
  }

  lemma StartClogging(c: M.Config, k: nat) returns (t: State)
    requires c.cap > 0 && k < |c.wants| && c.wants[k] > 0
    ensures Clogging(c, t)
  {
    assert Exec(Steps(c), Init(c), []) == Some(Init(c));
    var s := FirstSend(c, k);
    t := FirstServed(c, s, k);
    ReachesNext(Steps(c), Init(c), Init(c), M.ChildSend(k));
    ReachesNext(Steps(c), Init(c), s, M.ServerRecv);
  }

  /** The other children fill the queue. */
  lemma Fill(c: M.Config, s: State) returns (t: State)
    requires Clogging(c, s) && c.cap < |c.wants|
    ensures Clogged(c, t)
  {
    var clogging := (u: State) => Clogging(c, u);
    var full := (u: State) => |u.queue| == c.cap;
    forall u | clogging(u) && !full(u)
      ensures exists a :: Steps(c)(u, a).Some? && clogging(Steps(c)(u, a).value) && Left(Steps(c)(u, a).value) < Left(u)
    {
      var a := ClogMore(c, u);
    }
    t := GoalReached(Steps(c), clogging, full, Left, s);
  }

  /** The children that want nothing end, and then nobody can move. */
  lemma Exhaust(c: M.Config, s: State) returns (t: State)
    requires Clogged(c, s)
    ensures Clogged(c, t) && Stuck(Steps(c), t)
  {
    var clogged := (u: State) => Clogged(c, u);
    var stuck := (u: State) => Stuck(Steps(c), u);
    forall u | clogged(u) && !stuck(u)
      ensures exists a :: Steps(c)(u, a).Some? && clogged(Steps(c)(u, a).value) && Left(Steps(c)(u, a).value) < Left(u)
    {
      var a :| Steps(c)(u, a).Some?;
      ClogPersists(c, u, a);
    }
    t := GoalReached(Steps(c), clogged, stuck, Left, s);
  }

  /** A reply under way is not the end. */
  lemma NotFinal(c: M.Config, s: State)
    requires View(c, s) && s.server.Replying?
    ensures !Final(s)
  {
    TotalBound(s.children, 1, M.Served);
  }

  /** A deadlock: the server owes replies, the queue is full of requests. */
  lemma DeadlockReachable(c: M.Config, k: nat) returns (s: State)
    requires 0 < c.cap < |c.wants| && k < |c.wants| && c.wants[k] > 0
    ensures Reaches(Steps(c), Init(c), s) && Stuck(Steps(c), s) && !Final(s)
  {
    var s1 := StartClogging(c, k);
    var s2 := Fill(c, s1);
    s := Exhaust(c, s2);
    ReachedView(c, s);
    NotFinal(c, s);
  }

  /** The program deadlocks exactly when its queue has too little room: a capacity of
      n messages is enough, and with fewer a deadlock is reachable as soon as one
      child asks for something. */
  lemma DeadlockFreeIff(c: M.Config)
    ensures (EnoughRoom(c) || c.wants == []) <==>
            forall s :: Reaches(Steps(c), Init(c), s) && Stuck(Steps(c), s) ==> Final(s)
  {
    if EnoughRoom(c) || c.wants == [] {
      forall s | Reaches(Steps(c), Init(c), s) && Stuck(Steps(c), s) ensures Final(s) {
        Reachable(c, s);
        ViewHolds(c, s);
        if !Final(s) {
          if s.server.Replying? {
            ReplyingCanStep(c, s);
          } else if c.cap > 0 {
            ReceivingCanStep(c, s);
          }
        }
      }
    } else if c.cap == 0 {
      var s := Init(c);
      assert Exec(Steps(c), s, []) == Some(s);
      assert Stuck(Steps(c), s);
      assert !s.children[0].exited;
    } else {
      var k :| 0 <= k < |c.wants| && c.wants[k] > 0;
      var s := DeadlockReachable(c, k);
    }
  }

  /** Every schedule is finite; with enough room one that cannot be prolonged has
      reached the end. */
  lemma EveryRunEnds(c: M.Config, acts: seq<M.Action>)
    requires Exec(Steps(c), Init(c), acts).Some?
    ensures |acts| <= Left(Init(c))
    ensures var s := Exec(Steps(c), Init(c), acts).value;
            EnoughRoom(c) && Stuck(Steps(c), s) ==> Final(s)
  {
    InvInit(c);
    forall t, a | Inv(c, t) && Steps(c)(t, a).Some?
      ensures Inv(c, Steps(c)(t, a).value) && Left(Steps(c)(t, a).value) < Left(t)
    {
      InvStep(c, t, a);
    }
    RunsAreBounded(Steps(c), t => Inv(c, t), Left, Init(c), acts);
    assert Reaches(Steps(c), Init(c), Exec(Steps(c), Init(c), acts).value);
    DeadlockFreeIff(c);
  }

  // ----- serverUniq can follow serverMultiFile -----

  function Load(q: Option<seq<M.Payload>>): nat { |M.Content(q)| }

  /** The messages of the single queue are those of its projections. */
  ghost predicate Balanced(s: State) {
    |s.queue| == Total(Abs(s).queues, Load)
  }

  /** No projection exceeds the capacity of one of the n + 1 queues. */
  ghost predicate Fits(d: M.Config, m: M.State) {
    forall k :: 0 <= k < |m.queues| ==> Load(m.queues[k]) <= d.cap
  }

  lemma BalancedSend(s: State, t: State, m: Message)
    requires Balanced(s) && t.queue == s.queue + [m] && |t.children| == |s.children| && 1 <= m.ty <= |s.children| + 1
    requires forall k :: 0 <= k < |s.children| ==> t.children[k].exited == s.children[k].exited
    requires m.ty <= |s.children| ==> !s.children[m.ty - 1].exited
    ensures Balanced(t)
  {
    var k := m.ty - 1;
    AbsSend(s, t, m);
    assert Abs(s).queues[k] == AbsQueue(s, k);
    TotalUpdate(Abs(s).queues, k, Abs(t).queues[k], Load);
  }

  lemma BalancedReceive(s: State, t: State, i: nat)
    requires Balanced(s) && |t.children| == |s.children|
    requires i < |s.queue| && FirstOfType(s.queue, s.queue[i].ty) == Some(i) && t.queue == Without(s.queue, i)
    requires forall k :: 0 <= k < |s.children| ==> t.children[k].exited == s.children[k].exited
    requires 1 <= s.queue[i].ty <= |s.children| + 1
    requires s.queue[i].ty <= |s.children| ==> !s.children[s.queue[i].ty - 1].exited
    ensures Balanced(t)
  {
    var k := s.queue[i].ty - 1;
    AbsReceive(s, t, i);
    assert Abs(s).queues[k] == AbsQueue(s, k);
    TotalUpdate(Abs(s).queues, k, Abs(t).queues[k], Load);
  }

  lemma BalancedExit(s: State, t: State, k: nat)
    requires Balanced(s) && k < |s.children| && Project(s.queue, k + 1) == []
    requires t == s.(children := s.children[k := s.children[k].(exited := true)])
    ensures Balanced(t)
  {
    assert Abs(t).queues == Abs(s).queues[k := None];
    assert Abs(s).queues[k] == AbsQueue(s, k);
    TotalUpdate(Abs(s).queues, k, None, Load);
  }

  lemma BalancedChildStep(c: M.Config, s: State, a: M.Action)
    requires Balanced(s) && Step(c, s, a).Some? && (a.ChildSend? || a.ChildRecv? || a.ChildExit?)
    requires a.ChildExit? ==> Project(s.queue, a.k + 1) == []
    requires a.ChildRecv? ==> !s.children[a.k].exited
    ensures Balanced(Step(c, s, a).value)
  {
    var n := |s.children|;
    var t := Step(c, s, a).value;
    match a
    case ChildSend(k) => BalancedSend(s, t, Message(n + 1, s.children[k].want, k + 1));
    case ChildRecv(k) => BalancedReceive(s, t, FirstOfType(s.queue, k + 1).value);
    case ChildExit(k) => BalancedExit(s, t, k);
  }

  lemma BalancedServerRecv(c: M.Config, s: State)
    requires Balanced(s) && Step(c, s, M.ServerRecv).Some?
    ensures Balanced(Step(c, s, M.ServerRecv).value)
  {
    BalancedReceive(s, Step(c, s, M.ServerRecv).value, FirstOfType(s.queue, |s.children| + 1).value);
  }

  lemma BalancedServerSend(c: M.Config, s: State, v: int)
    requires Balanced(s) && Step(c, s, M.ServerSend(v)).Some?
    requires 1 <= s.server.file <= |s.children| && !s.children[s.server.file - 1].exited
    ensures Balanced(Step(c, s, M.ServerSend(v)).value)
  {
    BalancedSend(s, Step(c, s, M.ServerSend(v)).value, Message(s.server.file, v, s.server.file));
  }

  /** Queues of which one has room are not all full. */
  lemma LoadBelow(qs: seq<Option<seq<M.Payload>>>, k: nat, cap: nat)
    requires forall i :: 0 <= i < |qs| ==> Load(qs[i]) <= cap
    requires k < |qs| && qs[k].Some? && |qs[k].value| < cap
    ensures Total(qs, Load) < |qs| * cap
  {
    var q := Some(qs[k].value + [M.Payload(0, 0)]);
    TotalUpdate(qs, k, q, Load);
    TotalBound(qs[k := q], cap, Load);
    assert cap * |qs| == |qs| * cap;
  }

  /** With room for n + 1 full queues in the single one, a send that finds room in
      its own queue finds room in the single one. */
  lemma RoomToFollow(c: M.Config, d: M.Config, s: State, k: nat)
    requires Balanced(s) && Fits(d, Abs(s)) && c.cap >= (|s.children| + 1) * d.cap
    requires k <= |s.children| && M.HasRoom(d, Abs(s).queues[k])
    ensures |s.queue| < c.cap
  {
    LoadBelow(Abs(s).queues, k, d.cap);
  }

  /** Receiving and ending do not depend on the room in the queue. */
  lemma StepBack(c: M.Config, d: M.Config, s: State, a: M.Action)
    requires M.Step(d, Abs(s), a).Some? && !a.ChildSend? && !a.ServerSend?
    ensures Step(c, s, a).Some?
  {
    match a
    case ChildRecv(k) =>
      assert Abs(s).queues[k] == AbsQueue(s, k);
      ProjectEmpty(s.queue, k + 1);
    case ServerRecv =>
      assert Abs(s).queues[|s.children|] == AbsQueue(s, |s.children|);
      ProjectEmpty(s.queue, |s.children| + 1);
    case _ =>
  }

  /** The queue the server replies to exists. */
  lemma ReplyQueue(c: M.Config, s: State)
    requires Inv(c, s) && s.server.Replying?
    ensures 1 <= s.server.file <= |s.children| && !s.children[s.server.file - 1].exited
    ensures Abs(s).queues[s.server.file - 1].Some?
  {
    ViewHolds(c, s);
    var k := s.server.file - 1;
    assert ChildView(c, s, k);
    assert Abs(s).queues[k] == AbsQueue(s, k);
  }

  /** A send of serverMultiFile that fits its small queues fits the single one. */
  lemma SendFollows(c: M.Config, d: M.Config, s: State, a: M.Action)
    requires Balanced(s) && Fits(d, Abs(s)) && c.cap >= (|s.children| + 1) * d.cap
    requires M.Step(d, Abs(s), a).Some? && (a.ChildSend? || a.ServerSend?)
    requires a.ServerSend? ==> 1 <= s.server.file <= |s.children| && Abs(s).queues[s.server.file - 1].Some?
    ensures Step(c, s, a).Some?
  {
    RoomToFollow(c, d, s, if a.ChildSend? then |s.children| else s.server.file - 1);
  }

  /** Capacity only decides whether a step is enabled. */
  lemma SameEffect(c: M.Config, d: M.Config, m: M.State, a: M.Action)
    requires M.Step(c, m, a).Some? && M.Step(d, m, a).Some?
    ensures M.Step(c, m, a) == M.Step(d, m, a)
  {
  }

  /** A step of serverMultiFile that fits its small queues is the projection of a
      step of serverUniq. */
  lemma FollowStep(c: M.Config, d: M.Config, s: State, a: M.Action)
    requires Inv(c, s) && Balanced(s) && Fits(d, Abs(s)) && c.cap >= (|s.children| + 1) * d.cap
    requires M.Step(d, Abs(s), a).Some?
    ensures Step(c, s, a).Some?
    ensures M.Step(d, Abs(s), a) == Some(Abs(Step(c, s, a).value))
  {
    if a.ChildSend? || a.ServerSend? {
      if a.ServerSend? { ReplyQueue(c, s); }
      SendFollows(c, d, s, a);
    } else {
      StepBack(c, d, s, a);
    }
    StepRefines(c, s, a);
    SameEffect(c, d, Abs(s), a);
  }

  lemma FitsStep(d: M.Config, m: M.State, a: M.Action)
    requires Fits(d, m) && M.Step(d, m, a).Some?
    ensures Fits(d, M.Step(d, m, a).value)
  {
  }

  /** The conditions under which serverUniq can follow. */
  ghost predicate Following(c: M.Config, d: M.Config, s: State) {
    Inv(c, s) && Balanced(s) && Fits(d, Abs(s)) && c.cap >= (|s.children| + 1) * d.cap
  }

  lemma FollowKeeps(c: M.Config, d: M.Config, s: State, a: M.Action)
    requires Following(c, d, s) && M.Step(d, Abs(s), a).Some?
    ensures Step(c, s, a).Some? && Following(c, d, Step(c, s, a).value)
    ensures M.Step(d, Abs(s), a) == Some(Abs(Step(c, s, a).value))
  {
    FollowStep(c, d, s, a);
    FollowBalanced(c, s, a);
    FitsStep(d, Abs(s), a);
    InvStep(c, s, a);
    SameChildren(c, s, a);
  }

  lemma FollowBalanced(c: M.Config, s: State, a: M.Action)
    requires Inv(c, s) && Balanced(s) && Step(c, s, a).Some?
    ensures Balanced(Step(c, s, a).value)
  {
    FromProjection(c, s, a);
    if a.ServerRecv? {
      BalancedServerRecv(c, s);
    } else if a.ServerSend? {
      BalancedServerSend(c, s, a.v);
    } else {
      ViewHolds(c, s);
      assert a.ChildRecv? ==> ChildView(c, s, a.k);
      BalancedChildStep(c, s, a);
    }
  }

  lemma SameChildren(c: M.Config, s: State, a: M.Action)
    requires Step(c, s, a).Some?
    ensures |Step(c, s, a).value.children| == |s.children|
  {
  }

  /** With enough room serverUniq runs every schedule of serverMultiFile. */
  lemma {:induction false} RunFollows(c: M.Config, d: M.Config, s: State, acts: seq<M.Action>)
    requires Following(c, d, s) && Exec(M.Steps(d), Abs(s), acts).Some?
    ensures Exec(Steps(c), s, acts).Some?
    ensures Abs(Exec(Steps(c), s, acts).value) == Exec(M.Steps(d), Abs(s), acts).value
    decreases |acts|
  {
    if acts != [] {
      FollowKeeps(c, d, s, acts[0]);
      RunFollows(c, d, Step(c, s, acts[0]).value, acts[1..]);
    }
  }

  /** With that room every schedule of serverMultiFile is one of serverUniq, and its
      children end with the same reply sequences. */
  lemma Simulation(c: M.Config, d: M.Config, acts: seq<M.Action>)
    requires c.wants == d.wants && c.cap >= (|c.wants| + 1) * d.cap
    requires Exec(M.Steps(d), M.Init(d), acts).Some?
    ensures Exec(Steps(c), Init(c), acts).Some?
    ensures Exec(Steps(c), Init(c), acts).value.children == Exec(M.Steps(d), M.Init(d), acts).value.children
  {
    InvInit(c);
    TotalConstant(Abs(Init(c)).queues, 0, Load);
    RunFollows(c, d, Init(c), acts);
  }

  // ----- Both programs when nobody ever waits for room -----

  /** A step adds at most one message. */
  lemma QueueGrows(c: M.Config, s: State, a: M.Action)
    requires Step(c, s, a).Some?
    ensures |Step(c, s, a).value.queue| <= |s.queue| + 1
  {
  }

  /** With room for every operation still to come, a step of serverMultiFile is one of
      serverUniq. */
  lemma AlwaysRoom(c: M.Config, s: State, a: M.Action)
    requires Inv(c, s) && |s.queue| + Left(s) <= c.cap && M.Step(c, Abs(s), a).Some?
    ensures Step(c, s, a).Some?
  {
    M.InvStep(c, Abs(s), a);
    if !a.ChildSend? && !a.ServerSend? {
      StepBack(c, c, s, a);
    }
  }

  lemma {:induction false} SameSchedulesFrom(c: M.Config, s: State, acts: seq<M.Action>)
    requires Inv(c, s) && |s.queue| + Left(s) <= c.cap
    ensures Exec(Steps(c), s, acts).Some? <==> Exec(M.Steps(c), Abs(s), acts).Some?
    decreases |acts|
  {
    if acts != [] {
      if Step(c, s, acts[0]).Some? {
        StepRefines(c, s, acts[0]);
        InvStep(c, s, acts[0]);
        QueueGrows(c, s, acts[0]);
        SameSchedulesFrom(c, Step(c, s, acts[0]).value, acts[1..]);
      } else if M.Step(c, Abs(s), acts[0]).Some? {
        AlwaysRoom(c, s, acts[0]);
      }
    }
  }

  /** With room for as many messages as there are operations, the two programs have
      exactly the same schedules, and the same children at the end of each. */
  lemma SameSchedules(c: M.Config, acts: seq<M.Action>)
    requires c.cap >= Left(Init(c))
    ensures Exec(Steps(c), Init(c), acts).Some? <==> Exec(M.Steps(c), M.Init(c), acts).Some?
    ensures Exec(Steps(c), Init(c), acts).Some? ==>
              Exec(Steps(c), Init(c), acts).value.children == Exec(M.Steps(c), M.Init(c), acts).value.children
  {
    InvInit(c);
    SameSchedulesFrom(c, Init(c), acts);
    if Exec(Steps(c), Init(c), acts).Some? {
      Refinement(c, acts);
    }
  }
}
