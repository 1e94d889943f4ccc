/** The semaphore that a departing client waits for: it carries no name, so one client
    can take the token posted for another. */
module ChatDepartures {
  import opened Wrappers
  import opened Totals
  import opened Runs
  import opened Numbers
  import opened ConnectionTable
  import opened ChatServer
  import opened ChatTheorems

  /** A processed leaver that has not passed deco_sem yet. */
  function LeftWaiting(x: Client): nat { if x.member.Left? && !x.pc.Gone? then 1 else 0 }
  function LeftGone(x: Client): nat { if x.member.Left? && x.pc.Gone? then 1 else 0 }

  /** A client that passed deco_sem with the token of another's disconnect. */
  function Thief(x: Client): nat { if x.pc.Gone? && !x.member.Left? then 1 else 0 }

  /** Clients past deco_sem never outnumber processed disconnects, and the tokens
      suffice for every processed leaver exactly when no other client took one. */
  lemma DepartureTokens(c: Config, s: State)
    requires Reaches(Steps(c), Init(c), s)
    ensures Total(s.clients, IsGone) <= Total(s.clients, HasLeft)
    ensures s.deco + Total(s.clients, Thief) == Total(s.clients, LeftWaiting)
    ensures s.deco >= Total(s.clients, LeftWaiting) <==>
            forall k :: 0 <= k < |s.clients| ==> !(s.clients[k].pc.Gone? && !s.clients[k].member.Left?)
  {
    Reachable(c, s);
    TotalSplit(s.clients, HasLeft, LeftWaiting, LeftGone);
    TotalSplit(s.clients, IsGone, Thief, LeftGone);
    TotalPositive(s.clients, Thief);
  }

  // ----- When every leaver is sure of its token -----

  /** A full table has fewer indices than there are clients, one of whom is outside. */
  lemma FullTable(c: Config, s: State, k: nat)
    requires Reaches(Steps(c), Init(c), s) && k < |s.clients| && s.clients[k].member.Outside?
    requires forall i :: 0 <= i < |s.table| ==> s.table[i].Taken?
    ensures c.max < |c.names|
  {
    MembershipTable(c, s);
    Pigeonhole(seq(|s.table|, i requires 0 <= i < |s.table| => s.table[i].link), |s.clients|, k);
  }

  ghost predicate NobodyRejected(s: State) {
    forall k :: 0 <= k < |s.clients| ==> !s.clients[k].member.Rejected?
  }

  ghost predicate NobodyLeft(s: State) {
    forall k :: 0 <= k < |s.clients| ==> !s.clients[k].member.Left?
  }

  /** With an index for every client the table is never found full; with none, nobody
      ever becomes a member. */
  lemma SafeStep(c: Config, s: State, a: Action)
    requires Reaches(Steps(c), Init(c), s) && Step(c, s, a).Some?
    ensures |c.names| <= c.max && NobodyRejected(s) ==> NobodyRejected(Step(c, s, a).value)
    ensures c.max == 0 && NobodyLeft(s) ==> NobodyLeft(Step(c, s, a).value)
  {
    var t := Step(c, s, a).value;
    MembershipTable(c, s);
    forall k | 0 <= k < |t.clients|
      ensures |c.names| <= c.max && NobodyRejected(s) ==> !t.clients[k].member.Rejected?
      ensures c.max == 0 && NobodyLeft(s) ==> !t.clients[k].member.Left?
    {
      SameClients(c, s, a);
      RecordsAreFaithful(c, s, a, k);
      if s.clients[k].member.Outside? && t.clients[k].member.Rejected? {
        FullTable(c, s, k);
      }
    }
  }

  lemma SameClients(c: Config, s: State, a: Action)
    requires Step(c, s, a).Some?
    ensures |Step(c, s, a).value.clients| == |s.clients|
  {
  }

  lemma Safe(c: Config, s: State)
    requires Reaches(Steps(c), Init(c), s)
    ensures |c.names| <= c.max ==> NobodyRejected(s)
    ensures c.max == 0 ==> NobodyLeft(s)
  {
    var inv := (t: State) =>
      && Reaches(Steps(c), Init(c), t)
      && (|c.names| <= c.max ==> NobodyRejected(t)) && (c.max == 0 ==> NobodyLeft(t));
    assert Exec(Steps(c), Init(c), []) == Some(Init(c));
    forall t, a | inv(t) && Steps(c)(t, a).Some? ensures inv(Steps(c)(t, a).value) {
      ReachesNext(Steps(c), Init(c), t, a);
      SafeStep(c, t, a);
    }
    InvariantReaches(Steps(c), inv, Init(c), s);
  }

  /** A token is there for every leaver whose disconnection was processed. */
  ghost predicate TokensSuffice(s: State) {
    s.deco >= Total(s.clients, LeftWaiting)
  }

  lemma SafeTokens(c: Config, s: State)
    requires Reaches(Steps(c), Init(c), s) && !Pending(s)
    requires |c.names| <= c.max || c.max == 0
    ensures TokensSuffice(s)
  {
    Safe(c, s);
    Reachable(c, s);
    if c.max == 0 {
      TotalConstant(s.clients, 0, LeftWaiting);
    } else {
      forall k | 0 <= k < |s.clients| ensures !(s.clients[k].pc.Gone? && !s.clients[k].member.Left?) {
        assert MemberOk(c, s, k);
      }
      DepartureTokens(c, s);
    }
  }

  // ----- Getting away -----

  /** Moves a client's main process or writer has left until it is gone. */
  function ToGo(x: Client): nat {
    match x.pc
    case New => 7 case Connecting => 6 case Forking => 5
    case Sending(_) => 6 case Writing(_) => 5 case Reading => 4
    case Quitting => 3 case Leaving => 2 case Exiting => 1 case Gone => 0
  }

  /** The moves that bring a client nearer to its end. */
  predicate Departing(a: Action) { a.Take? || a.Post? || a.Fork? || a.Interrupt? || a.Finish? }

  lemma ClientMoves(c: Config, s: State, a: Action)
    requires Step(c, s, a).Some? && !a.Serve? && !a.Type?
    ensures var t, y := Step(c, s, a).value, Step(c, s, a).value.clients[a.k];
            && t.clients == s.clients[a.k := y] && ToGo(y) <= ToGo(s.clients[a.k])
            && (Departing(a) ==> ToGo(y) < ToGo(s.clients[a.k]))
  {
  }

  lemma ServerMovesNobody(c: Config, s: State)
    requires Step(c, s, Serve).Some?
    ensures var t := Step(c, s, Serve).value;
            |t.clients| == |s.clients| && forall k :: 0 <= k < |s.clients| ==> t.clients[k].pc == s.clients[k].pc
  {
  }

  /** Only a typed line takes a client away from its end. */
  lemma ToGoStep(c: Config, s: State, a: Action)
    requires Step(c, s, a).Some? && !a.Type?
    ensures var t := Step(c, s, a).value;
            && |t.clients| == |s.clients| && Total(t.clients, ToGo) <= Total(s.clients, ToGo)
            && (Departing(a) ==> Total(t.clients, ToGo) < Total(s.clients, ToGo))
  {
    var t := Step(c, s, a).value;
    if a.Serve? {
      ServerMovesNobody(c, s);
      TotalAgree(t.clients, ToGo, s.clients, ToGo);
    } else {
      ClientMoves(c, s, a);
      TotalUpdate(s.clients, a.k, t.clients[a.k], ToGo);
    }
  }

  /** A client that waits at pc, with nobody farther from its end than before. */
  ghost predicate StillWaits(c: Config, s: State, k: nat, pc: Writer, n: nat, togo: nat) {
    WaitsAt(c, s, k, pc) && |s.clients| == n && Total(s.clients, ToGo) <= togo
  }

  /** The baton comes back while client k waits for it or for a token. */
  lemma BatonComesBack(c: Config, s: State, k: nat) returns (t: State)
    requires Reaches(Steps(c), Init(c), s) && k < |s.clients|
    requires var pc := s.clients[k].pc; pc.New? || pc.Sending? || pc.Quitting? || pc.Exiting?
    ensures Reaches(Steps(c), s, t) && BatonFree(t)
    ensures StillWaits(c, t, k, s.clients[k].pc, |s.clients|, Total(s.clients, ToGo))
  {
    var pc, n, togo := s.clients[k].pc, |s.clients|, Total(s.clients, ToGo);
    var inv := (u: State) => StillWaits(c, u, k, pc, n, togo);
    forall u | inv(u) && !BatonFree(u)
      ensures exists a :: Steps(c)(u, a).Some? && inv(Steps(c)(u, a).value)
                       && Measure(Steps(c)(u, a).value) < Measure(u)
    {
      var a := WaitStep(c, u, k, pc);
      ToGoStep(c, u, a);
    }
    t := GoalReached(Steps(c), inv, BatonFree, Measure, s);
  }

  /** With an index for every client, one that waits for a token finds it whenever no
      request is pending. */
  lemma TokenIsThere(c: Config, s: State, k: nat)
    requires Reaches(Steps(c), Init(c), s) && !Pending(s) && |c.names| <= c.max
    requires k < |s.clients| && s.clients[k].pc.Exiting?
    ensures Step(c, s, Finish(k)).Some?
  {
    Reachable(c, s);
    Safe(c, s);
    SafeTokens(c, s);
    assert MemberOk(c, s, k);
    TotalAtLeast(s.clients, k, LeftWaiting);
  }

  /** From every reachable state a client that is not gone can make a move. */
  lemma NextMove(c: Config, s: State, k: nat) returns (t: State)
    requires Reaches(Steps(c), Init(c), s) && |c.names| <= c.max
    requires k < |s.clients| && !s.clients[k].pc.Gone?
    ensures Reaches(Steps(c), s, t) && Reaches(Steps(c), Init(c), t)
    ensures |t.clients| == |s.clients| && Total(t.clients, ToGo) < Total(s.clients, ToGo)
    ensures s.clients[k].pc.Exiting? ==> t.clients[k].pc.Gone?
  {
    var pc := s.clients[k].pc;
    var u, a := s, Post(k);
    Reachable(c, s);
    assert Exec(Steps(c), s, []) == Some(s);
    if pc.New? || pc.Sending? || pc.Quitting? || pc.Exiting? {
      u := BatonComesBack(c, s, k);
      a := MoveWithBaton(c, u, k);
    } else if pc.Forking? {
      a := Fork(k);
    } else if pc.Reading? {
      a := Interrupt(k);
    }
    t := MakeMove(c, s, u, a);
  }

  lemma MoveWithBaton(c: Config, s: State, k: nat) returns (a: Action)
    requires Reaches(Steps(c), Init(c), s) && BatonFree(s) && |c.names| <= c.max && k < |s.clients|
    requires var pc := s.clients[k].pc; pc.New? || pc.Sending? || pc.Quitting? || pc.Exiting?
    ensures Departing(a) && Step(c, s, a).Some?
    ensures s.clients[k].pc.Exiting? ==> a == Finish(k)
  {
    if s.clients[k].pc.Exiting? {
      Reachable(c, s);
      TokenIsThere(c, s, k);
      a := Finish(k);
    } else {
      TakeFree(c, s, k);
      a := Take(k);
    }
  }

  lemma MakeMove(c: Config, s: State, u: State, a: Action) returns (t: State)
    requires Reaches(Steps(c), Init(c), s) && Reaches(Steps(c), s, u) && Step(c, u, a).Some? && Departing(a)
    ensures Step(c, u, a) == Some(t) && Reaches(Steps(c), s, t) && Reaches(Steps(c), Init(c), t)
    ensures |t.clients| == |u.clients| && Total(t.clients, ToGo) < Total(u.clients, ToGo)
  {
    ToGoStep(c, u, a);
    ReachesNext(Steps(c), s, u, a);
    t := Step(c, u, a).value;
    ReachesFurther(Steps(c), Init(c), s, t);
  }

  /** With an index for every client, one that has sent its disconnection request can
      always get away, whatever others have taken its token meanwhile. */
  lemma LeaverCanGo(c: Config, s: State, k: nat)
    requires Reaches(Steps(c), Init(c), s) && |c.names| <= c.max
    requires k < |s.clients| && s.clients[k].pc.Exiting?
    ensures exists t :: Reaches(Steps(c), s, t) && k < |t.clients| && t.clients[k].pc.Gone?
  {
    var t := NextMove(c, s, k);
  }

  ghost predicate AllGone(c: Config, s: State) {
    |s.clients| == |c.names| && forall k :: 0 <= k < |s.clients| ==> s.clients[k].pc.Gone?
  }

  /** One move after another, all can go. */
  lemma {:induction false} AllCanGo(c: Config, s: State)
    requires Reaches(Steps(c), Init(c), s) && |c.names| <= c.max
    ensures exists t :: Reaches(Steps(c), s, t) && AllGone(c, t)
    decreases Total(s.clients, ToGo)
  {
    Reachable(c, s);
    if AllGone(c, s) {
      assert Exec(Steps(c), s, []) == Some(s);
    } else {
      var k :| 0 <= k < |s.clients| && !s.clients[k].pc.Gone?;
      var u := NextMove(c, s, k);
      AllCanGo(c, u);
      var t :| Reaches(Steps(c), u, t) && AllGone(c, t);
      ReachesFurther(Steps(c), s, u, t);
    }
  }

  /** A rejected client stays rejected. */
  lemma StaysRejected(c: Config, s: State, t: State, k: nat)
    requires Reaches(Steps(c), Init(c), s) && k < |s.clients| && s.clients[k].member.Rejected?
    requires Reaches(Steps(c), s, t)
    ensures Reaches(Steps(c), Init(c), t) && k < |t.clients| && t.clients[k].member.Rejected?
  {
    var inv := (u: State) =>
      Reaches(Steps(c), Init(c), u) && k < |u.clients| && u.clients[k].member.Rejected?;
    forall u, a | inv(u) && Steps(c)(u, a).Some? ensures inv(Steps(c)(u, a).value) {
      ReachesNext(Steps(c), Init(c), u, a);
      RecordsAreFaithful(c, u, a, k);
    }
    InvariantReaches(Steps(c), inv, s, t);
  }

  /** Once a client is rejected there is never a token for everybody. */
  lemma RejectionIsFatal(c: Config, s: State, t: State, k: nat)
    requires Reaches(Steps(c), Init(c), s) && k < |s.clients| && s.clients[k].member.Rejected?
    requires Reaches(Steps(c), s, t)
    ensures !AllGone(c, t)
  {
    StaysRejected(c, s, t, k);
    DepartureTokens(c, t);
    var x := t.clients[k].(member := Left(0, 0));
    TotalUpdate(t.clients, k, x, HasLeft);
    TotalBound(t.clients[k := x], 1, HasLeft);
    if AllGone(c, t) {
      TotalConstant(t.clients, 1, IsGone);
    }
  }

  // ----- A run in which a token is stolen, for every table that can be full -----

  lemma Next(c: Config, s: State, a: Action) returns (t: State)
    requires Reaches(Steps(c), Init(c), s) && Step(c, s, a).Some?
    ensures t == Step(c, s, a).value && Reaches(Steps(c), Init(c), t)
  {
    ReachesNext(Steps(c), Init(c), s, a);
    t := Step(c, s, a).value;
  }

  /** The server waits, no request or token is out and nothing was broadcast. */
  ghost predicate Quiet(c: Config, s: State) {
    && Reaches(Steps(c), Init(c), s) && Shape(c, s)
    && s.poster == 1 && s.prevenir == 0 && s.deco == 0 && s.server.Idle? && s.history == []
  }

  /** The first m clients are members, the others have not started. */
  ghost predicate FirstJoined(c: Config, s: State, m: nat)
    requires Shape(c, s)
  {
    && m <= |s.table| && m <= |s.clients|
    && (forall i :: 0 <= i < |s.table| ==> s.table[i] == if i < m then Taken(c.names[i], i) else Free)
    && (forall i :: 0 <= i < |s.clients| ==>
          s.clients[i] == if i < m then Client(Forking, Absent, 0, "", [], Joined(0, i))
                          else Client(New, Absent, 0, "", [], Outside))
  }

  /** Client k connects, and is a member or rejected. */
  lemma Connects(c: Config, s: State, k: nat) returns (t: State)
    requires Quiet(c, s) && k < |s.clients| && s.clients[k].pc.New?
    ensures Quiet(c, t)
    ensures var x := s.clients[k].(pc := Forking);
            match FirstFree(s.table)
            case Some(i) =>
              t.table == s.table[i := Taken(c.names[k], k)] && t.clients == s.clients[k := x.(member := Joined(0, i))]
            case None =>
              t.table == s.table && t.clients == s.clients[k := x.(member := Rejected)]
  {
    LookupIs(c.names, k);
    t := Next(c, s, Take(k));
    t := Next(c, t, Post(k));
    t := Next(c, t, Serve);
    t := Next(c, t, Serve);
    t := Next(c, t, Serve);
  }

  lemma {:induction false} FirstOnes(c: Config, m: nat) returns (s: State)
    requires m <= c.max && m < |c.names|
    ensures Quiet(c, s) && FirstJoined(c, s, m)
  {
    if m == 0 {
      s := Init(c);
      assert Exec(Steps(c), s, []) == Some(s);
    } else {
      s := FirstOnes(c, m - 1);
      assert s.table[m - 1].Free? && forall i :: 0 <= i < m - 1 ==> s.table[i].Taken?;
      s := Connects(c, s, m - 1);
    }
  }

  /** Client k asks to leave and the server reads its request. */
  lemma AsksToLeave(c: Config, s: State, k: nat) returns (t: State)
    requires Quiet(c, s) && k < |s.clients| && s.clients[k].pc.Forking?
    ensures Reaches(Steps(c), Init(c), t)
    ensures t == s.(poster := 0, server := Handling, req := Request(2, c.names[k]),
                    posted := s.posted + [Posting(k, Request(2, c.names[k]))],
                    clients := s.clients[k := s.clients[k].(pc := Exiting, receiver := Blocked)])
  {
    t := Next(c, s, Fork(k));
    t := Next(c, t, Interrupt(k));
    t := Next(c, t, Take(k));
    t := Next(c, t, Post(k));
    t := Next(c, t, Serve);
  }

  /** The server's answer depends on the table. */
  lemma IsAnswered(c: Config, s: State, k: nat) returns (t: State)
    requires Quiet(c, s) && k < |s.clients| && s.clients[k].pc.Forking?
    requires match FindName(s.table, c.names[k])
             case Some(i) => s.table[i].link == k && s.clients[k].member.Joined?
             case None => true
    ensures Reaches(Steps(c), Init(c), t) && t.server.Idle? && t.poster == 1 && t.prevenir == 0 && t.history == []
    ensures var x := s.clients[k].(pc := Exiting, receiver := Blocked);
            match FindName(s.table, c.names[k])
            case Some(_) =>
              && t.deco == 1
              && t.clients == s.clients[k := x.(member := Left(s.clients[k].member.since, 0))]
            case None =>
              t.deco == 0 && t.clients == s.clients[k := x] && t.table == s.table
  {
    t := AsksToLeave(c, s, k);
    t := Next(c, t, Serve);
    t := Next(c, t, Serve);
  }

  /** A member whose disconnection was processed, waiting at deco_sem, and a rejected
      client that has passed it. */
  const LEFT_WAITS := Client(Exiting, Blocked, 0, "", [], Left(0, 0))
  const REJECTED_GONE := Client(Gone, Blocked, 0, "", [], Rejected)

  /** The table fills up, one more client is rejected and asks to leave, then the
      first member does, and the rejected client takes its token. */
  lemma StolenToken(c: Config) returns (s: State)
    requires 0 < c.max < |c.names|
    ensures Reaches(Steps(c), Init(c), s) && !Pending(s) && !TokensSuffice(s)
    ensures s.server.Idle? && s.deco == 0
    ensures |s.clients| == |c.names| && s.clients[0] == LEFT_WAITS && s.clients[c.max] == REJECTED_GONE
  {
    var m := c.max;
    s := FirstOnes(c, m);
    assert FirstFree(s.table) == None;
    s := Connects(c, s, m);
    assert FindName(s.table, c.names[m]) == None;
    s := IsAnswered(c, s, m);
    assert FindName(s.table, c.names[0]) == Some(0);
    s := IsAnswered(c, s, 0);
    s := Next(c, s, Finish(m));
    TotalAtLeast(s.clients, 0, LeftWaiting);
  }

  /** Between requests there is a token for every member whose disconnection was
      processed: this is so in all runs exactly when no client can be rejected from a
      table that has members.  With no index at all nobody becomes a member, so that no
      token is ever posted nor owed. */
  lemma DepartureSafeIff(c: Config)
    ensures (|c.names| <= c.max || c.max == 0) <==>
            forall s :: Reaches(Steps(c), Init(c), s) && !Pending(s) ==> TokensSuffice(s)
  {
    if |c.names| <= c.max || c.max == 0 {
      forall s | Reaches(Steps(c), Init(c), s) && !Pending(s) ensures TokensSuffice(s) {
        SafeTokens(c, s);
      }
    } else {
      var s := StolenToken(c);
    }
  }

  /** Two clients and a table of one index. */
  const SMALL := Config(["a", "b"], 1)

  /** A departing member is not promised its token: with two clients and one index a
      client that was rejected takes it, and the member waits forever. */
  lemma RejectedClientStealsToken()
    ensures exists s :: Reaches(Steps(SMALL), Init(SMALL), s) && Stuck(Steps(SMALL), s)
                     && s.clients == [LEFT_WAITS, REJECTED_GONE]
  {
    var s := StolenToken(SMALL);
    Reachable(SMALL, s);
    assert s.clients == [LEFT_WAITS, REJECTED_GONE];
    forall a ensures Steps(SMALL)(s, a).None? {
      if !a.Serve? && a.k < 2 {
        assert s.clients[a.k] == LEFT_WAITS || s.clients[a.k] == REJECTED_GONE;
      }
    }
  }

  /** Everybody can get away: from every reachable state all clients can still be
      brought to their end, exactly when the table has an index for every client. */
  lemma EveryoneCanLeaveIff(c: Config)
    ensures |c.names| <= c.max <==>
            forall s :: Reaches(Steps(c), Init(c), s) ==> exists t :: Reaches(Steps(c), s, t) && AllGone(c, t)
  {
    if |c.names| <= c.max {
      forall s | Reaches(Steps(c), Init(c), s) ensures exists t :: Reaches(Steps(c), s, t) && AllGone(c, t) {
        AllCanGo(c, s);
      }
    } else {
      var s := FirstOnes(c, c.max);
      assert FirstFree(s.table) == None;
      s := Connects(c, s, c.max);
      forall t | Reaches(Steps(c), s, t) ensures !AllGone(c, t) {
        RejectionIsFatal(c, s, t, c.max);
      }
    }
  }
}
