/** What the chat server promises, for every number of clients and every run. */
module ChatTheorems {
  import opened Wrappers
  import opened Totals
  import opened Runs
  import opened ConnectionTable
  import opened ChatServer

  // ----- The baton -----

  /** There is always exactly one baton, so the slot has at most one user: two clients
      never write it together, nor a client while the server works. */
  lemma OneBaton(c: Config, s: State)
    requires Reaches(Steps(c), Init(c), s)
    ensures s.poster + s.prevenir + Total(s.clients, Holding) + (if s.server.Idle? then 0 else 1) == 1
    ensures forall k :: 0 <= k < |s.clients| && Holding(s.clients[k]) == 1 ==>
              s.server.Idle? && s.prevenir == 0 && s.poster == 0
    ensures forall j, k :: 0 <= j < k < |s.clients| ==> Holding(s.clients[j]) + Holding(s.clients[k]) <= 1
  {
    Reachable(c, s);
    forall k | 0 <= k < |s.clients| && Holding(s.clients[k]) == 1
      ensures s.server.Idle? && s.prevenir == 0 && s.poster == 0
    {
      TotalAtLeast(s.clients, k, Holding);
    }
    forall j, k | 0 <= j < k < |s.clients| ensures Holding(s.clients[j]) + Holding(s.clients[k]) <= 1 {
      TotalAtLeastTwo(s.clients, j, k, Holding);
    }
  }

  /** The requests handled are the requests posted, in order and unaltered; at most
      one is waiting and it is whole in the slot; it is of type 0, 1 or 2, so the
      default branch that would drop the baton is dead. */
  lemma NoRequestLost(c: Config, s: State)
    requires Reaches(Steps(c), Init(c), s)
    ensures |s.handled| <= |s.posted| <= |s.handled| + 1
    ensures forall i :: 0 <= i < |s.handled| ==> s.handled[i] == s.posted[i].req
    ensures |s.posted| > |s.handled| <==> s.prevenir > 0 || s.server.Handling?
    ensures |s.posted| > |s.handled| ==> s.req == s.posted[|s.handled|].req && 0 <= s.req.kind <= 2
    ensures s.history == Broadcasts(s.handled)
  {
    Reachable(c, s);
  }

  // ----- Total order, exactly once -----

  /** What a step may do to the record of client k: the history only grows, a client
      joins at its current length, is rejected by a full table only, and leaves at
      its current length. */
  ghost predicate RecordStep(s: State, t: State, k: nat)
    requires k < |s.clients| && k < |t.clients|
  {
    var x, y := s.clients[k].member, t.clients[k].member;
    && s.history <= t.history
    && (|| y == x
        || (x.Outside? && y.Rejected? && forall i :: 0 <= i < |s.table| ==> s.table[i].Taken?)
        || (x.Outside? && y.Joined? && y.since == |t.history|)
        || (x.Joined? && y == Left(x.since, |t.history|)))
  }

  lemma RecordsAreFaithful(c: Config, s: State, a: Action, k: nat)
    requires Reaches(Steps(c), Init(c), s) && Step(c, s, a).Some? && k < |s.clients|
    ensures var t := Step(c, s, a).value;
            |t.clients| == |s.clients| && RecordStep(s, t, k)
  {
    if a.Serve? && s.server.Handling? {
      Reachable(c, s);
      HandlingRecords(c, s, s.posted[|s.posted| - 1].author, k);
    } else {
      OtherRecords(c, s, a, k);
    }
  }

  lemma OtherRecords(c: Config, s: State, a: Action, k: nat)
    requires Step(c, s, a).Some? && k < |s.clients| && !(a.Serve? && s.server.Handling?)
    ensures var t := Step(c, s, a).value;
            |t.clients| == |s.clients| && t.clients[k].member == s.clients[k].member && t.history == s.history
  {
  }

  lemma HandlingRecords(c: Config, s: State, j: nat, k: nat)
    requires Shape(c, s) && TableOk(c, s) && ClientsOk(c, s) && PendingOk(c, s, j)
    requires s.server.Handling? && Step(c, s, Serve).Some? && k < |s.clients|
    ensures var t := Step(c, s, Serve).value;
            |t.clients| == |s.clients| && RecordStep(s, t, k)
  {
    LookupIs(c.names, j);
    assert MemberOk(c, s, j);
    FindRequester(c, s, j);
  }

  /** The position in the history where a member's reception starts. */
  function Start(m: Member): nat {
    match m case Joined(since, _) => since case Left(since, _) => since case _ => 0
  }

  /** A member has displayed the contiguous slice of the server's history from its
      connection to now, or to its disconnection, up to the one message in flight;
      anyone else has displayed nothing. */
  lemma ShownIsSlice(c: Config, s: State, k: nat)
    requires Reaches(Steps(c), Init(c), s) && k < |s.clients|
    ensures var x, h := s.clients[k], s.history;
            match x.member
            case Joined(since, _) =>
              since <= |h| &&
              (x.shown == h[since..] || (InRound(s) && since < |h| && x.shown == h[since..|h| - 1]))
            case Left(since, until) => since <= until <= |h| && x.shown == h[since..until]
            case _ => x.shown == []
  {
    Reachable(c, s);
    assert MemberOk(c, s, k);
  }

  /** Two clients agree on every message both have received, and on its place. */
  lemma SameOrder(c: Config, s: State, j: nat, k: nat, p: nat)
    requires Reaches(Steps(c), Init(c), s) && j < |s.clients| && k < |s.clients|
    requires var x, y := s.clients[j], s.clients[k];
             && Start(x.member) <= p < Start(x.member) + |x.shown|
             && Start(y.member) <= p < Start(y.member) + |y.shown|
    ensures var x, y := s.clients[j], s.clients[k];
            && p < |s.history|
            && x.shown[p - Start(x.member)] == s.history[p]
            && y.shown[p - Start(y.member)] == s.history[p]
  {
    ShownIsSlice(c, s, j);
    ShownIsSlice(c, s, k);
  }

  // ----- A broadcast round -----

  /** When the last wait of diffusion is over, every member has displayed this
      message, no authorisation or acknowledgement is left with anybody and
      fin_diffusion is back to 0. */
  lemma RoundClosesExactly(c: Config, s: State)
    requires Reaches(Steps(c), Init(c), s)
    requires s.server.Gather? && s.server.left <= 0
    ensures s.fin == 0 && s.history != []
    ensures forall k :: 0 <= k < |s.clients| ==>
              && Unacknowledged(s.clients[k]) == 0
              && (s.clients[k].member.Joined? ==>
                    && s.clients[k].member.since < |s.history|
                    && s.clients[k].shown == s.history[s.clients[k].member.since..])
  {
    Reachable(c, s);
    forall k | 0 <= k < |s.clients|
      ensures Unacknowledged(s.clients[k]) == 0
      ensures s.clients[k].member.Joined? ==>
                s.clients[k].member.since < |s.history| && s.clients[k].shown == s.history[s.clients[k].member.since..]
    {
      TotalAtLeast(s.clients, k, Unacknowledged);
      assert MemberOk(c, s, k);
    }
  }

  /** Outside a round every member is up to date. */
  lemma UpToDateBetweenRounds(c: Config, s: State, k: nat)
    requires Reaches(Steps(c), Init(c), s) && !InRound(s)
    requires k < |s.clients| && s.clients[k].member.Joined?
    ensures s.clients[k].member.since <= |s.history|
    ensures s.clients[k].shown == s.history[s.clients[k].member.since..]
    ensures s.fin == 0 && s.clients[k].autoris == 0
  {
    Reachable(c, s);
    assert MemberOk(c, s, k);
  }

  /** The fan-out loop overwrites a client's buffer only when the client has
      displayed all it was given before. */
  lemma NoBufferOverwritten(c: Config, s: State, k: nat)
    requires Reaches(Steps(c), Init(c), s)
    requires s.server.Fan? && s.server.i < |s.table| && s.table[s.server.i].Taken?
    requires k == s.table[s.server.i].link
    ensures k < |s.clients| && s.clients[k].member.Joined?
    ensures var x, h := s.clients[k], s.history;
            && x.autoris == 0 && !x.receiver.Showing?
            && x.member.since < |h| && x.shown == h[x.member.since..|h| - 1]
    ensures var y := FanOne(s, s.server.i).clients[k];
            y.autoris == 1 && y.inbox == s.history[|s.history| - 1]
  {
    Reachable(c, s);
    assert MemberOk(c, s, k);
  }

  /** Work a client still has to do in the round. */
  function Work(x: Client): nat {
    4 * x.autoris + match x.receiver case Showing => 3 case Acking => 2 case Absent => 1 case Blocked => 0
  }

  /** How far the baton is from poster_message. */
  function Phase(s: State): nat {
    match s.server
    case Idle => if s.poster > 0 then 0 else 6 * |s.table| + if s.prevenir > 0 then 8 else 9
    case Handling => 6 * |s.table| + 7
    case Fan(i) => 3 + if i <= |s.table| then 6 * (|s.table| - i) else 0
    case Gather(_) => 2
    case Releasing => 1
  }

  /** Unposted indices, unread messages, unposted and uncollected acknowledgements. */
  function Measure(s: State): nat { Phase(s) + Total(s.clients, Work) + s.fin }

  /** The steps that carry a round forward. */
  predicate Forward(a: Action) { a.Serve? || a.Fork? || a.Grant? || a.Show? || a.Ack? }

  /** Work one client gets rid of, or turns into an acknowledgement. */
  lemma ClientWork(c: Config, s: State, a: Action)
    requires Step(c, s, a).Some? && !a.Serve? && ReceiverOk(s.clients[a.k])
    ensures var t, y := Step(c, s, a).value, Step(c, s, a).value.clients[a.k];
            && t.clients == s.clients[a.k := y] && t.server == s.server && t.table == s.table && t.history == s.history
            && Work(y) + t.fin <= Work(s.clients[a.k]) + s.fin
            && (Forward(a) ==> Work(y) + t.fin < Work(s.clients[a.k]) + s.fin)
  {
  }

  /** In a round the server's steps lower the measure. */
  lemma ServerRoundStep(c: Config, s: State)
    requires TableFits(s) && InRound(s) && Step(c, s, Serve).Some?
    requires RoundOk(s)
    ensures var t := Step(c, s, Serve).value;
            && Measure(t) < Measure(s) && (InRound(t) || t.server.Releasing?) && t.history == s.history
  {
    if s.server.Fan? && s.server.i < |s.table| && s.table[s.server.i].Taken? {
      var k := s.table[s.server.i].link;
      TotalUpdate(s.clients, k, Step(c, s, Serve).value.clients[k], Work);
    }
  }

  /** The links of the table are clients. */
  ghost predicate TableFits(s: State) {
    forall i :: 0 <= i < |s.table| && s.table[i].Taken? ==> s.table[i].link < |s.clients|
  }

  /** In a round, a forward step lowers the measure and no step raises it. */
  lemma RoundAdvances(c: Config, s: State, a: Action)
    requires Inv(c, s) && InRound(s) && Step(c, s, a).Some?
    ensures var t := Step(c, s, a).value;
            && (Forward(a) ==> Measure(t) < Measure(s))
            && Measure(t) <= Measure(s)
            && (InRound(t) || t.server.Releasing?) && t.history == s.history
  {
    if a.Serve? {
      ServerRoundStep(c, s);
    } else {
      assert ReceiverOk(s.clients[a.k]);
      ClientWork(c, s, a);
      TotalUpdate(s.clients, a.k, Step(c, s, a).value.clients[a.k], Work);
    }
  }

  /** The steps taken from within a round. */
  function RoundSteps(c: Config): (State, Action) -> Option<State> {
    (s, a) => if InRound(s) then Step(c, s, a) else None
  }

  function ForwardSteps(acts: seq<Action>): nat {
    if acts == [] then 0 else (if Forward(acts[0]) then 1 else 0) + ForwardSteps(acts[1..])
  }

  /** A run that stays in a round has no more forward steps than the measure of its
      first state, whatever the users do meanwhile, and what is left at its end is
      lower by as many. */
  lemma {:induction false} RoundIsFinite(c: Config, s: State, acts: seq<Action>)
    requires Inv(c, s) && InRound(s) && Exec(RoundSteps(c), s, acts).Some?
    ensures ForwardSteps(acts) + Measure(Exec(RoundSteps(c), s, acts).value) <= Measure(s)
    decreases |acts|
  {
    if acts != [] {
      var t := Step(c, s, acts[0]).value;
      RoundAdvances(c, s, acts[0]);
      InvStep(c, s, acts[0]);
      if InRound(t) {
        RoundIsFinite(c, t, acts[1..]);
      } else {
        assert acts[1..] == [];
      }
    }
  }

  /** A client with an unacknowledged message can take its next step. */
  lemma ReceiverCanStep(c: Config, s: State, k: nat) returns (a: Action)
    requires Shape(c, s) && k < |s.clients| && ReceiverOk(s.clients[k]) && MemberOk(c, s, k)
    requires Unacknowledged(s.clients[k]) > 0
    ensures Forward(a) && Step(c, s, a).Some?
  {
    match s.clients[k].receiver
    case Showing => return Show(k);
    case Acking => return Ack(k);
    case Blocked => return Grant(k);
    case Absent => return Fork(k);
  }

  /** Some step can always carry a round forward. */
  lemma RoundNeverBlocks(c: Config, s: State) returns (a: Action)
    requires Inv(c, s) && InRound(s)
    ensures Forward(a) && Step(c, s, a).Some?
  {
    if s.server.Fan? || s.server.left <= 0 || s.fin > 0 {
      a := Serve;
    } else {
      TotalPositive(s.clients, Unacknowledged);
      var k :| 0 <= k < |s.clients| && Unacknowledged(s.clients[k]) > 0;
      assert ReceiverOk(s.clients[k]) && MemberOk(c, s, k);
      a := ReceiverCanStep(c, s, k);
    }
  }

  /** Outside a round, handling a request brings the baton nearer. */
  lemma HandlingAdvances(c: Config, s: State, j: nat)
    requires Shape(c, s) && TableOk(c, s) && PendingOk(c, s, j) && MemberOk(c, s, j)
    requires s.server.Handling?
    ensures Step(c, s, Serve).Some?
    ensures var t, y := Step(c, s, Serve).value, Step(c, s, Serve).value.clients[j];
            && |t.clients| == |s.clients| && t.clients == s.clients[j := y]
            && y.pc == s.clients[j].pc && Work(y) == Work(s.clients[j])
            && Phase(t) < Phase(s) && t.fin == s.fin
  {
    LookupIs(c.names, j);
    FindRequester(c, s, j);
  }

  /** Outside a round each step of the server brings the baton nearer. */
  lemma ServeAdvances(c: Config, s: State)
    requires Inv(c, s) && !InRound(s) && (!s.server.Idle? || s.prevenir > 0)
    ensures Step(c, s, Serve).Some?
    ensures var t := Step(c, s, Serve).value;
            && |t.clients| == |s.clients| && Measure(t) < Measure(s)
            && forall k :: 0 <= k < |s.clients| ==> t.clients[k].pc == s.clients[k].pc
  {
    if s.server.Handling? {
      var j := s.posted[|s.posted| - 1].author;
      assert MemberOk(c, s, j);
      HandlingAdvances(c, s, j);
      TotalUpdate(s.clients, j, Step(c, s, Serve).value.clients[j], Work);
    }
  }

  /** Steps that need no user: they leave a client that waits where it is. */
  lemma RoundStepLeaves(c: Config, s: State, a: Action, k: nat)
    requires Shape(c, s) && InRound(s) && Forward(a) && Step(c, s, a).Some?
    requires k < |s.clients| && !s.clients[k].pc.Forking?
    ensures var t := Step(c, s, a).value;
            |t.clients| == |s.clients| && t.clients[k].pc == s.clients[k].pc
  {
  }

  lemma HolderPosts(c: Config, s: State, k: nat) returns (a: Action)
    requires Shape(c, s) && s.server.Idle? && s.prevenir == 0 && s.poster == 0 && Baton(s)
    requires k < |s.clients| && Holding(s.clients[k]) == 0
    ensures Step(c, s, a).Some? && a.Post?
    ensures var t := Step(c, s, a).value;
            |t.clients| == |s.clients| && t.clients[k].pc == s.clients[k].pc && Measure(t) < Measure(s)
  {
    TotalPositive(s.clients, Holding);
    var j :| 0 <= j < |s.clients| && Holding(s.clients[j]) > 0;
    a := Post(j);
    TotalUpdate(s.clients, j, Step(c, s, a).value.clients[j], Work);
  }

  /** The baton can always come back to poster_message with no further input from
      any user, while a client that waits for it keeps waiting. */
  lemma BatonStep(c: Config, s: State, k: nat) returns (a: Action)
    requires Inv(c, s) && !(s.server.Idle? && s.poster == 1)
    requires k < |s.clients| && Holding(s.clients[k]) == 0 && !s.clients[k].pc.Forking?
    ensures Step(c, s, a).Some? && (Forward(a) || a.Post?)
    ensures var t := Step(c, s, a).value;
            k < |t.clients| && t.clients[k].pc == s.clients[k].pc && Measure(t) < Measure(s)
  {
    if InRound(s) {
      a := RoundNeverBlocks(c, s);
      RoundAdvances(c, s, a);
      RoundStepLeaves(c, s, a, k);
    } else if !s.server.Idle? || s.prevenir > 0 {
      a := Serve;
      ServeAdvances(c, s);
    } else {
      a := HolderPosts(c, s, k);
    }
  }

  /** The server is back at its wait and the baton is free. */
  predicate BatonFree(s: State) { s.server.Idle? && s.poster == 1 }

  /** A reachable state in which client k stands at pc. */
  ghost predicate WaitsAt(c: Config, s: State, k: nat, pc: Writer) {
    Reaches(Steps(c), Init(c), s) && k < |s.clients| && s.clients[k].pc == pc
  }

  lemma WaitStep(c: Config, s: State, k: nat, pc: Writer) returns (a: Action)
    requires WaitsAt(c, s, k, pc) && !BatonFree(s)
    requires pc.New? || pc.Sending? || pc.Quitting? || pc.Exiting?
    ensures Steps(c)(s, a).Some? && (Forward(a) || a.Post?) && WaitsAt(c, Steps(c)(s, a).value, k, pc)
    ensures Measure(Steps(c)(s, a).value) < Measure(s)
  {
    Reachable(c, s);
    a := BatonStep(c, s, k);
    ReachesNext(Steps(c), Init(c), s, a);
  }

  /** A client that waits for poster_message can always get the baton: from every
      reachable state some continuation makes it the holder. */
  lemma WaitingClientCanProceed(c: Config, s: State, k: nat)
    requires Reaches(Steps(c), Init(c), s) && k < |s.clients|
    requires s.clients[k].pc.New? || s.clients[k].pc.Sending? || s.clients[k].pc.Quitting?
    ensures exists t :: Reaches(Steps(c), s, t) && k < |t.clients| && Holding(t.clients[k]) == 1
  {
    var pc := s.clients[k].pc;
    var inv := (t: State) => WaitsAt(c, t, k, pc);
    forall t | inv(t) && !BatonFree(t)
      ensures exists a :: Steps(c)(t, a).Some? && inv(Steps(c)(t, a).value)
                       && Measure(Steps(c)(t, a).value) < Measure(t)
    {
      var a := WaitStep(c, t, k, pc);
    }
    var u := GoalReached(Steps(c), inv, BatonFree, Measure, s);
    TakeFree(c, u, k);
    ReachesNext(Steps(c), s, u, Take(k));
  }

  lemma TakeFree(c: Config, s: State, k: nat)
    requires Reaches(Steps(c), Init(c), s) && k < |s.clients| && BatonFree(s)
    requires s.clients[k].pc.New? || s.clients[k].pc.Sending? || s.clients[k].pc.Quitting?
    ensures Step(c, s, Take(k)).Some?
    ensures var t := Step(c, s, Take(k)).value;
            k < |t.clients| && Holding(t.clients[k]) == 1
  {
    Reachable(c, s);
  }

  /** A round can always be closed: from every state of a round some continuation
      ends it with the same history. */
  lemma RoundCanClose(c: Config, s: State)
    requires Reaches(Steps(c), Init(c), s) && InRound(s)
    ensures exists t :: Reaches(Steps(c), s, t) && t.server.Releasing? && t.history == s.history
  {
    var h := s.history;
    var inv := (t: State) => Reaches(Steps(c), Init(c), t) && (InRound(t) || t.server.Releasing?) && t.history == h;
    var goal := (t: State) => t.server.Releasing?;
    forall t | inv(t) && !goal(t)
      ensures exists a :: Steps(c)(t, a).Some? && inv(Steps(c)(t, a).value)
                       && Measure(Steps(c)(t, a).value) < Measure(t)
    {
      var a := RoundStep(c, t);
    }
    var t := GoalReached(Steps(c), inv, goal, Measure, s);
  }

  /** In particular the last wait of diffusion is reached. */
  lemma LastWait(c: Config, s: State) returns (t: State)
    requires Reaches(Steps(c), Init(c), s) && InRound(s)
    ensures Reaches(Steps(c), s, t) && t.server.Gather? && t.server.left <= 0 && t.history == s.history
  {
    var h := s.history;
    var inv := (u: State) => Reaches(Steps(c), Init(c), u) && InRound(u) && u.history == h;
    var goal := (u: State) => u.server.Gather? && u.server.left <= 0;
    forall u | inv(u) && !goal(u)
      ensures exists a :: Steps(c)(u, a).Some? && inv(Steps(c)(u, a).value)
                       && Measure(Steps(c)(u, a).value) < Measure(u)
    {
      var a := RoundStep(c, u);
    }
    t := GoalReached(Steps(c), inv, goal, Measure, s);
  }

  lemma RoundStep(c: Config, s: State) returns (a: Action)
    requires Reaches(Steps(c), Init(c), s) && InRound(s)
    ensures Steps(c)(s, a).Some? && Reaches(Steps(c), Init(c), Steps(c)(s, a).value)
    ensures var t := Steps(c)(s, a).value;
            (InRound(t) || t.server.Releasing?) && t.history == s.history && Measure(t) < Measure(s)
  {
    Reachable(c, s);
    a := RoundNeverBlocks(c, s);
    RoundAdvances(c, s, a);
    ReachesNext(Steps(c), Init(c), s, a);
  }

  // ----- Membership -----

  /** nb_connect counts the taken indices, which are the joined clients' own. */
  lemma MembershipTable(c: Config, s: State)
    requires Reaches(Steps(c), Init(c), s)
    ensures |s.table| == c.max && s.connected == Total(s.table, Occupied) <= c.max
    ensures forall i :: 0 <= i < |s.table| && s.table[i].Taken? ==>
              && s.table[i].link < |s.clients|
              && s.clients[s.table[i].link].member.Joined?
              && s.clients[s.table[i].link].member.slot == i
    ensures |s.clients| == |c.names|
    ensures forall k :: 0 <= k < |s.clients| && s.clients[k].member.Joined? ==>
              && s.clients[k].member.slot < |s.table|
              && s.table[s.clients[k].member.slot] == Taken(c.names[k], k)
  {
    Reachable(c, s);
    TotalBound(s.table, 1, Occupied);
    forall k | 0 <= k < |s.clients| && s.clients[k].member.Joined?
      ensures s.clients[k].member.slot < |s.table| && s.table[s.clients[k].member.slot] == Taken(c.names[k], k)
    {
      assert MemberOk(c, s, k);
    }
  }

  /** Handling a disconnection frees exactly the requester's index, or nothing when
      the requester had been rejected. */
  lemma DisconnectFreesRequester(c: Config, s: State)
    requires Reaches(Steps(c), Init(c), s) && s.server.Handling? && s.req.kind == 2
    ensures |s.posted| > 0 && s.posted[|s.posted| - 1].author < |s.clients|
    ensures var x, t := s.clients[s.posted[|s.posted| - 1].author], HandleDisconnect(s);
            if x.member.Joined? then
              && x.member.slot < |s.table|
              && t.table == s.table[x.member.slot := Free]
              && t.connected == s.connected - 1 && t.deco == s.deco + 1
            else
              x.member.Rejected? && t.table == s.table && t.connected == s.connected && t.deco == s.deco
  {
    Reachable(c, s);
    var k := s.posted[|s.posted| - 1].author;
    assert MemberOk(c, s, k);
    FindRequester(c, s, k);
  }
}
