/** The request/reply server over one queue a child and one request queue
    (serverMultiFile).  Queue k < n carries the replies to child k, queue n the
    requests; every message has type 1, so the queues are plain FIFOs. */
module MultiQueueServer {
  import opened Wrappers
  import opened Totals
  import opened Runs

  /** How many values each child asks for, and the capacity of a queue. */
  datatype Config = Config(wants: seq<nat>, cap: nat)

  /** The body of a message. */
  datatype Payload = Payload(mess: int, file: int)

  /** A child: what it draws, whether its request is out, what it has received and
      added up, whether it has ended; and two records of the server's doing, whether
      its request was taken and the values sent to it. */
  datatype Child = Child(
    want: nat, sent: bool, got: seq<int>, res: int, exited: bool,
    served: bool, given: seq<int>)

  /** The server waits for a request, or has `left` > 0 replies to send to `file`. */
  datatype Server = Receiving | Replying(file: int, left: nat)

  /** A queue is None once removed.  `rounds` counts the completed turns of the
      server's loop, `lost` the sends to a queue that no longer exists. */
  datatype State = State(
    queues: seq<Option<seq<Payload>>>, children: seq<Child>,
    server: Server, rounds: nat, lost: nat)

  datatype Action = ChildSend(k: nat) | ChildRecv(k: nat) | ChildExit(k: nat) | ServerRecv | ServerSend(v: int)

  function Fresh(want: nat): Child { Child(want, false, [], 0, false, false, []) }

  function Init(c: Config): State {
    State(seq(|c.wants| + 1, _ => Some([])), seq(|c.wants|, k requires 0 <= k < |c.wants| => Fresh(c.wants[k])),
          Receiving, 0, 0)
  }

  /** The server after it received a request for `want` values. */
  function StartReplies(s: State, want: int, file: int): State {
    if want <= 0 then s.(rounds := s.rounds + 1) else s.(server := Replying(file, want))
  }

  /** The server after one reply. */
  function CountReply(s: State): State
    requires s.server.Replying?
  {
    if s.server.left <= 1 then s.(server := Receiving, rounds := s.rounds + 1)
    else s.(server := s.server.(left := s.server.left - 1))
  }

  function TakeRequest(children: seq<Child>, file: int): seq<Child> {
    if 0 <= file < |children| then children[file := children[file].(served := true)] else children
  }

  function GiveValue(children: seq<Child>, file: int, v: int): seq<Child> {
    if 0 <= file < |children| then children[file := children[file].(given := children[file].given + [v])] else children
  }

  function Receive(x: Child, v: int): Child { x.(got := x.got + [v], res := x.res + v) }

  /** A queue that a message can be sent to. */
  predicate HasRoom(c: Config, q: Option<seq<Payload>>) { q.Some? && |q.value| < c.cap }

  function Step(c: Config, s: State, a: Action): Option<State> {
    var n := |s.children|;
    if |s.queues| != n + 1 then None
    else
      match a
      case ChildSend(k) =>
        if k < n && !s.children[k].sent && HasRoom(c, s.queues[n]) then
          Some(s.(queues := s.queues[n := Some(s.queues[n].value + [Payload(s.children[k].want, k)])],
                  children := s.children[k := s.children[k].(sent := true)]))
        else None
      case ChildRecv(k) =>
        if k < n && s.children[k].sent && |s.children[k].got| < s.children[k].want
           && s.queues[k].Some? && s.queues[k].value != [] then
          Some(s.(queues := s.queues[k := Some(s.queues[k].value[1..])],
                  children := s.children[k := Receive(s.children[k], s.queues[k].value[0].mess)]))
        else None
      case ChildExit(k) =>
        if k < n && s.children[k].sent && !s.children[k].exited && |s.children[k].got| >= s.children[k].want then
          Some(s.(queues := s.queues[k := None], children := s.children[k := s.children[k].(exited := true)]))
        else None
      case ServerRecv =>
        if s.server.Receiving? && s.rounds < n && s.queues[n].Some? && s.queues[n].value != [] then
          var m := s.queues[n].value[0];
          Some(StartReplies(s.(queues := s.queues[n := Some(s.queues[n].value[1..])],
                               children := TakeRequest(s.children, m.file)), m.mess, m.file))
        else None
      case ServerSend(v) =>
        if !s.server.Replying? then None
        else
          var f := s.server.file;
          if f < 0 || f >= n || s.queues[f].None? then Some(CountReply(s.(lost := s.lost + 1)))
          else if HasRoom(c, s.queues[f]) then
            Some(CountReply(s.(queues := s.queues[f := Some(s.queues[f].value + [Payload(v, f)])],
                               children := GiveValue(s.children, f, v))))
          else None
  }

  /** Whether the server can reply does not depend on the value it draws. */
  lemma AnyValue(c: Config, s: State, v: int, w: int)
    ensures Step(c, s, ServerSend(v)).Some? <==> Step(c, s, ServerSend(w)).Some?
  {
  }

  function Steps(c: Config): (State, Action) -> Option<State> { (s, a) => Step(c, s, a) }

  function Sum(s: seq<int>): int { if s == [] then 0 else Sum(s[..|s| - 1]) + s[|s| - 1] }

  /** Sum is the sum: of one value, and of two lists put together. */
  lemma {:induction false} SumConcat(a: seq<int>, b: seq<int>)
    ensures Sum(a + b) == Sum(a) + Sum(b)
  {
    if b == [] {
      assert a + b == a;
    } else {
      assert (a + b)[..|a + b| - 1] == a + b[..|b| - 1];
      SumConcat(a, b[..|b| - 1]);
    }
  }

  lemma SumOne(v: int)
    ensures Sum([v]) == v && Sum([]) == 0
  {
    assert [v][..0] == [];
  }

  /** What a step does to the values of child k: a receive takes the one at the head of
      its queue and adds it to `res`, a reply of the server to it sends the value drawn,
      and no other step touches them. */
  lemma ValuesStep(c: Config, s: State, a: Action, k: nat)
    requires Step(c, s, a).Some? && k < |s.children|
    ensures var t, x, y := Step(c, s, a).value, s.children[k], Step(c, s, a).value.children[k];
            && |t.children| == |s.children| && y.want == x.want
            && (if a == ChildRecv(k) then
                  && s.queues[k].Some? && s.queues[k].value != []
                  && y.res == x.res + s.queues[k].value[0].mess && y.got == x.got + [s.queues[k].value[0].mess]
                else y.res == x.res && y.got == x.got)
            && (if a.ServerSend? && s.server.Replying? && s.server.file == k && s.queues[k].Some? then
                  && t.queues[k].Some? && t.queues[k].value == s.queues[k].value + [Payload(a.v, k)]
                  && y.given == x.given + [a.v]
                else y.given == x.given)
  {
  }

  /** The values carried by a queue. */
  function Values(q: seq<Payload>): seq<int> { seq(|q|, i requires 0 <= i < |q| => q[i].mess) }

  function Content(q: Option<seq<Payload>>): seq<Payload> { if q.Some? then q.value else [] }

  /** Replies still owed to child k by the loop under way. */
  function Owed(s: State, k: int): nat {
    if s.server.Replying? && s.server.file == k then s.server.left else 0
  }

  function Waiting(x: Child): nat { if x.sent && !x.served then 1 else 0 }
  function Served(x: Child): nat { if x.served then 1 else 0 }

  /** Each child has received what the server sent it, but for what is in its queue,
      and what it asked for is sent or still owed. */
  ghost predicate ChildOk(s: State, k: nat)
    requires k < |s.children| && |s.queues| == |s.children| + 1
  {
    var x := s.children[k];
    && (s.queues[k].None? <==> x.exited)
    && x.given == x.got + Values(Content(s.queues[k]))
    && |x.given| + Owed(s, k) == (if x.served then x.want else 0)
    && x.res == Sum(x.got)
    && (x.served ==> x.sent)
    && (x.exited ==> |x.got| == x.want && x.sent)
  }

  /** The request queue holds one request of each child that waits to be served. */
  ghost predicate RequestsOk(s: State)
    requires |s.queues| == |s.children| + 1
  {
    var n := |s.children|;
    && s.queues[n].Some?
    && var q := s.queues[n].value;
    && |q| == Total(s.children, Waiting)
    && (forall i :: 0 <= i < |q| ==>
          && 0 <= q[i].file < n
          && q[i].mess == s.children[q[i].file].want
          && Waiting(s.children[q[i].file]) == 1)
    && (forall i, j :: 0 <= i < j < |q| ==> q[i].file != q[j].file)
  }

  ghost predicate ServerOk(s: State) {
    && s.lost == 0
    && s.rounds + (if s.server.Replying? then 1 else 0) == Total(s.children, Served)
    && (s.server.Replying? ==>
          0 <= s.server.file < |s.children| && s.server.left > 0 && s.children[s.server.file].served)
  }

  ghost predicate Inv(c: Config, s: State) {
    && |s.queues| == |s.children| + 1 && |s.children| == |c.wants|
    && (forall k :: 0 <= k < |s.children| ==> s.children[k].want == c.wants[k] && ChildOk(s, k))
    && RequestsOk(s) && ServerOk(s)
  }

  /** Operations a child and the server still have to do for it. */
  function Todo(x: Child): nat {
    (if x.sent then 0 else 1) + (if |x.got| < x.want then x.want - |x.got| else 0)
    + (if x.exited then 0 else 1) + (if x.served then 0 else 1 + x.want)
  }

  function Remaining(s: State): nat {
    Total(s.children, Todo) + if s.server.Replying? then s.server.left else 0
  }

  lemma InvInit(c: Config)
    ensures Inv(c, Init(c))
  {
    TotalConstant(Init(c).children, 0, Waiting);
    TotalConstant(Init(c).children, 0, Served);
  }

  lemma Counts(s: State, k: nat, x: Child)
    requires k < |s.children|
    ensures var t := s.children[k := x];
            && Total(t, Waiting) + Waiting(s.children[k]) == Total(s.children, Waiting) + Waiting(x)
            && Total(t, Served) + Served(s.children[k]) == Total(s.children, Served) + Served(x)
            && Total(t, Todo) + Todo(s.children[k]) == Total(s.children, Todo) + Todo(x)
  {
    TotalUpdate(s.children, k, x, Waiting);
    TotalUpdate(s.children, k, x, Served);
    TotalUpdate(s.children, k, x, Todo);
  }

  /** Each step keeps the invariant and is one of the remaining operations. */
  lemma InvStep(c: Config, s: State, a: Action)
    requires Inv(c, s) && Step(c, s, a).Some?
    ensures Inv(c, Step(c, s, a).value)
    ensures Remaining(Step(c, s, a).value) == Remaining(s) - 1
  {
    match a
    case ChildSend(k) => SendKeepsInv(c, s, k);
    case ChildRecv(k) => RecvKeepsInv(c, s, k);
    case ChildExit(k) => ExitKeepsInv(c, s, k);
    case ServerRecv => ServerRecvKeepsInv(c, s);
    case ServerSend(v) => ServerSendKeepsInv(c, s, v);
  }

  /** The request comes last in the queue, and its child waits from now on. */
  lemma RequestSent(c: Config, s: State, k: nat)
    requires |s.queues| == |s.children| + 1 && RequestsOk(s) && Step(c, s, ChildSend(k)).Some? && !s.children[k].served
    ensures var t := Step(c, s, ChildSend(k)).value;
            |t.queues| == |t.children| + 1 && RequestsOk(t)
  {
    Counts(s, k, Step(c, s, ChildSend(k)).value.children[k]);
  }

  lemma SendChild(c: Config, s: State, k: nat, j: nat)
    requires |s.queues| == |s.children| + 1 && j < |s.children| && ChildOk(s, j)
    requires Step(c, s, ChildSend(k)).Some?
    ensures var t := Step(c, s, ChildSend(k)).value;
            |t.queues| == |t.children| + 1 == |s.queues| && ChildOk(t, j)
  {
  }

  lemma SendKeepsInv(c: Config, s: State, k: nat)
    requires Inv(c, s) && Step(c, s, ChildSend(k)).Some?
    ensures Inv(c, Step(c, s, ChildSend(k)).value)
    ensures Remaining(Step(c, s, ChildSend(k)).value) == Remaining(s) - 1
  {
    var t := Step(c, s, ChildSend(k)).value;
    Counts(s, k, t.children[k]);
    assert ChildOk(s, k);
    RequestSent(c, s, k);
    forall j | 0 <= j < |t.children| ensures t.children[j].want == c.wants[j] && ChildOk(t, j) {
      assert ChildOk(s, j);
      SendChild(c, s, k, j);
    }
  }

  lemma RecvKeepsInv(c: Config, s: State, k: nat)
    requires Inv(c, s) && Step(c, s, ChildRecv(k)).Some?
    ensures Inv(c, Step(c, s, ChildRecv(k)).value)
    ensures Remaining(Step(c, s, ChildRecv(k)).value) == Remaining(s) - 1
  {
    var t := Step(c, s, ChildRecv(k)).value;
    Counts(s, k, t.children[k]);
    assert RequestsOk(t);
    forall j | 0 <= j < |t.children| ensures t.children[j].want == c.wants[j] && ChildOk(t, j) {
      assert ChildOk(s, j);
      RecvChild(c, s, k, j);
    }
  }

  /** What leaves the queue is what the child receives. */
  lemma RecvChild(c: Config, s: State, k: nat, j: nat)
    requires |s.queues| == |s.children| + 1 && j < |s.children| && ChildOk(s, j)
    requires Step(c, s, ChildRecv(k)).Some?
    ensures var t := Step(c, s, ChildRecv(k)).value;
            |t.queues| == |t.children| + 1 == |s.queues| && ChildOk(t, j)
  {
    if j == k {
      var q := s.queues[k].value;
      assert Values(q) == [q[0].mess] + Values(q[1..]);
      assert Step(c, s, ChildRecv(k)).value.children[k].got[..|s.children[k].got|] == s.children[k].got;
    }
  }

  /** A child that ends has an empty queue, so removing it loses nothing. */
  lemma ExitKeepsInv(c: Config, s: State, k: nat)
    requires Inv(c, s) && Step(c, s, ChildExit(k)).Some?
    ensures Inv(c, Step(c, s, ChildExit(k)).value)
    ensures Remaining(Step(c, s, ChildExit(k)).value) == Remaining(s) - 1
    ensures Content(s.queues[k]) == []
  {
    var t := Step(c, s, ChildExit(k)).value;
    Counts(s, k, t.children[k]);
    assert ChildOk(s, k);
    assert |Values(Content(s.queues[k]))| == |Content(s.queues[k])|;
    forall j | 0 <= j < |t.children| ensures t.children[j].want == c.wants[j] && ChildOk(t, j) {
      assert ChildOk(s, j);
    }
  }

  lemma ServerRecvKeepsInv(c: Config, s: State)
    requires Inv(c, s) && Step(c, s, ServerRecv).Some?
    ensures Inv(c, Step(c, s, ServerRecv).value)
    ensures Remaining(Step(c, s, ServerRecv).value) == Remaining(s) - 1
  {
    var t := Step(c, s, ServerRecv).value;
    var f := s.queues[|s.children|].value[0].file;
    assert ChildOk(s, f);
    Counts(s, f, t.children[f]);
    RequestTaken(c, s);
    forall j | 0 <= j < |t.children| ensures t.children[j].want == c.wants[j] && ChildOk(t, j) {
      assert ChildOk(s, j);
      TakeChild(c, s, j);
    }
  }

  /** The other requests are of other children, who still wait. */
  lemma RequestTaken(c: Config, s: State)
    requires |s.queues| == |s.children| + 1 && RequestsOk(s)
    requires Step(c, s, ServerRecv).Some?
    ensures var t := Step(c, s, ServerRecv).value;
            |t.queues| == |t.children| + 1 && RequestsOk(t)
  {
    var t := Step(c, s, ServerRecv).value;
    var f := s.queues[|s.children|].value[0].file;
    Counts(s, f, t.children[f]);
  }

  lemma TakeChild(c: Config, s: State, j: nat)
    requires |s.queues| == |s.children| + 1 && j < |s.children| && ChildOk(s, j)
    requires RequestsOk(s) && Step(c, s, ServerRecv).Some?
    ensures var t := Step(c, s, ServerRecv).value;
            |t.queues| == |t.children| + 1 == |s.queues| && ChildOk(t, j)
  {
  }

  /** The child the server replies to still has its queue. */
  lemma ServerSendKeepsInv(c: Config, s: State, v: int)
    requires Inv(c, s) && Step(c, s, ServerSend(v)).Some?
    ensures Inv(c, Step(c, s, ServerSend(v)).value)
    ensures Remaining(Step(c, s, ServerSend(v)).value) == Remaining(s) - 1
  {
    var t := Step(c, s, ServerSend(v)).value;
    assert ChildOk(s, s.server.file);
    ReplyCounts(c, s, v);
    forall j | 0 <= j < |t.children| ensures t.children[j].want == c.wants[j] && ChildOk(t, j) {
      assert ChildOk(s, j);
      ReplyChild(c, s, v, j);
    }
  }

  lemma ReplyCounts(c: Config, s: State, v: int)
    requires |s.queues| == |s.children| + 1 && RequestsOk(s) && ServerOk(s) && s.server.Replying?
    requires s.queues[s.server.file].Some? && Step(c, s, ServerSend(v)).Some?
    ensures var t := Step(c, s, ServerSend(v)).value;
            |t.queues| == |t.children| + 1 && RequestsOk(t) && ServerOk(t) && Remaining(t) == Remaining(s) - 1
  {
    var f := s.server.file;
    var t := Step(c, s, ServerSend(v)).value;
    ReplyEffect(c, s, v);
    Counts(s, f, t.children[f]);
  }

  /** A reply touches its queue, the record of its child and the loop counters. */
  lemma ReplyEffect(c: Config, s: State, v: int)
    requires |s.queues| == |s.children| + 1 && ServerOk(s) && s.server.Replying?
    requires s.queues[s.server.file].Some? && Step(c, s, ServerSend(v)).Some?
    ensures var t, f := Step(c, s, ServerSend(v)).value, s.server.file;
            && t.lost == 0
            && t.queues == s.queues[f := Some(s.queues[f].value + [Payload(v, f)])]
            && t.children == s.children[f := s.children[f].(given := s.children[f].given + [v])]
            && t.rounds + (if t.server.Replying? then 1 else 0) == s.rounds + 1
            && Owed(t, f) == s.server.left - 1
            && (t.server.Replying? ==> t.server == Replying(f, s.server.left - 1))
  {
  }

  /** What enters the queue is what the server sends. */
  lemma ReplyChild(c: Config, s: State, v: int, j: nat)
    requires |s.queues| == |s.children| + 1 && j < |s.children| && ChildOk(s, j)
    requires ServerOk(s) && s.server.Replying? && s.queues[s.server.file].Some?
    requires Step(c, s, ServerSend(v)).Some?
    ensures var t := Step(c, s, ServerSend(v)).value;
            |t.queues| == |t.children| + 1 == |s.queues| && ChildOk(t, j)
  {
    var f := s.server.file;
    if j == f {
      var q := s.queues[f].value;
      assert Values(q + [Payload(v, f)]) == Values(q) + [v];
    }
  }

  lemma Reachable(c: Config, s: State)
    requires Reaches(Steps(c), Init(c), s)
    ensures Inv(c, s)
  {
    InvInit(c);
    forall t, a | Inv(c, t) && Steps(c)(t, a).Some? ensures Inv(c, Steps(c)(t, a).value) {
      InvStep(c, t, a);
    }
    InvariantReaches(Steps(c), t => Inv(c, t), Init(c), s);
  }

  // ----- Theorems -----

  /** Replies to child k that are neither received nor in its queue. */
  function Outstanding(s: State, k: nat): nat
    requires k < |s.children|
  {
    if s.children[k].served then Owed(s, k) else s.children[k].want
  }

  /** Requested = received + queued + still owed, received values are the first ones
      sent, in order, and no send ever meets a removed queue. */
  lemma Conservation(c: Config, s: State, k: nat)
    requires Reaches(Steps(c), Init(c), s) && k < |c.wants|
    ensures k < |s.children| && k < |s.queues|
    ensures c.wants[k] == |s.children[k].got| + |Content(s.queues[k])| + Outstanding(s, k)
    ensures s.children[k].given == s.children[k].got + Values(Content(s.queues[k]))
    ensures s.children[k].res == Sum(s.children[k].got)
    ensures s.server.Replying? && s.server.file == k ==> s.queues[k].Some?
    ensures s.lost == 0
  {
    Reachable(c, s);
    assert ChildOk(s, k);
  }

  /** Every child has ended and the server has done its n rounds. */
  predicate Final(s: State) {
    s.rounds >= |s.children| && forall k :: 0 <= k < |s.children| ==> s.children[k].exited
  }

  /** At the end each child has exactly the values sent to it, as many as it asked
      for, and their sum; and no message is left. */
  lemma AtTheEnd(c: Config, s: State, k: nat)
    requires Reaches(Steps(c), Init(c), s) && Final(s) && k < |c.wants|
    ensures k < |s.children| && |s.queues| == |s.children| + 1
    ensures s.children[k].got == s.children[k].given && |s.children[k].given| == c.wants[k]
    ensures s.children[k].res == Sum(s.children[k].given)
    ensures s.queues[k].None? && s.queues[|s.children|] == Some([])
  {
    Reachable(c, s);
    assert ChildOk(s, k);
    AllServed(c, s);
    assert |Values(Content(s.queues[k]))| == |Content(s.queues[k])|;
  }

  /** After n rounds every child was served and no request is left. */
  lemma AllServed(c: Config, s: State)
    requires Inv(c, s) && s.rounds >= |s.children|
    ensures s.server.Receiving? && s.queues[|s.children|] == Some([])
    ensures forall k :: 0 <= k < |s.children| ==> s.children[k].served
  {
    TotalBound(s.children, 1, Served);
    forall k | 0 <= k < |s.children| ensures s.children[k].served {
      if !s.children[k].served {
        var x := s.children[k].(served := true);
        TotalUpdate(s.children, k, x, Served);
        TotalBound(s.children[k := x], 1, Served);
      }
    }
    TotalConstant(s.children, 0, Waiting);
  }

  /** Before the end some action is enabled when a queue holds a message. */
  lemma CanStep(c: Config, s: State) returns (a: Action)
    requires Inv(c, s) && c.cap > 0 && !Final(s)
    ensures Step(c, s, a).Some?
  {
    if s.server.Replying? {
      var f := s.server.file;
      assert ChildOk(s, f);
      a := if HasRoom(c, s.queues[f]) then ServerSend(0) else ChildRecv(f);
      QueueNotFull(c, s, f);
    } else if s.queues[|s.children|].value != [] {
      a := ServerRecv;
      RequestIsReceivable(c, s);
    } else if k :| 0 <= k < |s.children| && !s.children[k].sent {
      a := ChildSend(k);
    } else {
      a := ChildCanStep(c, s);
    }
  }

  /** A pending request means that a round is left. */
  lemma RequestIsReceivable(c: Config, s: State)
    requires |s.queues| == |s.children| + 1 && RequestsOk(s) && ServerOk(s)
    requires s.server.Receiving? && s.queues[|s.children|].value != []
    ensures Step(c, s, ServerRecv).Some?
  {
    TotalPositive(s.children, Waiting);
    var k :| 0 <= k < |s.children| && Waiting(s.children[k]) > 0;
    NotYetServed(s, k);
  }

  /** The server can reply, or the child it replies to can receive. */
  lemma QueueNotFull(c: Config, s: State, f: nat)
    requires |s.queues| == |s.children| + 1 && ServerOk(s) && c.cap > 0
    requires s.server.Replying? && s.server.file == f && f < |s.children| && ChildOk(s, f)
    ensures Step(c, s, if HasRoom(c, s.queues[f]) then ServerSend(0) else ChildRecv(f)).Some?
  {
    assert |Values(Content(s.queues[f]))| == |Content(s.queues[f])|;
  }

  /** When no request is left, a child can receive or end. */
  lemma ChildCanStep(c: Config, s: State) returns (a: Action)
    requires Inv(c, s) && !Final(s) && s.server.Receiving? && s.queues[|s.children|].value == []
    requires forall k :: 0 <= k < |s.children| ==> s.children[k].sent
    ensures Step(c, s, a).Some? && (a.ChildRecv? || a.ChildExit?)
  {
    TotalPositive(s.children, Waiting);
    assert forall k :: 0 <= k < |s.children| ==> Waiting(s.children[k]) == 0 && s.children[k].served;
    TotalConstant(s.children, 1, Served);
    var k :| 0 <= k < |s.children| && !s.children[k].exited;
    assert ChildOk(s, k);
    assert |Values(Content(s.queues[k]))| == |Content(s.queues[k])|;
    a := if |s.children[k].got| < s.children[k].want then ChildRecv(k) else ChildExit(k);
  }

  lemma NotStuck(c: Config, s: State)
    requires Inv(c, s) && c.cap > 0 && !Final(s)
    ensures !Stuck(Steps(c), s)
  {
    var a := CanStep(c, s);
    assert Steps(c)(s, a).Some?;
  }

  lemma NotYetServed(s: State, k: nat)
    requires k < |s.children| && !s.children[k].served
    ensures Total(s.children, Served) < |s.children|
  {
    var x := s.children[k].(served := true);
    TotalUpdate(s.children, k, x, Served);
    TotalBound(s.children[k := x], 1, Served);
  }

  /** The program deadlocks exactly when its queues hold no message at all: then it
      is stuck from the start, otherwise only its final state is. */
  lemma DeadlockFreeIff(c: Config)
    ensures (c.cap > 0 || c.wants == []) <==>
            forall s :: Reaches(Steps(c), Init(c), s) && Stuck(Steps(c), s) ==> Final(s)
  {
    if c.cap > 0 || c.wants == [] {
      forall s | Reaches(Steps(c), Init(c), s) && Stuck(Steps(c), s) ensures Final(s) {
        Reachable(c, s);
        if !Final(s) && c.cap > 0 {
          NotStuck(c, s);
        }
      }
    } else {
      var s := Init(c);
      assert Exec(Steps(c), s, []) == Some(s);
      assert Stuck(Steps(c), s);
      assert !s.children[0].exited;
    }
  }

  /** Every schedule is finite; when a queue holds a message, one that cannot be
      prolonged has reached the end. */
  lemma EveryRunEnds(c: Config, acts: seq<Action>)
    requires Exec(Steps(c), Init(c), acts).Some?
    ensures |acts| <= Remaining(Init(c))
    ensures var s := Exec(Steps(c), Init(c), acts).value;
            c.cap > 0 && Stuck(Steps(c), s) ==> Final(s)
  {
    InvInit(c);
    forall t, a | Inv(c, t) && Steps(c)(t, a).Some?
      ensures Inv(c, Steps(c)(t, a).value) && Remaining(Steps(c)(t, a).value) < Remaining(t)
    {
      InvStep(c, t, a);
    }
    RunsAreBounded(Steps(c), t => Inv(c, t), Remaining, Init(c), acts);
    assert Reaches(Steps(c), Init(c), Exec(Steps(c), Init(c), acts).value);
    DeadlockFreeIff(c);
  }
}
