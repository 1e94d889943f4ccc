/** The request/reply server over one message queue (serverUniq).  Messages of type
    k + 1 are replies to child k, messages of type n + 1 are requests; a receiver
    takes the first message of its type and a sender blocks while the queue is full. */
module SingleQueueServer {
  import opened Wrappers
  import opened Runs
  import M = MultiQueueServer

  /** struct message: its type, and the value and file number of its body. */
  datatype Message = Message(ty: int, mess: int, file: int)

  /** The capacity is that of the whole queue, counted in messages. */
  datatype State = State(queue: seq<Message>, children: seq<M.Child>, server: M.Server, rounds: nat)

  function Init(c: M.Config): State {
    State([], M.Init(c).children, M.Receiving, 0)
  }

  /** The index of the first message of a type, None when a receiver must wait. */
  function FirstOfType(q: seq<Message>, ty: int): (r: Option<nat>)
    ensures r.Some? ==> r.value < |q| && q[r.value].ty == ty
    ensures r.Some? ==> forall i :: 0 <= i < r.value ==> q[i].ty != ty
    ensures r.None? ==> forall i :: 0 <= i < |q| ==> q[i].ty != ty
  {
    if q == [] then None
    else
      match FirstOfType(q[..|q| - 1], ty)
      case Some(k) => Some(k)
      case None => if q[|q| - 1].ty == ty then Some(|q| - 1) else None
  }

  function Without(q: seq<Message>, k: nat): seq<Message>
    requires k < |q|
  {
    q[..k] + q[k + 1..]
  }

  /** The kernel's queue as the program uses it. */
  class MessageQueue {
    var messages: seq<Message>

    constructor ()
      ensures messages == []
    {
      messages := [];
    }

    /** msgsnd on a queue with room: the message comes last among those of its type,
        and the other types see nothing of it. */
    method Send(m: Message)
      modifies this
      ensures messages == old(messages) + [m]
      ensures forall ty :: Project(messages, ty) ==
                if ty == m.ty then Project(old(messages), ty) + [M.Payload(m.mess, m.file - 1)]
                else Project(old(messages), ty)
    {
      messages := messages + [m];
      forall ty ensures Project(messages, ty) ==
                  if ty == m.ty then Project(old(messages), ty) + [M.Payload(m.mess, m.file - 1)]
                  else Project(old(messages), ty)
      {
        ProjectSend(old(messages), m, ty);
      }
    }

    /** The server's inner loop, on a queue with room: the child it serves finds the
        values drawn, in order, behind the replies it has not received yet. */
    method Reply(file: int, drawn: seq<int>)
      modifies this
      ensures |messages| == |old(messages)| + |drawn| && old(messages) <= messages
      ensures M.Values(Project(messages, file)) == M.Values(Project(old(messages), file)) + drawn
      ensures forall ty :: ty != file ==> Project(messages, ty) == Project(old(messages), ty)
    {
      assert M.Values(Project(messages, file)) + drawn[..0] == M.Values(Project(messages, file));
      for j := 0 to |drawn|
        invariant |messages| == |old(messages)| + j && old(messages) <= messages
        invariant M.Values(Project(messages, file)) == M.Values(Project(old(messages), file)) + drawn[..j]
        invariant forall ty :: ty != file ==> Project(messages, ty) == Project(old(messages), ty)
      {
        ghost var before := Project(messages, file);
        Send(Message(file, drawn[j], file));
        assert M.Values(before + [M.Payload(drawn[j], file - 1)]) == M.Values(before) + [drawn[j]];
        assert drawn[..j + 1] == drawn[..j] + [drawn[j]];
      }
      assert drawn[..|drawn|] == drawn;
    }

    /** msgrcv with a positive type: takes the first message of that type. */
    method Receive(ty: int) returns (r: Option<Message>)
      modifies this
      ensures match FirstOfType(old(messages), ty)
              case Some(k) => r == Some(old(messages)[k]) && messages == Without(old(messages), k)
              case None => r == None && messages == old(messages)
    {
      for k := 0 to |messages|
        invariant messages == old(messages)
        invariant forall i :: 0 <= i < k ==> messages[i].ty != ty
      {
        if messages[k].ty == ty {
          r := Some(messages[k]);
          messages := Without(messages, k);
          return;
        }
      }
      return None;
    }
  }

  /** The server after it received a request for `want` values. */
  function StartReplies(s: State, want: int, file: int): State {
    if want <= 0 then s.(rounds := s.rounds + 1) else s.(server := M.Replying(file, want))
  }

  function CountReply(s: State): State
    requires s.server.Replying?
  {
    if s.server.left <= 1 then s.(server := M.Receiving, rounds := s.rounds + 1)
    else s.(server := s.server.(left := s.server.left - 1))
  }

  function Step(c: M.Config, s: State, a: M.Action): Option<State> {
    var n := |s.children|;
    match a
    case ChildSend(k) =>
      if k < n && !s.children[k].sent && |s.queue| < c.cap then
        Some(s.(queue := s.queue + [Message(n + 1, s.children[k].want, k + 1)],
                children := s.children[k := s.children[k].(sent := true)]))
      else None
    case ChildRecv(k) =>
      if k < n && s.children[k].sent && |s.children[k].got| < s.children[k].want then
        match FirstOfType(s.queue, k + 1)
        case None => None
        case Some(i) =>
          Some(s.(queue := Without(s.queue, i),
                  children := s.children[k := M.Receive(s.children[k], s.queue[i].mess)]))
      else None
    case ChildExit(k) =>
      if k < n && s.children[k].sent && !s.children[k].exited && |s.children[k].got| >= s.children[k].want then
        Some(s.(children := s.children[k := s.children[k].(exited := true)]))
      else None
    case ServerRecv =>
      if s.server.Receiving? && s.rounds < n then
        match FirstOfType(s.queue, n + 1)
        case None => None
        case Some(i) =>
          var m := s.queue[i];
          Some(StartReplies(s.(queue := Without(s.queue, i),
                               children := M.TakeRequest(s.children, m.file - 1)), m.mess, m.file))
      else None
    case ServerSend(v) =>
      if s.server.Replying? && |s.queue| < c.cap then
        var f := s.server.file;
        Some(CountReply(s.(queue := s.queue + [Message(f, v, f)],
                           children := M.GiveValue(s.children, f - 1, v))))
      else None
  }

  /** What a step does to the values of child k: a receive takes the first message of
      its type and adds the value to `res`, a reply of the server to it sends the value
      drawn under its type, and no other step touches them. */
  lemma ValuesStep(c: M.Config, s: State, a: M.Action, k: nat)
    requires Step(c, s, a).Some? && k < |s.children|
    ensures var t, x, y := Step(c, s, a).value, s.children[k], Step(c, s, a).value.children[k];
            && |t.children| == |s.children| && y.want == x.want
            && (if a == M.ChildRecv(k) then
                  && FirstOfType(s.queue, k + 1).Some?
                  && var v := s.queue[FirstOfType(s.queue, k + 1).value].mess;
                  && y.res == x.res + v && y.got == x.got + [v]
                else y.res == x.res && y.got == x.got)
            && (if a.ServerSend? && s.server.Replying? && s.server.file == k + 1 then
                  t.queue == s.queue + [Message(k + 1, a.v, k + 1)] && y.given == x.given + [a.v]
                else y.given == x.given)
  {
  }

  /** Whether the server can reply does not depend on the value it draws. */
  lemma AnyValue(c: M.Config, s: State, v: int, w: int)
    ensures Step(c, s, M.ServerSend(v)).Some? <==> Step(c, s, M.ServerSend(w)).Some?
  {
  }

  function Steps(c: M.Config): (State, M.Action) -> Option<State> { (s, a) => Step(c, s, a) }

  // ----- The projection on N + 1 queues -----

  /** The bodies of the messages of one type, files counted from 0. */
  function Project(q: seq<Message>, ty: int): (r: seq<M.Payload>)
    ensures |r| <= |q|
  {
    if q == [] then []
    else
      var m := q[|q| - 1];
      Project(q[..|q| - 1], ty) + if m.ty == ty then [M.Payload(m.mess, m.file - 1)] else []
  }

  function AbsQueue(s: State, k: nat): Option<seq<M.Payload>> {
    if k < |s.children| && s.children[k].exited then None else Some(Project(s.queue, k + 1))
  }

  /** The state of serverMultiFile that a state of serverUniq stands for. */
  function Abs(s: State): M.State {
    M.State(seq(|s.children| + 1, k requires 0 <= k => AbsQueue(s, k)), s.children,
            match s.server case Receiving => M.Receiving case Replying(f, left) => M.Replying(f - 1, left),
            s.rounds, 0)
  }

  lemma ProjectSend(q: seq<Message>, m: Message, ty: int)
    ensures Project(q + [m], ty) ==
            if m.ty == ty then Project(q, ty) + [M.Payload(m.mess, m.file - 1)] else Project(q, ty)
  {
    assert (q + [m])[..|q|] == q;
  }

  lemma {:induction false} ProjectEmpty(q: seq<Message>, ty: int)
    ensures Project(q, ty) == [] <==> FirstOfType(q, ty).None?
  {
    if q != [] {
      ProjectEmpty(q[..|q| - 1], ty);
    }
  }

  /** A typed receive takes the head of its own projection. */
  lemma {:induction false} ProjectHead(q: seq<Message>, k: nat)
    requires k < |q| && FirstOfType(q, q[k].ty) == Some(k)
    ensures Project(q, q[k].ty) != []
    ensures Project(q, q[k].ty)[0] == M.Payload(q[k].mess, q[k].file - 1)
  {
    var n := |q| - 1;
    if k == n {
      ProjectEmpty(q[..n], q[k].ty);
    } else {
      ProjectHead(q[..n], k);
    }
  }

  /** It leaves the tail of its projection and the other projections whole. */
  lemma {:induction false} ProjectReceive(q: seq<Message>, k: nat, ty: int)
    requires k < |q| && FirstOfType(q, q[k].ty) == Some(k)
    ensures ty == q[k].ty ==> Project(q, ty) != [] && Project(Without(q, k), ty) == Project(q, ty)[1..]
    ensures ty != q[k].ty ==> Project(Without(q, k), ty) == Project(q, ty)
  {
    var n := |q| - 1;
    if k == n {
      assert Without(q, k) == q[..n];
      ProjectEmpty(q[..n], q[k].ty);
    } else {
      assert q[..n][k] == q[k];
      ProjectReceive(q[..n], k, ty);
      WithoutSnoc(q, k);
      ProjectSend(Without(q[..n], k), q[n], ty);
    }
  }

  lemma WithoutSnoc(q: seq<Message>, k: nat)
    requires k < |q| - 1
    ensures Without(q, k) == Without(q[..|q| - 1], k) + [q[|q| - 1]]
  {
  }

  /** Every message has a child's type or the server's. */
  ghost predicate Typed(s: State) {
    forall i :: 0 <= i < |s.queue| ==> 1 <= s.queue[i].ty <= |s.children| + 1
  }

  /** An ended child has no message left. */
  ghost predicate EndedEmpty(s: State) {
    forall k :: 0 <= k < |s.children| && s.children[k].exited ==> Project(s.queue, k + 1) == []
  }

  /** The messages are requests or replies, an ended child has none left, and the
      projected state satisfies the invariant of serverMultiFile. */
  ghost predicate Inv(c: M.Config, s: State) {
    Typed(s) && EndedEmpty(s) && M.Inv(c, Abs(s))
  }

  lemma InvInit(c: M.Config)
    ensures Abs(Init(c)) == M.Init(c) && Inv(c, Init(c))
  {
    assert Abs(Init(c)) == M.Init(c);
    M.InvInit(c);
  }

  /** The projected queues after a message was added. */
  lemma AbsSend(s: State, t: State, m: Message)
    requires t.queue == s.queue + [m] && |t.children| == |s.children| && 1 <= m.ty <= |s.children| + 1
    requires forall k :: 0 <= k < |s.children| ==> t.children[k].exited == s.children[k].exited
    requires m.ty <= |s.children| ==> !s.children[m.ty - 1].exited
    ensures Abs(t).queues == Abs(s).queues[m.ty - 1 := Some(Project(s.queue, m.ty) + [M.Payload(m.mess, m.file - 1)])]
  {
    forall k | 0 <= k <= |s.children|
      ensures AbsQueue(t, k) ==
              if k == m.ty - 1 then Some(Project(s.queue, m.ty) + [M.Payload(m.mess, m.file - 1)]) else AbsQueue(s, k)
    {
      ProjectSend(s.queue, m, k + 1);
    }
  }

  /** The projected queues after a typed receive. */
  lemma AbsReceive(s: State, t: State, i: nat)
    requires i < |s.queue| && FirstOfType(s.queue, s.queue[i].ty) == Some(i)
    requires t.queue == Without(s.queue, i) && |t.children| == |s.children|
    requires forall k :: 0 <= k < |s.children| ==> t.children[k].exited == s.children[k].exited
    requires 1 <= s.queue[i].ty <= |s.children| + 1
    requires s.queue[i].ty <= |s.children| ==> !s.children[s.queue[i].ty - 1].exited
    ensures var k := s.queue[i].ty - 1;
            && Project(s.queue, k + 1) != []
            && Project(s.queue, k + 1)[0] == M.Payload(s.queue[i].mess, s.queue[i].file - 1)
            && Abs(t).queues == Abs(s).queues[k := Some(Project(s.queue, k + 1)[1..])]
  {
    ProjectHead(s.queue, i);
    ProjectReceive(s.queue, i, s.queue[i].ty);
    forall k | 0 <= k <= |s.children|
      ensures AbsQueue(t, k) ==
              if k == s.queue[i].ty - 1 then Some(Project(s.queue, k + 1)[1..]) else AbsQueue(s, k)
    {
      ProjectReceive(s.queue, i, k + 1);
    }
  }

  lemma SendRefines(c: M.Config, s: State, k: nat)
    requires Step(c, s, M.ChildSend(k)).Some?
    ensures M.Step(c, Abs(s), M.ChildSend(k)) == Some(Abs(Step(c, s, M.ChildSend(k)).value))
  {
    var n := |s.children|;
    AbsSend(s, Step(c, s, M.ChildSend(k)).value, Message(n + 1, s.children[k].want, k + 1));
  }

  lemma RecvRefines(c: M.Config, s: State, k: nat)
    requires Step(c, s, M.ChildRecv(k)).Some? && !s.children[k].exited
    ensures M.Step(c, Abs(s), M.ChildRecv(k)) == Some(Abs(Step(c, s, M.ChildRecv(k)).value))
  {
    AbsReceive(s, Step(c, s, M.ChildRecv(k)).value, FirstOfType(s.queue, k + 1).value);
  }

  lemma ExitRefines(c: M.Config, s: State, k: nat)
    requires Step(c, s, M.ChildExit(k)).Some?
    ensures M.Step(c, Abs(s), M.ChildExit(k)) == Some(Abs(Step(c, s, M.ChildExit(k)).value))
  {
    assert Abs(Step(c, s, M.ChildExit(k)).value).queues == Abs(s).queues[k := None];
  }

  lemma ServerRecvRefines(c: M.Config, s: State)
    requires Step(c, s, M.ServerRecv).Some?
    ensures M.Step(c, Abs(s), M.ServerRecv) == Some(Abs(Step(c, s, M.ServerRecv).value))
  {
    var n := |s.children|;
    AbsReceive(s, Step(c, s, M.ServerRecv).value, FirstOfType(s.queue, n + 1).value);
  }

  lemma ServerSendRefines(c: M.Config, s: State, v: int)
    requires Step(c, s, M.ServerSend(v)).Some?
    requires 1 <= s.server.file <= |s.children| && !s.children[s.server.file - 1].exited
    ensures M.Step(c, Abs(s), M.ServerSend(v)) == Some(Abs(Step(c, s, M.ServerSend(v)).value))
  {
    var f := s.server.file;
    AbsSend(s, Step(c, s, M.ServerSend(v)).value, Message(f, v, f));
  }

  /** Every step of serverUniq is, through the projection, the same step of
      serverMultiFile. */
  lemma StepRefines(c: M.Config, s: State, a: M.Action)
    requires Inv(c, s) && Step(c, s, a).Some?
    ensures M.Step(c, Abs(s), a) == Some(Abs(Step(c, s, a).value))
  {
    match a
    case ChildSend(k) => SendRefines(c, s, k);
    case ChildRecv(k) =>
      assert M.ChildOk(Abs(s), k);
      RecvRefines(c, s, k);
    case ChildExit(k) => ExitRefines(c, s, k);
    case ServerRecv => ServerRecvRefines(c, s);
    case ServerSend(v) =>
      assert M.ChildOk(Abs(s), s.server.file - 1);
      ServerSendRefines(c, s, v);
  }

  lemma TypedStep(c: M.Config, s: State, a: M.Action)
    requires Typed(s) && Step(c, s, a).Some?
    requires s.server.Replying? ==> 1 <= s.server.file <= |s.children|
    ensures Typed(Step(c, s, a).value) && |Step(c, s, a).value.children| == |s.children|
  {
  }

  lemma EndedAfterSend(s: State, t: State, m: Message)
    requires EndedEmpty(s) && t.queue == s.queue + [m] && |t.children| == |s.children|
    requires forall k :: 0 <= k < |s.children| ==> t.children[k].exited == s.children[k].exited
    requires 1 <= m.ty <= |s.children| ==> !s.children[m.ty - 1].exited
    ensures EndedEmpty(t)
  {
    forall k | 0 <= k < |t.children| && t.children[k].exited ensures Project(t.queue, k + 1) == [] {
      ProjectSend(s.queue, m, k + 1);
    }
  }

  lemma EndedAfterReceive(s: State, t: State, i: nat)
    requires EndedEmpty(s) && |t.children| == |s.children|
    requires i < |s.queue| && FirstOfType(s.queue, s.queue[i].ty) == Some(i) && t.queue == Without(s.queue, i)
    requires forall k :: 0 <= k < |s.children| ==> t.children[k].exited == s.children[k].exited
    ensures EndedEmpty(t)
  {
    forall k | 0 <= k < |t.children| && t.children[k].exited ensures Project(t.queue, k + 1) == [] {
      ProjectReceive(s.queue, i, k + 1);
    }
  }

  lemma EndedChildStep(c: M.Config, s: State, a: M.Action)
    requires EndedEmpty(s) && Step(c, s, a).Some? && (a.ChildSend? || a.ChildRecv? || a.ChildExit?)
    requires a.ChildExit? ==> Project(s.queue, a.k + 1) == []
    ensures EndedEmpty(Step(c, s, a).value)
  {
    var t := Step(c, s, a).value;
    match a
    case ChildSend(k) => EndedAfterSend(s, t, Message(|s.children| + 1, s.children[k].want, k + 1));
    case ChildRecv(k) => EndedAfterReceive(s, t, FirstOfType(s.queue, k + 1).value);
    case ChildExit(k) =>
  }

  lemma EndedServerStep(c: M.Config, s: State, a: M.Action)
    requires EndedEmpty(s) && Step(c, s, a).Some? && (a.ServerRecv? || a.ServerSend?)
    requires s.server.Replying? ==> 1 <= s.server.file <= |s.children| && !s.children[s.server.file - 1].exited
    ensures EndedEmpty(Step(c, s, a).value)
  {
    var t := Step(c, s, a).value;
    match a
    case ServerRecv => EndedAfterReceive(s, t, FirstOfType(s.queue, |s.children| + 1).value);
    case ServerSend(v) => EndedAfterSend(s, t, Message(s.server.file, v, s.server.file));
  }

  /** What the invariant of serverMultiFile says of the child served and of a child
      that ends. */
  lemma FromProjection(c: M.Config, s: State, a: M.Action)
    requires Inv(c, s) && Step(c, s, a).Some?
    ensures s.server.Replying? ==> 1 <= s.server.file <= |s.children| && !s.children[s.server.file - 1].exited
    ensures a.ChildExit? ==> Project(s.queue, a.k + 1) == []
  {
    if s.server.Replying? {
      assert M.ChildOk(Abs(s), s.server.file - 1);
    }
    if a.ChildExit? {
      EndingEmpty(c, s, a.k);
    }
  }

  lemma EndingEmpty(c: M.Config, s: State, k: nat)
    requires Inv(c, s) && Step(c, s, M.ChildExit(k)).Some?
    ensures Project(s.queue, k + 1) == []
  {
    ExitRefines(c, s, k);
    M.ExitKeepsInv(c, Abs(s), k);
    assert Abs(s).queues[k] == AbsQueue(s, k);
  }

  /** Every step keeps the invariant and is one of the remaining operations. */
  lemma InvStep(c: M.Config, s: State, a: M.Action)
    requires Inv(c, s) && Step(c, s, a).Some?
    ensures Inv(c, Step(c, s, a).value)
    ensures M.Remaining(Abs(Step(c, s, a).value)) == M.Remaining(Abs(s)) - 1
  {
    FromProjection(c, s, a);
    TypedStep(c, s, a);
    if a.ServerRecv? || a.ServerSend? {
      EndedServerStep(c, s, a);
    } else {
      EndedChildStep(c, s, a);
    }
    StepRefines(c, s, a);
    M.InvStep(c, Abs(s), a);
  }

  lemma Reachable(c: M.Config, s: State)
    requires Reaches(Steps(c), Init(c), s)
    ensures Inv(c, s)
  {
    InvInit(c);
    forall t, a | Inv(c, t) && Steps(c)(t, a).Some? ensures Inv(c, Steps(c)(t, a).value) {
      InvStep(c, t, a);
    }
    InvariantReaches(Steps(c), t => Inv(c, t), Init(c), s);
  }

  /** serverUniq refines serverMultiFile: the same schedule runs on the N + 1 queues
      and ends in the projected state, so every child gets the same replies. */
  lemma {:induction false} RunRefines(c: M.Config, s: State, acts: seq<M.Action>)
    requires Inv(c, s) && Exec(Steps(c), s, acts).Some?
    ensures Exec(M.Steps(c), Abs(s), acts) == Some(Abs(Exec(Steps(c), s, acts).value))
    decreases |acts|
  {
    if acts != [] {
      StepRefines(c, s, acts[0]);
      InvStep(c, s, acts[0]);
      RunRefines(c, Step(c, s, acts[0]).value, acts[1..]);
    }
  }

  lemma Refinement(c: M.Config, acts: seq<M.Action>)
    requires Exec(Steps(c), Init(c), acts).Some?
    ensures Exec(M.Steps(c), M.Init(c), acts).Some?
    ensures var s, t := Exec(Steps(c), Init(c), acts).value, Exec(M.Steps(c), M.Init(c), acts).value;
            && t == Abs(s)
            && t.children == s.children && t.lost == 0
  {
    InvInit(c);
    RunRefines(c, Init(c), acts);
  }
}
