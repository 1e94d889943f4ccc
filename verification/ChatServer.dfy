/** The chat server (skipShare) and its clients (skipClient) as a step system.
    Every semaphore operation is one step; code between two semaphore operations
    runs with the second one, or with the display of a message.  A client is a
    writer process and a receiver process that share a segment with the server. */
module ChatServer {
  import opened Wrappers
  import opened Totals
  import opened Runs
  import opened ConnectionTable

  /** The clients' names, no two alike. */
  type Names = ns: seq<string> | forall i, j :: 0 <= i < j < |ns| ==> ns[i] != ns[j] witness []

  datatype Config = Config(names: Names, max: nat)

  /** The shared slot: type 0 connects, 1 broadcasts, 2 disconnects. */
  datatype Request = Request(kind: int, content: string)

  /** A request as its author put it in the slot. */
  datatype Posting = Posting(author: nat, req: Request)

  /** Where the server is: waiting for prevenir_server, about to read the slot, at
      index i of the fan-out loop, with `left` waits of fin_diffusion to go, or about
      to post poster_message. */
  datatype Server = Idle | Handling | Fan(i: nat) | Gather(left: int) | Releasing

  /** A client's main process, then writer.  Connecting, Writing and Leaving have
      taken poster_message and write the slot. */
  datatype Writer =
    | New | Connecting | Forking
    | Reading | Sending(m: string) | Writing(m: string)
    | Quitting | Leaving | Exiting | Gone

  /** A client's receiver: not forked, at its wait, about to display, about to
      acknowledge. */
  datatype Receiver = Absent | Blocked | Showing | Acking

  /** What the server has made of a client, with the length its history had then. */
  datatype Member =
    | Outside | Rejected
    | Joined(since: nat, slot: nat)
    | Left(since: nat, until: nat)

  datatype Client = Client(
    pc: Writer, receiver: Receiver, autoris: nat, inbox: string,
    shown: seq<string>, member: Member)

  /** The semaphores, the slot, the server's tables, the clients, and three logs:
      the messages broadcast, the requests posted and the requests handled. */
  datatype State = State(
    poster: nat, prevenir: nat, fin: nat, deco: nat, req: Request,
    server: Server, table: seq<Slot<nat>>, connected: int, clients: seq<Client>,
    history: seq<string>, posted: seq<Posting>, handled: seq<Request>)

  function Init(c: Config): State {
    State(1, 0, 0, 0, Request(0, ""), Idle, seq(c.max, _ => Free), 0,
          seq(|c.names|, _ => Client(New, Absent, 0, "", [], Outside)), [], [], [])
  }

  datatype Action =
    | Serve
    | Take(k: nat) | Post(k: nat) | Fork(k: nat) | Type(k: nat, m: string)
    | Interrupt(k: nat) | Finish(k: nat)
    | Grant(k: nat) | Show(k: nat) | Ack(k: nat)

  /** The client whose segment has the given name, opened by shm_open. */
  function Lookup(names: seq<string>, name: string): (r: Option<nat>)
    ensures r.Some? ==> r.value < |names| && names[r.value] == name
    ensures r.None? ==> name !in names
  {
    if names == [] then None
    else if names[|names| - 1] == name then Some(|names| - 1)
    else Lookup(names[..|names| - 1], name)
  }

  /** connexion: takes the first free index, or rejects the client. */
  function HandleConnect(s: State, k: nat): State
    requires k < |s.clients|
  {
    var x := s.clients[k];
    match FirstFree(s.table)
    case Some(i) =>
      s.(table := Connected(s.table, s.req.content, k), connected := s.connected + 1, server := Releasing,
         clients := s.clients[k := x.(member := Joined(|s.history|, i))])
    case None =>
      s.(server := Releasing, clients := s.clients[k := x.(member := Rejected)])
  }

  /** deconnexion: frees the index with the requester's name and posts deco_sem. */
  function HandleDisconnect(s: State): State {
    match FindName(s.table, s.req.content)
    case Some(i) =>
      var k := s.table[i].link;
      var t := s.(table := Disconnected(s.table, s.req.content), connected := s.connected - 1,
                  deco := s.deco + 1, server := Releasing);
      if k < |s.clients| && s.clients[k].member.Joined? then
        t.(clients := s.clients[k := s.clients[k].(member := Left(s.clients[k].member.since, |s.history|))])
      else t
    case None => s.(server := Releasing)
  }

  /** One index of the fan-out loop of diffusion. */
  function FanOne(s: State, i: nat): State
    requires i < |s.table|
  {
    if s.table[i].Taken? && s.table[i].link < |s.clients| then
      var k := s.table[i].link;
      var x := s.clients[k];
      s.(server := Fan(i + 1), req := s.req.(kind := 1),
         clients := s.clients[k := x.(inbox := s.req.content, autoris := x.autoris + 1)])
    else s.(server := Fan(i + 1))
  }

  /** The server's next step. */
  function ServerStep(c: Config, s: State): Option<State> {
    match s.server
    case Idle =>
      if s.prevenir > 0 then Some(s.(prevenir := s.prevenir - 1, server := Handling)) else None
    case Handling =>
      var t := s.(handled := s.handled + [s.req]);
      if s.req.kind == 0 then
        var k := Lookup(c.names, s.req.content);
        if k.Some? && k.value < |s.clients| then Some(HandleConnect(t, k.value)) else None
      else if s.req.kind == 1 then
        Some(t.(server := Fan(0), history := s.history + [s.req.content]))
      else if s.req.kind == 2 then Some(HandleDisconnect(t))
      else Some(t.(server := Idle))
    case Fan(i) =>
      if i < |s.table| then Some(FanOne(s, i)) else Some(s.(server := Gather(s.connected)))
    case Gather(left) =>
      if left <= 0 then Some(s.(server := Releasing))
      else if s.fin > 0 then Some(s.(fin := s.fin - 1, server := Gather(left - 1)))
      else None
    case Releasing => Some(s.(poster := s.poster + 1, server := Idle))
  }

  /** Wait for poster_message. */
  function TakeStep(s: State, k: nat): Option<State>
    requires k < |s.clients|
  {
    var x := s.clients[k];
    if s.poster == 0 then None
    else
      var t := s.(poster := s.poster - 1);
      match x.pc
      case New => Some(t.(clients := s.clients[k := x.(pc := Connecting)]))
      case Sending(m) => Some(t.(clients := s.clients[k := x.(pc := Writing(m))]))
      case Quitting => Some(t.(clients := s.clients[k := x.(pc := Leaving)]))
      case _ => None
  }

  /** Put a request in the slot and post prevenir_server. */
  function PostRequest(s: State, k: nat, req: Request, next: Writer): State
    requires k < |s.clients|
  {
    s.(req := req, prevenir := s.prevenir + 1, posted := s.posted + [Posting(k, req)],
       clients := s.clients[k := s.clients[k].(pc := next)])
  }

  function PostStep(c: Config, s: State, k: nat): Option<State>
    requires k < |s.clients| && k < |c.names|
  {
    match s.clients[k].pc
    case Connecting => Some(PostRequest(s, k, Request(0, c.names[k]), Forking))
    case Writing(m) => Some(PostRequest(s, k, Request(1, m), Reading))
    case Leaving => Some(PostRequest(s, k, Request(2, c.names[k]), Exiting))
    case _ => None
  }

  /** The steps of client k that touch no baton: fork, read a line (a lone newline
      is ignored), be interrupted at the read, and end after deco_sem; then the
      receiver's three steps. */
  function ClientStep(s: State, a: Action): Option<State>
    requires !a.Serve? && a.k < |s.clients|
  {
    var x := s.clients[a.k];
    match a
    case Fork(k) =>
      if x.pc.Forking? then Some(s.(clients := s.clients[k := x.(pc := Reading, receiver := Blocked)])) else None
    case Type(k, m) =>
      if x.pc.Reading? then
        Some(if |m| == 1 then s else s.(clients := s.clients[k := x.(pc := Sending(m))]))
      else None
    case Interrupt(k) =>
      if x.pc.Reading? then Some(s.(clients := s.clients[k := x.(pc := Quitting)])) else None
    case Finish(k) =>
      if x.pc.Exiting? && s.deco > 0 then
        Some(s.(deco := s.deco - 1, clients := s.clients[k := x.(pc := Gone)]))
      else None
    case Grant(k) =>
      if x.receiver.Blocked? && x.autoris > 0 then
        Some(s.(clients := s.clients[k := x.(autoris := x.autoris - 1, receiver := Showing)]))
      else None
    case Show(k) =>
      if x.receiver.Showing? then
        Some(s.(clients := s.clients[k := x.(shown := x.shown + [x.inbox], receiver := Acking)]))
      else None
    case Ack(k) =>
      if x.receiver.Acking? then
        Some(s.(fin := s.fin + 1, clients := s.clients[k := x.(receiver := Blocked)]))
      else None
    case _ => None
  }

  function Step(c: Config, s: State, a: Action): Option<State> {
    if a.Serve? then ServerStep(c, s)
    else if a.k >= |s.clients| || a.k >= |c.names| then None
    else if a.Take? then TakeStep(s, a.k)
    else if a.Post? then PostStep(c, s, a.k)
    else ClientStep(s, a)
  }

  function Steps(c: Config): (State, Action) -> Option<State> {
    (s, a) => Step(c, s, a)
  }

  // ----- The invariant -----

  /** Clients that hold the baton. */
  function Holding(x: Client): nat {
    if x.pc.Connecting? || x.pc.Writing? || x.pc.Leaving? then 1 else 0
  }

  /** Messages given to a client and not acknowledged. */
  function Unacknowledged(x: Client): nat {
    x.autoris + if x.receiver.Showing? || x.receiver.Acking? then 1 else 0
  }

  function HasLeft(x: Client): nat { if x.member.Left? then 1 else 0 }
  function IsGone(x: Client): nat { if x.pc.Gone? then 1 else 0 }

  /** A request is in the slot that the server has not read. */
  predicate Pending(s: State) { s.prevenir > 0 || s.server.Handling? }

  predicate InRound(s: State) { s.server.Fan? || s.server.Gather? }

  /** The fan-out loop has yet to come to this index. */
  predicate Unposted(s: State, slot: nat) { s.server.Fan? && slot >= s.server.i }

  /** The messages of the type-1 requests of a log. */
  function Broadcasts(log: seq<Request>): seq<string> {
    if log == [] then []
    else
      var r := log[|log| - 1];
      Broadcasts(log[..|log| - 1]) + if r.kind == 1 then [r.content] else []
  }

  /** The client has sent its connection request. */
  predicate Started(x: Client) { !x.pc.New? && !x.pc.Connecting? }

  /** The client has sent its disconnection request. */
  predicate Ending(x: Client) { x.pc.Exiting? || x.pc.Gone? }

  ghost predicate Shape(c: Config, s: State) {
    |s.clients| == |c.names| && |s.table| == c.max
  }

  /** There is one baton: in poster_message, in prevenir_server, with a client that
      writes the slot, or with the server. */
  ghost predicate Baton(s: State) {
    s.poster + s.prevenir + Total(s.clients, Holding) + (if s.server.Idle? then 0 else 1) == 1
  }

  /** The server has handled exactly the requests posted, but for a pending one,
      which is still in the slot as its author wrote it. */
  ghost predicate Mail(c: Config, s: State)
    requires Shape(c, s)
  {
    && |s.posted| == |s.handled| + (if Pending(s) then 1 else 0)
    && (forall i :: 0 <= i < |s.handled| ==> s.posted[i].req == s.handled[i])
    && s.history == Broadcasts(s.handled)
    && (Pending(s) ==>
          && s.posted[|s.posted| - 1].req == s.req
          && PendingOk(c, s, s.posted[|s.posted| - 1].author))
    && (InRound(s) ==> s.history != [] && s.req == Request(1, s.history[|s.history| - 1]))
  }

  ghost predicate PendingOk(c: Config, s: State, k: nat)
    requires Shape(c, s)
  {
    && k < |s.clients|
    && 0 <= s.req.kind <= 2
    && var x := s.clients[k];
    && (s.req.kind == 0 ==> s.req.content == c.names[k] && x.member.Outside? && Started(x))
    && (s.req.kind == 2 ==> s.req.content == c.names[k] && (x.member.Joined? || x.member.Rejected?) && Ending(x))
  }

  /** Each taken index belongs to the joined client of that name. */
  ghost predicate TableOk(c: Config, s: State)
    requires Shape(c, s)
  {
    && s.connected == Total(s.table, Occupied)
    && forall i :: 0 <= i < |s.table| && s.table[i].Taken? ==>
         && s.table[i].link < |s.clients|
         && s.table[i].name == c.names[s.table[i].link]
         && s.clients[s.table[i].link].member.Joined?
         && s.clients[s.table[i].link].member.slot == i
  }

  /** Posted acknowledgements and clients still busy account for the round. */
  ghost predicate RoundOk(s: State) {
    var busy := s.fin + Total(s.clients, Unacknowledged);
    match s.server
    case Fan(i) => i <= |s.table| && busy == Total(s.table[..i], Occupied)
    case Gather(left) => busy == left
    case _ => busy == 0
  }

  /** What a joined client has displayed: everything since it joined, up to the one
      message in flight. */
  ghost predicate Delivery(s: State, x: Client, since: nat, slot: nat) {
    var h := s.history;
    if Unposted(s, slot) then
      since < |h| && Unacknowledged(x) == 0 && x.shown == h[since..|h| - 1]
    else if InRound(s) && (x.autoris > 0 || x.receiver.Showing?) then
      && since < |h| && Unacknowledged(x) == 1
      && x.inbox == h[|h| - 1] && x.shown == h[since..|h| - 1]
    else if InRound(s) then
      since < |h| && x.autoris == 0 && x.shown == h[since..]
    else
      since <= |h| && Unacknowledged(x) == 0 && x.shown == h[since..]
  }

  ghost predicate ReceiverOk(x: Client) {
    && (!Started(x) ==> x.member.Outside?)
    && (x.receiver.Absent? <==> x.pc.New? || x.pc.Connecting? || x.pc.Forking?)
  }

  ghost predicate MemberOk(c: Config, s: State, k: nat)
    requires Shape(c, s) && k < |s.clients|
  {
    var x := s.clients[k];
    match x.member
    case Outside =>
      && Unacknowledged(x) == 0 && x.shown == []
      && (Started(x) ==> Pending(s) && s.req == Request(0, c.names[k]))
      && !Ending(x)
    case Rejected => Unacknowledged(x) == 0 && x.shown == []
    case Joined(since, i) =>
      && i < |s.table| && s.table[i] == Taken(c.names[k], k)
      && Delivery(s, x, since, i)
      && (Ending(x) ==> Pending(s) && s.req == Request(2, c.names[k]))
    case Left(since, until) =>
      && since <= until <= |s.history| && x.shown == s.history[since..until]
      && Unacknowledged(x) == 0 && Ending(x)
  }

  ghost predicate ClientsOk(c: Config, s: State)
    requires Shape(c, s)
  {
    forall k :: 0 <= k < |s.clients| ==> ReceiverOk(s.clients[k]) && MemberOk(c, s, k)
  }

  /** Clients past deco_sem and tokens left in it make up the processed disconnects. */
  ghost predicate DecoOk(s: State) {
    s.deco + Total(s.clients, IsGone) == Total(s.clients, HasLeft)
  }

  ghost predicate Inv(c: Config, s: State) {
    && Shape(c, s) && Baton(s) && Mail(c, s) && TableOk(c, s)
    && RoundOk(s) && ClientsOk(c, s) && DecoOk(s)
  }

  lemma InvInit(c: Config)
    ensures Inv(c, Init(c))
  {
    var s := Init(c);
    TotalConstant(s.clients, 0, Holding);
    TotalConstant(s.clients, 0, Unacknowledged);
    TotalConstant(s.clients, 0, HasLeft);
    TotalConstant(s.clients, 0, IsGone);
    TotalConstant(s.table, 0, Occupied);
  }

  /** All four counts after one client changes. */
  lemma Counts(s: State, k: nat, x: Client)
    requires k < |s.clients|
    ensures var t := s.clients[k := x];
            && Total(t, Holding) + Holding(s.clients[k]) == Total(s.clients, Holding) + Holding(x)
            && Total(t, Unacknowledged) + Unacknowledged(s.clients[k])
               == Total(s.clients, Unacknowledged) + Unacknowledged(x)
            && Total(t, HasLeft) + HasLeft(s.clients[k]) == Total(s.clients, HasLeft) + HasLeft(x)
            && Total(t, IsGone) + IsGone(s.clients[k]) == Total(s.clients, IsGone) + IsGone(x)
  {
    TotalUpdate(s.clients, k, x, Holding);
    TotalUpdate(s.clients, k, x, Unacknowledged);
    TotalUpdate(s.clients, k, x, HasLeft);
    TotalUpdate(s.clients, k, x, IsGone);
  }

  /** The server's tables, its slot and its logs are the same in both states. */
  ghost predicate SameServer(s: State, t: State) {
    && t.table == s.table && t.connected == s.connected && t.server == s.server
    && t.req == s.req && t.history == s.history && t.posted == s.posted && t.handled == s.handled
    && Pending(t) == Pending(s)
  }

  /** Another client is to the server what it was. */
  lemma OtherMember(c: Config, s: State, t: State, j: nat)
    requires Shape(c, s) && Shape(c, t) && SameServer(s, t)
    requires j < |s.clients| && j < |t.clients| && t.clients[j] == s.clients[j]
    requires ReceiverOk(s.clients[j]) && MemberOk(c, s, j)
    ensures ReceiverOk(t.clients[j]) && MemberOk(c, t, j)
  {
  }

  /** The parts of the invariant that a step of one client keeps when it changes
      neither the server's tables nor the slot, nor its own membership. */
  lemma OneClientChanges(c: Config, s: State, t: State, k: nat, x: Client)
    requires Shape(c, s) && Mail(c, s) && TableOk(c, s) && ClientsOk(c, s) && SameServer(s, t)
    requires k < |s.clients| && t.clients == s.clients[k := x] && x.member == s.clients[k].member
    requires (Started(s.clients[k]) ==> Started(x)) && (Ending(s.clients[k]) ==> Ending(x))
    requires ReceiverOk(x) && MemberOk(c, t, k)
    ensures Shape(c, t) && Mail(c, t) && TableOk(c, t) && ClientsOk(c, t)
  {
    forall j | 0 <= j < |t.clients| ensures ReceiverOk(t.clients[j]) && MemberOk(c, t, j) {
      if j != k {
        OtherMember(c, s, t, j);
      }
    }
  }

  /** A client that takes the baton stays what it was for the server. */
  lemma TakeClient(c: Config, s: State, k: nat)
    requires Shape(c, s) && Step(c, s, Take(k)).Some? && ReceiverOk(s.clients[k]) && MemberOk(c, s, k)
    ensures var t, x, y := Step(c, s, Take(k)).value, s.clients[k], Step(c, s, Take(k)).value.clients[k];
            && t == s.(poster := s.poster - 1, clients := s.clients[k := y])
            && y.member == x.member && Holding(y) == 1 && Holding(x) == 0
            && Unacknowledged(y) == Unacknowledged(x) && IsGone(y) == IsGone(x)
            && (Started(x) ==> Started(y)) && (Ending(x) ==> Ending(y))
            && Shape(c, t) && ReceiverOk(y) && MemberOk(c, t, k)
  {
  }

  lemma TakeKeepsInv(c: Config, s: State, k: nat)
    requires Inv(c, s) && Step(c, s, Take(k)).Some?
    ensures Inv(c, Step(c, s, Take(k)).value)
  {
    assert MemberOk(c, s, k) && ReceiverOk(s.clients[k]);
    TakeClient(c, s, k);
    TakeChange(c, s, Step(c, s, Take(k)).value, k, Step(c, s, Take(k)).value.clients[k]);
  }

  lemma TakeChange(c: Config, s: State, t: State, k: nat, y: Client)
    requires Inv(c, s) && k < |s.clients| && s.poster > 0
    requires t == s.(poster := s.poster - 1, clients := s.clients[k := y])
    requires y.member == s.clients[k].member && Holding(y) == 1 && Holding(s.clients[k]) == 0
    requires Unacknowledged(y) == Unacknowledged(s.clients[k]) && IsGone(y) == IsGone(s.clients[k])
    requires (Started(s.clients[k]) ==> Started(y)) && (Ending(s.clients[k]) ==> Ending(y))
    requires Shape(c, t) && ReceiverOk(y) && MemberOk(c, t, k)
    ensures Inv(c, t)
  {
    Counts(s, k, y);
    OneClientChanges(c, s, t, k, y);
  }

  /** The steps of a client that leave the slot and the baton alone. */
  predicate LocalAction(a: Action) {
    a.Fork? || a.Type? || a.Interrupt? || a.Finish? || a.Grant? || a.Show? || a.Ack?
  }

  lemma WriterStepClient(c: Config, s: State, a: Action)
    requires Shape(c, s) && (a.Fork? || a.Type? || a.Interrupt?) && Step(c, s, a).Some?
    requires ReceiverOk(s.clients[a.k]) && MemberOk(c, s, a.k)
    ensures var t := Step(c, s, a).value;
            Shape(c, t) && ReceiverOk(t.clients[a.k]) && MemberOk(c, t, a.k)
  {
  }

  lemma FinishClient(c: Config, s: State, k: nat)
    requires Shape(c, s) && Step(c, s, Finish(k)).Some?
    requires ReceiverOk(s.clients[k]) && MemberOk(c, s, k)
    ensures var t := Step(c, s, Finish(k)).value;
            Shape(c, t) && ReceiverOk(t.clients[k]) && MemberOk(c, t, k)
  {
  }

  /** A receiver shows the message in flight, then acknowledges it. */
  lemma ReceiverStepClient(c: Config, s: State, a: Action)
    requires Shape(c, s) && (a.Grant? || a.Show? || a.Ack?) && Step(c, s, a).Some?
    requires ReceiverOk(s.clients[a.k]) && MemberOk(c, s, a.k)
    ensures var t := Step(c, s, a).value;
            Shape(c, t) && ReceiverOk(t.clients[a.k]) && MemberOk(c, t, a.k)
  {
  }

  /** What a local step conserves: acknowledgements owed or posted, and tokens of
      deco_sem taken or left. */
  lemma LocalStepFrame(c: Config, s: State, a: Action)
    requires Shape(c, s) && LocalAction(a) && Step(c, s, a).Some? && ReceiverOk(s.clients[a.k])
    ensures var t, x, y := Step(c, s, a).value, s.clients[a.k], Step(c, s, a).value.clients[a.k];
            && t == s.(clients := s.clients[a.k := y], fin := t.fin, deco := t.deco)
            && y.member == x.member && Holding(y) == Holding(x) && Started(y) && (Ending(x) ==> Ending(y))
            && t.fin + Unacknowledged(y) == s.fin + Unacknowledged(x)
            && t.deco + IsGone(y) == s.deco + IsGone(x)
  {
  }

  lemma LocalStepKeepsInv(c: Config, s: State, a: Action)
    requires Inv(c, s) && LocalAction(a) && Step(c, s, a).Some?
    ensures Inv(c, Step(c, s, a).value)
  {
    var t := Step(c, s, a).value;
    assert MemberOk(c, s, a.k) && ReceiverOk(s.clients[a.k]);
    if a.Grant? || a.Show? || a.Ack? {
      ReceiverStepClient(c, s, a);
    } else if a.Finish? {
      FinishClient(c, s, a.k);
    } else {
      WriterStepClient(c, s, a);
    }
    LocalStepFrame(c, s, a);
    LocalChange(c, s, t, a.k, t.clients[a.k]);
  }

  lemma LocalChange(c: Config, s: State, t: State, k: nat, y: Client)
    requires Inv(c, s) && k < |s.clients|
    requires t == s.(clients := s.clients[k := y], fin := t.fin, deco := t.deco)
    requires y.member == s.clients[k].member && Holding(y) == Holding(s.clients[k])
    requires Started(y) && (Ending(s.clients[k]) ==> Ending(y))
    requires t.fin + Unacknowledged(y) == s.fin + Unacknowledged(s.clients[k])
    requires t.deco + IsGone(y) == s.deco + IsGone(s.clients[k])
    requires Shape(c, t) && ReceiverOk(y) && MemberOk(c, t, k)
    ensures Inv(c, t)
  {
    Counts(s, k, y);
    OneClientChanges(c, s, t, k, y);
  }

  lemma PostKeepsInv(c: Config, s: State, k: nat)
    requires Inv(c, s) && Step(c, s, Post(k)).Some?
    ensures Inv(c, Step(c, s, Post(k)).value)
  {
    var t := Step(c, s, Post(k)).value;
    Counts(s, k, t.clients[k]);
    TotalAtLeast(s.clients, k, Holding);
    PostClients(c, s, k);
    PostMail(c, s, k);
  }

  /** The request is pending in the slot, as it was posted. */
  lemma PostMail(c: Config, s: State, k: nat)
    requires Shape(c, s) && Mail(c, s) && Step(c, s, Post(k)).Some?
    requires !Pending(s) && s.server.Idle? && ReceiverOk(s.clients[k]) && MemberOk(c, s, k)
    ensures var t := Step(c, s, Post(k)).value;
            Shape(c, t) && Mail(c, t)
  {
    var t := Step(c, s, Post(k)).value;
    assert t.posted[|t.posted| - 1] == Posting(k, t.req);
  }

  /** While client k holds the baton nothing is pending, so a post disturbs no
      other client. */
  lemma PostClients(c: Config, s: State, k: nat)
    requires Shape(c, s) && ClientsOk(c, s) && TableOk(c, s) && Step(c, s, Post(k)).Some?
    requires !Pending(s) && s.server.Idle?
    ensures var t := Step(c, s, Post(k)).value;
            Shape(c, t) && ClientsOk(c, t) && TableOk(c, t)
  {
    var t := Step(c, s, Post(k)).value;
    forall j | 0 <= j < |t.clients| ensures ReceiverOk(t.clients[j]) && MemberOk(c, t, j) {
      assert MemberOk(c, s, j) && ReceiverOk(s.clients[j]);
      PostClient(c, s, k, j);
    }
  }

  lemma PostClient(c: Config, s: State, k: nat, j: nat)
    requires Shape(c, s) && Step(c, s, Post(k)).Some? && !Pending(s) && s.server.Idle?
    requires j < |s.clients| && ReceiverOk(s.clients[j]) && MemberOk(c, s, j)
    ensures var t := Step(c, s, Post(k)).value;
            Shape(c, t) && ReceiverOk(t.clients[j]) && MemberOk(c, t, j)
  {
  }

  /** The parts of the invariant about tables and clients survive when the server
      moves without a change of table, history or slot. */
  lemma ServerMoves(c: Config, s: State, t: State)
    requires Shape(c, s) && TableOk(c, s) && ClientsOk(c, s)
    requires t.table == s.table && t.clients == s.clients && t.connected == s.connected
    requires t.history == s.history && t.req == s.req && Pending(t) == Pending(s)
    requires InRound(t) == InRound(s)
    requires forall i :: 0 <= i < |s.table| ==> Unposted(t, i) == Unposted(s, i)
    ensures Shape(c, t) && TableOk(c, t) && ClientsOk(c, t)
  {
    forall k | 0 <= k < |t.clients| ensures ReceiverOk(t.clients[k]) && MemberOk(c, t, k) {
      assert MemberOk(c, s, k) && ReceiverOk(s.clients[k]);
    }
  }

  lemma WakeKeepsInv(c: Config, s: State)
    requires Inv(c, s) && (s.server.Idle? || s.server.Releasing?) && Step(c, s, Serve).Some?
    ensures Inv(c, Step(c, s, Serve).value)
  {
    ServerMoves(c, s, Step(c, s, Serve).value);
  }

  /** Every client still unacknowledged in the gathering phase is worth one wait. */
  lemma GatherKeepsInv(c: Config, s: State)
    requires Inv(c, s) && s.server.Gather? && s.server.left > 0 && Step(c, s, Serve).Some?
    ensures Inv(c, Step(c, s, Serve).value)
  {
    ServerMoves(c, s, Step(c, s, Serve).value);
  }

  lemma GatherStartsKeepsInv(c: Config, s: State)
    requires Inv(c, s) && s.server.Fan? && s.server.i == |s.table|
    ensures Inv(c, Step(c, s, Serve).value)
  {
    assert s.table[..|s.table|] == s.table;
    ServerMoves(c, s, Step(c, s, Serve).value);
  }

  /** Nobody is busy once the last acknowledgement is in. */
  lemma RoundEndKeepsInv(c: Config, s: State)
    requires Inv(c, s) && s.server.Gather? && s.server.left <= 0
    ensures Inv(c, Step(c, s, Serve).value)
  {
    var t := Step(c, s, Serve).value;
    forall k | 0 <= k < |t.clients| ensures ReceiverOk(t.clients[k]) && MemberOk(c, t, k) {
      assert MemberOk(c, s, k) && ReceiverOk(s.clients[k]);
      TotalAtLeast(s.clients, k, Unacknowledged);
    }
  }

  lemma RoundStartKeepsInv(c: Config, s: State)
    requires Inv(c, s) && s.server.Handling? && s.req.kind == 1
    ensures Inv(c, Step(c, s, Serve).value)
  {
    var t := Step(c, s, Serve).value;
    BroadcastsGrow(s.handled, s.req);
    forall k | 0 <= k < |t.clients| ensures ReceiverOk(t.clients[k]) && MemberOk(c, t, k) {
      assert MemberOk(c, s, k) && ReceiverOk(s.clients[k]);
      RoundStartClient(c, s, k);
    }
  }

  /** A new message is in flight for every member; slices of the history stay. */
  lemma RoundStartClient(c: Config, s: State, k: nat)
    requires Shape(c, s) && s.server.Handling? && s.prevenir == 0 && s.req.kind == 1
    requires k < |s.clients| && MemberOk(c, s, k)
    ensures var t := Step(c, s, Serve).value;
            Shape(c, t) && MemberOk(c, t, k)
  {
    var t := Step(c, s, Serve).value;
    if s.clients[k].member.Joined? {
      var a := s.clients[k].member.since;
      assert t.history[a..|t.history| - 1] == s.history[a..];
    } else if s.clients[k].member.Left? {
      var a, b := s.clients[k].member.since, s.clients[k].member.until;
      assert t.history[a..b] == s.history[a..b];
    }
  }

  /** A message goes only to a client that has shown all the earlier ones. */
  lemma FanKeepsInv(c: Config, s: State)
    requires Inv(c, s) && s.server.Fan? && s.server.i < |s.table|
    ensures Inv(c, Step(c, s, Serve).value)
  {
    var t := Step(c, s, Serve).value;
    var i := s.server.i;
    TotalPrefix(s.table, i, Occupied);
    if s.table[i].Taken? {
      var k := s.table[i].link;
      Counts(s, k, t.clients[k]);
    }
    FanClients(c, s);
  }

  lemma FanClients(c: Config, s: State)
    requires Shape(c, s) && TableOk(c, s) && ClientsOk(c, s) && !Pending(s)
    requires s.server.Fan? && s.server.i < |s.table|
    requires s.history != [] && s.req == Request(1, s.history[|s.history| - 1])
    ensures var t := Step(c, s, Serve).value;
            Shape(c, t) && TableOk(c, t) && ClientsOk(c, t)
  {
    var t := Step(c, s, Serve).value;
    forall j | 0 <= j < |t.clients| ensures ReceiverOk(t.clients[j]) && MemberOk(c, t, j) {
      assert MemberOk(c, s, j) && ReceiverOk(s.clients[j]);
      FanClient(c, s, j);
    }
  }

  /** The client at the current index gets the message; every other one keeps its
      place relative to the loop. */
  lemma FanClient(c: Config, s: State, j: nat)
    requires Shape(c, s) && !Pending(s) && s.server.Fan? && s.server.i < |s.table| && j < |s.clients|
    requires s.history != [] && s.req == Request(1, s.history[|s.history| - 1])
    requires ReceiverOk(s.clients[j]) && MemberOk(c, s, j)
    requires s.table[s.server.i].Taken? ==>
               && s.table[s.server.i].link < |s.clients|
               && s.clients[s.table[s.server.i].link].member.Joined?
               && s.clients[s.table[s.server.i].link].member.slot == s.server.i
    ensures var t := Step(c, s, Serve).value;
            Shape(c, t) && ReceiverOk(t.clients[j]) && MemberOk(c, t, j)
  {
    var i := s.server.i;
    if s.table[i].Taken? && s.table[i].link == j {
    } else {
      assert s.clients[j].member.Joined? ==> s.clients[j].member.slot != i;
    }
  }

  /** Names identify clients. */
  lemma LookupIs(names: Names, k: nat)
    requires k < |names|
    ensures Lookup(names, names[k]) == Some(k)
  {
    assert names[k] in names;
  }

  lemma ConnectKeepsInv(c: Config, s: State)
    requires Inv(c, s) && s.server.Handling? && s.req.kind == 0
    ensures Step(c, s, Serve).Some? && Inv(c, Step(c, s, Serve).value)
  {
    var k := s.posted[|s.posted| - 1].author;
    LookupIs(c.names, k);
    var t := Step(c, s, Serve).value;
    Counts(s, k, t.clients[k]);
    HandledMail(c, s);
    ConnectTable(c, s, k);
    ConnectClients(c, s, k);
  }

  lemma BroadcastsGrow(log: seq<Request>, r: Request)
    ensures Broadcasts(log + [r]) == if r.kind == 1 then Broadcasts(log) + [r.content] else Broadcasts(log)
  {
    assert (log + [r])[..|log|] == log;
    assert Broadcasts(log) + [] == Broadcasts(log);
  }

  /** A request other than a broadcast joins the log of handled ones. */
  lemma HandledMail(c: Config, s: State)
    requires Shape(c, s) && Mail(c, s) && s.server.Handling? && s.prevenir == 0 && s.req.kind in {0, 2}
    requires Step(c, s, Serve).Some?
    ensures var t := Step(c, s, Serve).value;
            && t.server.Releasing? && t.prevenir == 0 && t.poster == s.poster && t.fin == s.fin
            && Shape(c, t) && Mail(c, t)
  {
    var t := Step(c, s, Serve).value;
    BroadcastsGrow(s.handled, s.req);
    HandledFrame(c, s);
    assert t.posted[|s.handled|].req == s.req;
  }

  /** What handling leaves alone. */
  lemma HandledFrame(c: Config, s: State)
    requires Shape(c, s) && s.server.Handling? && s.req.kind in {0, 2} && Step(c, s, Serve).Some?
    ensures var t := Step(c, s, Serve).value;
            && t.server.Releasing? && t.prevenir == s.prevenir && t.poster == s.poster && t.fin == s.fin
            && t.handled == s.handled + [s.req] && t.posted == s.posted && t.history == s.history && t.req == s.req
            && Shape(c, t)
  {
  }

  /** The new member takes one free index. */
  lemma ConnectTable(c: Config, s: State, k: nat)
    requires Shape(c, s) && TableOk(c, s) && k < |s.clients| && s.clients[k].member.Outside?
    requires s.server.Handling? && s.req == Request(0, c.names[k])
    requires Lookup(c.names, s.req.content) == Some(k)
    ensures var t := Step(c, s, Serve).value;
            Shape(c, t) && TableOk(c, t)
  {
    match FirstFree(s.table)
    case Some(i) => TotalUpdate(s.table, i, Taken(s.req.content, k), Occupied);
    case None =>
  }

  /** Only the requester's membership changes, and nobody else's request was in the
      slot. */
  lemma ConnectClients(c: Config, s: State, k: nat)
    requires Shape(c, s) && TableOk(c, s) && ClientsOk(c, s)
    requires s.server.Handling? && s.prevenir == 0 && s.req.kind == 0 && PendingOk(c, s, k)
    requires Lookup(c.names, s.req.content) == Some(k)
    ensures var t := Step(c, s, Serve).value;
            Shape(c, t) && ClientsOk(c, t)
  {
    var t := Step(c, s, Serve).value;
    forall j | 0 <= j < |t.clients| ensures ReceiverOk(t.clients[j]) && MemberOk(c, t, j) {
      assert MemberOk(c, s, j) && ReceiverOk(s.clients[j]);
      ConnectClient(c, s, k, j);
    }
  }

  lemma ConnectClient(c: Config, s: State, k: nat, j: nat)
    requires Shape(c, s) && j < |s.clients| && ReceiverOk(s.clients[j]) && MemberOk(c, s, j)
    requires s.server.Handling? && s.prevenir == 0 && s.req.kind == 0 && PendingOk(c, s, k)
    requires Lookup(c.names, s.req.content) == Some(k)
    ensures var t := Step(c, s, Serve).value;
            Shape(c, t) && ReceiverOk(t.clients[j]) && MemberOk(c, t, j)
  {
  }

  /** The requester's index is found exactly when it is a member. */
  lemma FindRequester(c: Config, s: State, k: nat)
    requires Shape(c, s) && TableOk(c, s) && k < |s.clients| && MemberOk(c, s, k)
    ensures FindName(s.table, c.names[k]) ==
            if s.clients[k].member.Joined? then Some(s.clients[k].member.slot) else None
  {
    match FindName(s.table, c.names[k])
    case Some(i) =>
      var j := s.table[i].link;
      assert c.names[j] == c.names[k];
      assert j == k;
    case None =>
  }

  lemma DisconnectKeepsInv(c: Config, s: State)
    requires Inv(c, s) && s.server.Handling? && s.req.kind == 2
    ensures Inv(c, Step(c, s, Serve).value)
  {
    var k := s.posted[|s.posted| - 1].author;
    assert MemberOk(c, s, k) && ReceiverOk(s.clients[k]);
    FindRequester(c, s, k);
    var t := Step(c, s, Serve).value;
    Counts(s, k, t.clients[k]);
    HandledMail(c, s);
    DisconnectTable(c, s, k);
    DisconnectClients(c, s, k);
  }

  /** The requester's index is freed, and one token posted for it. */
  lemma DisconnectTable(c: Config, s: State, k: nat)
    requires Shape(c, s) && TableOk(c, s) && k < |s.clients| && MemberOk(c, s, k)
    requires s.server.Handling? && s.req == Request(2, c.names[k])
    requires FindName(s.table, c.names[k]) ==
             if s.clients[k].member.Joined? then Some(s.clients[k].member.slot) else None
    ensures var t, y := Step(c, s, Serve).value, Step(c, s, Serve).value.clients[k];
            && Shape(c, t) && TableOk(c, t) && t.clients == s.clients[k := y]
            && Holding(y) == Holding(s.clients[k]) && Unacknowledged(y) == Unacknowledged(s.clients[k])
            && IsGone(y) == IsGone(s.clients[k])
            && t.deco + HasLeft(s.clients[k]) == s.deco + HasLeft(y)
  {
    if s.clients[k].member.Joined? {
      TotalUpdate(s.table, s.clients[k].member.slot, Free, Occupied);
    }
  }

  lemma DisconnectClients(c: Config, s: State, k: nat)
    requires Shape(c, s) && TableOk(c, s) && ClientsOk(c, s)
    requires s.server.Handling? && s.prevenir == 0 && s.req.kind == 2 && PendingOk(c, s, k)
    requires FindName(s.table, c.names[k]) ==
             if s.clients[k].member.Joined? then Some(s.clients[k].member.slot) else None
    ensures var t := Step(c, s, Serve).value;
            Shape(c, t) && ClientsOk(c, t)
  {
    var t := Step(c, s, Serve).value;
    forall j | 0 <= j < |t.clients| ensures ReceiverOk(t.clients[j]) && MemberOk(c, t, j) {
      assert MemberOk(c, s, j) && ReceiverOk(s.clients[j]);
      DisconnectClient(c, s, k, j);
    }
  }

  lemma DisconnectClient(c: Config, s: State, k: nat, j: nat)
    requires Shape(c, s) && j < |s.clients| && ReceiverOk(s.clients[j]) && MemberOk(c, s, j)
    requires s.server.Handling? && s.prevenir == 0 && s.req.kind == 2 && PendingOk(c, s, k)
    requires MemberOk(c, s, k)
    requires FindName(s.table, c.names[k]) ==
             if s.clients[k].member.Joined? then Some(s.clients[k].member.slot) else None
    ensures var t := Step(c, s, Serve).value;
            Shape(c, t) && ReceiverOk(t.clients[j]) && MemberOk(c, t, j)
  {
  }

  /** Every step keeps the invariant. */
  lemma InvStep(c: Config, s: State, a: Action)
    requires Inv(c, s) && Step(c, s, a).Some?
    ensures Inv(c, Step(c, s, a).value)
  {
    match a
    case Take(k) => TakeKeepsInv(c, s, k);
    case Post(k) => PostKeepsInv(c, s, k);
    case Serve => ServeKeepsInv(c, s);
    case _ => LocalStepKeepsInv(c, s, a);
  }

  lemma ServeKeepsInv(c: Config, s: State)
    requires Inv(c, s) && Step(c, s, Serve).Some?
    ensures Inv(c, Step(c, s, Serve).value)
  {
    match s.server
    case Idle => WakeKeepsInv(c, s);
    case Releasing => WakeKeepsInv(c, s);
    case Fan(i) => if i < |s.table| { FanKeepsInv(c, s); } else { GatherStartsKeepsInv(c, s); }
    case Gather(left) => if left > 0 { GatherKeepsInv(c, s); } else { RoundEndKeepsInv(c, s); }
    case Handling =>
      if s.req.kind == 0 { ConnectKeepsInv(c, s); }
      else if s.req.kind == 1 { RoundStartKeepsInv(c, s); }
      else { DisconnectKeepsInv(c, s); }
  }

  /** The invariant holds in every reachable state. */
  lemma Reachable(c: Config, s: State)
    requires Reaches(Steps(c), Init(c), s)
    ensures Inv(c, s)
  {
    InvInit(c);
    forall t, a | Inv(c, t) && Steps(c)(t, a).Some? ensures Inv(c, Steps(c)(t, a).value) {
      InvStep(c, t, a);
    }
    InvariantReaches(Steps(c), t => Inv(c, t), Init(c), s);
  }
}
