/** From the keyboard to the history: what the clients of the chat server send is what
    their users type. */
module ChatLines {
  import opened Wrappers
  import opened Runs
  import opened ChatServer
  import opened ChatTheorems
  import opened ChatDepartures

  /** The lines that a schedule types at client k; a lone newline is not one. */
  function Typed(acts: seq<Action>, k: nat): seq<string> {
    if acts == [] then []
    else
      var a := acts[|acts| - 1];
      Typed(acts[..|acts| - 1], k) + if a.Type? && a.k == k && |a.m| != 1 then [a.m] else []
  }

  /** The requests that client k has posted, in order. */
  function RequestsOf(posted: seq<Posting>, k: nat): seq<Request> {
    if posted == [] then []
    else
      var p := posted[|posted| - 1];
      RequestsOf(posted[..|posted| - 1], k) + if p.author == k then [p.req] else []
  }

  /** The line a writer has read and not yet posted. */
  function InHand(x: Client): seq<string> {
    match x.pc case Sending(m) => [m] case Writing(m) => [m] case _ => []
  }

  /** Broadcast requests, one for each line. */
  function ForLines(lines: seq<string>): seq<Request> {
    seq(|lines|, i requires 0 <= i < |lines| => Request(1, lines[i]))
  }

  /** What client k has to send after it was given some lines: a connection request,
      a broadcast for each line, and a disconnection request at the end. */
  function Due(c: Config, x: Client, k: nat, lines: seq<string>): seq<Request>
    requires k < |c.names|
  {
    (if Started(x) then [Request(0, c.names[k])] else []) + ForLines(lines)
    + (if Ending(x) then [Request(2, c.names[k])] else [])
  }

  ghost predicate Accounted(c: Config, s: State, k: nat, lines: seq<string>) {
    && k < |c.names| && k < |s.clients|
    && (!Started(s.clients[k]) ==> lines == [])
    && RequestsOf(s.posted, k) + ForLines(InHand(s.clients[k])) == Due(c, s.clients[k], k, lines)
  }

  lemma RequestsGrow(posted: seq<Posting>, p: Posting, k: nat)
    ensures RequestsOf(posted + [p], k) == RequestsOf(posted, k) + if p.author == k then [p.req] else []
  {
    assert (posted + [p])[..|posted|] == posted;
  }

  /** A line read goes into the client's hand, unless it is a lone newline. */
  lemma TypeAccounted(c: Config, s: State, k: nat, lines: seq<string>, m: string)
    requires Accounted(c, s, k, lines) && Step(c, s, Type(k, m)).Some?
    ensures Accounted(c, Step(c, s, Type(k, m)).value, k, if |m| != 1 then lines + [m] else lines)
  {
    assert ForLines(lines + [m]) == ForLines(lines) + ForLines([m]);
    var all := Due(c, s.clients[k], k, lines);
    assert RequestsOf(s.posted, k) + ForLines([]) == RequestsOf(s.posted, k);
    assert all + ForLines([m]) == Due(c, s.clients[k], k, lines + [m]);
  }

  lemma ConnectIsDue(c: Config, x: Client, k: nat, sent: seq<Request>)
    requires k < |c.names| && x.pc.Connecting? && sent + ForLines(InHand(x)) == Due(c, x, k, [])
    ensures sent + [Request(0, c.names[k])] + ForLines([]) == Due(c, x.(pc := Forking), k, [])
  {
    assert sent == [] && ForLines([]) == [];
  }

  lemma LineIsDue(c: Config, x: Client, k: nat, lines: seq<string>, sent: seq<Request>, m: string)
    requires k < |c.names| && x.pc == Writing(m) && sent + ForLines(InHand(x)) == Due(c, x, k, lines)
    ensures sent + [Request(1, m)] + ForLines([]) == Due(c, x.(pc := Reading), k, lines)
  {
    assert ForLines([m]) == [Request(1, m)] && ForLines([]) == [];
  }

  lemma DisconnectIsDue(c: Config, x: Client, k: nat, lines: seq<string>, sent: seq<Request>)
    requires k < |c.names| && x.pc.Leaving? && sent + ForLines(InHand(x)) == Due(c, x, k, lines)
    ensures sent + [Request(2, c.names[k])] + ForLines([]) == Due(c, x.(pc := Exiting), k, lines)
  {
    var bye := [Request(2, c.names[k])];
    assert ForLines([]) == [] && sent + [] == sent;
    assert Due(c, x, k, lines) + bye == Due(c, x.(pc := Exiting), k, lines);
    assert sent + bye + [] == sent + bye;
  }

  /** What a post does to the log and to its author. */
  lemma PostEffect(c: Config, s: State, k: nat) returns (r: Request, y: Client)
    requires Step(c, s, Post(k)).Some?
    ensures var t, x := Step(c, s, Post(k)).value, s.clients[k];
            && t.posted == s.posted + [Posting(k, r)] && t.clients == s.clients[k := y]
            && match x.pc
               case Connecting => r == Request(0, c.names[k]) && y == x.(pc := Forking)
               case Writing(m) => r == Request(1, m) && y == x.(pc := Reading)
               case Leaving => r == Request(2, c.names[k]) && y == x.(pc := Exiting)
               case _ => false
  {
    r, y := Step(c, s, Post(k)).value.req, Step(c, s, Post(k)).value.clients[k];
  }

  /** A post sends what is due next. */
  lemma PostAccounted(c: Config, s: State, k: nat, lines: seq<string>)
    requires Accounted(c, s, k, lines) && Step(c, s, Post(k)).Some?
    ensures Accounted(c, Step(c, s, Post(k)).value, k, lines)
  {
    var x, sent := s.clients[k], RequestsOf(s.posted, k);
    var r, y := PostEffect(c, s, k);
    RequestsGrow(s.posted, Posting(k, r), k);
    match x.pc
    case Connecting => ConnectIsDue(c, x, k, sent);
    case Writing(m) => LineIsDue(c, x, k, lines, sent, m);
    case Leaving => DisconnectIsDue(c, x, k, lines, sent);
  }

  /** The other moves of client k post and type nothing. */
  lemma MoveAccounted(c: Config, s: State, a: Action, lines: seq<string>)
    requires Step(c, s, a).Some? && !a.Serve? && !a.Type? && !a.Post? && Accounted(c, s, a.k, lines)
    ensures Accounted(c, Step(c, s, a).value, a.k, lines)
  {
  }

  /** What others do to the log and to client k. */
  lemma OthersEffect(c: Config, s: State, a: Action, k: nat)
    requires Step(c, s, a).Some? && (a.Serve? || a.k != k) && k < |s.clients|
    ensures var t := Step(c, s, a).value;
            && k < |t.clients| && t.clients[k].pc == s.clients[k].pc
            && (t.posted == s.posted || (a.Post? && t.posted == s.posted + [Posting(a.k, t.req)]))
  {
  }

  /** The server and the other clients leave client k's requests alone. */
  lemma OthersAccounted(c: Config, s: State, a: Action, k: nat, lines: seq<string>)
    requires Accounted(c, s, k, lines) && Step(c, s, a).Some? && (a.Serve? || a.k != k)
    ensures Accounted(c, Step(c, s, a).value, k, lines)
  {
    var t := Step(c, s, a).value;
    OthersEffect(c, s, a, k);
    if t.posted != s.posted {
      RequestsGrow(s.posted, Posting(a.k, t.req), k);
      assert RequestsOf(s.posted, k) + [] == RequestsOf(s.posted, k);
    }
    SameAccount(c, s, t, k, lines);
  }

  lemma SameAccount(c: Config, s: State, t: State, k: nat, lines: seq<string>)
    requires Accounted(c, s, k, lines) && k < |t.clients| && t.clients[k].pc == s.clients[k].pc
    requires RequestsOf(t.posted, k) == RequestsOf(s.posted, k)
    ensures Accounted(c, t, k, lines)
  {
  }

  /** In every run the requests that a client has posted, and the line it still has in
      hand, are its connection request, one broadcast for each line typed, unaltered and
      in order, and its disconnection request. */
  lemma {:induction false} RequestsAreWhatWasTyped(c: Config, acts: seq<Action>, k: nat)
    requires Exec(Steps(c), Init(c), acts).Some? && k < |c.names|
    ensures var s := Exec(Steps(c), Init(c), acts).value;
            && k < |s.clients|
            && (!Started(s.clients[k]) ==> Typed(acts, k) == [])
            && RequestsOf(s.posted, k) + ForLines(InHand(s.clients[k])) == Due(c, s.clients[k], k, Typed(acts, k))
    decreases |acts|
  {
    if acts == [] {
      assert Accounted(c, Init(c), k, []);
    } else {
      var before, a := acts[..|acts| - 1], acts[|acts| - 1];
      ExecLast(Steps(c), Init(c), acts);
      RequestsAreWhatWasTyped(c, before, k);
      var s := Exec(Steps(c), Init(c), before).value;
      assert Typed(before, k) + [] == Typed(before, k);
      if a.Serve? || a.k != k {
        OthersAccounted(c, s, a, k, Typed(before, k));
      } else if a.Type? {
        TypeAccounted(c, s, k, Typed(before, k), a.m);
      } else if a.Post? {
        PostAccounted(c, s, k, Typed(before, k));
      } else {
        MoveAccounted(c, s, a, Typed(before, k));
      }
    }
  }

  // ----- The history as a merge of what everybody typed -----

  /** The authors of the broadcasts among some postings. */
  function Authors(posted: seq<Posting>): seq<nat> {
    if posted == [] then []
    else
      var p := posted[|posted| - 1];
      Authors(posted[..|posted| - 1]) + if p.req.kind == 1 then [p.author] else []
  }

  /** The messages of one author. */
  function OfAuthor(history: seq<string>, authors: seq<nat>, k: nat): seq<string>
    requires |history| == |authors|
  {
    if history == [] then []
    else
      var i := |history| - 1;
      OfAuthor(history[..i], authors[..i], k) + if authors[i] == k then [history[i]] else []
  }

  function Requests(posted: seq<Posting>): seq<Request> {
    seq(|posted|, i requires 0 <= i < |posted| => posted[i].req)
  }

  lemma OfAuthorGrows(history: seq<string>, authors: seq<nat>, p: Posting, k: nat)
    requires |history| == |authors|
    ensures var h, w := if p.req.kind == 1 then [p.req.content] else [], if p.req.kind == 1 then [p.author] else [];
            OfAuthor(history + h, authors + w, k)
            == OfAuthor(history, authors, k) + if p.author == k then h else []
  {
    if p.req.kind == 1 {
      assert (history + [p.req.content])[..|history|] == history && (authors + [p.author])[..|authors|] == authors;
    } else {
      assert history + [] == history && authors + [] == authors;
    }
    assert OfAuthor(history, authors, k) + [] == OfAuthor(history, authors, k);
  }

  /** What was broadcast, author by author. */
  lemma {:induction false} BroadcastsByAuthor(posted: seq<Posting>, k: nat)
    ensures |Authors(posted)| == |Broadcasts(Requests(posted))|
    ensures OfAuthor(Broadcasts(Requests(posted)), Authors(posted), k) == Broadcasts(RequestsOf(posted, k))
  {
    if posted != [] {
      var before, p := posted[..|posted| - 1], posted[|posted| - 1];
      BroadcastsByAuthor(before, k);
      assert Requests(posted) == Requests(before) + [p.req];
      BroadcastsOfMore(Requests(before), [p.req]);
      BroadcastsOfMore(RequestsOf(before, k), if p.author == k then [p.req] else []);
      OneBroadcast(p.req);
      OfAuthorGrows(Broadcasts(Requests(before)), Authors(before), p, k);
    }
  }

  lemma OneBroadcast(r: Request)
    ensures Broadcasts([r]) == if r.kind == 1 then [r.content] else []
    ensures Broadcasts([]) == []
  {
    assert [r][..0] == [];
  }

  lemma {:induction false} BroadcastsOfMore(log: seq<Request>, more: seq<Request>)
    ensures Broadcasts(log + more) == Broadcasts(log) + Broadcasts(more)
  {
    if more == [] {
      assert log + more == log;
    } else {
      var m := more[..|more| - 1];
      assert (log + more)[..|log + more| - 1] == log + m;
      BroadcastsOfMore(log, m);
    }
  }

  lemma {:induction false} RequestsOfMore(posted: seq<Posting>, more: seq<Posting>, k: nat)
    ensures RequestsOf(posted + more, k) == RequestsOf(posted, k) + RequestsOf(more, k)
  {
    if more == [] {
      assert posted + more == posted;
    } else {
      var m := more[..|more| - 1];
      assert (posted + more)[..|posted + more| - 1] == posted + m;
      RequestsOfMore(posted, m, k);
    }
  }

  lemma {:induction false} LinesBroadcast(lines: seq<string>)
    ensures Broadcasts(ForLines(lines)) == lines
  {
    if lines != [] {
      LinesBroadcast(lines[..|lines| - 1]);
      assert ForLines(lines)[..|lines| - 1] == ForLines(lines[..|lines| - 1]);
    }
  }

  /** The broadcasts due are the lines. */
  lemma DueBroadcasts(c: Config, x: Client, k: nat, lines: seq<string>)
    requires k < |c.names|
    ensures Broadcasts(Due(c, x, k, lines)) == lines
  {
    var hello := if Started(x) then [Request(0, c.names[k])] else [];
    var bye := if Ending(x) then [Request(2, c.names[k])] else [];
    OneBroadcast(Request(0, c.names[k]));
    OneBroadcast(Request(2, c.names[k]));
    LinesBroadcast(lines);
    BroadcastsOfMore(hello, ForLines(lines));
    BroadcastsOfMore(hello + ForLines(lines), bye);
  }

  /** Lines of client k that are in the slot or in its hand. */
  function OnTheWay(s: State, k: nat): seq<string>
    requires k < |s.clients| && |s.handled| <= |s.posted|
  {
    Broadcasts(RequestsOf(s.posted[|s.handled|..], k)) + InHand(s.clients[k])
  }

  /** A log of requests in two parts, and what is not in it yet. */
  lemma LinesInParts(c: Config, x: Client, k: nat, first: seq<Posting>, rest: seq<Posting>, lines: seq<string>)
    requires k < |c.names|
    requires RequestsOf(first + rest, k) + ForLines(InHand(x)) == Due(c, x, k, lines)
    ensures Broadcasts(RequestsOf(first, k)) + (Broadcasts(RequestsOf(rest, k)) + InHand(x)) == lines
  {
    DueBroadcasts(c, x, k, lines);
    RequestsOfMore(first, rest, k);
    ThreeParts(RequestsOf(first, k), RequestsOf(rest, k), InHand(x));
  }

  lemma ThreeParts(first: seq<Request>, rest: seq<Request>, hand: seq<string>)
    ensures Broadcasts(first + rest + ForLines(hand)) == Broadcasts(first) + (Broadcasts(rest) + hand)
  {
    LinesBroadcast(hand);
    BroadcastsOfMore(first + rest, ForLines(hand));
    BroadcastsOfMore(first, rest);
  }

  /** The lines client k was given are those broadcast for it and those on the way. */
  lemma LinesOfClient(c: Config, acts: seq<Action>, s: State, k: nat)
    requires Exec(Steps(c), Init(c), acts) == Some(s) && k < |c.names|
    ensures k < |s.clients| && |s.handled| <= |s.posted|
    ensures Broadcasts(RequestsOf(s.posted[..|s.handled|], k)) + OnTheWay(s, k) == Typed(acts, k)
  {
    assert Reaches(Steps(c), Init(c), s);
    Reachable(c, s);
    RequestsAreWhatWasTyped(c, acts, k);
    var first, rest := s.posted[..|s.handled|], s.posted[|s.handled|..];
    assert s.posted == first + rest;
    LinesInParts(c, s.clients[k], k, first, rest, Typed(acts, k));
  }

  /** The server's history is a merge of what the users typed: with each message
      credited to one client, the messages of client k are, unaltered and in order, the
      lines typed at k but for those on the way; none is on the way when no request is
      pending and the writer has nothing in hand. */
  lemma HistoryMergesTypedLines(c: Config, acts: seq<Action>)
    requires Exec(Steps(c), Init(c), acts).Some?
    ensures var s := Exec(Steps(c), Init(c), acts).value;
            && |s.clients| == |c.names| && |s.handled| <= |s.posted|
            && (exists authors: seq<nat> ::
                  && |authors| == |s.history|
                  && forall k :: 0 <= k < |c.names| ==>
                       OfAuthor(s.history, authors, k) + OnTheWay(s, k) == Typed(acts, k))
            && (!Pending(s) ==> forall k :: 0 <= k < |c.names| && InHand(s.clients[k]) == [] ==> OnTheWay(s, k) == [])
  {
    var s := Exec(Steps(c), Init(c), acts).value;
    assert Reaches(Steps(c), Init(c), s);
    Reachable(c, s);
    var done := s.posted[..|s.handled|];
    assert Requests(done) == s.handled;
    var authors := Authors(done);
    BroadcastsByAuthor(done, 0);
    forall k | 0 <= k < |c.names| ensures OfAuthor(s.history, authors, k) + OnTheWay(s, k) == Typed(acts, k) {
      LinesOfClient(c, acts, s, k);
      BroadcastsByAuthor(done, k);
    }
    if !Pending(s) {
      assert s.posted[|s.handled|..] == [];
    }
  }

  // ----- Every line can be shown -----

  /** A lone newline is read and nothing comes of it. */
  lemma LoneNewline(c: Config, s: State, k: nat, m: string)
    requires k < |s.clients| && k < |c.names| && s.clients[k].pc.Reading? && |m| == 1
    ensures Step(c, s, Type(k, m)) == Some(s)
  {
  }

  /** A line typed is in its client's hand and the baton has come back. */
  lemma LineReady(c: Config, s: State, k: nat, m: string) returns (t: State)
    requires Reaches(Steps(c), Init(c), s) && k < |s.clients| && s.clients[k].pc.Reading? && |m| != 1
    ensures Reaches(Steps(c), s, t) && Reaches(Steps(c), Init(c), t) && BatonFree(t)
    ensures k < |t.clients| && t.clients[k].pc == Sending(m)
  {
    Reachable(c, s);
    assert Exec(Steps(c), s, []) == Some(s);
    ReachesNext(Steps(c), s, s, Type(k, m));
    ReachesNext(Steps(c), Init(c), s, Type(k, m));
    var u := Step(c, s, Type(k, m)).value;
    t := BatonComesBack(c, u, k);
    ReachesFurther(Steps(c), s, u, t);
  }

  /** Its client sends it and the server starts the round. */
  lemma LineSent(c: Config, s: State, k: nat, m: string) returns (t: State)
    requires Reaches(Steps(c), Init(c), s) && BatonFree(s) && k < |s.clients| && s.clients[k].pc == Sending(m)
    ensures Reaches(Steps(c), s, t) && t.server.Fan? && t.history == s.history + [m]
  {
    Reachable(c, s);
    assert Exec(Steps(c), s, []) == Some(s);
    t := NextOf(c, s, s, Take(k));
    t := NextOf(c, s, t, Post(k));
    t := NextOf(c, s, t, Serve);
    t := NextOf(c, s, t, Serve);
  }

  lemma NextOf(c: Config, s: State, t: State, a: Action) returns (u: State)
    requires Reaches(Steps(c), s, t) && Step(c, t, a).Some?
    ensures Step(c, t, a) == Some(u) && Reaches(Steps(c), s, u)
  {
    ReachesNext(Steps(c), s, t, a);
    u := Step(c, t, a).value;
  }

  /** The message is the last of the history and the last displayed by every member. */
  ghost predicate ShownToAll(s: State, m: string) {
    && s.history != [] && s.history[|s.history| - 1] == m
    && forall j :: 0 <= j < |s.clients| && s.clients[j].member.Joined? ==>
         s.clients[j].shown != [] && s.clients[j].shown[|s.clients[j].shown| - 1] == m
  }

  lemma RoundClosed(c: Config, s: State, m: string) returns (t: State)
    requires Reaches(Steps(c), Init(c), s) && s.server.Fan? && s.history != [] && s.history[|s.history| - 1] == m
    ensures Reaches(Steps(c), s, t) && ShownToAll(t, m)
  {
    t := LastWait(c, s);
    ReachesFurther(Steps(c), Init(c), s, t);
    RoundClosesExactly(c, t);
  }

  lemma LineBroadcast(c: Config, s: State, k: nat, m: string) returns (t: State)
    requires Reaches(Steps(c), Init(c), s) && k < |s.clients| && s.clients[k].pc.Reading? && |m| != 1
    ensures Reaches(Steps(c), s, t) && Reaches(Steps(c), Init(c), t)
    ensures t.server.Fan? && t.history != [] && t.history[|t.history| - 1] == m
  {
    var u := LineReady(c, s, k, m);
    t := LineSent(c, u, k, m);
    ReachesFurther(Steps(c), s, u, t);
    ReachesFurther(Steps(c), Init(c), s, t);
  }

  /** Whatever a user types at a client that reads, but for a lone newline, can become
      the last message of the history and the last one displayed by every member. */
  lemma LineCanBeShown(c: Config, s: State, k: nat, m: string)
    requires Reaches(Steps(c), Init(c), s) && k < |s.clients| && s.clients[k].pc.Reading? && |m| != 1
    ensures exists t :: Reaches(Steps(c), s, t) && ShownToAll(t, m)
  {
    var u := LineBroadcast(c, s, k, m);
    var t := RoundClosed(c, u, m);
    ReachesFurther(Steps(c), s, u, t);
  }
}
