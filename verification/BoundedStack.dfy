/** The sequential stack that the two thread-safe stacks are compared with: a push
    on a full stack is dropped, a pop takes the last character, and a pop of the empty
    stack returns the null character. */
module BoundedStack {
  const STACK_SIZE: nat := 100

  /** A completed call with its argument or its result. */
  datatype Event = Push(c: char) | Pop(c: char)

  /** An event and the thread that made it. */
  datatype Entry = Entry(thread: nat, event: Event)

  const NUL: char := '\0'

  function Apply(cap: nat, s: seq<char>, e: Event): seq<char> {
    match e
    case Push(c) => if |s| >= cap then s else s + [c]
    case Pop(_) => if s == [] then s else s[..|s| - 1]
  }

  /** The result of the call is the one the sequential stack gives. */
  predicate Legal(s: seq<char>, e: Event) {
    e.Pop? ==> e.c == if s == [] then NUL else s[|s| - 1]
  }

  /** The contents after a log of calls from the empty stack. */
  function Contents(cap: nat, log: seq<Entry>): seq<char> {
    if log == [] then []
    else Apply(cap, Contents(cap, log[..|log| - 1]), log[|log| - 1].event)
  }

  predicate LegalLog(cap: nat, log: seq<Entry>) {
    log != [] ==>
      && LegalLog(cap, log[..|log| - 1])
      && Legal(Contents(cap, log[..|log| - 1]), log[|log| - 1].event)
  }

  /** No pop of the log met an empty stack. */
  predicate NoEmptyPop(cap: nat, log: seq<Entry>) {
    log != [] ==>
      && NoEmptyPop(cap, log[..|log| - 1])
      && (log[|log| - 1].event.Pop? ==> Contents(cap, log[..|log| - 1]) != [])
  }

  /** The pushes that were not dropped. */
  function Accepted(cap: nat, log: seq<Entry>): seq<char> {
    if log == [] then []
    else
      var before := log[..|log| - 1];
      var e := log[|log| - 1].event;
      Accepted(cap, before) + if e.Push? && |Contents(cap, before)| < cap then [e.c] else []
  }

  /** The results of the pops of a stack that was not empty. */
  function Popped(cap: nat, log: seq<Entry>): seq<char> {
    if log == [] then []
    else
      var before := log[..|log| - 1];
      var e := log[|log| - 1].event;
      Popped(cap, before) + if e.Pop? && Contents(cap, before) != [] then [e.c] else []
  }

  /** The calls of one thread, in order. */
  function OfThread(log: seq<Entry>, t: nat): seq<Event> {
    if log == [] then []
    else
      var x := log[|log| - 1];
      OfThread(log[..|log| - 1], t) + if x.thread == t then [x.event] else []
  }

  /** What one more call does to the contents. */
  lemma LogGrows(cap: nat, log: seq<Entry>, x: Entry)
    ensures Contents(cap, log + [x]) == Apply(cap, Contents(cap, log), x.event)
    ensures LegalLog(cap, log + [x]) <==> LegalLog(cap, log) && Legal(Contents(cap, log), x.event)
    ensures NoEmptyPop(cap, log + [x]) <==>
            NoEmptyPop(cap, log) && (x.event.Pop? ==> Contents(cap, log) != [])
  {
    assert (log + [x])[..|log|] == log;
  }

  /** One more call is the last of its thread and none of the others'. */
  lemma OfThreadGrows(log: seq<Entry>, x: Entry, t: nat)
    ensures OfThread(log + [x], t) == if x.thread == t then OfThread(log, t) + [x.event] else OfThread(log, t)
  {
    assert (log + [x])[..|log|] == log;
    assert OfThread(log, t) + [] == OfThread(log, t);
  }

  /** A call or none is entered for one thread. */
  lemma RecordOfThread(log: seq<Entry>, k: nat, r: seq<Event>, t: nat)
    requires |r| <= 1
    ensures OfThread(log + (if r == [] then [] else [Entry(k, r[0])]), t) == OfThread(log, t) + if t == k then r else []
  {
    if r == [] {
      assert log + [] == log && OfThread(log, t) + [] == OfThread(log, t);
    } else {
      assert r == [r[0]];
      OfThreadGrows(log, Entry(k, r[0]), t);
      assert OfThread(log, t) + [] == OfThread(log, t);
    }
  }

  /** The calls of one thread in two logs, one after the other. */
  lemma {:induction false} OfThreadConcat(log: seq<Entry>, more: seq<Entry>, t: nat)
    ensures OfThread(log + more, t) == OfThread(log, t) + OfThread(more, t)
  {
    if more == [] {
      assert log + more == log;
    } else {
      var m := more[..|more| - 1];
      assert (log + more)[..|log + more| - 1] == log + m;
      OfThreadConcat(log, m, t);
    }
  }

  /** When a log grows, the new calls of a thread are in its new part. */
  lemma LaterCalls(log: seq<Entry>, later: seq<Entry>, t: nat)
    requires log <= later
    ensures OfThread(later, t) == OfThread(log, t) + OfThread(later[|log|..], t)
  {
    OfThreadConcat(log, later[|log|..], t);
    assert later == log + later[|log|..];
  }

  /** The index in the log of call i of thread t. */
  function IndexOf(log: seq<Entry>, t: nat, i: nat): (r: nat)
    requires i < |OfThread(log, t)|
    ensures r < |log| && log[r] == Entry(t, OfThread(log, t)[i]) && |OfThread(log[..r], t)| == i
  {
    var before := log[..|log| - 1];
    if i < |OfThread(before, t)| then
      var r := IndexOf(before, t, i);
      assert log[..r] == before[..r];
      r
    else |before|
  }

  /** What a log holds of a thread is the beginning of what a longer log holds. */
  lemma OfThreadPrefix(log: seq<Entry>, later: seq<Entry>, t: nat)
    requires log <= later
    ensures OfThread(log, t) <= OfThread(later, t)
  {
    LaterCalls(log, later, t);
  }

  lemma OfThreadUpTo(log: seq<Entry>, t: nat, r: nat)
    requires r < |log| && log[r].thread == t
    ensures |OfThread(log[..r + 1], t)| == |OfThread(log[..r], t)| + 1
  {
    assert log[..r + 1] == log[..r] + [log[r]];
    OfThreadGrows(log[..r], log[r], t);
  }

  /** Calls that a log holds stay where they are when it grows, the others come after. */
  lemma PlaceWhenGrown(log: seq<Entry>, later: seq<Entry>, t: nat, i: nat)
    requires log <= later && i < |OfThread(later, t)|
    ensures IndexOf(later, t, i) < |log| <==> i < |OfThread(log, t)|
    ensures i < |OfThread(log, t)| ==> OfThread(log, t)[i] == OfThread(later, t)[i]
  {
    var r := IndexOf(later, t, i);
    OfThreadPrefix(log, later, t);
    if r < |log| {
      OfThreadUpTo(later, t, r);
      OfThreadPrefix(later[..r + 1], log, t);
    } else {
      OfThreadPrefix(log, later[..r], t);
    }
  }

  /** The contents between a push that is accepted and the pop that undoes it: never
      fewer than right after the push. */
  ghost predicate Above(cap: nat, log: seq<Entry>, stretch: seq<Entry>, n: nat) {
    forall i :: 0 <= i <= |stretch| ==> |Contents(cap, log + stretch[..i])| >= n
  }

  lemma CallAbove(cap: nat, s: seq<char>, e: Event, n: nat)
    requires n <= |s| && n <= |Apply(cap, s, e)|
    ensures Apply(cap, s, e)[..n] == s[..n]
  {
  }

  /** While the contents stay above a level, what is below it does not change. */
  lemma {:induction false} BelowUntouched(cap: nat, log: seq<Entry>, stretch: seq<Entry>)
    requires Above(cap, log, stretch, |Contents(cap, log)|)
    ensures |Contents(cap, log + stretch)| >= |Contents(cap, log)|
    ensures Contents(cap, log + stretch)[..|Contents(cap, log)|] == Contents(cap, log)
  {
    if stretch == [] {
      assert log + stretch == log;
    } else {
      var m, x := stretch[..|stretch| - 1], stretch[|stretch| - 1];
      assert forall i :: 0 <= i <= |m| ==> m[..i] == stretch[..i];
      BelowUntouched(cap, log, m);
      assert log + stretch == (log + m) + [x];
      LogGrows(cap, log + m, x);
      assert stretch[..|stretch|] == stretch;
      CallAbove(cap, Contents(cap, log + m), x.event, |Contents(cap, log)|);
    }
  }

  /** Last in, first out: a character accepted by a push is the result of the pop that
      comes when all that was pushed after it is gone again, and that pop leaves the
      stack as it was before the push. */
  lemma LastInFirstOut(
      cap: nat, log: seq<Entry>, j: nat, c: char, stretch: seq<Entry>, k: nat, d: char)
    requires |Contents(cap, log)| < cap
    requires var pushed := log + [Entry(j, Push(c))];
             && Above(cap, pushed, stretch, |Contents(cap, log)| + 1)
             && |Contents(cap, pushed + stretch)| == |Contents(cap, log)| + 1
             && LegalLog(cap, pushed + stretch + [Entry(k, Pop(d))])
    ensures d == c
    ensures Contents(cap, log + [Entry(j, Push(c))] + stretch + [Entry(k, Pop(d))]) == Contents(cap, log)
  {
    var pushed := log + [Entry(j, Push(c))];
    LogGrows(cap, log, Entry(j, Push(c)));
    BelowUntouched(cap, pushed, stretch);
    LogGrows(cap, pushed + stretch, Entry(k, Pop(d)));
    assert Contents(cap, pushed + stretch) == Contents(cap, log) + [c];
  }

  /** In particular a pop right after the push. */
  lemma PopAfterPush(cap: nat, log: seq<Entry>, j: nat, c: char, k: nat, d: char)
    requires |Contents(cap, log)| < cap && LegalLog(cap, log + [Entry(j, Push(c)), Entry(k, Pop(d))])
    ensures d == c
    ensures Contents(cap, log + [Entry(j, Push(c)), Entry(k, Pop(d))]) == Contents(cap, log)
  {
    var pushed := log + [Entry(j, Push(c))];
    LogGrows(cap, log, Entry(j, Push(c)));
    assert pushed + [] == pushed;
    assert pushed + [Entry(k, Pop(d))] == log + [Entry(j, Push(c)), Entry(k, Pop(d))];
    LastInFirstOut(cap, log, j, c, [], k, d);
  }

  /** At the bounds: a push on a full stack changes nothing, and so does a pop of the
      empty one, which returns the character 0. */
  lemma AtTheBounds(cap: nat, log: seq<Entry>, j: nat, c: char)
    ensures |Contents(cap, log)| == cap ==> Contents(cap, log + [Entry(j, Push(c))]) == Contents(cap, log)
    ensures Contents(cap, log) == [] && LegalLog(cap, log + [Entry(j, Pop(c))]) ==>
              c as int == 0 && Contents(cap, log + [Entry(j, Pop(c))]) == []
  {
    LogGrows(cap, log, Entry(j, Push(c)));
    LogGrows(cap, log, Entry(j, Pop(c)));
  }

  /** A call as its caller makes it: the argument of a push, no result of a pop. */
  datatype Call = CallOfPop | CallOfPush(c: char)

  function CallsMade(events: seq<Event>): seq<Call> {
    seq(|events|, i requires 0 <= i < |events| =>
      match events[i] case Push(c) => CallOfPush(c) case Pop(_) => CallOfPop)
  }

  lemma CallsGrow(before: seq<Event>, after: seq<Event>)
    ensures |after| > 0 && after == before + [after[|after| - 1]] ==>
              CallsMade(after) == CallsMade(before) + CallsMade([after[|after| - 1]])
  {
  }

  /** The stack never exceeds its bound. */
  lemma {:induction false} Bounded(cap: nat, log: seq<Entry>)
    ensures |Contents(cap, log)| <= cap
  {
    if log != [] {
      Bounded(cap, log[..|log| - 1]);
    }
  }

  /** One call keeps the balance of characters. */
  lemma BalanceStep(cap: nat, s: seq<char>, e: Event, accepted: seq<char>, popped: seq<char>)
    requires Legal(s, e) && multiset(accepted) == multiset(popped) + multiset(s)
    ensures multiset(accepted + if e.Push? && |s| < cap then [e.c] else [])
         == multiset(popped + if e.Pop? && s != [] then [e.c] else []) + multiset(Apply(cap, s, e))
  {
    if e.Pop? && s != [] {
      assert s == s[..|s| - 1] + [e.c];
      assert multiset(popped + [e.c]) == multiset(popped) + multiset{e.c};
      assert multiset(s) == multiset(s[..|s| - 1]) + multiset{e.c};
      assert accepted + [] == accepted;
    } else {
      assert popped + [] == popped;
      if e.Push? && |s| < cap {
        assert multiset(accepted + [e.c]) == multiset(accepted) + multiset{e.c};
        assert multiset(s + [e.c]) == multiset(s) + multiset{e.c};
      } else {
        assert accepted + [] == accepted;
      }
    }
  }

  /** In a legal log the characters accepted are those popped and those still there. */
  lemma {:induction false} Conservation(cap: nat, log: seq<Entry>)
    requires LegalLog(cap, log)
    ensures multiset(Accepted(cap, log)) == multiset(Popped(cap, log)) + multiset(Contents(cap, log))
  {
    if log != [] {
      var before := log[..|log| - 1];
      Conservation(cap, before);
      BalanceStep(cap, Contents(cap, before), log[|log| - 1].event, Accepted(cap, before), Popped(cap, before));
    }
  }
}
