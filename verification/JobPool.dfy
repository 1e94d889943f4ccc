/** The pool of threads that upper-case files in place (pool and common): the jobs are
    taken under a mutex, and each is done with a reading and a writing cursor. */
module JobPool {
  import opened Wrappers
  import opened Totals
  import opened Runs

  /** toupper in the C locale. */
  function Upper(c: char): char {
    if 'a' <= c <= 'z' then (c as int - 32) as char else c
  }

  function UpperAll(s: seq<char>): (r: seq<char>)
    ensures |r| == |s| && forall i :: 0 <= i < |s| ==> r[i] == Upper(s[i])
  {
    seq(|s|, i requires 0 <= i < |s| => Upper(s[i]))
  }

  const SMALL_LETTERS := "abcdefghijklmnopqrstuvwxyz"
  const CAPITALS := "ABCDEFGHIJKLMNOPQRSTUVWXYZ"

  /** One text is the other with its small letters made capitals: the k-th letter of the
      alphabet becomes the k-th capital, everything else stays, so no small letter is
      left. */
  ghost predicate Capitalised(before: seq<char>, after: seq<char>) {
    && |after| == |before|
    && (forall i :: 0 <= i < |after| ==> !('a' <= after[i] <= 'z'))
    && (forall i :: 0 <= i < |after| && !('a' <= before[i] <= 'z') ==> after[i] == before[i])
    && (forall i, k :: 0 <= i < |after| && 0 <= k < 26 && before[i] == SMALL_LETTERS[k] ==> after[i] == CAPITALS[k])
  }

  lemma LetterUpper(k: nat)
    requires k < 26
    ensures Upper(SMALL_LETTERS[k]) == CAPITALS[k]
  {
    assert SMALL_LETTERS[k] as int == 97 + k && CAPITALS[k] as int == 65 + k;
  }

  lemma UpperAllCapitalised(s: seq<char>)
    ensures Capitalised(s, UpperAll(s))
  {
    forall i, k | 0 <= i < |s| && 0 <= k < 26 && s[i] == SMALL_LETTERS[k] ensures UpperAll(s)[i] == CAPITALS[k] {
      LetterUpper(k);
    }
  }

  lemma UpperTwice(c: char)
    ensures Upper(Upper(c)) == Upper(c)
  {
  }

  lemma UpperAllTwice(s: seq<char>)
    ensures UpperAll(UpperAll(s)) == UpperAll(s)
  {
  }

  // ----- The code of one thread -----

  /** files_jobs: the names on the command line and the first one not taken. */
  class Jobs {
    const values: seq<string>
    var firstUndone: nat

    ghost predicate Valid()
      reads this
    {
      firstUndone <= |values|
    }

    constructor (values: seq<string>)
      ensures Valid() && this.values == values && firstUndone == 0
    {
      this.values, firstUndone := values, 0;
    }

    /** est_vide */
    method IsEmpty() returns (r: bool)
      requires Valid()
      ensures r <==> firstUndone == |values|
    {
      return firstUndone >= |values|;
    }

    method Pop() returns (job: string)
      requires Valid() && firstUndone < |values|
      modifies this
      ensures Valid() && firstUndone == old(firstUndone) + 1
      ensures job == values[old(firstUndone)]
    {
      job := values[firstUndone];
      firstUndone := firstUndone + 1;
    }
  }

  /** unlimitedPOOL on a file that nobody else writes: c is -1 at the end of the file. */
  method UpperCaseInPlace(file: array<char>)
    modifies file
    ensures file[..] == UpperAll(old(file[..])) && Capitalised(old(file[..]), file[..])
  {
    UpperAllCapitalised(file[..]);
    var readAt, writeAt := 0, 0;
    var c: int := 1;
    while c != -1
      invariant 0 <= readAt == writeAt <= file.Length
      invariant c == -1 ==> readAt == file.Length
      invariant forall i :: 0 <= i < writeAt ==> file[i] == Upper(old(file[i]))
      invariant forall i :: writeAt <= i < file.Length ==> file[i] == old(file[i])
      decreases file.Length - readAt, c != -1
    {
      if readAt == file.Length {
        c := -1;
      } else {
        c := file[readAt] as int;
        readAt := readAt + 1;
      }
      if c != -1 {
        file[writeAt] := Upper(c as char);
        writeAt := writeAt + 1;
      }
    }
  }

  /** thread_fun while no other thread works: it takes the jobs that are left in their
      order and leaves each file listed among them, once or more, as the upper case of
      what it was, and all other files alone. */
  method ThreadFun(jobs: Jobs, files: map<string, array<char>>) returns (handled: seq<string>)
    requires jobs.Valid() && forall name :: name in jobs.values ==> name in files
    requires forall a, b :: a in files && b in files && a != b ==> files[a] != files[b]
    modifies jobs, files.Values
    ensures handled == jobs.values[old(jobs.firstUndone)..]
    ensures jobs.Valid() && jobs.firstUndone == |jobs.values|
    ensures forall name :: name in files ==>
              files[name][..] == if name in handled then UpperAll(old(files[name][..])) else old(files[name][..])
    ensures forall name :: name in files && name in handled ==> Capitalised(old(files[name][..]), files[name][..])
  {
    handled := [];
    while true
      invariant jobs.Valid() && old(jobs.firstUndone) <= jobs.firstUndone
      invariant handled == jobs.values[old(jobs.firstUndone)..jobs.firstUndone]
      invariant forall name :: name in files ==>
                  files[name][..] == if name in handled then UpperAll(old(files[name][..])) else old(files[name][..])
      decreases |jobs.values| - jobs.firstUndone
    {
      var empty := jobs.IsEmpty();
      if empty {
        break;
      }
      var target := jobs.Pop();
      UpperAllTwice(old(files[target][..]));
      UpperCaseInPlace(files[target]);
      handled := handled + [target];
    }
    forall name | name in files && name in handled ensures Capitalised(old(files[name][..]), files[name][..]) {
      UpperAllCapitalised(old(files[name][..]));
    }
  }

  // ----- Any number of threads -----

  /** The files and, in the order of the command line, the file of each job; a file may
      be listed more than once. */
  datatype Config = Config(files: seq<seq<char>>, jobs: seq<nat>, threads: nat)

  ghost predicate ValidConfig(c: Config) {
    forall j :: 0 <= j < |c.jobs| ==> c.jobs[j] < |c.files|
  }

  /** Places of thread_fun.  A working thread has read `r` bytes of its file, of which
      the last ones, upper-cased, are in its output buffer. */
  datatype Worker =
    | AtLock | Holding | Popped(job: nat) | Leaving
    | Working(job: nat, r: nat, buffer: seq<char>)
    | Done

  /** `taken` lists the threads that took jobs 0, 1, ... */
  datatype State = State(lock: nat, firstUndone: nat, files: seq<seq<char>>, workers: seq<Worker>, taken: seq<nat>)

  datatype Action = Acquire(t: nat) | Test(t: nat) | Release(t: nat) | Read(t: nat) | Flush(t: nat) | Close(t: nat)

  function Init(c: Config): State {
    State(1, 0, c.files, seq(c.threads, _ => AtLock), [])
  }

  function Put(s: State, t: nat, w: Worker): State
    requires t < |s.workers|
  {
    s.(workers := s.workers[t := w])
  }

  /** One lock operation, one test with the pop it allows, one byte read or written, or
      the end of a file.  A byte written may wait in the buffer as long as it likes. */
  function Step(c: Config, s: State, a: Action): Option<State> {
    if a.t >= |s.workers| then None
    else
      var t := a.t;
      var w := s.workers[t];
      match a
      case Acquire(_) => if w.AtLock? && s.lock > 0 then Some(Put(s.(lock := s.lock - 1), t, Holding)) else None
      case Test(_) =>
        if !w.Holding? then None
        else if s.firstUndone >= |c.jobs| then Some(Put(s, t, Leaving))
        else Some(Put(s.(firstUndone := s.firstUndone + 1, taken := s.taken + [t]), t, Popped(s.firstUndone)))
      case Release(_) =>
        (match w
         case Popped(job) => Some(Put(s.(lock := s.lock + 1), t, Working(job, 0, [])))
         case Leaving => Some(Put(s.(lock := s.lock + 1), t, Done))
         case _ => None)
      case Read(_) =>
        if w.Working? && w.job < |c.jobs| && c.jobs[w.job] < |s.files| && w.r < |s.files[c.jobs[w.job]]| then
          Some(Put(s, t, w.(r := w.r + 1, buffer := w.buffer + [Upper(s.files[c.jobs[w.job]][w.r])])))
        else None
      case Flush(_) =>
        if w.Working? && w.job < |c.jobs| && c.jobs[w.job] < |s.files| && w.buffer != []
           && |w.buffer| <= w.r <= |s.files[c.jobs[w.job]]| then
          var f := c.jobs[w.job];
          Some(Put(s.(files := s.files[f := s.files[f][w.r - |w.buffer| := w.buffer[0]]]), t,
                   w.(buffer := w.buffer[1..])))
        else None
      case Close(_) =>
        if w.Working? && w.job < |c.jobs| && c.jobs[w.job] < |s.files| && w.buffer == []
           && w.r >= |s.files[c.jobs[w.job]]| then
          Some(Put(s, t, AtLock))
        else None
  }

  function Steps(c: Config): (State, Action) -> Option<State> { (s, a) => Step(c, s, a) }

  // ----- The invariant -----

  function Locking(w: Worker): nat { if w.Holding? || w.Popped? || w.Leaving? then 1 else 0 }

  /** Every byte is the original one or its upper case; a file that is no job's is as it
      was. */
  ghost predicate FileOk(c: Config, s: State, f: nat)
    requires f < |c.files| == |s.files|
  {
    && |s.files[f]| == |c.files[f]|
    && (f !in c.jobs ==> s.files[f] == c.files[f])
    && forall i :: 0 <= i < |s.files[f]| ==> s.files[f][i] == c.files[f][i] || s.files[f][i] == Upper(c.files[f][i])
  }

  /** The first n bytes of a file are upper case. */
  ghost predicate UpperUpTo(c: Config, s: State, f: nat, n: nat)
    requires f < |c.files| == |s.files|
  {
    && n <= |s.files[f]| == |c.files[f]|
    && forall i :: 0 <= i < n ==> s.files[f][i] == Upper(c.files[f][i])
  }

  /** A working thread's buffer holds the upper case of the bytes it has read and not
      written, and what lies before is written. */
  ghost predicate WorkerOk(c: Config, s: State, t: nat)
    requires t < |s.workers| && |s.files| == |c.files| && ValidConfig(c)
  {
    match s.workers[t]
    case Popped(j) => j < |s.taken| <= |c.jobs| && s.taken[j] == t
    case Working(j, r, buffer) =>
      && j < |s.taken| <= |c.jobs| && s.taken[j] == t
      && var f := c.jobs[j];
      && |buffer| <= r <= |s.files[f]|
      && UpperUpTo(c, s, f, r - |buffer|)
      && forall i :: 0 <= i < |buffer| ==> buffer[i] == Upper(c.files[f][r - |buffer| + i])
    case _ => true
  }

  /** A job taken is in its taker's hands or its file is done. */
  ghost predicate JobOk(c: Config, s: State, j: nat)
    requires j < |s.taken| <= |c.jobs| && |s.files| == |c.files| && ValidConfig(c)
  {
    && s.taken[j] < |s.workers|
    && var w := s.workers[s.taken[j]];
    || ((w.Popped? || w.Working?) && w.job == j)
    || UpperUpTo(c, s, c.jobs[j], |c.files[c.jobs[j]]|)
  }

  ghost predicate Inv(c: Config, s: State)
    requires ValidConfig(c)
  {
    && |s.files| == |c.files| && |s.workers| == c.threads
    && s.firstUndone == |s.taken| <= |c.jobs|
    && s.lock + Total(s.workers, Locking) == 1
    && (forall t :: 0 <= t < |s.workers| && (s.workers[t].Leaving? || s.workers[t].Done?) ==> |s.taken| == |c.jobs|)
    && (forall f :: 0 <= f < |s.files| ==> FileOk(c, s, f))
    && (forall t :: 0 <= t < |s.workers| ==> WorkerOk(c, s, t))
    && (forall j :: 0 <= j < |s.taken| ==> JobOk(c, s, j))
  }

  lemma InvInit(c: Config)
    requires ValidConfig(c)
    ensures Inv(c, Init(c))
  {
    TotalConstant(Init(c).workers, 0, Locking);
  }

  /** The parts of the invariant about files and jobs, after a step of thread t that
      touches no file and takes no job. */
  lemma FilesKept(c: Config, s: State, u: State, t: nat)
    requires ValidConfig(c) && Inv(c, s) && t < |s.workers|
    requires u.files == s.files && u.taken == s.taken && |u.workers| == |s.workers|
    requires forall v :: 0 <= v < |s.workers| && v != t ==> u.workers[v] == s.workers[v]
    requires WorkerOk(c, u, t)
    requires (s.workers[t].Popped? || s.workers[t].Working?) ==>
               (u.workers[t].Popped? || u.workers[t].Working?) && u.workers[t].job == s.workers[t].job
    ensures forall f :: 0 <= f < |u.files| ==> FileOk(c, u, f)
    ensures forall v :: 0 <= v < |u.workers| ==> WorkerOk(c, u, v)
    ensures forall j :: 0 <= j < |u.taken| ==> JobOk(c, u, j)
  {
    forall f | 0 <= f < |u.files| ensures FileOk(c, u, f) { assert FileOk(c, s, f); }
    forall v | 0 <= v < |u.workers| ensures WorkerOk(c, u, v) {
      if v != t { assert WorkerOk(c, s, v); }
    }
    forall j | 0 <= j < |u.taken| ensures JobOk(c, u, j) { assert JobOk(c, s, j); }
  }

  lemma LockStep(c: Config, s: State, a: Action)
    requires ValidConfig(c) && Inv(c, s) && Step(c, s, a).Some?
    requires a.Acquire? || a.Release?
    ensures Inv(c, Step(c, s, a).value)
  {
    var u := Step(c, s, a).value;
    TotalUpdate(s.workers, a.t, u.workers[a.t], Locking);
    assert WorkerOk(c, s, a.t);
    if s.workers[a.t].Popped? {
      assert FileOk(c, s, c.jobs[s.workers[a.t].job]);
    }
    assert WorkerOk(c, u, a.t);
    FilesKept(c, s, u, a.t);
  }

  /** The next job goes to the thread that tests. */
  lemma TestStep(c: Config, s: State, t: nat)
    requires ValidConfig(c) && Inv(c, s) && Step(c, s, Test(t)).Some?
    ensures Inv(c, Step(c, s, Test(t)).value)
  {
    var u := Step(c, s, Test(t)).value;
    TotalUpdate(s.workers, t, u.workers[t], Locking);
    forall f | 0 <= f < |u.files| ensures FileOk(c, u, f) { assert FileOk(c, s, f); }
    forall v | 0 <= v < |u.workers| ensures WorkerOk(c, u, v) {
      if v != t { assert WorkerOk(c, s, v); }
    }
    forall j | 0 <= j < |u.taken| ensures JobOk(c, u, j) {
      if j < |s.taken| { assert JobOk(c, s, j); }
    }
  }

  lemma ReadStep(c: Config, s: State, t: nat)
    requires ValidConfig(c) && Inv(c, s) && Step(c, s, Read(t)).Some?
    ensures Inv(c, Step(c, s, Read(t)).value)
  {
    var u := Step(c, s, Read(t)).value;
    TotalUpdate(s.workers, t, u.workers[t], Locking);
    assert WorkerOk(c, s, t);
    var f := c.jobs[s.workers[t].job];
    assert FileOk(c, s, f);
    UpperTwice(c.files[f][s.workers[t].r]);
    forall g | 0 <= g < |u.files| ensures FileOk(c, u, g) { assert FileOk(c, s, g); }
    forall v | 0 <= v < |u.workers| ensures WorkerOk(c, u, v) { assert WorkerOk(c, s, v); }
    forall j | 0 <= j < |u.taken| ensures JobOk(c, u, j) { assert JobOk(c, s, j); }
  }

  lemma CloseStep(c: Config, s: State, t: nat)
    requires ValidConfig(c) && Inv(c, s) && Step(c, s, Close(t)).Some?
    ensures Inv(c, Step(c, s, Close(t)).value)
  {
    var u := Step(c, s, Close(t)).value;
    TotalUpdate(s.workers, t, u.workers[t], Locking);
    assert WorkerOk(c, s, t);
    forall g | 0 <= g < |u.files| ensures FileOk(c, u, g) { assert FileOk(c, s, g); }
    forall v | 0 <= v < |u.workers| ensures WorkerOk(c, u, v) { assert WorkerOk(c, s, v); }
    forall j | 0 <= j < |u.taken| ensures JobOk(c, u, j) { assert JobOk(c, s, j); }
  }

  /** A byte written is the upper case of the original one, whoever writes it. */
  lemma FlushStep(c: Config, s: State, t: nat)
    requires ValidConfig(c) && Inv(c, s) && Step(c, s, Flush(t)).Some?
    ensures Inv(c, Step(c, s, Flush(t)).value)
  {
    var u := Step(c, s, Flush(t)).value;
    TotalUpdate(s.workers, t, u.workers[t], Locking);
    assert WorkerOk(c, s, t);
    forall g | 0 <= g < |u.files| ensures FileOk(c, u, g) { assert FileOk(c, s, g); }
    forall v | 0 <= v < |u.workers| ensures WorkerOk(c, u, v) { assert WorkerOk(c, s, v); }
    forall j | 0 <= j < |u.taken| ensures JobOk(c, u, j) { assert JobOk(c, s, j); }
  }

  lemma InvStep(c: Config, s: State, a: Action)
    requires ValidConfig(c) && Inv(c, s) && Step(c, s, a).Some?
    ensures Inv(c, Step(c, s, a).value)
  {
    match a
    case Read(t) => ReadStep(c, s, t);
    case Flush(t) => FlushStep(c, s, t);
    case Close(t) => CloseStep(c, s, t);
    case Test(t) => TestStep(c, s, t);
    case _ => LockStep(c, s, a);
  }

  lemma Reachable(c: Config, s: State)
    requires ValidConfig(c) && Reaches(Steps(c), Init(c), s)
    ensures Inv(c, s)
  {
    InvInit(c);
    forall t, a | Inv(c, t) && Steps(c)(t, a).Some? ensures Inv(c, Steps(c)(t, a).value) {
      InvStep(c, t, a);
    }
    InvariantReaches(Steps(c), t => Inv(c, t), Init(c), s);
  }

  // ----- Theorems -----

  /** The length of a job's file. */
  function Length(c: Config, job: nat): nat {
    if job < |c.jobs| && c.jobs[job] < |c.files| then |c.files[c.jobs[job]]| else 0
  }

  /** Steps a thread has left before it takes its next job or ends. */
  function Rank(c: Config, w: Worker): nat {
    match w
    case AtLock => 3
    case Holding => 2
    case Leaving => 1
    case Done => 0
    case Popped(job) => 2 * Length(c, job) + 5
    case Working(job, r, buffer) =>
      4 + |buffer| + if r <= Length(c, job) then 2 * (Length(c, job) - r) else 0
  }

  function Ranks(c: Config): Worker -> nat { w => Rank(c, w) }

  /** The work of the jobs not taken. */
  function JobsLeft(c: Config, first: nat): nat
    decreases |c.jobs| - first
  {
    if first >= |c.jobs| then 0 else 2 * Length(c, first) + 4 + JobsLeft(c, first + 1)
  }

  function Measure(c: Config, s: State): nat {
    JobsLeft(c, s.firstUndone) + Total(s.workers, Ranks(c))
  }

  lemma MeasureStep(c: Config, s: State, a: Action)
    requires ValidConfig(c) && Inv(c, s) && Step(c, s, a).Some?
    ensures Measure(c, Step(c, s, a).value) < Measure(c, s)
  {
    var u := Step(c, s, a).value;
    assert WorkerOk(c, s, a.t);
    assert s.workers[a.t].Working? ==> FileOk(c, s, c.jobs[s.workers[a.t].job]);
    TotalUpdate(s.workers, a.t, u.workers[a.t], Ranks(c));
  }

  /** A thread that is not done, or the holder of the lock, can take a step. */
  lemma SomeoneCanStep(c: Config, s: State, t: nat) returns (a: Action)
    requires ValidConfig(c) && Inv(c, s) && t < |s.workers| && !s.workers[t].Done?
    ensures Step(c, s, a).Some?
  {
    assert WorkerOk(c, s, t);
    match s.workers[t]
    case AtLock =>
      TotalPositive(s.workers, Locking);
      if s.lock > 0 {
        a := Acquire(t);
      } else {
        var k :| 0 <= k < |s.workers| && Locking(s.workers[k]) > 0;
        a := if s.workers[k].Holding? then Test(k) else Release(k);
      }
    case Holding => a := Test(t);
    case Popped(_) => a := Release(t);
    case Leaving => a := Release(t);
    case Working(j, r, buffer) =>
      a := if r < |s.files[c.jobs[j]]| then Read(t) else if buffer != [] then Flush(t) else Close(t);
  }

  lemma NotStuck(c: Config, s: State, t: nat)
    requires ValidConfig(c) && Inv(c, s) && t < |s.workers| && !s.workers[t].Done?
    ensures !Stuck(Steps(c), s)
  {
    var a := SomeoneCanStep(c, s, t);
    assert Steps(c)(s, a).Some?;
  }

  /** The thread has a job in its hands. */
  predicate Busy(w: Worker) { w.Popped? || w.Working? }

  /** What a step may do to the record of jobs and to the job of thread t: a thread
      gets a job only when it is the next one, and is then recorded as its taker;
      nothing else changes the record, and a thread keeps its job until it ends it. */
  ghost predicate HandOut(s: State, u: State, t: nat)
    requires t < |s.workers| && t < |u.workers|
  {
    var x, y := s.workers[t], u.workers[t];
    if Busy(y) && !Busy(x) then
      y == Popped(|s.taken|) && u.taken == s.taken + [t]
    else
      && (Busy(y) ==> y.job == x.job)
      && (u.taken == s.taken || (|u.taken| == |s.taken| + 1 && s.taken <= u.taken && u.taken[|s.taken|] != t))
  }

  lemma RecordIsFaithful(c: Config, s: State, a: Action, t: nat)
    requires ValidConfig(c) && Reaches(Steps(c), Init(c), s) && Step(c, s, a).Some? && t < |s.workers|
    ensures var u := Step(c, s, a).value;
            && |u.workers| == |s.workers| && s.taken <= u.taken && HandOut(s, u, t)
    ensures Step(c, s, a).value.taken != s.taken ==>
              a.Test? && Step(c, s, a).value.workers[a.t] == Popped(|s.taken|)
  {
    Reachable(c, s);
  }

  /** The record only grows, from any reachable state on. */
  lemma RecordGrows(c: Config, s: State, u: State)
    requires ValidConfig(c) && Reaches(Steps(c), Init(c), s) && Reaches(Steps(c), s, u)
    ensures Reaches(Steps(c), Init(c), u) && s.taken <= u.taken
  {
    var inv := (v: State) => Reaches(Steps(c), Init(c), v) && s.taken <= v.taken;
    forall v, a | inv(v) && Steps(c)(v, a).Some? ensures inv(Steps(c)(v, a).value) {
      ReachesNext(Steps(c), Init(c), v, a);
      Reachable(c, v);
      RecordIsFaithful(c, v, a, a.t);
    }
    InvariantReaches(Steps(c), inv, s, u);
  }

  /** Jobs are handed out in order and job j to one thread in the whole run: a thread
      that has j now and one that has it at any later time are the same. */
  lemma JobTakenOnce(c: Config, s: State, u: State, t: nat, v: nat)
    requires ValidConfig(c) && Reaches(Steps(c), Init(c), s) && Reaches(Steps(c), s, u)
    requires t < |s.workers| && Busy(s.workers[t]) && v < |u.workers| && Busy(u.workers[v])
    ensures s.workers[t].job < s.firstUndone == |s.taken| <= |c.jobs| && s.taken[s.workers[t].job] == t
    ensures s.workers[t].job == u.workers[v].job ==> t == v
  {
    RecordGrows(c, s, u);
    Reachable(c, s);
    Reachable(c, u);
    assert WorkerOk(c, s, t) && WorkerOk(c, u, v);
  }

  /** A job handed out before is never handed out again, not even to its taker. */
  lemma NeverHandedOutAgain(c: Config, s: State, u: State, a: Action, t: nat)
    requires ValidConfig(c) && Reaches(Steps(c), Init(c), s) && Reaches(Steps(c), s, u)
    requires Step(c, u, a).Some? && t < |u.workers| && !Busy(u.workers[t])
    ensures var y := Step(c, u, a).value.workers;
            |y| == |u.workers| && (Busy(y[t]) ==> |s.taken| <= y[t].job == |u.taken|)
  {
    RecordGrows(c, s, u);
    RecordIsFaithful(c, u, a, t);
  }

  /** A job not in its taker's hands is done, whoever else writes the same file. */
  lemma FinishedJobsAreUpper(c: Config, s: State, j: nat)
    requires ValidConfig(c) && Reaches(Steps(c), Init(c), s) && j < |s.taken|
    requires forall t :: 0 <= t < |s.workers| ==>
               !((s.workers[t].Popped? || s.workers[t].Working?) && s.workers[t].job == j)
    ensures j < |c.jobs| && |s.files| == |c.files| && s.files[c.jobs[j]] == UpperAll(c.files[c.jobs[j]])
    ensures Capitalised(c.files[c.jobs[j]], s.files[c.jobs[j]])
  {
    Reachable(c, s);
    assert JobOk(c, s, j);
    UpperAllCapitalised(c.files[c.jobs[j]]);
  }

  /** Every schedule ends, and one that cannot be prolonged has ended every thread;
      with at least one thread every file listed, once or more, is then the byte-wise
      upper case of the original, and the others are untouched. */
  lemma EveryRunEnds(c: Config, acts: seq<Action>)
    requires ValidConfig(c) && Exec(Steps(c), Init(c), acts).Some?
    ensures |acts| <= Measure(c, Init(c))
    ensures var s := Exec(Steps(c), Init(c), acts).value;
            Stuck(Steps(c), s) ==>
              && (forall t :: 0 <= t < |s.workers| ==> s.workers[t].Done?)
              && |s.files| == |c.files|
              && (c.threads > 0 ==>
                    && |s.taken| == |c.jobs|
                    && forall f :: 0 <= f < |s.files| ==>
                         if f in c.jobs then Capitalised(c.files[f], s.files[f]) else s.files[f] == c.files[f])
  {
    InvInit(c);
    forall t, a | Inv(c, t) && Steps(c)(t, a).Some?
      ensures Inv(c, Steps(c)(t, a).value) && Measure(c, Steps(c)(t, a).value) < Measure(c, t)
    {
      InvStep(c, t, a);
      MeasureStep(c, t, a);
    }
    RunsAreBounded(Steps(c), t => Inv(c, t), t => Measure(c, t), Init(c), acts);
    InvariantOnRuns(Steps(c), t => Inv(c, t), Init(c), acts);
    var s := Exec(Steps(c), Init(c), acts).value;
    if Stuck(Steps(c), s) {
      WhenStuck(c, s);
      forall f | 0 <= f < |c.files| ensures Capitalised(c.files[f], UpperAll(c.files[f])) {
        UpperAllCapitalised(c.files[f]);
      }
    }
  }

  lemma WhenStuck(c: Config, s: State)
    requires ValidConfig(c) && Inv(c, s) && Stuck(Steps(c), s)
    ensures forall t :: 0 <= t < |s.workers| ==> s.workers[t].Done?
    ensures c.threads > 0 ==>
              && |s.taken| == |c.jobs|
              && forall f :: 0 <= f < |s.files| ==>
                   s.files[f] == if f in c.jobs then UpperAll(c.files[f]) else c.files[f]
  {
    if t :| 0 <= t < |s.workers| && !s.workers[t].Done? {
      NotStuck(c, s, t);
    }
    if c.threads > 0 {
      assert s.workers[0].Done?;
      forall f | 0 <= f < |s.files|
        ensures s.files[f] == if f in c.jobs then UpperAll(c.files[f]) else c.files[f]
      {
        assert FileOk(c, s, f);
        if j :| 0 <= j < |c.jobs| && c.jobs[j] == f {
          assert JobOk(c, s, j);
        }
      }
    }
  }
}
