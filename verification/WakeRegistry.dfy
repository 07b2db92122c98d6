/** internal/transport/daemon/relay_signal.go: the process-local wake-up registry. Channels
    are closed outside the lock, one at a time. */
module WakeRegistry {

  const MAX_JOB_ID := 256
  const MAX_WAITERS := 64
  const MAX_PENDING := 1024

  type Job = string
  type Channel = nat

  /** relayWaiters and relayPending. */
  datatype Tables = Tables(waiters: map<Job, seq<Channel>>, pending: set<Job>)

  datatype Started = AtOnce | Refused | Queued

  function Norm(job: Job): Job { if job == "" then "default" else job }

  function WaitersOf(t: Tables, job: Job): seq<Channel> { if job in t.waiters then t.waiters[job] else [] }

  /** The locked part of relayWake; the channels it takes are closed afterwards. */
  function WakeStep(t: Tables, job: Job): (Tables, seq<Channel>) {
    if |job| > MAX_JOB_ID then (t, [])
    else if WaitersOf(t, job) == [] then
      (Tables(t.waiters - {job},
              if job in t.pending || |t.pending| < MAX_PENDING then t.pending + {job} else t.pending), [])
    else (Tables(t.waiters - {job}, t.pending - {job}), WaitersOf(t, job))
  }

  /** The first locked part of relayWaitJob; ch is the new channel. */
  function WaitStep(t: Tables, job: Job, ch: Channel): (Tables, Started) {
    if |job| > MAX_JOB_ID then (t, Refused)
    else if job in t.pending then (t.(pending := t.pending - {job}), AtOnce)
    else if |WaitersOf(t, job)| >= MAX_WAITERS then (t, Refused)
    else (t.(waiters := t.waiters[job := WaitersOf(t, job) + [ch]]), Queued)
  }

  function Without(list: seq<Channel>, ch: Channel): seq<Channel> {
    if list == [] then [] else if list[0] == ch then list[1..] else [list[0]] + Without(list[1..], ch)
  }

  /** The deferred clean-up of relayWaitJob. */
  function LeaveStep(t: Tables, job: Job, ch: Channel): Tables {
    var list := Without(WaitersOf(t, job), ch);
    t.(waiters := if list == [] then t.waiters - {job} else t.waiters[job := list])
  }

  class Registry {
    var waiters: map<Job, seq<Channel>>
    var pending: set<Job>
    var closed: set<Channel>

    function View(): Tables
      reads this
    {
      Tables(waiters, pending)
    }

    /** relayWake. Closing a closed channel would panic. */
    method Wake(jobID: Job)
      requires forall ch :: ch in WakeStep(View(), Norm(jobID)).1 ==> ch !in closed
      requires NoRepeats(WakeStep(View(), Norm(jobID)).1)
      modifies this
      ensures View() == WakeStep(old(View()), Norm(jobID)).0
      ensures closed == old(closed) + set ch | ch in WakeStep(old(View()), Norm(jobID)).1
    {
      var job := Norm(jobID);
      if |job| > MAX_JOB_ID { return; }
      var taken := WaitersOf(View(), job);
      waiters := waiters - {job};
      if |taken| == 0 {
        if job in pending || |pending| < MAX_PENDING { pending := pending + {job}; }
        return;
      }
      pending := pending - {job};
      CloseAll(taken);
    }

    method CloseAll(taken: seq<Channel>)
      requires NoRepeats(taken) && forall ch :: ch in taken ==> ch !in closed
      modifies this`closed
      ensures closed == old(closed) + set ch | ch in taken
    {
      for i := 0 to |taken|
        invariant closed == old(closed) + set ch | ch in taken[..i]
      {
        Close(taken[i]);
        assert taken[..i + 1] == taken[..i] + [taken[i]];
      }
      assert taken[..|taken|] == taken;
    }

    method Close(ch: Channel)
      requires ch !in closed // close of closed channel
      modifies this`closed
      ensures closed == old(closed) + {ch}
    {
      closed := closed + {ch};
    }

    method Register(jobID: Job, ch: Channel) returns (r: Started)
      modifies this
      ensures (View(), r) == WaitStep(old(View()), Norm(jobID), ch)
      ensures closed == old(closed)
    {
      var job := Norm(jobID);
      if |job| > MAX_JOB_ID { return Refused; }
      if job in pending {
        pending := pending - {job};
        return AtOnce;
      }
      var list := WaitersOf(View(), job);
      if |list| >= MAX_WAITERS { return Refused; }
      waiters := waiters[job := list + [ch]];
      return Queued;
    }

    method Leave(jobID: Job, ch: Channel)
      modifies this
      ensures View() == LeaveStep(old(View()), Norm(jobID), ch)
      ensures closed == old(closed)
    {
      var job := Norm(jobID);
      var list := WaitersOf(View(), job);
      var i := 0;
      while i < |list| && list[i] != ch
        invariant i <= |list|
        invariant ch !in list[..i]
      {
        i := i + 1;
      }
      WithoutIs(list, ch, i);
      if i < |list| { waiters := waiters[job := list[..i] + list[i + 1..]]; }
      if |WaitersOf(View(), job)| == 0 { waiters := waiters - {job}; }
    }
  }

  predicate NoRepeats(s: seq<Channel>) { forall i, j :: 0 <= i < j < |s| ==> s[i] != s[j] }

  lemma {:induction false} WithoutIs(list: seq<Channel>, ch: Channel, i: nat)
    requires i <= |list| && ch !in list[..i] && (i < |list| ==> list[i] == ch)
    ensures Without(list, ch) == if i < |list| then list[..i] + list[i + 1..] else list
  {
    if i > 0 {
      assert list[..i][0] == list[0] && list[1..][..i - 1] == list[..i][1..];
      WithoutIs(list[1..], ch, i - 1);
    }
  }

  /** A waiter that leaves takes only itself off: the others of its job stay, in order, and so
      does every other job. An empty list leaves no entry. */
  lemma LeaveIs(t: Tables, job: Job, ch: Channel)
    ensures var u := LeaveStep(t, job, ch);
            var list := WaitersOf(t, job);
            && u.pending == t.pending && u.waiters - {job} == t.waiters - {job}
            && (ch !in list ==> WaitersOf(u, job) == list)
            && (forall i :: 0 <= i < |list| && list[i] == ch && ch !in list[..i] ==>
                  WaitersOf(u, job) == list[..i] + list[i + 1..])
            && (job in u.waiters ==> u.waiters[job] != [])
  {
    var list := WaitersOf(t, job);
    hide Without;
    forall i | 0 <= i < |list| && list[i] == ch && ch !in list[..i]
      ensures Without(list, ch) == list[..i] + list[i + 1..]
    {
      WithoutIs(list, ch, i);
    }
    if ch !in list { WithoutIs(list, ch, |list|); }
  }

  /** When a wait returns at once, queues or is refused; it queues behind the others. */
  lemma WaitIs(t: Tables, job: Job, ch: Channel)
    ensures var (u, r) := WaitStep(t, job, ch);
            && (r == AtOnce <==> |job| <= 256 && job in t.pending)
            && (r == Queued <==> |job| <= 256 && job !in t.pending && |WaitersOf(t, job)| < 64)
            && u.waiters - {job} == t.waiters - {job} && u.pending - {job} == t.pending - {job}
            && WaitersOf(u, job) == WaitersOf(t, job) + (if r == Queued then [ch] else [])
            && (job in u.pending <==> job in t.pending && r != AtOnce)
  {}

  // ---------------------------------------------------------------- every interleaving

  /** Where a channel is: with its waiter, in the hands of a wake, or done with. */
  datatype Place = Waiting(job: Job) | Taken(wake: nat) | Done

  /** The tables, the channels that each running wake has yet to close, the closed channels,
      whether a closed channel was closed again, and (history) where each channel is. */
  datatype World = World(t: Tables, closing: map<nat, seq<Channel>>, closed: set<Channel>, panicked: bool,
                         place: map<Channel, Place>)

  datatype Event =
    | Wake(id: nat, job: Job)   // the locked part
    | CloseNext(id: nat)        // one step of the loop after it
    | Start(job: Job, ch: Channel)
    | Leave(job: Job, ch: Channel) // woken, cancelled or timed out

  function Next(w: World, e: Event): World {
    match e
    case Wake(id, job) =>
      if id in w.closing then w // wakes have names of their own
      else
        var (t, taken) := WakeStep(w.t, Norm(job));
        w.(t := t, closing := w.closing[id := taken],
           place := map ch | ch in w.place :: if ch in taken then Taken(id) else w.place[ch])
    case CloseNext(id) =>
      if id !in w.closing || w.closing[id] == [] then w
      else
        var ch := w.closing[id][0];
        w.(closing := w.closing[id := w.closing[id][1..]], closed := w.closed + {ch},
           panicked := w.panicked || ch in w.closed, place := w.place[ch := Done])
    case Start(job, ch) =>
      if ch in w.place then w // a new channel
      else
        var (t, started) := WaitStep(w.t, Norm(job), ch);
        w.(t := t, place := w.place[ch := if started.Queued? then Waiting(Norm(job)) else Done])
    case Leave(job, ch) =>
      w.(t := LeaveStep(w.t, Norm(job), ch),
         place := if ch in WaitersOf(w.t, Norm(job)) then w.place[ch := Done] else w.place)
  }

  const START := World(Tables(map[], {}), map[], {}, false, map[])

  function Run(w: World, events: seq<Event>): World {
    if events == [] then w else Next(Run(w, events[..|events| - 1]), events[|events| - 1])
  }

  ghost predicate WaitersInv(w: World) {
    forall job :: job in w.t.waiters ==>
      && 0 < |w.t.waiters[job]| <= MAX_WAITERS && job !in w.t.pending && NoRepeats(w.t.waiters[job])
      && forall ch :: ch in w.t.waiters[job] ==> ch in w.place && w.place[ch] == Waiting(job)
  }

  ghost predicate ClosingInv(w: World) {
    forall id :: id in w.closing ==>
      && NoRepeats(w.closing[id])
      && forall ch :: ch in w.closing[id] ==> ch in w.place && w.place[ch] == Taken(id)
  }

  ghost predicate Inv(w: World) {
    && WaitersInv(w) && ClosingInv(w)
    && |w.t.pending| <= MAX_PENDING && !w.panicked
    && forall ch :: ch in w.closed ==> ch in w.place && w.place[ch] == Done
  }

  lemma {:induction false} WithoutElements(list: seq<Channel>, ch: Channel)
    requires NoRepeats(list)
    ensures NoRepeats(Without(list, ch)) && |Without(list, ch)| <= |list|
    ensures forall c :: c in Without(list, ch) <==> c in list && c != ch
  {
    if list != [] {
      assert list == [list[0]] + list[1..];
      assert list[0] !in list[1..];
      WithoutElements(list[1..], ch);
    }
  }

  lemma WakeKeepsInv(w: World, id: nat, job: Job)
    requires Inv(w)
    ensures Inv(Next(w, Wake(id, job)))
  {
  }

  lemma CloseKeepsInv(w: World, id: nat)
    requires Inv(w)
    ensures Inv(Next(w, CloseNext(id)))
  {
  }

  lemma StartKeepsInv(w: World, job: Job, ch: Channel)
    requires Inv(w)
    ensures Inv(Next(w, Start(job, ch)))
  {
  }

  lemma LeaveKeepsInv(w: World, job: Job, ch: Channel)
    requires Inv(w)
    ensures Inv(Next(w, Leave(job, ch)))
  {
    hide Norm, Without;
    if Norm(job) in w.t.waiters { WithoutElements(w.t.waiters[Norm(job)], ch); }
    NothingWithout(ch);
  }

  lemma NothingWithout(ch: Channel)
    ensures Without([], ch) == []
  {}

  lemma NextKeepsInv(w: World, e: Event)
    requires Inv(w)
    ensures Inv(Next(w, e))
  {
    hide Inv, Next;
    match e
    case Wake(id, job) => WakeKeepsInv(w, id, job);
    case CloseNext(id) => CloseKeepsInv(w, id);
    case Start(job, ch) => StartKeepsInv(w, job, ch);
    case Leave(job, ch) => LeaveKeepsInv(w, job, ch);
  }

  lemma {:induction false} RunKeepsInv(w: World, events: seq<Event>)
    requires Inv(w)
    ensures Inv(Run(w, events))
  {
    hide Inv, Next;
    if events != [] {
      RunKeepsInv(w, events[..|events| - 1]);
      NextKeepsInv(Run(w, events[..|events| - 1]), events[|events| - 1]);
    }
  }

  /** In every interleaving of wakes, waits, cancellations and timeouts: no job is both
      pending and waited on, the tables stay within their bounds, no channel waits twice, and
      no channel is closed twice although closing happens outside the lock. */
  lemma RegistrySafety(events: seq<Event>)
    ensures var w := Run(START, events);
            && !w.panicked && |w.t.pending| <= MAX_PENDING
            && forall job :: job in w.t.waiters ==>
                 0 < |w.t.waiters[job]| <= MAX_WAITERS && job !in w.t.pending && NoRepeats(w.t.waiters[job])
  {
    assert Inv(START);
    RunKeepsInv(START, events);
    hide Run;
  }

  function Closings(events: seq<Event>, id: nat): nat {
    if events == [] then 0
    else Closings(events[..|events| - 1], id) + if events[|events| - 1] == CloseNext(id) then 1 else 0
  }

  lemma ClosingStep(w: World, e: Event, id: nat, ch: Channel)
    requires id in w.closing
    ensures var z := Next(w, e);
            && id in z.closing
            && |z.closing[id]| ==
               (if e == CloseNext(id) && |w.closing[id]| > 0 then |w.closing[id]| - 1 else |w.closing[id]|)
            && (ch in w.closing[id] ==> ch in z.closing[id] || ch in z.closed)
            && w.closed <= z.closed
  {
    hide WakeStep, WaitStep, LeaveStep, WaitersOf;
  }

  /** Whatever else happens, the channels that a wake has taken stay in its hands until it
      closes them, one per step, and it closes them all. */
  lemma {:induction false} TakenAreClosed(w: World, id: nat, ch: Channel, events: seq<Event>)
    requires id in w.closing && ch in w.closing[id]
    ensures var z := Run(w, events);
            && id in z.closing && w.closed <= z.closed
            && |z.closing[id]| ==
               (if Closings(events, id) >= |w.closing[id]| then 0 else |w.closing[id]| - Closings(events, id))
            && (ch in z.closing[id] || ch in z.closed)
            && (Closings(events, id) >= |w.closing[id]| ==> ch in z.closed)
  {
    if events != [] {
      hide Next;
      TakenAreClosed(w, id, ch, events[..|events| - 1]);
      ClosingStep(Run(w, events[..|events| - 1]), events[|events| - 1], id, ch);
    }
  }

  predicate StartsFor(e: Event, job: Job) { e.Start? && Norm(e.job) == job }

  /** A pending job stays pending until somebody waits for it. */
  lemma {:induction false} PendingStays(w: World, job: Job, events: seq<Event>)
    requires Inv(w) && job in w.t.pending
    requires forall i :: 0 <= i < |events| ==> !StartsFor(events[i], job)
    ensures job in Run(w, events).t.pending
  {
    if events != [] {
      var init := events[..|events| - 1];
      PendingStays(w, job, init);
      RunKeepsInv(w, init);
      PendingStep(Run(w, init), job, events[|events| - 1]);
    }
  }

  lemma PendingStep(w: World, job: Job, e: Event)
    requires Inv(w) && job in w.t.pending && !StartsFor(e, job)
    ensures job in Next(w, e).t.pending
  {
    assert job !in w.t.waiters;
    hide Inv, LeaveStep;
    if e.Leave? { LeaveKeepsPending(w.t, Norm(e.job), e.ch); }
  }

  lemma LeaveKeepsPending(t: Tables, job: Job, ch: Channel)
    ensures LeaveStep(t, job, ch).pending == t.pending
  {
    hide Without;
  }

  /** What a wake of a job with a legal name achieves, in any reachable state and whatever
      happens next. With waiters: each of them has its channel closed once the wake is done.
      Without: the next wait returns at once, unless 1024 other jobs are pending, and then,
      and only then, the wake is lost. */
  lemma WakeDelivers(before: seq<Event>, id: nat, jobID: Job, later: seq<Event>)
    requires |Norm(jobID)| <= MAX_JOB_ID && id !in Run(START, before).closing
    requires forall i :: 0 <= i < |later| ==> !StartsFor(later[i], Norm(jobID))
    ensures var w, job := Run(START, before), Norm(jobID);
            var z := Run(Next(w, Wake(id, jobID)), later);
            if WaitersOf(w.t, job) != [] then
              Closings(later, id) >= |WaitersOf(w.t, job)| ==> forall ch :: ch in WaitersOf(w.t, job) ==> ch in z.closed
            else if job in w.t.pending || |w.t.pending| < MAX_PENDING then
              forall ch :: WaitStep(z.t, job, ch).1 == AtOnce
            else
              Next(w, Wake(id, jobID)).t == w.t && forall ch :: WaitStep(w.t, job, ch).1 != AtOnce
  {
    var w, job := Run(START, before), Norm(jobID);
    assert Inv(START);
    RunKeepsInv(START, before);
    var y := Next(w, Wake(id, jobID));
    NextKeepsInv(w, Wake(id, jobID));
    hide Run, Inv, Norm;
    if WaitersOf(w.t, job) != [] {
      forall ch | ch in WaitersOf(w.t, job) && Closings(later, id) >= |WaitersOf(w.t, job)|
        ensures ch in Run(y, later).closed
      {
        TakenAreClosed(y, id, ch, later);
      }
    } else if job in w.t.pending || |w.t.pending| < MAX_PENDING {
      PendingStays(y, job, later);
    } else {
      NoWaitersNoEntry(w, job);
    }
  }

  lemma {:induction false} RunSplit(w: World, first: seq<Event>, then': seq<Event>)
    ensures Run(w, first + then') == Run(Run(w, first), then')
  {
    hide Next;
    if then' == [] {
      assert first + then' == first;
    } else {
      var init := then'[..|then'| - 1];
      RunSplit(w, first, init);
      assert (first + then')[..|first + then'| - 1] == first + init;
    }
  }

  /** A waiter stays registered until it leaves or a wake of its job comes. */
  lemma {:induction false} WaiterStays(w: World, job: Job, ch: Channel, events: seq<Event>)
    requires ch in WaitersOf(w.t, job) && ch in w.place
    requires forall i :: 0 <= i < |events| ==> !Releases(events[i], job, ch)
    ensures ch in WaitersOf(Run(w, events).t, job) && ch in Run(w, events).place
  {
    if events != [] {
      hide Next, WaitersOf;
      WaiterStays(w, job, ch, events[..|events| - 1]);
      WaiterStep(Run(w, events[..|events| - 1]), job, ch, events[|events| - 1]);
    }
  }

  predicate Releases(e: Event, job: Job, ch: Channel) { (e.Wake? && Norm(e.job) == job) || (e.Leave? && e.ch == ch) }

  lemma WaiterStep(w: World, job: Job, ch: Channel, e: Event)
    requires ch in WaitersOf(w.t, job) && ch in w.place && !Releases(e, job, ch)
    ensures ch in WaitersOf(Next(w, e).t, job) && ch in Next(w, e).place
  {
    hide Norm, Without;
    if e.Leave? { OthersStay(WaitersOf(w.t, Norm(e.job)), e.ch); }
  }

  lemma {:induction false} OthersStay(list: seq<Channel>, ch: Channel)
    ensures forall c :: c in list && c != ch ==> c in Without(list, ch)
  {
    if list != [] {
      assert list == [list[0]] + list[1..];
      OthersStay(list[1..], ch);
    }
  }

  /** Nobody is forgotten: a waiter that has queued and not left has its channel closed by the
      next wake of its job, whatever other waits, wakes and leaves come between. */
  lemma QueuedIsWoken(before: seq<Event>, jobID: Job, ch: Channel, between: seq<Event>, id: nat, later: seq<Event>)
    requires var w, job := Run(START, before), Norm(jobID);
             |job| <= 256 && job !in w.t.pending && |WaitersOf(w.t, job)| < 64 && ch !in w.place
    requires forall i :: 0 <= i < |between| ==> !Releases(between[i], Norm(jobID), ch)
    requires id !in Run(START, before + [Start(jobID, ch)] + between).closing && Closings(later, id) >= 64
    ensures ch in Run(START, before + [Start(jobID, ch)] + between + [Wake(id, jobID)] + later).closed
  {
    var w, job := Run(START, before), Norm(jobID);
    var queued := before + [Start(jobID, ch)];
    assert queued[..|queued| - 1] == before;
    var a := Run(START, queued);
    RunSplit(START, queued, between);
    var b := Run(START, queued + between);
    hide Norm;
    assert ch in WaitersOf(a.t, job) && ch in a.place;
    WaiterStays(a, job, ch, between);
    RunKeepsInv(START, queued + between) by { assert Inv(START); }
    var woken := queued + between + [Wake(id, jobID)];
    assert woken[..|woken| - 1] == queued + between;
    var c := Run(START, woken);
    assert id in c.closing && ch in c.closing[id] && |c.closing[id]| <= 64;
    hide Next, Inv;
    TakenAreClosed(c, id, ch, later);
    RunSplit(START, woken, later);
  }

  lemma NoWaitersNoEntry(w: World, job: Job)
    requires Inv(w) && WaitersOf(w.t, job) == []
    ensures w.t.waiters - {job} == w.t.waiters
  {}

  // ---------------------------------------------------------------- a wake that is lost

  function Name(i: nat): Job
    requires i < 2000
  {
    [(i + 1) as char]
  }

  function Names(n: nat): set<Job>
    requires n < 2000
  {
    if n == 0 then {} else Names(n - 1) + {Name(n - 1)}
  }

  /** Wakes of n different jobs that nobody waits for. */
  function WakesOf(n: nat): seq<Event>
    requires n < 2000
  {
    if n == 0 then [] else WakesOf(n - 1) + [Wake(n - 1, Name(n - 1))]
  }

  lemma {:induction false} NamesIff(n: nat, i: nat)
    requires n < 2000 && i < 2000
    ensures Name(i) in Names(n) <==> i < n
    ensures |Names(n)| == n
  {
    if n > 0 {
      NamesIff(n - 1, i);
      NamesIff(n - 1, n - 1);
      assert Name(i)[0] == Name(n - 1)[0] <==> i == n - 1;
    }
  }

  lemma {:induction false} WakesPend(n: nat)
    requires n <= MAX_PENDING
    ensures var w := Run(START, WakesOf(n));
            w.t == Tables(map[], Names(n)) && forall id :: id in w.closing ==> id < n
  {
    if n > 0 {
      WakesPend(n - 1);
      NamesIff(n - 1, n - 1);
      var events := WakesOf(n);
      assert events[..|events| - 1] == WakesOf(n - 1);
    }
  }

  /** A concrete run that loses a wake: after wakes of 1024 other jobs one more leaves no
      trace, and the next wait for its job queues instead of returning. */
  lemma WakeLost(ch: Channel)
    ensures var w, job := Run(START, WakesOf(MAX_PENDING)), Name(MAX_PENDING);
            && |w.t.pending| == MAX_PENDING && job == Norm(job) && MAX_PENDING !in w.closing
            && Next(w, Wake(MAX_PENDING, job)).t == w.t
            && WaitStep(w.t, job, ch).1 == Queued
  {
    WakesPend(MAX_PENDING);
    NamesIff(MAX_PENDING, MAX_PENDING);
    hide Run, WakesOf, Names;
  }
}
