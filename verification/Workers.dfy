/** internal/engine/engine.go, Run: workers draw entries from one queue and add each result
    to the shared counters, one atomic addition at a time; deletion follows the join. */
module Workers {
  import opened Outcomes

  const NONE := Tally(0, 0, 0, 0, 0)

  function Plus(a: Tally, b: Tally): Tally {
    Tally(a.copied + b.copied, a.wouldCopy + b.wouldCopy, a.skipped + b.skipped, a.failed + b.failed,
          a.handled + b.handled)
  }

  function Total(t: Tally): nat { t.copied + t.wouldCopy + t.skipped + t.failed + t.handled }

  function Sum(ts: seq<Tally>): Tally {
    if ts == [] then NONE else Plus(Sum(ts[..|ts| - 1]), ts[|ts| - 1])
  }

  /** `busy` holds the workers inside transferOne, `pending` what each worker has yet to add,
      `results` (history) the results so far. `stats.handled` is history too: Run counts no
      directories. */
  datatype World = World(queue: nat, busy: set<nat>, pending: seq<Tally>, stats: Tally, results: seq<Tally>,
                         cancelled: bool)

  datatype Event =
    | Take(w: nat)
    | Finish(w: nat, result: Tally)
    | Add(w: nat, part: Tally)
    | Cancel

  predicate Idle(s: World, w: nat) { w < |s.pending| && w !in s.busy && s.pending[w] == NONE }

  /** The part of t that is left after adding some of it. */
  function Less(t: Tally, part: Tally): Tally
    requires Fits(part, t)
  {
    Tally(t.copied - part.copied, t.wouldCopy - part.wouldCopy, t.skipped - part.skipped, t.failed - part.failed,
          t.handled - part.handled)
  }

  predicate Fits(part: Tally, t: Tally) {
    && part.copied <= t.copied && part.wouldCopy <= t.wouldCopy && part.skipped <= t.skipped
    && part.failed <= t.failed && part.handled <= t.handled
  }

  function Next(s: World, e: Event): World {
    match e
    case Cancel => s.(cancelled := true)
    case Take(w) =>
      if !Idle(s, w) || s.queue == 0 then s
      else if s.cancelled then // counted as skipped, without a transfer
        s.(queue := s.queue - 1, pending := s.pending[w := SKIPPED], results := s.results + [SKIPPED])
      else s.(queue := s.queue - 1, busy := s.busy + {w})
    case Finish(w, result) =>
      if w !in s.busy || w >= |s.pending| || !OneOutcome(result) then s
      else s.(busy := s.busy - {w}, pending := s.pending[w := result], results := s.results + [result])
    case Add(w, part) =>
      if w >= |s.pending| || !Fits(part, s.pending[w]) then s
      else s.(pending := s.pending[w := Less(s.pending[w], part)], stats := Plus(s.stats, part))
  }

  function Nones(n: nat): (ts: seq<Tally>)
    ensures |ts| == n && forall i :: 0 <= i < n ==> ts[i] == NONE
  {
    if n == 0 then [] else Nones(n - 1) + [NONE]
  }

  function Start(entries: nat, workers: nat): World {
    World(entries, {}, Nones(workers), NONE, [], false)
  }

  function Run(s: World, events: seq<Event>): World {
    if events == [] then s else Next(Run(s, events[..|events| - 1]), events[|events| - 1])
  }

  /** Every worker has returned: the queue is drained and every addition made. */
  predicate Joined(s: World) {
    s.queue == 0 && forall w :: 0 <= w < |s.pending| ==> Idle(s, w)
  }

  /** The condition under which deleteExtras is called. */
  predicate Deletes(s: World, syncMode: bool, delete: bool, dryRun: bool) {
    Joined(s) && syncMode && delete && !dryRun && !s.cancelled && s.stats.failed == 0
  }

  /** Whatever has been decided is either counted or about to be. */
  ghost predicate Balanced(s: World) { Sum(s.results) == Plus(s.stats, Sum(s.pending)) }

  ghost predicate Shape(s: World, entries: nat) {
    && |s.results| + s.queue + |s.busy| == entries
    && (forall w :: w in s.busy ==> w < |s.pending| && s.pending[w] == NONE)
    && (forall i :: 0 <= i < |s.results| ==> OneOutcome(s.results[i]))
  }

  ghost predicate Inv(s: World, entries: nat) { Balanced(s) && Shape(s, entries) }

  lemma SumNothing()
    ensures Sum([]) == NONE && Total(NONE) == 0
  {}

  lemma SumLast(ts: seq<Tally>)
    requires ts != []
    ensures Sum(ts) == Plus(Sum(ts[..|ts| - 1]), ts[|ts| - 1])
  {}

  lemma PlusLaws(a: Tally, b: Tally, c: Tally)
    ensures Plus(a, NONE) == a && Plus(NONE, a) == a
    ensures Plus(Plus(a, b), c) == Plus(a, Plus(b, c)) && Plus(Plus(a, b), c) == Plus(Plus(a, c), b)
    ensures Plus(a, c) == Plus(b, c) ==> a == b
  {}

  lemma {:induction false} SumSet(ts: seq<Tally>, i: nat, t: Tally)
    requires i < |ts|
    ensures Plus(Sum(ts[i := t]), ts[i]) == Plus(Sum(ts), t)
  {
    hide *;
    var init, last, us := ts[..|ts| - 1], ts[|ts| - 1], ts[i := t];
    SumLast(ts);
    SumLast(us);
    if i == |ts| - 1 {
      assert us[..|us| - 1] == init;
      PlusLaws(Sum(init), t, last);
    } else {
      assert us[..|us| - 1] == init[i := t];
      SumSet(init, i, t);
      PlusLaws(Sum(init[i := t]), last, ts[i]);
      PlusLaws(Sum(init), t, last);
    }
  }

  lemma SumPush(ts: seq<Tally>, t: Tally)
    ensures Sum(ts + [t]) == Plus(Sum(ts), t)
  {
    assert (ts + [t])[..|ts|] == ts;
  }

  lemma {:induction false} SumOfNone(ts: seq<Tally>)
    requires forall i :: 0 <= i < |ts| ==> ts[i] == NONE
    ensures Sum(ts) == NONE
  {
    hide *;
    SumNothing();
    if ts != [] {
      SumLast(ts);
      SumOfNone(ts[..|ts| - 1]);
      PlusLaws(NONE, NONE, NONE);
    }
  }

  /** Deciding a result, and counting part of one, keep the balance. */
  lemma DecideBalanced(s: World, w: nat, t: Tally)
    requires Balanced(s) && w < |s.pending| && s.pending[w] == NONE
    ensures Balanced(s.(pending := s.pending[w := t], results := s.results + [t]))
  {
    hide Sum, Plus;
    SumSet(s.pending, w, t);
    SumPush(s.results, t);
    PlusLaws(Sum(s.pending[w := t]), NONE, NONE);
    PlusLaws(s.stats, Sum(s.pending), t);
  }

  lemma CountBalanced(s: World, w: nat, part: Tally)
    requires Balanced(s) && w < |s.pending| && Fits(part, s.pending[w])
    ensures Balanced(s.(pending := s.pending[w := Less(s.pending[w], part)], stats := Plus(s.stats, part)))
  {
    var before, rest := s.pending[w], Less(s.pending[w], part);
    assert before == Plus(rest, part);
    hide Sum, Plus, Less, Fits;
    var after := Sum(s.pending[w := rest]);
    SumSet(s.pending, w, rest);
    PlusLaws(after, rest, part);
    PlusLaws(Plus(after, part), Sum(s.pending), rest);
    PlusLaws(s.stats, part, after);
    PlusLaws(s.stats, after, part);
  }

  lemma NextShape(s: World, e: Event, entries: nat)
    requires Shape(s, entries)
    ensures Shape(Next(s, e), entries)
  {
    hide Plus, Less, Fits, OneOutcome, Idle;
    match e
    case Cancel =>
    case Take(w) =>
      SkippedIsOutcome();
      if Idle(s, w) { IdleIs(s, w); }
    case Finish(w, result) =>
    case Add(w, part) => LessOfNone(part);
  }

  lemma IdleIs(s: World, w: nat)
    requires Idle(s, w)
    ensures w < |s.pending| && w !in s.busy && s.pending[w] == NONE
  {}

  lemma NextKeepsInv(s: World, e: Event, entries: nat)
    requires Inv(s, entries)
    ensures Inv(Next(s, e), entries)
  {
    NextBalanced(s, e);
    NextShape(s, e, entries);
    hide Next, Balanced, Shape;
  }

  lemma NextBalanced(s: World, e: Event)
    requires Balanced(s) && forall w :: w in s.busy ==> w < |s.pending| && s.pending[w] == NONE
    ensures Balanced(Next(s, e))
  {
    hide Balanced, Plus, Less, Fits, OneOutcome;
    match e
    case Cancel => SameBalance(s, Next(s, e));
    case Take(w) =>
      if Idle(s, w) && s.queue > 0 && s.cancelled {
        DecideBalanced(s, w, SKIPPED);
        SameBalance(s.(pending := s.pending[w := SKIPPED], results := s.results + [SKIPPED]), Next(s, e));
      } else {
        SameBalance(s, Next(s, e));
      }
    case Finish(w, result) =>
      if w in s.busy && w < |s.pending| && OneOutcome(result) {
        DecideBalanced(s, w, result);
        SameBalance(s.(pending := s.pending[w := result], results := s.results + [result]), Next(s, e));
      }
    case Add(w, part) =>
      if w < |s.pending| && Fits(part, s.pending[w]) { CountBalanced(s, w, part); }
  }

  lemma SkippedIsOutcome()
    ensures OneOutcome(SKIPPED)
  {}

  lemma LessOfNone(part: Tally)
    ensures Fits(part, NONE) ==> Less(NONE, part) == NONE
  {}

  lemma SameBalance(s: World, t: World)
    requires Balanced(s) && t.pending == s.pending && t.stats == s.stats && t.results == s.results
    ensures Balanced(t)
  {}

  lemma StartInv(entries: nat, workers: nat)
    ensures Inv(Start(entries, workers), entries)
  {
    var s := Start(entries, workers);
    assert Balanced(s) by { StartBalanced(entries, workers); }
    hide Balanced, OneOutcome, Nones;
  }

  lemma StartBalanced(entries: nat, workers: nat)
    ensures Balanced(Start(entries, workers))
  {
    hide *;
    var s := Start(entries, workers);
    StartIs(entries, workers);
    SumNothing();
    SumOfNone(s.pending);
    PlusLaws(NONE, NONE, NONE);
    BalancedIs(s);
  }

  lemma StartIs(entries: nat, workers: nat)
    ensures var s := Start(entries, workers);
            s.results == [] && s.stats == NONE && forall i :: 0 <= i < |s.pending| ==> s.pending[i] == NONE
  {
    hide Nones;
  }

  lemma BalancedIs(s: World)
    requires Sum(s.results) == Plus(s.stats, Sum(s.pending))
    ensures Balanced(s)
  {}

  lemma {:induction false} RunKeepsInv(entries: nat, workers: nat, events: seq<Event>)
    ensures Inv(Run(Start(entries, workers), events), entries)
  {
    hide Inv, Next, Start;
    if events == [] {
      StartInv(entries, workers);
    } else {
      RunKeepsInv(entries, workers, events[..|events| - 1]);
      NextKeepsInv(Run(Start(entries, workers), events[..|events| - 1]), events[|events| - 1], entries);
    }
  }

  lemma OneMore(a: Tally, t: Tally, n: nat)
    requires OneOutcome(t) && Total(a) == n
    ensures Total(Plus(a, t)) == n + 1
    ensures Plus(a, t).failed == 0 ==> a.failed == 0 && t != FAILED
  {}

  lemma {:induction false} OneEach(ts: seq<Tally>)
    requires forall i :: 0 <= i < |ts| ==> OneOutcome(ts[i])
    ensures Total(Sum(ts)) == |ts|
    ensures Sum(ts).failed == 0 ==> forall i :: 0 <= i < |ts| ==> ts[i] != FAILED
  {
    hide *;
    SumNothing();
    if ts != [] {
      OneEach(ts[..|ts| - 1]);
      SumLast(ts);
      OneMore(Sum(ts[..|ts| - 1]), ts[|ts| - 1], |ts| - 1);
    }
  }

  /** Conservation, over any interleaving of any number of workers: at the join each entry has
      exactly one outcome and the counters add up to the number of entries; and deletion
      starts only from a state in which no entry has failed. */
  lemma Conservation(entries: nat, workers: nat, events: seq<Event>, syncMode: bool, delete: bool, dryRun: bool)
    ensures var s := Run(Start(entries, workers), events);
            && (Joined(s) ==>
                  && |s.results| == entries && s.stats == Sum(s.results)
                  && s.stats.copied + s.stats.wouldCopy + s.stats.skipped + s.stats.failed + s.stats.handled == entries)
            && (Deletes(s, syncMode, delete, dryRun) ==>
                  && |s.results| == entries
                  && forall i :: 0 <= i < |s.results| ==> OneOutcome(s.results[i]) && s.results[i] != FAILED)
  {
    RunKeepsInv(entries, workers, events);
    hide Inv, Run, Start;
    if Joined(Run(Start(entries, workers), events)) { JoinedMeans(Run(Start(entries, workers), events), entries); }
  }

  lemma JoinedMeans(s: World, entries: nat)
    requires Inv(s, entries) && Joined(s)
    ensures |s.results| == entries && s.stats == Sum(s.results) && Total(s.stats) == entries
    ensures forall i :: 0 <= i < |s.results| ==>
        OneOutcome(s.results[i]) && (s.stats.failed == 0 ==> s.results[i] != FAILED)
  {
    hide Sum, Plus, OneOutcome;
    assert forall w :: w in s.busy ==> !Idle(s, w);
    assert s.busy == {};
    forall i | 0 <= i < |s.pending| ensures s.pending[i] == NONE { assert Idle(s, i); }
    SumOfNone(s.pending);
    PlusLaws(s.stats, NONE, NONE);
    OneEach(s.results);
  }

  // ---------------------------------------------------------------- runs that join

  lemma RunNone(s: World)
    ensures Run(s, []) == s
  {}

  lemma RunOne(s: World, events: seq<Event>, e: Event)
    ensures Run(s, events + [e]) == Next(Run(s, events), e)
  {
    hide Next;
    assert (events + [e])[..|events|] == events;
  }

  lemma RunTwo(s: World, events: seq<Event>, e: Event, f: Event)
    ensures Run(s, events + [e, f]) == Next(Next(Run(s, events), e), f)
  {
    hide Run, Next;
    RunOne(s, events, e);
    RunOne(s, events + [e], f);
    assert events + [e] + [f] == events + [e, f];
  }

  lemma RunThree(s: World, events: seq<Event>, e: Event, f: Event, g: Event)
    ensures Run(s, events + [e, f, g]) == Next(Next(Next(Run(s, events), e), f), g)
  {
    hide Run, Next;
    RunTwo(s, events, e, f);
    RunOne(s, events + [e, f], g);
    assert events + [e, f] + [g] == events + [e, f, g];
  }

  /** One worker takes as many entries as there are results, one after the other. */
  function Serially(results: seq<Tally>): seq<Event> {
    if results == [] then []
    else
      var last := results[|results| - 1];
      Serially(results[..|results| - 1]) + [Take(0), Finish(0, last), Add(0, last)]
  }

  /** The queue as it is when that many results are in and nothing is under way. */
  predicate Quiet(s: World, queue: nat, workers: nat, results: seq<Tally>) {
    && s.queue == queue && s.busy == {} && s.results == results && s.stats == Sum(results)
    && |s.pending| == workers && forall w :: 0 <= w < workers ==> s.pending[w] == NONE
  }

  lemma TakenAndCounted(s: World, queue: nat, workers: nat, results: seq<Tally>, t: Tally)
    requires Quiet(s, queue + 1, workers, results) && 0 < workers && OneOutcome(t)
    ensures !s.cancelled ==>
      Quiet(Next(Next(Next(s, Take(0)), Finish(0, t)), Add(0, t)), queue, workers, results + [t])
    ensures s.cancelled ==> Quiet(Next(Next(s, Take(0)), Add(0, SKIPPED)), queue, workers, results + [SKIPPED])
  {
    SumPush(results, t);
    SumPush(results, SKIPPED);
    assert Less(t, t) == NONE && Less(SKIPPED, SKIPPED) == NONE;
    hide Sum, OneOutcome, Less, Plus;
  }

  /** Every list of results is that of some run, and a run with one for each entry joins. */
  lemma {:induction false} SerialRun(results: seq<Tally>, rest: nat, workers: nat)
    requires 0 < workers && forall i :: 0 <= i < |results| ==> OneOutcome(results[i])
    ensures var s := Run(Start(|results| + rest, workers), Serially(results));
            && Quiet(s, rest, workers, results) && !s.cancelled
            && (rest == 0 ==> Joined(s) && s.stats == Sum(results))
            && forall sync, delete, dryRun :: Deletes(s, sync, delete, dryRun) <==>
                 rest == 0 && sync && delete && !dryRun && Sum(results).failed == 0
  {
    hide *;
    var s0 := Start(|results| + rest, workers);
    SeriallyIs(results);
    if results == [] {
      StartIsQuiet(rest, workers);
      RunNone(s0);
      QuietJoins(s0, rest, workers, results);
    } else {
      var init, last := results[..|results| - 1], results[|results| - 1];
      SerialRun(init, rest + 1, workers);
      assert |init| + (rest + 1) == |results| + rest;
      var s := Run(s0, Serially(init));
      RunThree(s0, Serially(init), Take(0), Finish(0, last), Add(0, last));
      TakenAndCounted(s, rest, workers, init, last);
      NotCancelled(s, 0, last);
      assert init + [last] == results;
      QuietJoins(Run(s0, Serially(results)), rest, workers, results);
    }
  }

  lemma SeriallyIs(results: seq<Tally>)
    ensures results == [] ==> Serially(results) == []
    ensures results != [] ==>
      var last := results[|results| - 1];
      Serially(results) == Serially(results[..|results| - 1]) + [Take(0), Finish(0, last), Add(0, last)]
  {}

  lemma StartIsQuiet(queue: nat, workers: nat)
    ensures Quiet(Start(queue, workers), queue, workers, []) && !Start(queue, workers).cancelled
  {
    SumNothing();
    StartFields(queue, workers);
    hide Sum, Start, Next;
  }

  lemma StartFields(queue: nat, workers: nat)
    ensures var s := Start(queue, workers);
            && s.queue == queue && s.busy == {} && s.results == [] && s.stats == NONE && !s.cancelled
            && |s.pending| == workers && forall i :: 0 <= i < workers ==> s.pending[i] == NONE
  {
    hide Nones;
  }

  lemma QuietJoins(s: World, queue: nat, workers: nat, results: seq<Tally>)
    requires Quiet(s, queue, workers, results)
    ensures queue == 0 ==> Joined(s)
    ensures s.stats == Sum(results)
    ensures forall sync, delete, dryRun :: Deletes(s, sync, delete, dryRun) <==>
              queue == 0 && !s.cancelled && sync && delete && !dryRun && s.stats.failed == 0
  {
    hide Sum;
  }

  lemma NotCancelled(s: World, w: nat, t: Tally)
    ensures Next(Next(Next(s, Take(w)), Finish(w, t)), Add(w, t)).cancelled == s.cancelled
    ensures Next(Next(s, Take(w)), Add(w, t)).cancelled == s.cancelled
  {
    hide Less, Plus, OneOutcome, Fits;
  }

  function Skipping(n: nat): seq<Event> { if n == 0 then [] else Skipping(n - 1) + [Take(0), Add(0, SKIPPED)] }

  function Skips(n: nat): seq<Tally> { if n == 0 then [] else Skips(n - 1) + [SKIPPED] }

  /** After a cancellation whatever is still in the queue is counted as skipped. */
  lemma {:induction false} CancelledRun(results: seq<Tally>, rest: nat, n: nat, workers: nat)
    requires 0 < workers && forall i :: 0 <= i < |results| ==> OneOutcome(results[i])
    ensures var s := Run(Start(|results| + rest + n, workers), Serially(results) + [Cancel] + Skipping(n));
            && Quiet(s, rest, workers, results + Skips(n)) && s.cancelled
            && (rest == 0 ==> Joined(s) && s.stats.skipped >= n)
            && forall sync, delete, dryRun :: !Deletes(s, sync, delete, dryRun)
    decreases n
  {
    hide *;
    var s0 := Start(|results| + rest + n, workers);
    var events := Serially(results) + [Cancel];
    SkippingIs(n);
    SkipsCount(results, n);
    if n == 0 {
      SerialRun(results, rest, workers);
      RunOne(s0, Serially(results), Cancel);
      CancelIsQuiet(Run(s0, Serially(results)), rest, workers, results);
      assert events + [] == events && results + [] == results;
    } else {
      CancelledRun(results, rest + 1, n - 1, workers);
      assert |results| + (rest + 1) + (n - 1) == |results| + rest + n;
      var before := events + Skipping(n - 1);
      var s := Run(s0, before);
      assert events + Skipping(n) == before + [Take(0), Add(0, SKIPPED)];
      RunTwo(s0, before, Take(0), Add(0, SKIPPED));
      SkippedIsOutcome();
      TakenAndCounted(s, rest, workers, results + Skips(n - 1), SKIPPED);
      NotCancelled(s, 0, SKIPPED);
      assert results + Skips(n) == results + Skips(n - 1) + [SKIPPED];
    }
    QuietJoins(Run(s0, events + Skipping(n)), rest, workers, results + Skips(n));
  }

  lemma SkippingIs(n: nat)
    ensures n == 0 ==> Skipping(n) == [] && Skips(n) == []
    ensures n > 0 ==> Skipping(n) == Skipping(n - 1) + [Take(0), Add(0, SKIPPED)]
    ensures n > 0 ==> Skips(n) == Skips(n - 1) + [SKIPPED]
  {}

  lemma CancelIsQuiet(s: World, queue: nat, workers: nat, results: seq<Tally>)
    requires Quiet(s, queue, workers, results)
    ensures Quiet(Next(s, Cancel), queue, workers, results) && Next(s, Cancel).cancelled
  {
    hide Sum;
  }

  lemma {:induction false} SkipsCount(results: seq<Tally>, n: nat)
    ensures Sum(results + Skips(n)).skipped >= n
  {
    if n == 0 {
    } else {
      SkipsCount(results, n - 1);
      assert results + Skips(n) == (results + Skips(n - 1)) + [SKIPPED];
      SumPush(results + Skips(n - 1), SKIPPED);
      hide Sum;
    }
  }
}
