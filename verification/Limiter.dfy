/** internal/transfer/limiter.go: a shared token bucket, with floats as reals. */
module Limiter {

  /** The fields of a Limiter; times in seconds. */
  datatype Bucket = Bucket(rate: real, tokens: real, last: real, capacity: real)

  function NewBucket(rate: int, now: real): Bucket {
    if rate <= 0 then Bucket(0.0, 0.0, 0.0, 0.0) else Bucket(rate as real, rate as real, now, rate as real)
  }

  /** What the rate earns in some time. */
  function Earned(rate: real, time: real): real { time * rate }

  function Refilled(b: Bucket, now: real): Bucket {
    if now - b.last > 0.0 then
      var tokens := b.tokens + Earned(b.rate, now - b.last);
      b.(tokens := if tokens > b.capacity then b.capacity else tokens, last := now)
    else b
  }

  /** One turn of the loop in Wait, under the lock: the new bucket and the bytes taken; none
      means that the caller sleeps. */
  function Turn(b: Bucket, remaining: real, now: real): (Bucket, real) {
    var r := Refilled(b, now);
    if r.tokens <= 0.0 then (r, 0.0)
    else
      var take := if remaining > r.tokens then r.tokens else remaining;
      (r.(tokens := r.tokens - take), take)
  }

  predicate Valid(b: Bucket) { 0.0 <= b.tokens <= b.capacity && 0.0 <= b.rate }

  /** Since `start`, granted bytes and tokens left are covered by the tokens there were and
      by what the clock has earned. */
  predicate Within(start: Bucket, b: Bucket, granted: real) {
    && start.last <= b.last && 0.0 <= granted && b.rate == start.rate && b.capacity == start.capacity
    && granted + b.tokens <= start.tokens + Earned(b.rate, b.last - start.last)
  }

  /** However long nobody takes a token, none of these readings finds the bucket overflowing. */
  ghost predicate Unfilled(b: Bucket, readings: seq<real>) {
    forall i :: 0 <= i < |readings| ==> b.tokens + b.rate * (readings[i] - b.last) <= b.capacity
  }

  /** What has been granted and what is left are exactly what there was and what the clock has
      earned since. */
  predicate Balanced(start: Bucket, b: Bucket, granted: real) {
    && b.rate == start.rate && b.capacity == start.capacity && 0.0 <= granted
    && granted + b.tokens == start.tokens + b.rate * (b.last - start.last)
  }

  lemma BalancedStart(b: Bucket)
    ensures Balanced(b, b, 0.0)
  {}

  lemma TurnBalanced(start: Bucket, b: Bucket, granted: real, remaining: real, readings: seq<real>, i: nat)
    requires Valid(b) && 0.0 < remaining && i < |readings|
    requires Unfilled(start, readings) && Balanced(start, b, granted)
    ensures var (c, take) := Turn(b, remaining, readings[i]);
            Balanced(start, c, granted + take)
  {
    TurnExact(b, remaining, readings[i]);
    var now := readings[i];
    assert start.rate * (b.last - start.last) + start.rate * (now - b.last) == start.rate * (now - start.last);
    hide Turn;
  }

  lemma WithinStart(b: Bucket)
    ensures Within(b, b, 0.0)
  {}

  class SharedLimiter {
    const rate: real
    const capacity: real
    var tokens: real
    var last: real

    function View(): Bucket
      reads this
    {
      Bucket(rate, tokens, last, capacity)
    }

    constructor (bytesPerSecond: int, now: real)
      ensures View() == NewBucket(bytesPerSecond, now) && Valid(View())
    {
      if bytesPerSecond <= 0 {
        rate, tokens, last, capacity := 0.0, 0.0, 0.0, 0.0;
      } else {
        rate, tokens, last, capacity := bytesPerSecond as real, bytesPerSecond as real, now, bytesPerSecond as real;
      }
    }

    method TakeTurn(remaining: real, now: real) returns (take: real)
      modifies this`tokens, this`last
      ensures (View(), take) == Turn(old(View()), remaining, now)
    {
      hide Earned;
      var elapsed := now - last;
      if elapsed > 0.0 {
        tokens := tokens + Earned(rate, elapsed);
        if tokens > capacity { tokens := capacity; }
        last := now;
      }
      if tokens <= 0.0 { return 0.0; }
      take := remaining;
      if take > tokens { take := tokens; }
      tokens := tokens - take;
    }

    /** Turns that other callers take under the lock; `all` is what they are granted. */
    method OthersTurns() returns (ghost all: real)
      requires Valid(View())
      modifies this`tokens, this`last
      ensures Valid(View()) && Within(old(View()), View(), all)
    {
      var any: seq<Call> := *;
      var calls := seq(|any|, i requires 0 <= i < |any| =>
                         if any[i].remaining < 0.0 then Call(0.0, any[i].now) else any[i]);
      hide Run, Within, Valid;
      BucketBound(View(), calls);
      var (c, taken) := Run(View(), calls);
      WithinKeeps(View(), c, taken);
      all := taken;
      tokens, last := c.tokens, c.last;
    }

    /** Wait when the clock reads as given at its turns, with any turns of others between them
        unless it is alone; running out of readings stands for a cancelled context. `all` is
        what everybody has been granted meanwhile. A caller that goes on waiting has left no
        token behind; alone it gets all that the clock has earned, up to the capacity. */
    method Wait(n: int, readings: seq<real>, alone: bool) returns (done: bool, ghost granted: real, ghost all: real)
      requires Valid(View())
      modifies this`tokens, this`last
      ensures Valid(View())
      ensures rate > 0.0 && n > 0 ==> (done <==> granted == n as real) && 0.0 <= granted <= n as real
      ensures rate <= 0.0 || n <= 0 ==> done && granted == 0.0 && View() == old(View())
      ensures granted <= all && Within(old(View()), View(), all)
      ensures !done && readings != [] ==> tokens == 0.0
      ensures alone && Unfilled(old(View()), readings) ==> Balanced(old(View()), View(), granted)
    {
      hide Within, Valid, Turn, Unfilled, Balanced;
      ghost var start := View();
      WithinStart(start);
      BalancedStart(start);
      done, granted, all := true, 0.0, 0.0;
      if rate <= 0.0 || n <= 0 { return; }
      var remaining := n as real;
      var i := 0;
      while remaining > 0.0
        invariant i <= |readings| && Valid(View())
        invariant 0.0 <= remaining && granted + remaining == n as real && 0.0 <= granted <= all
        invariant Within(start, View(), all)
        invariant i > 0 && remaining > 0.0 ==> tokens == 0.0
        invariant alone && Unfilled(start, readings) ==> Balanced(start, View(), granted)
        decreases |readings| - i
      {
        if i == |readings| { return false, granted, all; }
        ghost var before := View();
        ghost var theirs := 0.0;
        if alone { WithinStart(before); } else { theirs := OthersTurns(); }
        WithinTwice(start, before, View(), all, theirs);
        all := all + theirs;
        TurnWithin(start, View(), all, remaining, readings[i]);
        TurnExact(View(), remaining, readings[i]);
        if alone && Unfilled(start, readings) { TurnBalanced(start, View(), granted, remaining, readings, i); }
        var take := TakeTurn(remaining, readings[i]);
        remaining, granted, all := remaining - take, granted + take, all + take;
        i := i + 1;
      }
    }
  }

  lemma WithinKeeps(a: Bucket, b: Bucket, granted: real)
    requires Within(a, b, granted)
    ensures b.rate == a.rate && b.capacity == a.capacity && 0.0 <= granted
  {}

  lemma WithinTwice(a: Bucket, b: Bucket, c: Bucket, g: real, h: real)
    requires Within(a, b, g) && Within(b, c, h)
    ensures Within(a, c, g + h) && 0.0 <= h
  {
    EarnedAdds(a.rate, b.last - a.last, c.last - b.last);
    assert b.last - a.last + (c.last - b.last) == c.last - a.last;
    hide Earned;
  }

  lemma EarnedAdds(rate: real, a: real, b: real)
    ensures Earned(rate, a) + Earned(rate, b) == Earned(rate, a + b)
    ensures 0.0 <= rate && 0.0 <= a ==> 0.0 <= Earned(rate, a)
  {}

  /** One turn keeps the bucket valid and grants no more than the clock has earned. */
  lemma TurnWithin(start: Bucket, b: Bucket, granted: real, remaining: real, now: real)
    requires Valid(b) && 0.0 <= remaining && Within(start, b, granted)
    ensures var (c, take) := Turn(b, remaining, now);
            && Valid(c) && Within(start, c, granted + take)
            && 0.0 <= take <= remaining
            && (c.last == b.last || c.last == now)
  {
    EarnedAdds(b.rate, b.last - start.last, now - b.last);
    assert b.last - start.last + (now - b.last) == now - start.last;
    hide Earned;
    if now > b.last { EarnedAdds(b.rate, now - b.last, 0.0); }
  }

  /** A turn taken by some caller: what it still wants, and what the clock reads. */
  datatype Call = Call(remaining: real, now: real)

  /** Turns of any number of callers in the order of the lock: the bucket, and the bytes
      granted to all of them. */
  function Run(b: Bucket, calls: seq<Call>): (Bucket, real) {
    if calls == [] then (b, 0.0)
    else
      var (c, granted) := Run(b, calls[..|calls| - 1]);
      var (d, take) := Turn(c, calls[|calls| - 1].remaining, calls[|calls| - 1].now);
      (d, granted + take)
  }

  /** The token bucket bound. From any valid moment on, over any interleaving of turns and any
      clock readings, even backwards ones: tokens stay within the capacity, and what is
      granted plus what is left is at most what was there plus rate times the time by which
      the clock has advanced. */
  lemma {:induction false} BucketBound(b: Bucket, calls: seq<Call>)
    requires Valid(b) && forall i :: 0 <= i < |calls| ==> 0.0 <= calls[i].remaining
    ensures var (c, granted) := Run(b, calls);
            && Valid(c) && Within(b, c, granted)
            && (c.last == b.last || exists i :: 0 <= i < |calls| && calls[i].now == c.last)
  {
    hide Turn, Within, Valid;
    if calls == [] {
      WithinStart(b);
    } else {
      var init, call := calls[..|calls| - 1], calls[|calls| - 1];
      BucketBound(b, init);
      var (c, granted) := Run(b, init);
      TurnWithin(b, c, granted, call.remaining, call.now);
      if c.last != b.last {
        var i :| 0 <= i < |init| && init[i].now == c.last;
        assert calls[i].now == c.last;
      }
    }
  }

  /** In particular no window of a fresh limiter's life grants more than one second's burst
      plus rate times its length on the clock. */
  lemma WindowBound(rate: int, start: real, before: seq<Call>, window: seq<Call>)
    requires 0 < rate
    requires forall i :: 0 <= i < |before| ==> 0.0 <= before[i].remaining
    requires forall i :: 0 <= i < |window| ==> 0.0 <= window[i].remaining
    ensures var b := Run(NewBucket(rate, start), before).0;
            var (c, granted) := Run(b, window);
            granted <= rate as real + Earned(rate as real, c.last - b.last)
  {
    var start' := NewBucket(rate, start);
    var b := Run(start', before).0;
    assert Valid(start');
    hide Run, Earned;
    BucketBound(start', before);
    BucketBound(b, window);
  }

  /** What one turn grants: the tokens there, with what the clock has earned since and up to
      the capacity, as far as they are wanted; the rest stays. */
  lemma TurnExact(b: Bucket, remaining: real, now: real)
    requires Valid(b) && 0.0 < remaining
    ensures var (c, take) := Turn(b, remaining, now);
            var earned := if now <= b.last then 0.0 else b.rate * (now - b.last);
            && take + c.tokens == (if b.tokens + earned <= b.capacity then b.tokens + earned else b.capacity)
            && 0.0 <= take <= remaining && 0.0 <= c.tokens && (take < remaining ==> c.tokens == 0.0)
            && c.last == (if now <= b.last then b.last else now) && c.rate == b.rate && c.capacity == b.capacity
  {
    if now > b.last { EarnedAdds(b.rate, now - b.last, 0.0); }
  }

  /** A fresh limiter grants a full second's burst at once, and not more. */
  lemma FreshBurst(rate: int, start: real, n: real, now: real)
    requires 0 < rate && 0.0 < n && start <= now
    ensures Turn(NewBucket(rate, start), n, now).1 == if n <= rate as real then n else rate as real
  {
    EarnedAdds(rate as real, now - start, 0.0);
    hide Earned;
  }

  /** The turns of a run add up, one after the other. */
  lemma {:induction false} RunAdds(b: Bucket, first: seq<Call>, then': seq<Call>)
    ensures var (c, granted) := Run(b, first);
            var (d, more) := Run(c, then');
            Run(b, first + then') == (d, granted + more)
    ensures |then'| == 1 ==> Run(b, then') == Turn(b, then'[0].remaining, then'[0].now)
  {
    hide Turn;
    if then' == [] {
      assert first + then' == first;
    } else {
      var init := then'[..|then'| - 1];
      RunAdds(b, first, init);
      assert (first + then')[..|first + then'| - 1] == first + init;
      assert |then'| == 1 ==> then'[..0] == [];
    }
  }
}
