/** The rate limiter used by one caller at a time: its methods, what they compute, why `try_wait_n`
    terminates, what its refusals mean, and the rate it enforces over any window. */
module RateLimiter {
  import opened Prelude
  import opened TokenBucket
  import Steps = RateLimiterSteps

  datatype Bucket = Bucket(available: Word, dropped: Word, refillAt: nat)

  datatype BuildError = MaxTokensTooLow | RefillIntervalTooLong

  datatype Outcome = Granted | Refused(delay: nat)

  /** A refill attempted at `time`. */
  function Refilling(p: Params, b: Bucket, time: nat): (r: (Bucket, Refill))
    requires p.interval > 0
    ensures r.1.Refilled? <==> b.refillAt <= time
    ensures time < r.0.refillAt
    ensures r.1.NotDue? ==> r.0 == b && r.1.delay == b.refillAt - time
  {
    if time < b.refillAt then (b, NotDue(b.refillAt - time)) else
      var k := Elapsed(p, b.refillAt, time);
      var due := Wrap(Tokens(p, k));
      var add := ToAdd(p, b.available, due);
      (Bucket(Wrap(b.available + add), Wrap(b.dropped + Wrap(due - add)), b.refillAt + k * p.interval), Refilled)
  }

  /** The tokens of one claim, made `span` after it fell due, fit in 64 bits beside what is available and beside a full
      bucket. */
  ghost predicate Claimable(p: Params, available: nat, span: int)
    requires p.interval > 0
  {
    span >= 0 ==> Tokens(p, span / p.interval + 1) + p.capacity < U64 && Tokens(p, span / p.interval + 1) + available < U64
  }

  lemma ClaimableWithin(p: Params, available: nat, span: int, longer: int)
    requires p.interval > 0 && available <= p.capacity && span <= longer && Claimable(p, p.capacity, longer)
    ensures Claimable(p, available, span)
  {
    if span >= 0 {
      QuotientMono(span, longer, p.interval);
      MulMono(p.amount, span / p.interval + 1, longer / p.interval + 1);
    }
  }

  /** The next reading of the clock is not too long after this one. */
  ghost predicate Gap(p: Params, clock: nat -> nat, i: nat)
    requires p.interval > 0
  {
    Claimable(p, p.capacity, clock(i + 1) - clock(i))
  }

  /** Successive readings of the clock from `i` on, the first not too long after a refill fell due. */
  ghost predicate InRange(p: Params, b: Bucket, clock: nat -> nat, i: nat)
    requires p.interval > 0
  {
    Claimable(p, b.available, clock(i) - b.refillAt) && forall j: nat :: i <= j ==> Gap(p, clock, j)
  }

  /** A refill adds the tokens of the intervals it claims, up to capacity; it takes out what is above. */
  lemma RefillAdds(p: Params, b: Bucket, time: nat) returns (k: nat)
    requires WellFormed(p) && Claimable(p, b.available, time - b.refillAt)
    ensures var b' := Refilling(p, b, time).0;
      && b'.available == (if k == 0 then b.available else Min(b.available + Tokens(p, k), p.capacity))
      && b'.dropped == Wrap(b.dropped + (b.available + Tokens(p, k) - b'.available))
      && b'.refillAt == b.refillAt + k * p.interval && (k > 0 <==> b.refillAt <= time)
      && (k > 0 ==> b'.refillAt <= time + p.interval)
  {
    k := if b.refillAt <= time then Elapsed(p, b.refillAt, time) else 0;
  }

  /** What `try_wait_n(n)` leaves behind, what it answers, and its last clock reading. */
  datatype Waited = Waited(bucket: Bucket, outcome: Outcome, last: nat)

  ghost function Missing(n: nat, b: Bucket): nat {
    if b.available < n then n - b.available else 0
  }

  lemma RepeatAdds(p: Params, b: Bucket, n: nat, clock: nat -> nat, i: nat)
    requires WellFormed(p) && InRange(p, b, clock, i) && p.amount > 0 && n <= p.capacity
    ensures var (b', refill) := Refilling(p, b, clock(i));
      && (refill.Refilled? ==> InRange(p, b', clock, i + 1)) && b.refillAt <= b'.refillAt
      && Min(b.available, p.capacity) <= b'.available && (b.available <= p.capacity ==> b'.available <= p.capacity)
      && (b'.available < n && refill.Refilled? ==> Missing(n, b') < Missing(n, b))
  {
    var k := RefillAdds(p, b, clock(i));
    var b' := Refilling(p, b, clock(i)).0;
    if k > 0 {
      MulMono(p.amount, 1, k);
      assert Gap(p, clock, i);
      ClaimableWithin(p, b'.available, clock(i + 1) - b'.refillAt, clock(i + 1) - clock(i));
    }
  }

  /** The passes of `try_wait_n` from clock reading `i` on. A pass that is repeated has added at least one token:
      this is where a positive refill amount is needed. */
  ghost function Wait(p: Params, b: Bucket, n: nat, clock: nat -> nat, i: nat): Waited
    requires WellFormed(p) && InRange(p, b, clock, i) && p.amount > 0 && n <= p.capacity
    decreases Missing(n, b)
  {
    RepeatAdds(p, b, n, clock, i);
    var (b', refill) := Refilling(p, b, clock(i));
    if b'.available >= n then Waited(b'.(available := b'.available - n), Granted, i)
    else if refill.NotDue? then Waited(b', Refused(refill.delay), i)
    else Wait(p, b', n, clock, i + 1)
  }

  /** All or none: a grant takes exactly n tokens out of a bucket that held them; a refusal takes none, and its delay
      is exact: no refill succeeds before it has passed, and one does when it has. */
  lemma {:induction false} WaitMeaning(p: Params, b: Bucket, n: nat, clock: nat -> nat, i: nat)
    requires WellFormed(p) && InRange(p, b, clock, i) && p.amount > 0 && 0 < n <= p.capacity
    ensures var w := Wait(p, b, n, clock, i);
      && w.last >= i && (b.available <= p.capacity ==> w.bucket.available <= p.capacity) && b.refillAt <= w.bucket.refillAt
      && w.bucket.available + (if w.outcome.Granted? then n else 0) >= Min(b.available, p.capacity)
      && (w.outcome.Refused? ==>
          && w.bucket.available < n && w.outcome.delay > 0
          && forall t :: Refilling(p, w.bucket, t).1.Refilled? <==> clock(w.last) + w.outcome.delay <= t)
    decreases Missing(n, b)
  {
    hide InRange, Refilling;
    RepeatAdds(p, b, n, clock, i);
    var (b', refill) := Refilling(p, b, clock(i));
    if b'.available < n && refill.Refilled? {
      WaitMeaning(p, b', n, clock, i + 1);
    }
  }

  /** From `b` to `b'` with `k` intervals claimed and `granted` tokens granted, all other tokens are left or dropped. */
  ghost predicate Conserves(p: Params, b: Bucket, b': Bucket, granted: nat, k: nat) {
    var lost := b.available + Tokens(p, k) - b'.available - granted;
    lost >= 0 && b'.dropped == Wrap(b.dropped + lost) && b'.refillAt == b.refillAt + k * p.interval
  }

  lemma ConservesThen(p: Params, b: Bucket, b1: Bucket, b2: Bucket, granted: nat, k: nat, more: nat)
    requires Conserves(p, b, b1, 0, k) && Conserves(p, b1, b2, granted, more)
    ensures Conserves(p, b, b2, granted, k + more)
  {
    WrapTwice(b.dropped, b.available + Tokens(p, k) - b1.available, b1.available + Tokens(p, more) - b2.available - granted);
    hide Wrap, Carry;
    MulSum(p.interval, k, more);
    MulSum(p.amount, k, more);
  }

  /** A call conserves tokens: what was there and what the intervals it claims bring is left, granted or dropped. */
  lemma {:induction false} WaitConserves(p: Params, b: Bucket, n: nat, clock: nat -> nat, i: nat) returns (k: nat)
    requires WellFormed(p) && InRange(p, b, clock, i) && p.amount > 0 && n <= p.capacity
    ensures var w := Wait(p, b, n, clock, i);
      Conserves(p, b, w.bucket, if w.outcome.Granted? then n else 0, k)
    decreases Missing(n, b)
  {
    hide Refilling, Wrap;
    RepeatAdds(p, b, n, clock, i);
    k := RefillAdds(p, b, clock(i));
    var (b', refill) := Refilling(p, b, clock(i));
    if b'.available < n && refill.Refilled? {
      var w := Wait(p, b', n, clock, i + 1);
      var more := WaitConserves(p, b', n, clock, i + 1);
      ConservesThen(p, b, b', w.bucket, if w.outcome.Granted? then n else 0, k, more);
      k := k + more;
    }
  }

  // Whether `try_wait_n` returns.

  /** The bucket after `k` passes from clock reading `i` on. */
  ghost function Passes(p: Params, b: Bucket, clock: nat -> nat, i: nat, k: nat): Bucket
    requires p.interval > 0
    decreases k
  {
    if k == 0 then b else Passes(p, Refilling(p, b, clock(i)).0, clock, i + 1, k - 1)
  }

  /** The pass after `k` others is one that `try_wait_n` repeats: it refilled, and still leaves too little. */
  ghost predicate Repeats(p: Params, b: Bucket, n: nat, clock: nat -> nat, i: nat, k: nat)
    requires p.interval > 0
  {
    var (b', refill) := Refilling(p, Passes(p, b, clock, i, k), clock(i + k));
    refill.Refilled? && b'.available < n
  }

  /** `Wait` stops at the first pass that is not repeated, with the bucket and the answer of that pass, and repeats no
      more passes than tokens were missing. */
  lemma {:induction false} WaitStopsFirst(p: Params, b: Bucket, n: nat, clock: nat -> nat, i: nat)
    requires WellFormed(p) && InRange(p, b, clock, i) && p.amount > 0 && n <= p.capacity
    ensures var w := Wait(p, b, n, clock, i);
      && i <= w.last <= i + Missing(n, b) && !Repeats(p, b, n, clock, i, w.last - i)
      && (forall j :: 0 <= j < w.last - i ==> Repeats(p, b, n, clock, i, j))
      && var (b', refill) := Refilling(p, Passes(p, b, clock, i, w.last - i), clock(w.last));
         if b'.available >= n then w.outcome.Granted? && w.bucket == b'.(available := b'.available - n)
         else refill.NotDue? && w.outcome == Refused(refill.delay) && w.bucket == b'
    decreases Missing(n, b)
  {
    hide InRange, Refilling;
    RepeatAdds(p, b, n, clock, i);
    var (b', refill) := Refilling(p, b, clock(i));
    if b'.available < n && refill.Refilled? {
      WaitStopsFirst(p, b', n, clock, i + 1);
      var last := Wait(p, b, n, clock, i).last;
      forall j | 0 <= j < last - i ensures Repeats(p, b, n, clock, i, j) {
        if j > 0 { assert Repeats(p, b', n, clock, i + 1, j - 1); }
      }
    }
  }

  /** A clock that moves on by an interval between readings. */
  ghost predicate Paced(p: Params, clock: nat -> nat) {
    forall j: nat :: clock(j + 1) == clock(j) + p.interval
  }

  /** A refill of nothing, at the time it falls due. */
  lemma EmptyRefill(p: Params, b: Bucket)
    requires WellFormed(p) && p.amount == 0 && b.available < p.capacity
    ensures Refilling(p, b, b.refillAt) == (b.(refillAt := b.refillAt + p.interval), Refilled)
  {
    ElapsedOne(p, b.refillAt);
  }

  lemma {:induction false} ZeroAmountPasses(p: Params, b: Bucket, clock: nat -> nat, i: nat, k: nat)
    requires WellFormed(p) && p.amount == 0 && b.available < p.capacity
    requires clock(i) == b.refillAt && Paced(p, clock)
    ensures Passes(p, b, clock, i, k) == b.(refillAt := clock(i + k))
    decreases k
  {
    if k > 0 {
      EmptyRefill(p, b);
      assert clock(i + 1) == clock(i) + p.interval;
      hide Refilling, Paced, WellFormed;
      ZeroAmountPasses(p, b.(refillAt := clock(i + 1)), clock, i + 1, k - 1);
    }
  }

  /** With a refill amount of zero, which the builder accepts, such a clock makes every pass claim and none add, so that
      all are repeated. */
  lemma ZeroAmountRepeats(p: Params, b: Bucket, n: nat, clock: nat -> nat, i: nat, k: nat)
    requires WellFormed(p) && p.amount == 0 && b.available < n <= p.capacity
    requires clock(i) == b.refillAt && Paced(p, clock)
    ensures Passes(p, b, clock, i, k).available == b.available && Repeats(p, b, n, clock, i, k)
  {
    hide Refilling, Paced, Passes;
    ZeroAmountPasses(p, b, clock, i, k);
    EmptyRefill(p, b.(refillAt := clock(i + k)));
  }

  ghost predicate Monotone(clock: nat -> nat) {
    forall i, j :: i <= j ==> clock(i) <= clock(j)
  }

  /** A call of `try_wait_n` with these clock readings comes to a pass it does not repeat, after at most as many as tokens
      are missing. */
  ghost predicate Returns(p: Params, b: Bucket, n: nat, clock: nat -> nat)
    requires p.interval > 0
  {
    exists k: nat :: k <= Missing(n, b) && !Repeats(p, b, n, clock, 0, k)
  }

  function Ticking(p: Params): nat -> nat {
    (i: nat) => p.interval + i * p.interval
  }

  lemma TickingTicks(p: Params)
    ensures Monotone(Ticking(p)) && Paced(p, Ticking(p))
  {
    forall i: nat, j: nat | i <= j ensures Ticking(p)(i) <= Ticking(p)(j) { MulMono(p.interval, i, j); }
    forall j: nat ensures Ticking(p)(j + 1) == Ticking(p)(j) + p.interval { MulSum(p.interval, j, 1); }
  }

  lemma NeverReturns(p: Params, b: Bucket)
    requires WellFormed(p) && p.capacity > 0 && p.amount == 0 && b.available == 0 && b.refillAt == p.interval
    ensures Monotone(Ticking(p)) && InRange(p, b, Ticking(p), 0) && !Returns(p, b, 1, Ticking(p))
  {
    TickingTicks(p);
    assert Ticking(p)(0) == p.interval;
    hide Ticking, Repeats, Paced;
    forall k: nat ensures Repeats(p, b, 1, Ticking(p), 0, k) { ZeroAmountRepeats(p, b, 1, Ticking(p), 0, k); }
  }

  /** Every call on every bucket, under every monotone clock whose readings are not too far apart, returns after at most as
      many repeated passes as tokens are missing exactly if the refill amount is not zero. */
  lemma ReturnsIff(p: Params)
    requires WellFormed(p) && p.capacity > 0
    ensures (forall b: Bucket, n, clock: nat -> nat ::
               Monotone(clock) && InRange(p, b, clock, 0) && 0 < n <= p.capacity ==> Returns(p, b, n, clock))
      <==> p.amount > 0
  {
    if p.amount > 0 {
      forall b: Bucket, n, clock: nat -> nat | InRange(p, b, clock, 0) && 0 < n <= p.capacity
        ensures Returns(p, b, n, clock)
      {
        WaitStopsFirst(p, b, n, clock, 0);
      }
    } else {
      var b := Bucket(0, 0, p.interval);
      NeverReturns(p, b);
      assert !Returns(p, b, 1, Ticking(p));
    }
  }

  /** The limiter as an object whose counters change in place. */
  class Ratelimiter {
    const params: Params
    var available: Word
    var dropped: Word
    var refillAt: nat

    ghost predicate Valid()
      reads this
    {
      WellFormed(params) && available <= params.capacity
    }

    function Snapshot(): Bucket
      reads this
    {
      Bucket(available, dropped, refillAt)
    }

    constructor (p: Params, initial: Word, now: nat)
      ensures params == p && Snapshot() == Bucket(initial, 0, now + p.interval)
    {
      params, available, dropped, refillAt := p, initial, 0, now + p.interval;
    }

    /** `Builder::build`, as `RateLimit::try_from` uses it: the bucket starts full. */
    static method Build(maxTokens: Word, tokensPerFill: Word, fillInterval: nat, now: nat)
      returns (limiter: Ratelimiter?, error: BuildError)
      ensures limiter == null <==> maxTokens < tokensPerFill || fillInterval >= U64
      ensures limiter == null ==> error == if maxTokens < tokensPerFill then MaxTokensTooLow else RefillIntervalTooLong
      ensures limiter != null ==>
        && fresh(limiter) && limiter.params == Params(maxTokens, tokensPerFill, fillInterval)
        && limiter.Snapshot() == Bucket(maxTokens, 0, now + fillInterval)
        && (fillInterval > 0 ==> limiter.Valid())
    {
      limiter, error := null, MaxTokensTooLow;
      if maxTokens < tokensPerFill {
        return;
      }
      if fillInterval >= U64 {
        error := RefillIntervalTooLong;
        return;
      }
      limiter := new Ratelimiter(Params(maxTokens, tokensPerFill, fillInterval), maxTokens, now);
    }

    method CompareExchangeRefillAt(expected: nat, desired: nat) returns (ok: bool)
      modifies this`refillAt
      ensures ok == (old(refillAt) == expected)
      ensures refillAt == if ok then desired else old(refillAt)
    {
      ok := refillAt == expected;
      if ok { refillAt := desired; }
    }

    method CompareExchangeAvailable(expected: Word, desired: Word) returns (ok: bool)
      modifies this`available
      ensures ok == (old(available) == expected)
      ensures available == if ok then desired else old(available)
    {
      ok := available == expected;
      if ok { available := desired; }
    }

    /** The second half of `refill`: adds an amount up to capacity and counts the rest as dropped. */
    method Pay(amount: Word)
      modifies this`available, this`dropped
      ensures available == Wrap(old(available) + ToAdd(params, old(available), amount))
      ensures dropped == Wrap(old(dropped) + Wrap(amount - ToAdd(params, old(available), amount)))
    {
      hide Wrap, Carry;
      var seen: int := available;
      if Wrap(seen + amount) >= params.capacity {
        var toAdd: int := Wrap(params.capacity - seen);
        available := Wrap(available + toAdd);
        dropped := Wrap(dropped + Wrap(amount - toAdd));
      } else {
        available := Wrap(available + amount);
      }
    }

    method Refill(time: nat) returns (r: Refill)
      requires params.interval > 0
      modifies this
      ensures (Snapshot(), r) == Refilling(params, old(Snapshot()), time)
    {
      hide Wrap, Carry, Elapsed, Tokens, ToAdd;
      var intervals := 0;
      var claimed := false;
      while !claimed
        invariant !claimed ==> Snapshot() == old(Snapshot())
        invariant claimed ==>
          && old(refillAt) <= time && intervals == Elapsed(params, old(refillAt), time)
          && Snapshot() == old(Snapshot()).(refillAt := old(refillAt) + intervals * params.interval)
        decreases !claimed
      {
        var due := refillAt;
        if time < due {
          return NotDue(due - time);
        }
        intervals := Elapsed(params, due, time);
        claimed := CompareExchangeRefillAt(due, due + intervals * params.interval);
      }
      Pay(Wrap(Tokens(params, intervals)));
      r := Refilled;
    }

    method TryWaitN(n: nat, clock: nat -> nat) returns (r: Outcome)
      requires WellFormed(params) && InRange(params, Snapshot(), clock, 0) && params.amount > 0
      modifies this
      ensures old(Valid()) ==> Valid()
      ensures n == 0 || n > params.capacity ==> r == Refused(0) && Snapshot() == old(Snapshot())
      ensures 0 < n <= params.capacity ==>
        && Snapshot() == Wait(params, old(Snapshot()), n, clock, 0).bucket
        && r == Wait(params, old(Snapshot()), n, clock, 0).outcome
    {
      hide InRange, Refilling;
      if n == 0 || n > params.capacity {
        return Refused(0);
      }
      WaitMeaning(params, Snapshot(), n, clock, 0);
      ghost var goal := Wait(params, Snapshot(), n, clock, 0);
      var reading := 0;
      while true
        invariant InRange(params, Snapshot(), clock, reading) && (old(Valid()) ==> Valid())
        invariant goal == Wait(params, Snapshot(), n, clock, reading)
        decreases Missing(n, Snapshot())
      {
        RepeatAdds(params, Snapshot(), n, clock, reading);
        var refill := Refill(clock(reading));
        reading := reading + 1;
        ghost var refilled := Snapshot();
        var again := false;
        while !again
          invariant Snapshot() == refilled
          invariant again ==> available < n && refill.Refilled?
          decreases !again
        {
          var seen := available;
          if seen < n {
            if refill.NotDue? {
              return Refused(refill.delay);
            }
            again := true;
          } else {
            var ok := CompareExchangeAvailable(seen, seen - n);
            if ok {
              return Granted;
            }
          }
        }
      }
    }

    /** Amending never fails and never takes the bucket below zero. */
    method AmendTokens(remove: int)
      modifies this`available
      ensures remove >= 0 ==> available == if old(available) <= remove then 0 else old(available) - remove
      ensures remove < 0 ==> available == Min(old(available) - remove, U64 - 1)
    {
      if remove == 0 {
        return;
      }
      available := Amended(available, remove);
    }
  }

  // The rate over a window of sequential calls.

  /** A call of `try_wait_n` with the clock readings it makes, or an amendment that removes tokens. */
  datatype Call = TryWait(n: nat, clock: nat -> nat) | Remove(tokens: nat)

  ghost predicate Within(c: Call, from: nat, to: nat) {
    c.TryWait? ==> forall i :: from <= c.clock(i) <= to
  }

  /** The tokens of one claim fit, whether made at a window's end since the refill due at its start, or within it. */
  ghost predicate Fits(p: Params, from: nat, to: nat, b: Bucket)
    requires p.interval > 0
  {
    Claimable(p, p.capacity, to - b.refillAt) && Claimable(p, p.capacity, to - from)
  }

  lemma WindowInRange(p: Params, from: nat, to: nat, b: Bucket, b': Bucket, clock: nat -> nat)
    requires p.interval > 0 && Fits(p, from, to, b) && b.refillAt <= b'.refillAt && b'.available <= p.capacity
    requires forall i :: from <= clock(i) <= to
    ensures InRange(p, b', clock, 0)
  {
    ClaimableWithin(p, b'.available, clock(0) - b'.refillAt, to - b.refillAt);
    forall j: nat ensures Gap(p, clock, j) { ClaimableWithin(p, p.capacity, clock(j + 1) - clock(j), to - from); }
  }

  /** The bucket after a sequence of calls in a window, and the tokens they granted. */
  ghost function Serve(p: Params, from: nat, to: nat, b: Bucket, calls: seq<Call>): (r: (Bucket, nat))
    requires WellFormed(p) && p.amount > 0 && b.available <= p.capacity && Fits(p, from, to, b)
    requires forall i :: 0 <= i < |calls| ==> Within(calls[i], from, to)
    ensures r.0.available <= p.capacity && b.refillAt <= r.0.refillAt
  {
    if calls == [] then (b, 0) else
      var last := calls[|calls| - 1];
      var (b', granted) := Serve(p, from, to, b, calls[..|calls| - 1]);
      match last
      case Remove(tokens) => (b'.(available := Amended(b'.available, tokens)), granted)
      case TryWait(n, clock) =>
        if n == 0 || n > p.capacity then (b', granted) else
          assert Within(last, from, to);
          WindowInRange(p, from, to, b, b', clock);
          WaitMeaning(p, b', n, clock, 0);
          var w := Wait(p, b', n, clock, 0);
          (w.bucket, granted + if w.outcome.Granted? then n else 0)
  }

  /** After the window's first refill: everything granted and left is covered by a full bucket and `claims` intervals,
      all of which lie after the window's start and end within one interval of its end. */
  ghost predicate Covered(p: Params, from: nat, to: nat, b: Bucket, granted: nat, claims: nat) {
    && granted + b.available <= p.capacity + Tokens(p, claims)
    && from + claims * p.interval < b.refillAt
    && (claims > 0 ==> b.refillAt <= to + p.interval)
  }

  lemma RefillCovered(p: Params, from: nat, to: nat, b: Bucket, granted: nat, claims: nat, time: nat)
    returns (claims': nat)
    requires WellFormed(p) && Claimable(p, b.available, time - b.refillAt) && time <= to
    requires Covered(p, from, to, b, granted, claims)
    ensures Covered(p, from, to, Refilling(p, b, time).0, granted, claims')
  {
    hide Refilling;
    var k := RefillAdds(p, b, time);
    claims' := claims + k;
    MulSum(p.interval, claims, k);
    MulSum(p.amount, claims, k);
  }

  lemma {:induction false} WaitCovered(
    p: Params, from: nat, to: nat, b: Bucket, granted: nat, claims: nat, n: nat, clock: nat -> nat, i: nat)
    returns (claims': nat)
    requires WellFormed(p) && InRange(p, b, clock, i) && p.amount > 0 && b.available <= p.capacity && n <= p.capacity
    requires forall j :: from <= clock(j) <= to
    requires Covered(p, from, to, b, granted, claims) || granted == 0
    ensures var w := Wait(p, b, n, clock, i);
      Covered(p, from, to, w.bucket, granted + (if w.outcome.Granted? then n else 0), claims')
    decreases Missing(n, b)
  {
    RepeatAdds(p, b, n, clock, i);
    var (b', refill) := Refilling(p, b, clock(i));
    claims' := 0;
    if Covered(p, from, to, b, granted, claims) {
      claims' := RefillCovered(p, from, to, b, granted, claims, clock(i));
    }
    if b'.available < n && refill.Refilled? {
      claims' := WaitCovered(p, from, to, b', granted, claims', n, clock, i + 1);
    }
  }

  lemma {:induction false} ServeCovered(p: Params, from: nat, to: nat, b: Bucket, calls: seq<Call>) returns (claims: nat)
    requires WellFormed(p) && p.amount > 0 && b.available <= p.capacity && Fits(p, from, to, b)
    requires forall i :: 0 <= i < |calls| ==> Within(calls[i], from, to)
    ensures var (b', granted) := Serve(p, from, to, b, calls);
      granted == 0 || Covered(p, from, to, b', granted, claims)
  {
    claims := 0;
    if calls != [] {
      var last, front := calls[|calls| - 1], calls[..|calls| - 1];
      claims := ServeCovered(p, from, to, b, front);
      var (b', granted) := Serve(p, from, to, b, front);
      if last.TryWait? && 0 < last.n <= p.capacity {
        assert Within(last, from, to);
        WindowInRange(p, from, to, b, b', last.clock);
        claims := WaitCovered(p, from, to, b', granted, claims, last.n, last.clock, 0);
      }
    }
  }

  lemma TokensOf(p: Params, claims: nat, window: nat)
    requires p.interval > 0 && claims * p.interval <= window + p.interval
    ensures Tokens(p, claims) <= Tokens(p, window / p.interval + 1)
  {
    IntervalsWithin(claims, p.interval, window + p.interval);
    OneMoreInterval(window, p.interval);
    MulMono(p.amount, claims, window / p.interval + 1);
  }

  /** Over any window of sequential calls at most a full bucket and one refill per interval, plus one, is granted,
      however long the limiter was idle before. */
  lemma SequentialWindow(p: Params, from: nat, to: nat, b: Bucket, calls: seq<Call>)
    requires WellFormed(p) && p.amount > 0 && b.available <= p.capacity && from <= to && Fits(p, from, to, b)
    requires forall i :: 0 <= i < |calls| ==> Within(calls[i], from, to)
    ensures Serve(p, from, to, b, calls).1 <= p.capacity + Tokens(p, (to - from) / p.interval + 1)
  {
    var claims := ServeCovered(p, from, to, b, calls);
    var (b', granted) := Serve(p, from, to, b, calls);
    hide Serve, Fits, Tokens;
    if granted > 0 && claims > 0 {
      TokensOf(p, claims, to - from);
    }
  }

  lemma {:induction false} RunAloneOn(p: Params, s: Steps.State, t: nat, a: nat, b: nat)
    requires p.interval > 0 && t < |s.threads|
    ensures |Steps.RunAlone(p, s, t, a).threads| == |s.threads|
    ensures Steps.RunAlone(p, s, t, a + b) == Steps.RunAlone(p, Steps.RunAlone(p, s, t, a), t, b)
    decreases a
  {
    if a > 0 {
      RunAloneOn(p, Steps.RunThread(p, s, t), t, a - 1, b);
    }
  }

  /** No call is answered, and no time passes. */
  ghost predicate AnswersNothing(s: Steps.State, s': Steps.State) {
    && s'.now == s.now
    && s'.history.granted == s.history.granted && s'.history.refused == s.history.refused
  }

  /** The refill attempt of a thread, up to the payment if it claims. */
  lemma ClaimAlone(p: Params, s: Steps.State, t: nat)
    requires p.interval > 0 && t < |s.threads| && s.threads[t].LoadRefillAt?
    ensures var n, time := s.threads[t].n, s.threads[t].time;
      if time < s.refillAt then
        Steps.RunAlone(p, s, t, 1) == Steps.Goto(s, t, Steps.LoadForTake(n, NotDue(s.refillAt - time)))
      else
        var k, s' := Elapsed(p, s.refillAt, time), Steps.RunAlone(p, s, t, 2);
        && s'.threads == s.threads[t := Steps.LoadAvailable(n, k)]
        && s'.available == s.available && s'.dropped == s.dropped && s'.refillAt == s.refillAt + k * p.interval
        && AnswersNothing(s, s')
  {
    hide Elapsed;
    var s1 := Steps.RunThread(p, s, t);
    var s2 := Steps.RunThread(p, s1, t);
    assert Steps.RunAlone(p, s, t, 1) == Steps.RunAlone(p, s1, t, 0);
    assert Steps.RunAlone(p, s, t, 2) == Steps.RunAlone(p, s1, t, 1) == Steps.RunAlone(p, s2, t, 0);
  }

  /** The payment of a thread that has claimed. */
  lemma PaymentAlone(p: Params, s: Steps.State, t: nat) returns (steps: nat)
    requires p.interval > 0 && t < |s.threads| && s.threads[t].LoadAvailable?
    ensures var s' := Steps.RunAlone(p, s, t, steps);
      var due := Wrap(Tokens(p, s.threads[t].intervals));
      var add := ToAdd(p, s.available, due);
      && s'.available == Wrap(s.available + add) && s'.dropped == Wrap(s.dropped + Wrap(due - add))
      && s'.refillAt == s.refillAt && s'.threads == s.threads[t := Steps.LoadForTake(s.threads[t].n, Refilled)]
      && AnswersNothing(s, s')
  {
    hide Tokens, Wrap, Carry, ToAdd;
    var s1 := Steps.RunThread(p, s, t);
    var s2 := Steps.RunThread(p, s1, t);
    var s3 := Steps.RunThread(p, s2, t);
    steps := if s2.threads[t].AddDropped? then 3 else 2;
    assert Steps.RunAlone(p, s, t, steps) == Steps.RunAlone(p, s1, t, steps - 1) == Steps.RunAlone(p, s2, t, steps - 2);
    assert Steps.RunAlone(p, s2, t, 1) == Steps.RunAlone(p, s3, t, 0);
  }

  /** A thread of the concurrent model that refills with nobody else running computes `Refilling`. */
  lemma RefillAlone(p: Params, s: Steps.State, t: nat, n: nat, time: nat) returns (steps: nat)
    requires p.interval > 0 && t < |s.threads| && s.threads[t] == Steps.LoadRefillAt(n, time)
    ensures var (b, refill) := Refilling(p, Bucket(s.available, s.dropped, s.refillAt), time);
      var s' := Steps.RunAlone(p, s, t, steps);
      && Bucket(s'.available, s'.dropped, s'.refillAt) == b
      && s'.threads == s.threads[t := Steps.LoadForTake(n, refill)] && AnswersNothing(s, s')
  {
    hide Elapsed, Tokens, Wrap, Carry, ToAdd, Steps.RunAlone, Steps.RunThread;
    ClaimAlone(p, s, t);
    steps := 1;
    if time >= s.refillAt {
      var pay := PaymentAlone(p, Steps.RunAlone(p, s, t, 2), t);
      RunAloneOn(p, s, t, 2, pay);
      steps := 2 + pay;
    }
  }
}
