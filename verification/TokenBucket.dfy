/** Parameters and 64-bit arithmetic of the local rate limiter's token bucket, shared by the
    sequential limiter and by the model of its interleavings. */
module TokenBucket {
  import opened Prelude

  const U64: int := 0x1_0000_0000_0000_0000

  /** An unsigned 64-bit integer. */
  type Word = x: int | 0 <= x < U64

  /** The refill interval is a divisor in `refill`; the builder does not check that it is positive. */
  datatype Params = Params(capacity: nat, amount: nat, interval: nat)

  ghost predicate WellFormed(p: Params) {
    p.interval > 0 && p.amount <= p.capacity < U64
  }

  /** How often 2^64 is lost, net, when a number wraps around. */
  function Carry(x: int): (k: int)
    ensures (0 <= x < U64 ==> k == 0) && (0 <= x ==> 0 <= k)
  {
    x / U64
  }

  /** Unsigned 64-bit arithmetic wraps around in the release profile. */
  function Wrap(x: int): (r: Word)
    ensures x == r + U64 * Carry(x)
    ensures 0 <= x < U64 ==> r == x
  {
    x % U64
  }

  lemma WrapTwice(x: int, y: int, z: int)
    ensures Wrap(Wrap(x + y) + z) == Wrap(x + (y + z))
  {}

  /** Whether a refill attempt claimed intervals, or how long until it may. */
  datatype Refill = Refilled | NotDue(delay: nat)

  /** Intervals elapsed at `time` since a refill fell due at `refillAt`, counting that one. */
  function Elapsed(p: Params, refillAt: nat, time: nat): (intervals: nat)
    requires p.interval > 0 && refillAt <= time
    ensures time < refillAt + intervals * p.interval <= time + p.interval
  {
    (time - refillAt) / p.interval + 1
  }

  lemma ElapsedOne(p: Params, time: nat)
    requires p.interval > 0
    ensures Elapsed(p, time, time) == 1
  {}

  /** The tokens due for a number of intervals. */
  function Tokens(p: Params, intervals: nat): (r: nat)
    ensures intervals == 0 ==> r == 0
  {
    intervals * p.amount
  }

  /** The tokens `refill` adds when `due` are owed and it has read `read` available: it stops at capacity. */
  function ToAdd(p: Params, read: Word, due: Word): (added: Word)
    ensures read <= p.capacity < U64 && read + due < U64 ==> added <= due && read + added == Min(read + due, p.capacity)
    ensures p.capacity < read && read + due < U64 ==> added == p.capacity - read + U64
    ensures Wrap(read + due) < p.capacity ==> added == due
  {
    if Wrap(read + due) >= p.capacity then Wrap(p.capacity - read) else due
  }

  /** `available` after an amendment that removes `remove` tokens, or adds `-remove`, saturating at both ends. */
  function Amended(available: Word, remove: int): (r: Word)
    ensures remove >= 0 ==> r <= available && available - r == Min(remove, available)
    ensures remove <= 0 ==> r >= available && r - available == Min(-remove, U64 - 1 - available)
  {
    if remove < 0 then Min(available - remove, U64 - 1) else if available <= remove then 0 else available - remove
  }

  lemma MulMono(a: nat, x: nat, y: nat)
    requires x <= y
    ensures a * x <= a * y && x * a <= y * a
  {}

  /** A bound on the length of some whole intervals bounds their number. */
  lemma IntervalsWithin(count: nat, interval: nat, span: nat)
    requires interval > 0 && count * interval <= span
    ensures count <= span / interval
  {
    var q := span / interval;
    assert span < (q + 1) * interval;
    if q + 1 <= count { MulMono(interval, q + 1, count); }
  }

  lemma MulSum(a: nat, x: nat, y: nat)
    ensures (x + y) * a == x * a + y * a
  {}

  lemma MulDiff(a: int, x: int, y: int)
    ensures a * (x - y) == a * x - a * y
  {}

  lemma QuotientIs(x: nat, interval: nat, q: nat)
    requires interval > 0 && q * interval <= x < (q + 1) * interval
    ensures x / interval == q
  {
    IntervalsWithin(q, interval, x);
    if q + 1 <= x / interval { MulMono(interval, q + 1, x / interval); }
  }

  lemma OneMoreInterval(span: nat, interval: nat)
    requires interval > 0
    ensures (span + interval) / interval == span / interval + 1
  {
    QuotientIs(span + interval, interval, span / interval + 1);
  }

  lemma QuotientMono(x: nat, y: nat, interval: nat)
    requires interval > 0 && x <= y
    ensures x / interval <= y / interval
  {
    IntervalsWithin(x / interval, interval, y);
  }

  /** A span at most one interval longer than a window holds at most one interval more than it. */
  lemma TokensWithin(amount: nat, span: nat, window: nat, interval: nat)
    requires interval > 0 && span <= window + interval
    ensures amount * (span / interval) <= amount * (window / interval + 1)
  {
    QuotientMono(span, window + interval, interval);
    OneMoreInterval(window, interval);
    MulMono(amount, span / interval, window / interval + 1);
  }
}
