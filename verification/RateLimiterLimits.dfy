/** How far the rate limiter's guarantees go: for how many callers they hold in every interleaving, when its windowed
    rate holds, and the runs that break them otherwise. */
module RateLimiterLimits {
  import opened TokenBucket
  import opened RateLimiterSteps

  /** Some run whose claims fit and that amends no tokens in. */
  ghost predicate Comes(p: Params, s: State, e: State)
    requires p.interval > 0
  {
    exists run :: Calm(p, s, run) && Exec(p, s, run) == e
  }

  /** One in which no payment reads above capacity. */
  ghost predicate Reaches(p: Params, s: State, e: State)
    requires p.interval > 0
  {
    exists run :: Calm(p, s, run) && Sound(p, s, run) && Exec(p, s, run) == e
  }

  lemma {:induction false} ExecAppend(p: Params, s: State, a: seq<Label>, b: seq<Label>)
    requires p.interval > 0
    ensures Exec(p, s, a + b) == Exec(p, Exec(p, s, a), b)
    ensures Sound(p, s, a + b) <==> Sound(p, s, a) && Sound(p, Exec(p, s, a), b)
    ensures Calm(p, s, a + b) <==> Calm(p, s, a) && Calm(p, Exec(p, s, a), b)
    decreases a
  {
    if a == [] {
      assert a + b == b;
    } else {
      ExecAppend(p, Apply(p, s, a[0]), a[1..], b);
      assert (a + b)[1..] == a[1..] + b;
    }
  }

  lemma Then(p: Params, s: State, e: State, l: Label) returns (e': State)
    requires p.interval > 0 && Reaches(p, s, e)
    requires ReadsWithin(p, e, l) && ClaimFits(p, e, l) && (l.Amend? ==> l.remove >= 0)
    ensures e' == Apply(p, e, l) && Reaches(p, s, e')
  {
    e' := Apply(p, e, l);
    var run :| Calm(p, s, run) && Sound(p, s, run) && Exec(p, s, run) == e;
    ExecAppend(p, s, run, [l]);
    assert [l][1..] == [] && Sound(p, e', []) && Calm(p, e', []) && Exec(p, e', []) == e';
    assert Sound(p, e, [l]) && Calm(p, e, [l]) && Exec(p, e, [l]) == e';
  }

  lemma Here(p: Params, s: State)
    requires p.interval > 0
    ensures Reaches(p, s, s)
  {
    assert Calm(p, s, []) && Sound(p, s, []) && Exec(p, s, []) == s;
  }

  lemma ComesOn(p: Params, s: State, m: State, e: State)
    requires p.interval > 0 && Comes(p, s, m) && Comes(p, m, e)
    ensures Comes(p, s, e)
  {
    var a :| Calm(p, s, a) && Exec(p, s, a) == m;
    var b :| Calm(p, m, b) && Exec(p, m, b) == e;
    ExecAppend(p, s, a, b);
  }

  /** What one thread does with nobody else running: claim the intervals elapsed at the time it read, pay, take. */
  lemma Claim(p: Params, s: State, e: State, t: nat) returns (e': State)
    requires p.interval > 0 && Reaches(p, s, e)
    requires t < |e.threads| && e.threads[t].LoadRefillAt? && e.refillAt <= e.threads[t].time
    requires Tokens(p, Elapsed(p, e.refillAt, e.threads[t].time)) + p.capacity < U64
    ensures var k := Elapsed(p, e.refillAt, e.threads[t].time);
      e' == e.(threads := e.threads[t := LoadAvailable(e.threads[t].n, k)], refillAt := e.refillAt + k * p.interval,
               history := e.history.(claimed := e.history.claimed + k))
    ensures Reaches(p, s, e')
  {
    hide Reaches, Elapsed;
    e' := Then(p, s, e, Run(t));
    e' := Then(p, s, e', Run(t));
  }

  /** A call that finds no refill due, up to the point where it looks for tokens. */
  lemma CallEarly(p: Params, s: State, e: State, t: nat, n: nat) returns (e': State)
    requires p.interval > 0 && Reaches(p, s, e)
    requires t < |e.threads| && e.threads[t] == Idle && 0 < n <= p.capacity && e.now < e.refillAt
    ensures e' == Goto(e, t, LoadForTake(n, NotDue(e.refillAt - e.now)))
    ensures Reaches(p, s, e')
  {
    hide Reaches;
    e' := Then(p, s, e, Call(t, n));
    e' := Then(p, s, e', Run(t));
    e' := Then(p, s, e', Run(t));
  }

  lemma CallAndClaim(p: Params, s: State, e: State, t: nat, n: nat) returns (e': State)
    requires p.interval > 0 && Reaches(p, s, e)
    requires t < |e.threads| && e.threads[t] == Idle && 0 < n <= p.capacity && e.refillAt <= e.now
    requires Tokens(p, Elapsed(p, e.refillAt, e.now)) + p.capacity < U64
    ensures var k := Elapsed(p, e.refillAt, e.now);
      e' == e.(threads := e.threads[t := LoadAvailable(n, k)], refillAt := e.refillAt + k * p.interval,
               history := e.history.(claimed := e.history.claimed + k))
    ensures Reaches(p, s, e')
  {
    hide Reaches, Elapsed;
    e' := Then(p, s, e, Call(t, n));
    e' := Then(p, s, e', Run(t));
    e' := Claim(p, s, e', t);
  }

  /** Paying for `k` intervals into an empty bucket. */
  lemma PayAlone(p: Params, s: State, e: State, t: nat) returns (e': State)
    requires WellFormed(p) && Reaches(p, s, e)
    requires t < |e.threads| && e.threads[t].LoadAvailable? && e.available == e.dropped == 0
    requires Tokens(p, e.threads[t].intervals) < U64
    ensures var owed := Tokens(p, e.threads[t].intervals);
      var paid := if owed < p.capacity then owed else p.capacity;
      e' == e.(available := paid, dropped := owed - paid,
               threads := e.threads[t := LoadForTake(e.threads[t].n, Refilled)])
    ensures Reaches(p, s, e')
  {
    hide Reaches, Tokens;
    e' := Then(p, s, e, Run(t));
    e' := Then(p, s, e', Run(t));
    if e'.threads[t].AddDropped? {
      e' := Then(p, s, e', Run(t));
    }
  }

  lemma TakeAlone(p: Params, s: State, e: State, t: nat) returns (e': State)
    requires p.interval > 0 && Reaches(p, s, e)
    requires t < |e.threads| && e.threads[t].LoadForTake? && e.threads[t].n <= e.available
    ensures e' == e.(available := e.available - e.threads[t].n, threads := e.threads[t := Idle],
                     history := e.history.(granted := e.history.granted + e.threads[t].n))
    ensures Reaches(p, s, e')
  {
    hide Reaches;
    e' := Then(p, s, e, Run(t));
    e' := Then(p, s, e', Run(t));
  }

  /** Taking a full bucket's worth `k` times over, one call after the other. */
  lemma {:induction false} TakeAgain(p: Params, s: State, e: State, t: nat, k: nat) returns (e': State)
    requires WellFormed(p) && 0 < p.capacity && Reaches(p, s, e)
    requires t < |e.threads| && e.threads[t] == Idle && e.now < e.refillAt && k * p.capacity <= e.available
    ensures e' == e.(available := e.available - k * p.capacity,
                     history := e.history.(granted := e.history.granted + k * p.capacity))
    ensures Reaches(p, s, e')
    decreases k
  {
    hide Reaches;
    if k == 0 {
      e' := e;
    } else {
      MulSum(p.capacity, k - 1, 1);
      e' := TakeAgain(p, s, e, t, k - 1);
      e' := CallEarly(p, s, e', t, p.capacity);
      e' := TakeAlone(p, s, e', t);
      assert e'.threads == e.threads;
    }
  }

  // The number of callers.

  /** A limiter that refills, and of whose full bucket eight fit in 64 bits. */
  ghost predicate Modest(p: Params) {
    WellFormed(p) && 0 < p.amount && 8 * p.capacity < U64
  }

  function Start(p: Params, available: Word, callers: nat): State {
    State(available, 0, p.interval, 0, seq(callers, (i: nat) => Idle), History(0, 0, 0, 0, 0, []))
  }

  lemma ElapsedTwo(p: Params, time: nat)
    requires p.interval > 0
    ensures Elapsed(p, time, time + p.interval) == 2
  {
    QuotientIs(p.interval, p.interval, 1);
  }

  lemma OverlappingClaims(p: Params, callers: nat, s: State) returns (e: State)
    requires Modest(p) && 2 <= callers && s == Start(p, p.capacity - 1, callers)
    ensures Reaches(p, s, e)
    ensures e == State(p.capacity - 1, 0, 3 * p.interval, 2 * p.interval,
                       s.threads[0 := LoadAvailable(1, 1)][1 := LoadAvailable(1, 1)], History(2, 0, 0, 0, 0, []))
  {
    hide Reaches, Elapsed;
    ElapsedOne(p, p.interval);
    ElapsedOne(p, 2 * p.interval);
    Here(p, s);
    e := Then(p, s, s, Tick(p.interval));
    e := CallAndClaim(p, s, e, 0, 1);
    e := Then(p, s, e, Tick(p.interval));
    e := CallAndClaim(p, s, e, 1, 1);
  }

  /** Two refills that overlap between claim and payment both top the bucket up from the same reading. */
  lemma OverlapExceedsCapacity(p: Params, callers: nat) returns (e: State)
    requires Modest(p) && 2 <= callers
    ensures Reaches(p, Start(p, p.capacity - 1, callers), e) && e.available == p.capacity + 1 && e.now == 2 * p.interval
  {
    var s := Start(p, p.capacity - 1, callers);
    e := OverlappingClaims(p, callers, s);
    hide Reaches;
    e := Then(p, s, e, Run(0));
    e := Then(p, s, e, Run(1));
    var due, read := p.amount, p.capacity - 1;
    assert e.threads == s.threads[0 := AddTokens(1, due, read)][1 := AddTokens(1, due, read)];
    assert ToAdd(p, read, due) == 1;
    hide ToAdd;
    e := Then(p, s, e, Run(0));
    e := Then(p, s, e, Run(1));
  }

  // A payment that reads above capacity, while others take what it read.

  /** The bucket is empty, and one thread is about to pay that read one more than capacity; another is idle. */
  ghost predicate Brink(p: Params, e: State, payer: nat, taker: nat) {
    && payer < |e.threads| && taker < |e.threads| && payer != taker && e.threads[taker] == Idle
    && e.threads[payer].AddTokens? && e.threads[payer].read == p.capacity + 1 && e.threads[payer].due == p.amount
    && e.available == 0 && e.now < e.refillAt
  }

  /** Then the bucket is left with 2^64 - 1 tokens, and the idle thread can take seven times its capacity at once. */
  lemma Flood(p: Params, s: State, e: State, payer: nat, taker: nat) returns (e': State)
    requires WellFormed(p) && 0 < p.capacity && 8 * p.capacity < U64 && Reaches(p, s, e) && Brink(p, e, payer, taker)
    ensures Apply(p, e, Run(payer)).available == U64 - 1
    ensures Comes(p, s, e') && e'.now == e.now && e'.history.granted == e.history.granted + 7 * p.capacity
  {
    var m := Apply(p, e, Run(payer));
    SurplusTakenOut(p, e, payer);
    assert m.available == U64 - 1 && m.threads[taker] == Idle;
    Here(p, m);
    e' := TakeAgain(p, m, m, taker, 7);
    assert Comes(p, e, m) by {
      assert [Run(payer)][1..] == [] && Exec(p, m, []) == m && Calm(p, m, []);
      assert Calm(p, e, [Run(payer)]) && Exec(p, e, [Run(payer)]) == m;
    }
    ComesOn(p, s, e, m);
    ComesOn(p, s, m, e');
  }

  // With a capacity of two or more, two callers get there.

  lemma DoubleClaims(p: Params, callers: nat, s: State) returns (e: State)
    requires Modest(p) && 2 <= p.capacity && 2 <= callers && s == Start(p, p.capacity - 2, callers)
    ensures Reaches(p, s, e)
    ensures e == State(p.capacity - 2, 0, 5 * p.interval, 4 * p.interval,
                       s.threads[0 := LoadAvailable(p.capacity, 2)][1 := LoadAvailable(1, 2)], History(4, 0, 0, 0, 0, []))
  {
    hide Reaches, Elapsed;
    ElapsedTwo(p, p.interval);
    ElapsedTwo(p, 3 * p.interval);
    Here(p, s);
    e := Then(p, s, s, Tick(2 * p.interval));
    e := CallAndClaim(p, s, e, 0, p.capacity);
    e := Then(p, s, e, Tick(2 * p.interval));
    e := CallAndClaim(p, s, e, 1, 1);
  }

  /** Both threads read the same and add two. */
  lemma DoublePays(p: Params, callers: nat, s: State) returns (e: State)
    requires Modest(p) && 2 <= p.capacity
    requires 2 <= callers && s == Start(p, p.capacity - 2, callers)
    ensures Reaches(p, s, e)
    ensures e == State(p.capacity + 2, 0, 5 * p.interval, 4 * p.interval,
                       s.threads[0 := AddDropped(p.capacity, 2 * p.amount - 2)][1 := AddDropped(1, 2 * p.amount - 2)],
                       History(4, 0, 0, 0, 0, []))
  {
    e := DoubleClaims(p, callers, s);
    hide Reaches;
    var due, read := 2 * p.amount, p.capacity - 2;
    assert Tokens(p, 2) == Wrap(due) == due && ToAdd(p, read, due) == 2 && Wrap(read + due) >= p.capacity;
    hide Tokens, ToAdd;
    e := Then(p, s, e, Run(0));
    e := Then(p, s, e, Run(1));
    assert e.threads == s.threads[0 := AddTokens(p.capacity, due, read)][1 := AddTokens(1, due, read)];
    hide Wrap, Carry;
    e := Then(p, s, e, Run(0));
    e := Then(p, s, e, Run(1));
  }

  lemma DoubleDrops(p: Params, callers: nat, s: State) returns (e: State)
    requires Modest(p) && 2 <= p.capacity
    requires 2 <= callers && s == Start(p, p.capacity - 2, callers)
    ensures Reaches(p, s, e)
    ensures e == State(p.capacity + 2, 4 * p.amount - 4, 5 * p.interval, 4 * p.interval,
                       s.threads[0 := LoadForTake(p.capacity, Refilled)][1 := LoadForTake(1, Refilled)],
                       History(4, 0, 0, 0, 0, []))
  {
    e := DoublePays(p, callers, s);
    hide Reaches;
    e := Then(p, s, e, Run(0));
    e := Then(p, s, e, Run(1));
  }

  /** The second thread takes one token and refills again; what it read is then taken by the first. */
  lemma TwoCallersBrink(p: Params, callers: nat, s: State) returns (e: State)
    requires Modest(p) && 2 <= p.capacity
    requires 2 <= callers && s == Start(p, p.capacity - 2, callers)
    ensures Reaches(p, s, e) && Brink(p, e, 1, 0) && e.now == 5 * p.interval && e.history.granted == p.capacity + 2
  {
    e := DoubleDrops(p, callers, s);
    hide Reaches, Elapsed;
    e := TakeAlone(p, s, e, 1);
    e := Then(p, s, e, Tick(p.interval));
    ElapsedOne(p, 5 * p.interval);
    e := CallAndClaim(p, s, e, 1, 1);
    assert e.threads == s.threads[0 := LoadForTake(p.capacity, Refilled)][1 := LoadAvailable(1, 1)];
    e := Then(p, s, e, Run(1));
    e := TakeAlone(p, s, e, 0);
    e := CallEarly(p, s, e, 0, 1);
    e := TakeAlone(p, s, e, 0);
  }

  // With a capacity of one, three do.

  lemma TripleClaims(p: Params, callers: nat, s: State) returns (e: State)
    requires WellFormed(p) && p.amount == p.capacity == 1 && 3 <= callers && s == Start(p, 0, callers)
    ensures Reaches(p, s, e)
    ensures e == State(0, 0, 4 * p.interval, 3 * p.interval,
                       s.threads[0 := LoadAvailable(1, 1)][1 := LoadAvailable(1, 1)][2 := LoadAvailable(1, 1)],
                       History(3, 0, 0, 0, 0, []))
  {
    hide Reaches, Elapsed;
    ElapsedOne(p, p.interval);
    ElapsedOne(p, 2 * p.interval);
    ElapsedOne(p, 3 * p.interval);
    Here(p, s);
    e := Then(p, s, s, Tick(p.interval));
    e := CallAndClaim(p, s, e, 0, 1);
    e := Then(p, s, e, Tick(p.interval));
    e := CallAndClaim(p, s, e, 1, 1);
    e := Then(p, s, e, Tick(p.interval));
    e := CallAndClaim(p, s, e, 2, 1);
  }

  lemma TriplePays(p: Params, callers: nat, s: State) returns (e: State)
    requires WellFormed(p) && p.amount == p.capacity == 1 && 3 <= callers && s == Start(p, 0, callers)
    ensures Reaches(p, s, e)
    ensures var paid := AddDropped(1, 0);
      e == State(3, 0, 4 * p.interval, 3 * p.interval, s.threads[0 := paid][1 := paid][2 := paid], History(3, 0, 0, 0, 0, []))
  {
    e := TripleClaims(p, callers, s);
    hide Reaches;
    e := Then(p, s, e, Run(0));
    e := Then(p, s, e, Run(1));
    e := Then(p, s, e, Run(2));
    var paying := AddTokens(1, 1, 0);
    assert e.threads == s.threads[0 := paying][1 := paying][2 := paying];
    e := Then(p, s, e, Run(0));
    e := Then(p, s, e, Run(1));
    e := Then(p, s, e, Run(2));
  }

  lemma TripleDrops(p: Params, callers: nat, s: State) returns (e: State)
    requires WellFormed(p) && p.amount == p.capacity == 1 && 3 <= callers && s == Start(p, 0, callers)
    ensures Reaches(p, s, e)
    ensures var taking := LoadForTake(1, Refilled);
      e == State(3, 0, 4 * p.interval, 3 * p.interval, s.threads[0 := taking][1 := taking][2 := taking],
                 History(3, 0, 0, 0, 0, []))
  {
    e := TriplePays(p, callers, s);
    hide Reaches;
    e := Then(p, s, e, Run(0));
    e := Then(p, s, e, Run(1));
    e := Then(p, s, e, Run(2));
  }

  lemma ThreeCallersBrink(p: Params, callers: nat, s: State) returns (e: State)
    requires WellFormed(p) && p.amount == p.capacity == 1 && 3 <= callers && s == Start(p, 0, callers)
    ensures Reaches(p, s, e) && Brink(p, e, 0, 1) && e.now == 4 * p.interval && e.history.granted == 3
  {
    e := TripleDrops(p, callers, s);
    hide Reaches, Elapsed;
    e := TakeAlone(p, s, e, 0);
    e := Then(p, s, e, Tick(p.interval));
    ElapsedOne(p, 4 * p.interval);
    e := CallAndClaim(p, s, e, 0, 1);
    e := Then(p, s, e, Run(0));
    e := TakeAlone(p, s, e, 1);
    e := TakeAlone(p, s, e, 2);
  }

  // Otherwise no payment reads above capacity.

  /** One caller, or two of a bucket that holds one token. */
  predicate Few(p: Params, callers: nat) {
    callers <= 1 || (p.capacity == 1 && callers == 2)
  }

  lemma {:induction false} LoneCallerNeverOverlaps(p: Params, s: State, run: seq<Label>)
    requires p.interval > 0 && |s.threads| <= 1
    ensures NeverOverlaps(p, s, run)
    decreases run
  {
    if run != [] { LoneCallerNeverOverlaps(p, Apply(p, s, run[0]), run[1..]); }
  }

  /** A thread past its payment that has not yet taken a token. */
  predicate Taking(pc: Pc) {
    pc.AddDropped? || pc.LoadForTake? || pc.Take?
  }

  /** Two threads at a bucket that should hold one token: there are two in it only if both are about to take one, and a
      thread that read none finds none unless the other has paid since. */
  ghost predicate Narrow(s: State) {
    && |s.threads| == 2 && s.available <= 2
    && (forall i :: 0 <= i < 2 ==> s.threads[i].Idle? || s.threads[i].n == 1)
    && (forall i :: 0 <= i < 2 && s.threads[i].AddTokens? ==> s.threads[i].read <= 1)
    && (s.available == 2 ==> Taking(s.threads[0]) && Taking(s.threads[1]))
    && (forall i, j :: 0 <= i < 2 && 0 <= j < 2 && i != j && s.threads[i].AddTokens? && s.threads[i].read == 0 ==>
          Taking(s.threads[j]) || s.available == 0)
  }

  lemma PaymentNarrow(p: Params, s: State, t: nat)
    requires WellFormed(p) && p.capacity == 1 && Narrow(s) && t < 2 && s.threads[t].AddTokens? && InRange(p, s, Run(t))
    ensures Narrow(RunThread(p, s, t))
  {
    var add, s' := ToAdd(p, s.threads[t].read, s.threads[t].due), RunThread(p, s, t);
    assert add <= 1 - s.threads[t].read && s'.available == s.available + add;
    hide ToAdd, Wrap, Carry;
  }

  lemma TakingNarrow(p: Params, s: State, t: nat)
    requires WellFormed(p) && p.capacity == 1 && Narrow(s) && t < 2 && Taking(s.threads[t])
    ensures Narrow(RunThread(p, s, t))
  {
    hide Wrap, Carry;
  }

  lemma OtherNarrow(p: Params, s: State, t: nat)
    requires WellFormed(p) && p.capacity == 1 && Narrow(s) && t < 2
    requires !s.threads[t].AddTokens? && !Taking(s.threads[t])
    ensures Narrow(RunThread(p, s, t))
  {
    hide Tokens, Elapsed, Wrap, Carry;
  }

  lemma StepNarrow(p: Params, s: State, l: Label)
    requires WellFormed(p) && p.capacity == 1 && Narrow(s) && InRange(p, s, l) && (l.Amend? ==> l.remove >= 0)
    ensures ReadsWithin(p, s, l) && Narrow(Apply(p, s, l))
  {
    hide RunThread;
    if l.Run? && l.thread < 2 {
      if s.threads[l.thread].AddTokens? {
        PaymentNarrow(p, s, l.thread);
      } else if Taking(s.threads[l.thread]) {
        TakingNarrow(p, s, l.thread);
      } else {
        OtherNarrow(p, s, l.thread);
      }
    }
  }

  lemma {:induction false} NarrowIsSound(p: Params, s0: State, s: State, run: seq<Label>)
    requires WellFormed(p) && p.capacity == 1 && Exact(p, s0, s) && Room(p, s0) < U64 && Narrow(s) && Calm(p, s, run)
    ensures Sound(p, s, run)
    decreases run
  {
    if run != [] {
      var l := run[0];
      assert ReadsWithin(p, s, l);
      StepInRange(p, s0, s, l);
      StepExact(p, s0, s, l);
      StepNarrow(p, s, l);
      hide Exact, Apply, Room, Narrow;
      NarrowIsSound(p, s0, Apply(p, s, l), run[1..]);
    }
  }

  lemma FewIsSound(p: Params, s: State, run: seq<Label>)
    requires Modest(p) && Initial(p, s) && Few(p, |s.threads|) && s.available <= p.capacity && Calm(p, s, run)
    ensures Sound(p, s, run) && Room(p, s) < U64
  {
    InitialExact(p, s);
    MulMono(p.capacity, |s.threads|, 2);
    if |s.threads| <= 1 {
      LoneCallerNeverOverlaps(p, s, run);
      CapacityKept(p, s, s, run);
    } else {
      NarrowIsSound(p, s, s, run);
    }
  }

  // What holds in every interleaving, for how many callers.

  /** A number of callers of a bucket within capacity. */
  ghost predicate Ordinary(p: Params, callers: nat, s: State) {
    Initial(p, s) && |s.threads| == callers && s.available <= p.capacity
  }

  ghost predicate KeepsCapacity(p: Params, callers: nat)
    requires p.interval > 0
  {
    forall s, e :: Ordinary(p, callers, s) && Comes(p, s, e) ==> e.available <= p.capacity
  }

  /** The bucket stays within capacity in every run exactly if there is at most one caller. */
  lemma KeepsCapacityIff(p: Params, callers: nat)
    requires Modest(p)
    ensures KeepsCapacity(p, callers) <==> callers <= 1
  {
    if callers <= 1 {
      forall s, e | Ordinary(p, callers, s) && Comes(p, s, e) ensures e.available <= p.capacity {
        var run :| Calm(p, s, run) && Exec(p, s, run) == e;
        InitialExact(p, s);
        LoneCallerNeverOverlaps(p, s, run);
        FewIsSound(p, s, run);
        CapacityKept(p, s, s, run);
      }
    } else {
      var s := Start(p, p.capacity - 1, callers);
      var e := OverlapExceedsCapacity(p, callers);
      assert Ordinary(p, callers, s) && Comes(p, s, e);
    }
  }

  /** The rate over a whole run is kept in every run. */
  ghost predicate KeepsRate(p: Params, callers: nat)
    requires p.interval > 0
  {
    forall s, e :: Ordinary(p, callers, s) && Comes(p, s, e) ==> WithinTotal(p, s, e)
  }

  /** A window opens with no refill overdue, no payment under way and no more than a full bucket. */
  ghost predicate OpensWell(p: Params, s: State) {
    s.now <= s.refillAt && NonePaying(s) && s.available <= p.capacity
  }

  /** The rate over every window that opens so is kept in every run. */
  ghost predicate KeepsWindows(p: Params, callers: nat)
    requires p.interval > 0
  {
    forall s0, s, e :: Ordinary(p, callers, s0) && Comes(p, s0, s) && Comes(p, s, e) && OpensWell(p, s) ==>
      WithinRate(p, s, e)
  }

  lemma FewKeep(p: Params, callers: nat, s0: State, s: State, e: State)
    requires Modest(p) && Few(p, callers) && Ordinary(p, callers, s0) && Comes(p, s0, s) && Comes(p, s, e)
    ensures WithinTotal(p, s0, e) && (OpensWell(p, s) ==> WithinRate(p, s, e))
  {
    var a :| Calm(p, s0, a) && Exec(p, s0, a) == s;
    var b :| Calm(p, s, b) && Exec(p, s, b) == e;
    ExecAppend(p, s0, a, b);
    FewIsSound(p, s0, a + b);
    RateBound(p, s0, a + b);
    if OpensWell(p, s) {
      InitialExact(p, s0);
      SoundIsExact(p, s0, s0, a);
      hide Exec, Sound, Exact, Room, WithinRate;
      WindowBound(p, s0, s, b);
    }
  }

  lemma Excessive(p: Params, s: State, e: State, intervals: nat)
    requires Modest(p) && Initial(p, s) && intervals <= 5
    requires s.now == 0 && s.available <= p.capacity && e.now == intervals * p.interval && e.history.granted > 7 * p.capacity
    ensures !WithinTotal(p, s, e) && !WithinRate(p, s, e)
  {
    QuotientIs(intervals * p.interval, p.interval, intervals);
    MulMono(p.amount, intervals, 5);
    MulMono(p.amount, intervals + 1, 6);
  }

  /** From an empty enough bucket more callers reach a run that grants more than either rate allows. */
  lemma ManyExceed(p: Params, callers: nat) returns (s: State, e: State)
    requires Modest(p) && !Few(p, callers)
    ensures Ordinary(p, callers, s) && Comes(p, s, e) && OpensWell(p, s) && !WithinTotal(p, s, e) && !WithinRate(p, s, e)
  {
    if p.capacity >= 2 {
      s := Start(p, p.capacity - 2, callers);
      e := TwoCallersBrink(p, callers, s);
      e := Flood(p, s, e, 1, 0);
      Excessive(p, s, e, 5);
    } else {
      s := Start(p, 0, callers);
      e := ThreeCallersBrink(p, callers, s);
      e := Flood(p, s, e, 0, 1);
      Excessive(p, s, e, 4);
    }
  }

  lemma Stays(p: Params, s: State)
    requires p.interval > 0
    ensures Comes(p, s, s)
  {
    assert Calm(p, s, []) && Exec(p, s, []) == s;
  }

  /** In every interleaving, the rate over the whole run and over every window that opens well is kept exactly if there is
      one caller, or if there are two and the bucket holds one token. */
  lemma KeepsRateIff(p: Params, callers: nat)
    requires Modest(p)
    ensures KeepsRate(p, callers) <==> Few(p, callers)
    ensures KeepsWindows(p, callers) <==> Few(p, callers)
  {
    if Few(p, callers) {
      forall s, e | Ordinary(p, callers, s) && Comes(p, s, e) ensures WithinTotal(p, s, e) {
        Stays(p, s);
        FewKeep(p, callers, s, s, e);
      }
      forall s0, s, e | Ordinary(p, callers, s0) && Comes(p, s0, s) && Comes(p, s, e) && OpensWell(p, s)
        ensures WithinRate(p, s, e)
      {
        FewKeep(p, callers, s0, s, e);
      }
    } else {
      var s, e := ManyExceed(p, callers);
      Stays(p, s);
    }
  }

  // When the rate over a window is kept while no payment reads above capacity.

  ghost predicate WindowHolds(p: Params, s: State)
    requires p.interval > 0
  {
    forall e :: Reaches(p, s, e) ==> WithinRate(p, s, e)
  }

  /** An initial state of any number of threads whose tokens, and a full bucket for each and one more, fit in 64 bits. */
  ghost predicate Begins(p: Params, s: State) {
    Initial(p, s) && Room(p, s) < U64
  }

  lemma DueWindowHolds(p: Params, s0: State, s: State)
    requires WellFormed(p) && Begins(p, s0) && Reaches(p, s0, s) && OpensWell(p, s)
    ensures WindowHolds(p, s)
  {
    var before :| Calm(p, s0, before) && Sound(p, s0, before) && Exec(p, s0, before) == s;
    InitialExact(p, s0);
    SoundIsExact(p, s0, s0, before);
    forall e | Reaches(p, s, e) ensures WithinRate(p, s, e) {
      var run :| Calm(p, s, run) && Sound(p, s, run) && Exec(p, s, run) == e;
      hide Exec, Sound, Exact, Room, WithinRate;
      WindowBound(p, s0, s, run);
    }
  }

  /** A run to `e` that grants more than a full bucket and one refill in less than an interval breaks the rate. */
  lemma Exceeds(p: Params, s: State, e: State)
    requires p.interval > 0 && Reaches(p, s, e) && s.now <= e.now < s.now + p.interval
    requires e.history.granted - s.history.granted > p.capacity + p.amount
    ensures !WindowHolds(p, s)
  {
    QuotientIs(e.now - s.now, p.interval, 0);
    assert !WithinRate(p, s, e);
  }

  /** A full bucket whose refill is overdue by `late`, with one thread past a refill attempt of its own that came too
      early, one that read the clock when the refill fell due, and one idle. */
  function Overdue(p: Params, late: nat): State
    requires p.capacity < U64
  {
    State(p.capacity, 0, p.interval, p.interval + late,
          [LoadForTake(p.capacity, NotDue(p.interval)), LoadRefillAt(p.amount, p.interval), Idle], History(0, 0, 0, 0, 0, []))
  }

  lemma OverdueReached(p: Params, late: nat)
    requires Modest(p)
    ensures Reaches(p, Start(p, p.capacity, 3), Overdue(p, late))
  {
    hide Reaches;
    var s := Start(p, p.capacity, 3);
    Here(p, s);
    var e := CallEarly(p, s, s, 0, p.capacity);
    e := Then(p, s, e, Tick(p.interval));
    e := Then(p, s, e, Call(1, p.amount));
    e := Then(p, s, e, Run(1));
    e := Then(p, s, e, Tick(late));
    assert e == Overdue(p, late);
  }

  /** The first thread empties the bucket and the second refills and empties it again, all at one instant. */
  lemma EmptiedTwice(p: Params, late: nat) returns (e: State)
    requires Modest(p)
    ensures Reaches(p, Overdue(p, late), e)
    ensures e == State(0, 0, 2 * p.interval, p.interval + late, [Idle, Idle, Idle],
                       History(1, p.capacity + p.amount, 0, 0, 0, []))
  {
    hide Reaches, Elapsed;
    var s := Overdue(p, late);
    Here(p, s);
    e := TakeAlone(p, s, s, 0);
    ElapsedOne(p, p.interval);
    e := Claim(p, s, e, 1);
    e := PayAlone(p, s, e, 1);
    e := TakeAlone(p, s, e, 1);
    assert e.threads == [Idle, Idle, Idle];
  }

  lemma ElapsedWithin(p: Params, refillAt: nat, time: nat, late: nat)
    requires p.interval > 0 && refillAt <= time <= refillAt + late
    ensures 1 <= Elapsed(p, refillAt, time) && Tokens(p, Elapsed(p, refillAt, time)) <= Tokens(p, late / p.interval + 1)
  {
    QuotientMono(time - refillAt, late, p.interval);
    MulMono(p.amount, Elapsed(p, refillAt, time), late / p.interval + 1);
  }

  /** The tokens of a claim made that late fit in 64 bits beside a full bucket. */
  ghost predicate LateFits(p: Params, late: int)
    requires p.interval > 0
  {
    0 < late ==> Tokens(p, late / p.interval + 1) + p.capacity < U64
  }

  /** The third thread refills and takes once more less than an interval later. */
  lemma OverdueFails(p: Params, late: nat)
    requires Modest(p) && 0 < late && LateFits(p, late)
    ensures !WindowHolds(p, Overdue(p, late))
  {
    hide Reaches, Elapsed, WindowHolds;
    var s := Overdue(p, late);
    var e := EmptiedTwice(p, late);
    e := Then(p, s, e, Tick(if late < p.interval then p.interval - late else 0));
    ElapsedWithin(p, e.refillAt, e.now, late);
    MulMono(p.amount, 1, Elapsed(p, e.refillAt, e.now));
    e := CallAndClaim(p, s, e, 2, p.amount);
    e := PayAlone(p, s, e, 2);
    e := TakeAlone(p, s, e, 2);
    Exceeds(p, s, e);
  }

  /** A full bucket with two payments of one interval's tokens under way, and a thread about to take everything. */
  function TwoPayments(p: Params, late: int): State
    requires p.capacity < U64 && 0 <= p.interval + late
  {
    State(p.capacity, 0, 3 * p.interval, 3 * p.interval + late,
          [LoadAvailable(p.amount, 1), LoadForTake(p.capacity, NotDue(p.interval)), LoadAvailable(p.amount, 1)],
          History(2, 0, 0, 0, 0, []))
  }

  lemma TwoPaymentsReached(p: Params, late: int)
    requires Modest(p) && 0 <= p.interval + late
    ensures Reaches(p, Start(p, p.capacity, 3), TwoPayments(p, late))
  {
    hide Reaches, Elapsed;
    var s := Start(p, p.capacity, 3);
    Here(p, s);
    ElapsedOne(p, p.interval);
    ElapsedOne(p, 2 * p.interval);
    var e := CallEarly(p, s, s, 1, p.capacity);
    e := Then(p, s, e, Tick(p.interval));
    e := CallAndClaim(p, s, e, 0, p.amount);
    e := Then(p, s, e, Tick(p.interval));
    e := CallAndClaim(p, s, e, 2, p.amount);
    e := Then(p, s, e, Tick(p.interval + late));
    assert e == TwoPayments(p, late);
  }

  /** Whether or not a refill is overdue, payments under way break the rate at one instant. */
  lemma TwoPaymentsFail(p: Params, late: int)
    requires Modest(p) && 0 <= p.interval + late
    ensures !WindowHolds(p, TwoPayments(p, late))
  {
    hide Reaches, WindowHolds;
    var s := TwoPayments(p, late);
    Here(p, s);
    var e := TakeAlone(p, s, s, 1);
    e := PayAlone(p, s, e, 0);
    e := TakeAlone(p, s, e, 0);
    e := PayAlone(p, s, e, 2);
    e := TakeAlone(p, s, e, 2);
    Exceeds(p, s, e);
  }

  /** The tokens of two intervals as far as they fit the bucket. */
  function TwoRefills(p: Params): nat {
    if 2 * p.amount < p.capacity then 2 * p.amount else p.capacity
  }

  /** A full bucket with a single payment under way, for two intervals. */
  function OnePayment(p: Params, late: int): State
    requires p.capacity < U64 && 0 <= p.interval + late
  {
    State(p.capacity, 0, 3 * p.interval, 3 * p.interval + late,
          [LoadAvailable(TwoRefills(p), 2), LoadForTake(p.capacity, NotDue(p.interval)), Idle], History(2, 0, 0, 0, 0, []))
  }

  lemma OnePaymentReached(p: Params, late: int)
    requires Modest(p) && 0 <= p.interval + late
    ensures Reaches(p, Start(p, p.capacity, 3), OnePayment(p, late))
  {
    hide Reaches, Elapsed;
    var s := Start(p, p.capacity, 3);
    Here(p, s);
    assert Elapsed(p, p.interval, 2 * p.interval) == 2 by { QuotientIs(p.interval, p.interval, 1); }
    var e := CallEarly(p, s, s, 1, p.capacity);
    e := Then(p, s, e, Tick(2 * p.interval));
    e := CallAndClaim(p, s, e, 0, TwoRefills(p));
    e := Then(p, s, e, Tick(p.interval + late));
    assert e == OnePayment(p, late);
  }

  /** If a refill does not fill the bucket by itself, one payment is enough to break the rate, with no overlap. */
  lemma OnePaymentFails(p: Params, late: int)
    requires Modest(p) && p.amount < p.capacity && 0 <= p.interval + late
    ensures var s0, s := Start(p, p.capacity, 3), OnePayment(p, late);
      Begins(p, s0) && Reaches(p, s0, s) && NoOverlap(s) && !WindowHolds(p, s)
  {
    OnePaymentReached(p, late);
    hide Reaches, WindowHolds;
    var s := OnePayment(p, late);
    Here(p, s);
    var e := TakeAlone(p, s, s, 1);
    e := PayAlone(p, s, e, 0);
    e := TakeAlone(p, s, e, 0);
    Exceeds(p, s, e);
  }

  /** A bucket holding more than its capacity, which a builder's initial tokens, an amendment or an overlap can bring
      about, with three threads about to take it all. */
  function Overfull(p: Params, late: int): State
    requires p.capacity + p.amount + 1 < U64 && 0 <= p.interval + late
  {
    State(p.capacity + p.amount + 1, 0, p.interval, p.interval + late,
          [LoadForTake(p.capacity, NotDue(p.interval)), LoadForTake(p.amount, NotDue(p.interval)),
           LoadForTake(1, NotDue(p.interval))],
          History(0, 0, 0, 0, 0, []))
  }

  lemma OverfullReached(p: Params, late: int)
    requires Modest(p) && 0 <= p.interval + late
    ensures Reaches(p, Start(p, p.capacity + p.amount + 1, 3), Overfull(p, late))
  {
    hide Reaches;
    var s := Start(p, p.capacity + p.amount + 1, 3);
    Here(p, s);
    var e := CallEarly(p, s, s, 0, p.capacity);
    e := CallEarly(p, s, e, 1, p.amount);
    e := CallEarly(p, s, e, 2, 1);
    e := Then(p, s, e, Tick(p.interval + late));
    assert e == Overfull(p, late);
  }

  lemma OverfullFails(p: Params, late: int)
    requires Modest(p) && 0 <= p.interval + late
    ensures !WindowHolds(p, Overfull(p, late))
  {
    hide Reaches, WindowHolds;
    var s := Overfull(p, late);
    Here(p, s);
    var e := TakeAlone(p, s, s, 0);
    e := TakeAlone(p, s, e, 1);
    e := TakeAlone(p, s, e, 2);
    Exceeds(p, s, e);
  }

  /** States whose refill is late by `late`, with payments under way only if `paying`, and more than a full bucket only
      if `above`. */
  ghost predicate Opens(p: Params, s: State, late: int, paying: bool, above: bool) {
    && s.now == s.refillAt + late
    && (!paying ==> NonePaying(s))
    && (!above ==> s.available <= p.capacity)
  }

  lemma WindowFails(p: Params, late: int, paying: bool, above: bool) returns (s0: State, s: State)
    requires Modest(p) && 0 <= p.interval + late && LateFits(p, late) && (0 < late || paying || above)
    ensures Begins(p, s0) && Reaches(p, s0, s) && Opens(p, s, late, paying, above) && !WindowHolds(p, s)
  {
    hide Reaches, WindowHolds;
    s0 := Start(p, p.capacity, 3);
    if 0 < late {
      s := Overdue(p, late);
      OverdueReached(p, late);
      OverdueFails(p, late);
    } else if paying {
      s := TwoPayments(p, late);
      TwoPaymentsReached(p, late);
      TwoPaymentsFail(p, late);
    } else {
      s0, s := Start(p, p.capacity + p.amount + 1, 3), Overfull(p, late);
      OverfullReached(p, late);
      OverfullFails(p, late);
    }
  }

  /** While no payment reads above capacity, the rate is kept over every window from every reachable state of the kind
      exactly if no refill is overdue, no payment is under way and the bucket is within capacity. */
  lemma WindowHoldsIff(p: Params, late: int, paying: bool, above: bool)
    requires Modest(p) && 0 <= p.interval + late && LateFits(p, late)
    ensures (forall s0, s :: Begins(p, s0) && Reaches(p, s0, s) && Opens(p, s, late, paying, above) ==> WindowHolds(p, s))
      <==> late <= 0 && !paying && !above
  {
    hide Reaches, WindowHolds;
    if late <= 0 && !paying && !above {
      forall s0, s | Begins(p, s0) && Reaches(p, s0, s) && Opens(p, s, late, paying, above) ensures WindowHolds(p, s) {
        DueWindowHolds(p, s0, s);
      }
    } else {
      var s0, s := WindowFails(p, late, paying, above);
    }
  }
}
