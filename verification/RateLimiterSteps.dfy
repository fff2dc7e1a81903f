/** The rate limiter under concurrency: any number of threads run `try_wait_n`, one atomic
    operation per step, in any order, while time passes and tokens are amended. */
module RateLimiterSteps {
  import opened TokenBucket

  /** Where a thread stands in `try_wait_n(n)`: the next atomic operation, or reading of the clock, it will perform. */
  datatype Pc =
    | Idle
    | ReadClock(n: nat)
    | LoadRefillAt(n: nat, time: nat)
    | ClaimIntervals(n: nat, time: nat, seenAt: nat)
    | LoadAvailable(n: nat, intervals: nat)
    | AddTokens(n: nat, due: Word, read: Word)
    | AddDropped(n: nat, excess: Word)
    | LoadForTake(n: nat, refill: Refill)
    | Take(n: nat, refill: Refill, seen: Word)

  /** A call that was told to come back after a delay. */
  datatype Refusal = Refusal(thread: nat, n: nat, delay: nat)

  /** What happened so far: intervals claimed, tokens granted, tokens removed by amendments net of those added, how often
      2^64 was lost to wrap-around on the way into the bucket, net, and how often by the count of dropped tokens; and the
      calls refused. */
  datatype History = History(claimed: nat, granted: nat, amended: int, wraps: int, lost: nat, refused: seq<Refusal>)

  datatype State = State(available: Word, dropped: Word, refillAt: nat, now: nat, threads: seq<Pc>, history: History)

  /** A schedule is any sequence of these; one that does not apply changes nothing. */
  datatype Label = Tick(nanos: nat) | Call(thread: nat, n: nat) | Run(thread: nat) | Amend(remove: int)

  predicate Initial(p: Params, s: State) {
    && s.dropped == 0
    && s.refillAt == s.now + p.interval
    && s.history == History(0, 0, 0, 0, 0, [])
    && forall i :: 0 <= i < |s.threads| ==> s.threads[i] == Idle
  }

  function Goto(s: State, t: nat, pc: Pc): State
    requires t < |s.threads|
  {
    s.(threads := s.threads[t := pc])
  }

  function Refuse(s: State, t: nat, n: nat, delay: nat): State
    requires t < |s.threads|
  {
    Goto(s, t, Idle).(history := s.history.(refused := s.history.refused + [Refusal(t, n, delay)]))
  }

  function RunThread(p: Params, s: State, t: nat): State
    requires p.interval > 0 && t < |s.threads|
  {
    var h := s.history;
    match s.threads[t]
    case Idle => s
    case ReadClock(n) => Goto(s, t, LoadRefillAt(n, s.now))
    case LoadRefillAt(n, time) =>
      if time < s.refillAt then Goto(s, t, LoadForTake(n, NotDue(s.refillAt - time)))
      else Goto(s, t, ClaimIntervals(n, time, s.refillAt))
    case ClaimIntervals(n, time, seenAt) =>
      if s.refillAt != seenAt || time < seenAt then Goto(s, t, LoadRefillAt(n, time))
      else
        var k := Elapsed(p, seenAt, time);
        Goto(s, t, LoadAvailable(n, k)).(refillAt := seenAt + k * p.interval, history := h.(claimed := h.claimed + k))
    case LoadAvailable(n, k) =>
      var owed := Tokens(p, k);
      Goto(s, t, AddTokens(n, Wrap(owed), s.available)).(history := h.(wraps := h.wraps + Carry(owed)))
    case AddTokens(n, due, read) =>
      var add := ToAdd(p, read, due);
      Goto(s, t, if Wrap(read + due) >= p.capacity then AddDropped(n, Wrap(due - add)) else LoadForTake(n, Refilled))
      .(available := Wrap(s.available + add),
        history := h.(wraps := h.wraps + Carry(s.available + add) + Carry(due - add)))
    case AddDropped(n, excess) =>
      Goto(s, t, LoadForTake(n, Refilled))
      .(dropped := Wrap(s.dropped + excess), history := h.(lost := h.lost + Carry(s.dropped + excess)))
    case LoadForTake(n, refill) =>
      if s.available >= n then Goto(s, t, Take(n, refill, s.available))
      else if refill.Refilled? then Goto(s, t, ReadClock(n))
      else Refuse(s, t, n, refill.delay)
    case Take(n, refill, seen) =>
      if s.available != seen || seen < n then Goto(s, t, LoadForTake(n, refill))
      else Goto(s, t, Idle).(available := seen - n, history := h.(granted := h.granted + n))
  }

  function Apply(p: Params, s: State, l: Label): State
    requires p.interval > 0
  {
    match l
    case Tick(nanos) => s.(now := s.now + nanos)
    case Call(t, n) =>
      if t >= |s.threads| || !s.threads[t].Idle? then s
      else if n == 0 || n > p.capacity then Refuse(s, t, n, 0)
      else Goto(s, t, ReadClock(n))
    case Run(t) => if t < |s.threads| then RunThread(p, s, t) else s
    case Amend(remove) =>
      var a := Amended(s.available, remove);
      s.(available := a, history := s.history.(amended := s.history.amended + s.available - a))
  }

  function Exec(p: Params, s: State, run: seq<Label>): State
    requires p.interval > 0
    decreases run
  {
    if run == [] then s else Exec(p, Apply(p, s, run[0]), run[1..])
  }

  /** One thread's next `steps` steps with nobody else running. */
  function RunAlone(p: Params, s: State, t: nat, steps: nat): State
    requires p.interval > 0 && t < |s.threads|
    decreases steps
  {
    if steps == 0 then s else RunAlone(p, RunThread(p, s, t), t, steps - 1)
  }

  /** Tokens a thread has claimed with its compare-exchange and not yet paid into the bucket or dropped. */
  function Debt(p: Params, pc: Pc): nat {
    match pc
    case LoadAvailable(_, k) => Tokens(p, k)
    case AddTokens(_, due, _) => due
    case AddDropped(_, excess) => excess
    case _ => 0
  }

  function Unpaid(p: Params, threads: seq<Pc>): nat {
    if threads == [] then 0 else Debt(p, threads[0]) + Unpaid(p, threads[1..])
  }

  /** A thread between claiming intervals and paying for them. */
  predicate Paying(pc: Pc) {
    pc.LoadAvailable? || pc.AddTokens?
  }

  /** The part of the unpaid tokens that may still get into the bucket; the rest is about to be dropped. */
  function Owing(p: Params, threads: seq<Pc>): nat {
    if threads == [] then 0 else (if Paying(threads[0]) then Debt(p, threads[0]) else 0) + Owing(p, threads[1..])
  }

  lemma {:induction false} OwingUpdate(p: Params, threads: seq<Pc>, t: nat, pc: Pc)
    requires t < |threads|
    ensures Owing(p, threads[t := pc]) == Owing(p, threads)
      - (if Paying(threads[t]) then Debt(p, threads[t]) else 0) + if Paying(pc) then Debt(p, pc) else 0
  {
    if t > 0 {
      assert threads[t := pc][1..] == threads[1..][t - 1 := pc];
      OwingUpdate(p, threads[1..], t - 1, pc);
    }
  }

  lemma {:induction false} NothingOwing(p: Params, threads: seq<Pc>)
    requires forall i :: 0 <= i < |threads| ==> !Paying(threads[i])
    ensures Owing(p, threads) == 0
  {
    if threads != [] { NothingOwing(p, threads[1..]); }
  }

  lemma {:induction false} UnpaidUpdate(p: Params, threads: seq<Pc>, t: nat, pc: Pc)
    requires t < |threads|
    ensures Unpaid(p, threads[t := pc]) == Unpaid(p, threads) - Debt(p, threads[t]) + Debt(p, pc)
  {
    if t > 0 {
      assert threads[t := pc][1..] == threads[1..][t - 1 := pc];
      UnpaidUpdate(p, threads[1..], t - 1, pc);
    }
  }

  lemma {:induction false} NothingUnpaid(p: Params, threads: seq<Pc>)
    requires forall i :: 0 <= i < |threads| ==> Debt(p, threads[i]) == 0
    ensures Unpaid(p, threads) == 0
  {
    if threads != [] { NothingUnpaid(p, threads[1..]); }
  }

  /** The tokens a state accounts for: available, dropped, granted, amended away and still owed,
      with every wrap-around added back. */
  ghost function Accounted(p: Params, s: State): int {
    s.available + s.dropped + s.history.granted + s.history.amended + Unpaid(p, s.threads)
    + U64 * (s.history.wraps + s.history.lost)
  }

  /** Conservation of tokens: what was there at first plus what was claimed is accounted for. */
  ghost predicate Conserved(p: Params, initial: nat, s: State) {
    initial + p.amount * s.history.claimed == Accounted(p, s)
  }

  /** No interval is claimed twice or early: the claimed ones tile the time from `start` to `refillAt`. */
  ghost predicate ClaimsTile(p: Params, start: nat, s: State) {
    && s.history.claimed * p.interval == s.refillAt - start
    && s.refillAt <= s.now + p.interval
    && forall i :: 0 <= i < |s.threads| ==>
      (s.threads[i].LoadRefillAt? || s.threads[i].ClaimIntervals?) ==> s.threads[i].time <= s.now
  }

  ghost predicate Inv(p: Params, initial: nat, start: nat, s: State) {
    Conserved(p, initial, s) && ClaimsTile(p, start, s)
  }

  /** What one thread's share of the accounts comes to. */
  ghost function Share(p: Params, s: State, t: nat): int
    requires t < |s.threads|
  {
    s.available + s.dropped + s.history.granted + s.history.amended + Debt(p, s.threads[t])
    + U64 * (s.history.wraps + s.history.lost)
  }

  ghost predicate Accounts(p: Params, s: State, s': State, t: nat)
    requires t < |s.threads| == |s'.threads|
  {
    && s'.threads == s.threads[t := s'.threads[t]] && s'.history.claimed >= s.history.claimed
    && Share(p, s', t) == Share(p, s, t) + Tokens(p, s'.history.claimed - s.history.claimed)
  }

  lemma PaymentAccounts(p: Params, s: State, t: nat)
    requires p.interval > 0 && t < |s.threads| && (Paying(s.threads[t]) || s.threads[t].AddDropped?)
    ensures Accounts(p, s, RunThread(p, s, t), t)
  {
    hide Tokens, Wrap, Carry, ToAdd;
  }

  lemma OtherAccounts(p: Params, s: State, t: nat)
    requires p.interval > 0 && t < |s.threads| && !Paying(s.threads[t]) && !s.threads[t].AddDropped?
    ensures Accounts(p, s, RunThread(p, s, t), t)
  {
    hide Tokens, Elapsed;
  }

  /** A thread's step changes what is accounted for by exactly the tokens of the intervals it claims. */
  lemma RunConserves(p: Params, s: State, t: nat)
    requires p.interval > 0 && t < |s.threads|
    ensures var s' := RunThread(p, s, t);
      && s'.history.claimed >= s.history.claimed
      && Accounted(p, s') == Accounted(p, s) + Tokens(p, s'.history.claimed - s.history.claimed)
  {
    hide RunThread, Tokens, Unpaid, Debt;
    if Paying(s.threads[t]) || s.threads[t].AddDropped? { PaymentAccounts(p, s, t); } else { OtherAccounts(p, s, t); }
    UnpaidUpdate(p, s.threads, t, RunThread(p, s, t).threads[t]);
  }

  lemma StepConserves(p: Params, initial: nat, s: State, l: Label)
    requires p.interval > 0 && Conserved(p, initial, s)
    ensures Conserved(p, initial, Apply(p, s, l))
  {
    hide RunThread;
    var s' := Apply(p, s, l);
    if l.Run? && l.thread < |s.threads| {
      RunConserves(p, s, l.thread);
      MulDiff(p.amount, s'.history.claimed, s.history.claimed);
    } else if l.Call? && l.thread < |s.threads| {
      UnpaidUpdate(p, s.threads, l.thread, s'.threads[l.thread]);
    }
  }

  lemma StepTiles(p: Params, start: nat, s: State, l: Label)
    requires p.interval > 0 && ClaimsTile(p, start, s)
    ensures ClaimsTile(p, start, Apply(p, s, l))
  {
    if l.Run? && l.thread < |s.threads| {
      var pc := s.threads[l.thread];
      if pc.ClaimIntervals? && s.refillAt == pc.seenAt <= pc.time {
        var k := Elapsed(p, pc.seenAt, pc.time);
        assert (s.history.claimed + k) * p.interval == s.history.claimed * p.interval + k * p.interval;
      }
    }
  }

  lemma {:induction false} RunKeepsInv(p: Params, initial: nat, start: nat, s: State, run: seq<Label>)
    requires p.interval > 0 && Inv(p, initial, start, s)
    ensures Inv(p, initial, start, Exec(p, s, run))
    decreases run
  {
    if run != [] {
      StepConserves(p, initial, s, run[0]);
      StepTiles(p, start, s, run[0]);
      RunKeepsInv(p, initial, start, Apply(p, s, run[0]), run[1..]);
    }
  }

  lemma InitialInv(p: Params, s: State)
    requires p.interval > 0 && Initial(p, s)
    ensures Inv(p, s.available, s.refillAt, s)
  {
    NothingUnpaid(p, s.threads);
  }

  /** Every interleaving conserves tokens and claims each interval once. */
  lemma Conservation(p: Params, s: State, run: seq<Label>)
    requires p.interval > 0 && Initial(p, s)
    ensures var e := Exec(p, s, run);
      && s.available + p.amount * e.history.claimed
         == e.available + e.dropped + e.history.granted + e.history.amended + Unpaid(p, e.threads)
            + U64 * (e.history.wraps + e.history.lost)
      && e.history.claimed * p.interval == e.refillAt - s.refillAt
  {
    InitialInv(p, s);
    RunKeepsInv(p, s.available, s.refillAt, s, run);
  }

  /** Whether a step's sums and products on the way into the bucket stay within 64 bits. */
  predicate InRange(p: Params, s: State, l: Label) {
    l.Run? && l.thread < |s.threads| ==>
      match s.threads[l.thread]
      case LoadAvailable(_, k) => Tokens(p, k) < U64
      case AddTokens(_, due, read) => read + due < U64 && s.available + ToAdd(p, read, due) < U64
      case _ => true
  }

  /** A payment whose reading of the bucket was at most capacity, so that the difference to capacity does not wrap. */
  predicate ReadsWithin(p: Params, s: State, l: Label) {
    l.Run? && l.thread < |s.threads| && s.threads[l.thread].AddTokens? ==> s.threads[l.thread].read <= p.capacity
  }

  /** A run all of whose payments are of that kind. */
  predicate Sound(p: Params, s: State, run: seq<Label>)
    requires p.interval > 0
    decreases run
  {
    run == [] || (ReadsWithin(p, s, run[0]) && Sound(p, Apply(p, s, run[0]), run[1..]))
  }

  /** Whether the tokens of the intervals a step claims, if it claims any, fit in 64 bits beside a full bucket. */
  predicate ClaimFits(p: Params, s: State, l: Label)
    requires p.interval > 0
  {
    l.Run? && l.thread < |s.threads| ==>
      match s.threads[l.thread]
      case ClaimIntervals(_, time, seenAt) =>
        s.refillAt == seenAt <= time ==> Tokens(p, Elapsed(p, seenAt, time)) + p.capacity < U64
      case _ => true
  }

  /** A run all of whose claims do, and that amends no tokens into the bucket. */
  predicate Calm(p: Params, s: State, run: seq<Label>)
    requires p.interval > 0
    decreases run
  {
    run == [] ||
    (&& ClaimFits(p, s, run[0]) && (run[0].Amend? ==> run[0].remove >= 0)
     && Calm(p, Apply(p, s, run[0]), run[1..]))
  }

  /** Nothing wrapped on the way into the bucket from `s` to `e`, and what is counted only grew. */
  ghost predicate Grew(s: State, e: State) {
    && e.history.wraps == s.history.wraps && e.history.lost >= s.history.lost
    && e.history.amended >= s.history.amended && e.history.granted >= s.history.granted
    && e.history.claimed >= s.history.claimed && e.refillAt >= s.refillAt && e.now >= s.now
  }

  /** The tokens dropped or about to be: they never get into the bucket. */
  ghost function Waste(p: Params, s: State): int {
    s.dropped + U64 * s.history.lost + Unpaid(p, s.threads) - Owing(p, s.threads)
  }

  /** One thread's part in it. */
  ghost function OwnWaste(p: Params, s: State, t: nat): int
    requires t < |s.threads|
  {
    s.dropped + U64 * s.history.lost + if Paying(s.threads[t]) then 0 else Debt(p, s.threads[t])
  }

  lemma RunWastes(p: Params, s: State, t: nat)
    requires WellFormed(p) && t < |s.threads| && InRange(p, s, Run(t)) && ReadsWithin(p, s, Run(t))
    ensures var s' := RunThread(p, s, t);
      |s'.threads| == |s.threads| && s'.threads == s.threads[t := s'.threads[t]] && OwnWaste(p, s, t) <= OwnWaste(p, s', t)
  {
    hide Tokens, Elapsed, Carry;
  }

  lemma StepWastes(p: Params, s: State, l: Label)
    requires WellFormed(p) && InRange(p, s, l) && ReadsWithin(p, s, l)
    ensures Waste(p, s) <= Waste(p, Apply(p, s, l))
  {
    var s' := Apply(p, s, l);
    if (l.Run? || l.Call?) && l.thread < |s.threads| {
      if l.Run? { RunWastes(p, s, l.thread); }
      hide RunThread;
      UnpaidUpdate(p, s.threads, l.thread, s'.threads[l.thread]);
      OwingUpdate(p, s.threads, l.thread, s'.threads[l.thread]);
      hide Unpaid, Owing;
    }
  }

  lemma ClaimsCost(p: Params, claims: nat, span: nat)
    requires p.interval > 0 && p.interval * claims <= span
    ensures p.amount * claims <= p.amount * (span / p.interval)
  {
    IntervalsWithin(claims, p.interval, span);
    MulMono(p.amount, claims, span / p.interval);
  }

  // How full the bucket can get.

  function Promise(p: Params, pc: Pc): nat {
    if pc.AddTokens? && pc.read <= p.capacity then p.capacity - pc.read else 0
  }

  /** What the payments that have read the bucket can still add to it, if they read at most capacity. */
  function Promised(p: Params, threads: seq<Pc>): nat {
    if threads == [] then 0 else Promise(p, threads[0]) + Promised(p, threads[1..])
  }

  lemma {:induction false} PromisedUpdate(p: Params, threads: seq<Pc>, t: nat, pc: Pc)
    requires t < |threads|
    ensures Promised(p, threads[t := pc]) == Promised(p, threads) - Promise(p, threads[t]) + Promise(p, pc)
    ensures Promise(p, threads[t]) <= Promised(p, threads)
  {
    if t > 0 {
      assert threads[t := pc][1..] == threads[1..][t - 1 := pc];
      PromisedUpdate(p, threads[1..], t - 1, pc);
    }
  }

  lemma {:induction false} PromisedWithin(p: Params, threads: seq<Pc>)
    ensures Promised(p, threads) <= p.capacity * |threads|
  {
    if threads != [] {
      PromisedWithin(p, threads[1..]);
      MulDiff(p.capacity, |threads|, 1);
    }
  }

  lemma {:induction false} NothingPromised(p: Params, threads: seq<Pc>)
    requires forall i :: 0 <= i < |threads| ==> threads[i] == Idle
    ensures Promised(p, threads) == 0
  {
    if threads != [] { NothingPromised(p, threads[1..]); }
  }

  /** The initial tokens, and as many full buckets as there are threads and one more. */
  ghost function Room(p: Params, s0: State): nat {
    s0.available + p.capacity + p.capacity * |s0.threads|
  }

  /** The tokens a thread has claimed fit beside a full bucket. */
  ghost predicate DueFits(p: Params, pc: Pc) {
    && (pc.LoadAvailable? ==> Tokens(p, pc.intervals) + p.capacity < U64)
    && (pc.AddTokens? ==> pc.due + p.capacity < U64)
  }

  ghost predicate Roomy(p: Params, s0: State, s: State) {
    && |s.threads| == |s0.threads| && s.available + Promised(p, s.threads) <= Room(p, s0)
    && forall i :: 0 <= i < |s.threads| ==> DueFits(p, s.threads[i])
  }

  lemma RoomyInRange(p: Params, s0: State, s: State, l: Label)
    requires WellFormed(p) && Roomy(p, s0, s) && Room(p, s0) < U64 && ReadsWithin(p, s, l)
    ensures InRange(p, s, l)
  {
    if l.Run? && l.thread < |s.threads| {
      PromisedUpdate(p, s.threads, l.thread, Idle);
      assert DueFits(p, s.threads[l.thread]);
      hide Promised, Tokens;
    }
  }

  /** What a thread's step may do to the bucket and to what it has promised. */
  ghost predicate KeepsPromise(p: Params, s: State, s': State, t: nat)
    requires t < |s.threads| == |s'.threads|
  {
    && s'.threads == s.threads[t := s'.threads[t]] && DueFits(p, s'.threads[t])
    && (s'.available + Promise(p, s'.threads[t]) <= s.available + Promise(p, s.threads[t]) || s'.available <= p.capacity)
  }

  lemma RunKeepsPromise(p: Params, s: State, t: nat)
    requires WellFormed(p) && t < |s.threads| && InRange(p, s, Run(t)) && ReadsWithin(p, s, Run(t))
    requires ClaimFits(p, s, Run(t)) && DueFits(p, s.threads[t])
    ensures KeepsPromise(p, s, RunThread(p, s, t), t)
  {
    hide Tokens, Elapsed, Carry;
  }

  lemma StepRoomy(p: Params, s0: State, s: State, l: Label)
    requires WellFormed(p) && Roomy(p, s0, s) && InRange(p, s, l) && ReadsWithin(p, s, l)
    requires ClaimFits(p, s, l) && (l.Amend? ==> l.remove >= 0)
    ensures Roomy(p, s0, Apply(p, s, l))
  {
    var s' := Apply(p, s, l);
    if (l.Run? || l.Call?) && l.thread < |s.threads| {
      assert DueFits(p, s.threads[l.thread]);
      if l.Run? { RunKeepsPromise(p, s, l.thread); }
      hide RunThread, Promised, Promise, DueFits;
      PromisedUpdate(p, s.threads, l.thread, s'.threads[l.thread]);
      PromisedWithin(p, s'.threads);
    }
  }

  // Runs on which no payment reads above capacity.

  /** A state of a run from `s0` on which nothing has wrapped so far, on balance, and no tokens were amended in. */
  ghost predicate Exact(p: Params, s0: State, s: State) {
    && Initial(p, s0) && Inv(p, s0.available, s0.refillAt, s) && s0.now <= s.now
    && s.history.wraps == 0 && s.history.amended >= 0 && Roomy(p, s0, s)
  }

  lemma StepInRange(p: Params, s0: State, s: State, l: Label)
    requires WellFormed(p) && Exact(p, s0, s) && Room(p, s0) < U64 && ReadsWithin(p, s, l)
    ensures InRange(p, s, l)
  {
    RoomyInRange(p, s0, s, l);
  }

  lemma StepGrows(p: Params, s: State, l: Label)
    requires WellFormed(p) && InRange(p, s, l) && ReadsWithin(p, s, l) && (l.Amend? ==> l.remove >= 0)
    ensures Grew(s, Apply(p, s, l))
  {}

  lemma StepExact(p: Params, s0: State, s: State, l: Label)
    requires WellFormed(p) && Exact(p, s0, s) && Room(p, s0) < U64 && ReadsWithin(p, s, l)
    requires ClaimFits(p, s, l) && (l.Amend? ==> l.remove >= 0)
    ensures var s' := Apply(p, s, l); Exact(p, s0, s') && Grew(s, s') && Waste(p, s) <= Waste(p, s')
  {
    StepInRange(p, s0, s, l);
    StepWastes(p, s, l);
    StepGrows(p, s, l);
    StepConserves(p, s0.available, s, l);
    StepTiles(p, s0.refillAt, s, l);
    StepRoomy(p, s0, s, l);
    hide Apply, Waste, Roomy, Room;
  }

  lemma {:induction false} ClockAdvances(p: Params, s: State, run: seq<Label>)
    requires p.interval > 0
    ensures s.now <= Exec(p, s, run).now
    decreases run
  {
    if run != [] { ClockAdvances(p, Apply(p, s, run[0]), run[1..]); }
  }

  /** As long as no payment reads above capacity, nothing wraps on the way into the bucket and what is counted only grows,
      in every interleaving. */
  lemma {:induction false} SoundIsExact(p: Params, s0: State, s: State, run: seq<Label>)
    requires WellFormed(p) && Exact(p, s0, s) && Room(p, s0) < U64 && Calm(p, s, run) && Sound(p, s, run)
    ensures var e := Exec(p, s, run); Exact(p, s0, e) && Grew(s, e) && Waste(p, s) <= Waste(p, e)
    decreases run
  {
    if run != [] {
      StepExact(p, s0, s, run[0]);
      hide Exact, Waste, Apply, Room;
      SoundIsExact(p, s0, Apply(p, s, run[0]), run[1..]);
    }
  }

  /** Grants between two states are covered by the first one's bucket, the payments under way in it
      and the intervals claimed since; and claims never run ahead of the clock by more than one interval. */
  lemma GrantsCovered(p: Params, initial: nat, start: nat, s: State, e: State)
    requires Inv(p, initial, start, s) && Inv(p, initial, start, e) && Grew(s, e) && Waste(p, s) <= Waste(p, e)
    ensures e.history.granted - s.history.granted
         <= s.available + Owing(p, s.threads) + p.amount * (e.history.claimed - s.history.claimed)
    ensures p.interval * (e.history.claimed - s.history.claimed) == e.refillAt - s.refillAt <= e.now + p.interval - s.refillAt
  {
    MulDiff(p.amount, e.history.claimed, s.history.claimed);
    MulDiff(p.interval, e.history.claimed, s.history.claimed);
  }

  /** The rate over a whole run. */
  ghost predicate WithinTotal(p: Params, s: State, e: State)
    requires p.interval > 0
  {
    s.now <= e.now && e.history.granted <= s.available + p.amount * ((e.now - s.now) / p.interval)
  }

  lemma InitialExact(p: Params, s: State)
    requires p.interval > 0 && Initial(p, s)
    ensures Exact(p, s, s) && Owing(p, s.threads) == 0
  {
    InitialInv(p, s);
    NothingOwing(p, s.threads);
    NothingPromised(p, s.threads);
  }

  /** Over a whole run at most the initial tokens plus one refill per elapsed interval are granted. */
  lemma RateBound(p: Params, s: State, run: seq<Label>)
    requires WellFormed(p) && Initial(p, s) && Room(p, s) < U64 && Calm(p, s, run) && Sound(p, s, run)
    ensures WithinTotal(p, s, Exec(p, s, run))
  {
    var e := Exec(p, s, run);
    InitialExact(p, s);
    SoundIsExact(p, s, s, run);
    GrantsCovered(p, s.available, s.refillAt, s, e);
    ClaimsCost(p, e.history.claimed, e.now - s.now);
  }

  /** Over any stretch at most the bucket and the payments under way at its start, plus one refill for each interval from
      the refill due at its start to one interval after its end. */
  lemma GrantBound(p: Params, s0: State, s: State, run: seq<Label>)
    requires WellFormed(p) && Exact(p, s0, s) && Room(p, s0) < U64 && Calm(p, s, run) && Sound(p, s, run)
    ensures var e := Exec(p, s, run);
      s.refillAt <= e.now + p.interval && e.history.granted - s.history.granted
         <= s.available + Owing(p, s.threads) + p.amount * ((e.now + p.interval - s.refillAt) / p.interval)
  {
    var e := Exec(p, s, run);
    SoundIsExact(p, s0, s, run);
    hide Exec, Sound, Calm, Room, Roomy, Owing, Waste, Conserved, ClaimsTile, Initial;
    GrantsCovered(p, s0.available, s0.refillAt, s, e);
    var claims, span := e.history.claimed - s.history.claimed, e.now + p.interval - s.refillAt;
    assert p.interval * claims <= span;
    ClaimsCost(p, claims, span);
  }

  ghost predicate NonePaying(s: State) {
    forall i :: 0 <= i < |s.threads| ==> !Paying(s.threads[i])
  }

  /** The rate the limiter is for: a full bucket, one refill per interval of the window, and one more. */
  ghost predicate WithinRate(p: Params, s: State, e: State)
    requires p.interval > 0
  {
    s.now <= e.now && e.history.granted - s.history.granted <= p.capacity + p.amount * ((e.now - s.now) / p.interval + 1)
  }

  /** It is kept over every window that opens with no refill overdue, no payment under way and no more than a full bucket,
      as long as no payment reads above capacity. */
  lemma WindowBound(p: Params, s0: State, s: State, run: seq<Label>)
    requires WellFormed(p) && Exact(p, s0, s) && Room(p, s0) < U64 && Calm(p, s, run) && Sound(p, s, run)
    requires s.now <= s.refillAt && NonePaying(s) && s.available <= p.capacity
    ensures WithinRate(p, s, Exec(p, s, run))
  {
    var e := Exec(p, s, run);
    GrantBound(p, s0, s, run);
    ClockAdvances(p, s, run);
    NothingOwing(p, s.threads);
    hide Exec, Sound, Calm, Room, Owing, Exact;
    TokensWithin(p.amount, e.now + p.interval - s.refillAt, e.now - s.now, p.interval);
  }

  ghost predicate NoOverlap(s: State) {
    forall i, j :: 0 <= i < j < |s.threads| ==> !(Paying(s.threads[i]) && Paying(s.threads[j]))
  }

  ghost predicate NeverOverlaps(p: Params, s: State, run: seq<Label>)
    requires p.interval > 0
    decreases run
  {
    NoOverlap(s) &&
    (run == [] || NeverOverlaps(p, Apply(p, s, run[0]), run[1..]))
  }

  ghost predicate WithinCapacity(p: Params, s: State) {
    && s.available <= p.capacity
    && forall i :: 0 <= i < |s.threads| && s.threads[i].AddTokens? ==> s.available <= s.threads[i].read <= p.capacity
  }

  lemma StepWithinCapacity(p: Params, s: State, l: Label)
    requires WellFormed(p) && WithinCapacity(p, s) && NoOverlap(s)
    requires l.Amend? ==> l.remove >= 0
    requires l.Run? && l.thread < |s.threads| && s.threads[l.thread].AddTokens? ==>
      s.threads[l.thread].read + s.threads[l.thread].due < U64
    ensures WithinCapacity(p, Apply(p, s, l))
  {
    var s' := Apply(p, s, l);
    if l.Run? && l.thread < |s.threads| && s.threads[l.thread].AddTokens? {
      forall i | 0 <= i < |s'.threads| && s'.threads[i].AddTokens?
        ensures false
      {
        assert i != l.thread && Paying(s.threads[i]) && Paying(s.threads[l.thread]);
      }
    }
  }

  /** As long as no two threads are between claim and payment at once the bucket never exceeds its capacity, and so no
      payment reads above it. */
  lemma {:induction false} CapacityKept(p: Params, s0: State, s: State, run: seq<Label>)
    requires WellFormed(p) && Exact(p, s0, s) && Room(p, s0) < U64 && WithinCapacity(p, s)
    requires Calm(p, s, run) && NeverOverlaps(p, s, run)
    ensures Exec(p, s, run).available <= p.capacity && Sound(p, s, run)
    decreases run
  {
    if run != [] {
      var l, s' := run[0], Apply(p, s, run[0]);
      StepInRange(p, s0, s, l);
      StepExact(p, s0, s, l);
      StepWithinCapacity(p, s, l);
      hide Exact, Apply, Room, WithinCapacity;
      CapacityKept(p, s0, s', run[1..]);
    }
  }

  /** What a payment does whose reading was above capacity: the surplus it read is taken out of what is there by then,
      through the wrap-around of the subtraction and, if that much is left, of the addition. If it is not, the bucket
      wraps around. */
  lemma SurplusTakenOut(p: Params, s: State, t: nat)
    requires WellFormed(p) && t < |s.threads| && s.threads[t].AddTokens?
    requires p.capacity < s.threads[t].read && s.threads[t].read + s.threads[t].due < U64
    ensures var s', surplus := RunThread(p, s, t), s.threads[t].read - p.capacity;
      && s'.available == Wrap(s.available - surplus)
      && s'.threads[t] == AddDropped(s.threads[t].n, s.threads[t].due + surplus)
      && (s'.history.wraps == s.history.wraps <==> s.available >= surplus)
      && (s'.available <= s.available <==> s.available >= surplus)
  {
    var due, surplus := s.threads[t].due, s.threads[t].read - p.capacity;
    var add := ToAdd(p, s.threads[t].read, due);
    assert add == U64 - surplus;
    assert Carry(s.available + add) == if s.available >= surplus then 1 else 0;
    assert due - add == due + surplus - U64 && Carry(due - add) == -1;
  }
}
