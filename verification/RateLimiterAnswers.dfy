/** What a call of the rate limiter is answered: by itself, what the sequential limiter answers; in every interleaving,
    tokens or a refusal exactly when the code means to give them. */
module RateLimiterAnswers {
  import opened TokenBucket
  import opened RateLimiterSteps
  import Sequential = RateLimiter
  import Limits = RateLimiterLimits

  // One call with nobody else running.

  /** A run of one thread's steps while time passes. */
  ghost predicate By(run: seq<Label>, t: nat) {
    forall i :: 0 <= i < |run| ==> run[i].Tick? || run[i] == Run(t)
  }

  ghost predicate Alone(p: Params, s: State, t: nat, e: State)
    requires p.interval > 0
  {
    exists run :: By(run, t) && Exec(p, s, run) == e
  }

  lemma AloneThen(p: Params, s: State, t: nat, m: State, e: State)
    requires p.interval > 0 && Alone(p, s, t, m) && Alone(p, m, t, e)
    ensures Alone(p, s, t, e)
  {
    var a :| By(a, t) && Exec(p, s, a) == m;
    var b :| By(b, t) && Exec(p, m, b) == e;
    Limits.ExecAppend(p, s, a, b);
    assert By(a + b, t);
  }

  lemma AloneStep(p: Params, s: State, t: nat, l: Label) returns (e: State)
    requires p.interval > 0 && (l.Tick? || l == Run(t))
    ensures e == Apply(p, s, l) && Alone(p, s, t, e)
  {
    e := Apply(p, s, l);
    assert [l][1..] == [] && Exec(p, e, []) == e;
    assert By([l], t) && Exec(p, s, [l]) == e;
  }

  lemma {:induction false} AloneSteps(p: Params, s: State, t: nat, steps: nat)
    requires p.interval > 0 && t < |s.threads|
    ensures Alone(p, s, t, RunAlone(p, s, t, steps))
    decreases steps
  {
    if steps == 0 {
      assert By([], t) && Exec(p, s, []) == s;
    } else {
      var m := AloneStep(p, s, t, Run(t));
      AloneSteps(p, m, t, steps - 1);
      AloneThen(p, s, t, m, RunAlone(p, s, t, steps));
    }
  }

  ghost function BucketOf(s: State): Sequential.Bucket {
    Sequential.Bucket(s.available, s.dropped, s.refillAt)
  }

  /** From `s` to `e` thread `t` has been answered what a call of the sequential limiter is, which leaves the same bucket. */
  ghost predicate Answered(s: State, t: nat, n: nat, w: Sequential.Waited, e: State)
    requires t < |s.threads|
  {
    && BucketOf(e) == w.bucket && e.threads == s.threads[t := Idle]
    && e.history.granted == s.history.granted + (if w.outcome.Granted? then n else 0)
    && e.history.refused == s.history.refused + if w.outcome.Refused? then [Refusal(t, n, w.outcome.delay)] else []
  }

  /** One pass: the reading of the clock and the refill attempt. */
  lemma PassAlone(p: Params, s: State, t: nat, n: nat, time: nat) returns (e: State)
    requires p.interval > 0 && t < |s.threads| && s.threads[t] == ReadClock(n) && s.now <= time
    ensures Alone(p, s, t, e) && e.now == time
    ensures var (b, refill) := Sequential.Refilling(p, BucketOf(s), time);
      BucketOf(e) == b && e.threads == s.threads[t := LoadForTake(n, refill)]
    ensures e.history.granted == s.history.granted && e.history.refused == s.history.refused
  {
    hide Alone;
    var a := AloneStep(p, s, t, Tick(time - s.now));
    var b := AloneStep(p, a, t, Run(t));
    AloneThen(p, s, t, a, b);
    var steps := Sequential.RefillAlone(p, b, t, n, time);
    e := RunAlone(p, b, t, steps);
    AloneSteps(p, b, t, steps);
    AloneThen(p, s, t, b, e);
  }

  /** A call that runs alone, under any monotone clock, is answered what the sequential limiter answers. */
  lemma {:induction false} CallAlone(p: Params, s: State, t: nat, n: nat, clock: nat -> nat, i: nat) returns (e: State)
    requires WellFormed(p) && p.amount > 0 && 0 < n <= p.capacity && t < |s.threads| && s.threads[t] == ReadClock(n)
    requires Sequential.Monotone(clock) && s.now <= clock(i) && Sequential.InRange(p, BucketOf(s), clock, i)
    ensures Alone(p, s, t, e) && Answered(s, t, n, Sequential.Wait(p, BucketOf(s), n, clock, i), e)
    decreases Sequential.Missing(n, BucketOf(s))
  {
    hide Alone, Sequential.InRange, Sequential.Refilling;
    var m := PassAlone(p, s, t, n, clock(i));
    Sequential.RepeatAdds(p, BucketOf(s), n, clock, i);
    e := AloneStep(p, m, t, Run(t));
    AloneThen(p, s, t, m, e);
    if m.available >= n {
      var a := e;
      e := AloneStep(p, a, t, Run(t));
      AloneThen(p, s, t, a, e);
    } else if m.threads[t].refill.Refilled? {
      var a := e;
      assert clock(i) <= clock(i + 1);
      e := CallAlone(p, a, t, n, clock, i + 1);
      AloneThen(p, s, t, a, e);
    }
  }

  // Every interleaving.

  /** The state before a step of a run. */
  ghost function At(p: Params, s: State, run: seq<Label>, i: nat): State
    requires p.interval > 0 && i <= |run|
  {
    Exec(p, s, run[..i])
  }

  lemma {:induction false} AtNext(p: Params, s: State, run: seq<Label>, i: nat)
    requires p.interval > 0 && i < |run|
    ensures At(p, s, run, i + 1) == Apply(p, At(p, s, run, i), run[i])
  {
    var m, l := At(p, s, run, i), run[i];
    Limits.ExecAppend(p, s, run[..i], [l]);
    assert run[..i] + [l] == run[..i + 1];
    assert [l][1..] == [] && Exec(p, Apply(p, m, l), []) == Apply(p, m, l);
  }

  lemma {:induction false} SameThreads(p: Params, s: State, run: seq<Label>, i: nat)
    requires p.interval > 0 && i <= |run|
    ensures |At(p, s, run, i).threads| == |s.threads|
  {
    if i > 0 {
      SameThreads(p, s, run, i - 1);
      AtNext(p, s, run, i - 1);
    } else {
      assert run[..0] == [];
    }
  }

  /** Before step `i` thread `t` is trying to take tokens. */
  ghost predicate Trying(p: Params, s: State, run: seq<Label>, i: nat, t: nat)
    requires p.interval > 0 && i <= |run|
  {
    var threads := At(p, s, run, i).threads;
    t < |threads| && (threads[t].LoadForTake? || threads[t].Take?)
  }

  /** Step `j` is the last one before `i` in which thread `t` did anything but try to take tokens. */
  ghost predicate Last(p: Params, s: State, run: seq<Label>, j: nat, i: nat, t: nat)
    requires p.interval > 0 && i <= |run|
  {
    && j < i && run[j] == Run(t) && !Trying(p, s, run, j, t)
    && forall k :: j < k < i && run[k] == Run(t) ==> Trying(p, s, run, k, t)
  }

  ghost predicate EarlyBy(s: State, t: nat, n: nat, delay: nat) {
    && t < |s.threads| && s.threads[t].LoadRefillAt? && s.threads[t].n == n
    && s.threads[t].time < s.refillAt && delay == s.refillAt - s.threads[t].time
  }

  /** The thread's last refill attempt before step `i`, for `n` tokens, was the `delay` too early. */
  ghost predicate TooEarly(p: Params, s: State, run: seq<Label>, i: nat, t: nat, n: nat, delay: nat)
    requires p.interval > 0 && i <= |run|
  {
    exists j: nat :: Last(p, s, run, j, i, t) && EarlyBy(At(p, s, run, j), t, n, delay)
  }

  ghost predicate Pays(s: State, t: nat) {
    t < |s.threads| && (s.threads[t].AddTokens? || s.threads[t].AddDropped?)
  }

  /** It was one that claimed and has just paid. */
  ghost predicate Paid(p: Params, s: State, run: seq<Label>, i: nat, t: nat)
    requires p.interval > 0 && i <= |run|
  {
    exists j: nat :: Last(p, s, run, j, i, t) && Pays(At(p, s, run, j), t)
  }

  lemma LastOn(p: Params, s: State, run: seq<Label>, j: nat, i: nat, t: nat)
    requires p.interval > 0 && i < |run| && Last(p, s, run, j, i, t)
    requires run[i] == Run(t) ==> Trying(p, s, run, i, t)
    ensures Last(p, s, run, j, i + 1, t)
  {}

  lemma LastUnique(p: Params, s: State, run: seq<Label>, i: nat, j: nat, k: nat, t: nat)
    requires p.interval > 0 && i <= |run| && Last(p, s, run, j, i, t) && Last(p, s, run, k, i, t)
    ensures j == k
  {}

  lemma OthersStay(p: Params, m: State, u: nat, t: nat)
    requires p.interval > 0 && u < |m.threads| && t < |m.threads| && t != u
    ensures |RunThread(p, m, u).threads| == |m.threads| && RunThread(p, m, u).threads[t] == m.threads[t]
  {
    hide Elapsed, Tokens, Wrap, Carry, ToAdd;
  }

  lemma RunTrying(p: Params, m: State, t: nat)
    requires p.interval > 0 && t < |m.threads|
    ensures var e := RunThread(p, m, t);
      && |e.threads| == |m.threads|
      && (e.threads[t].LoadForTake? || e.threads[t].Take? ==>
            if m.threads[t].LoadForTake? || m.threads[t].Take?
            then m.threads[t].n == e.threads[t].n && m.threads[t].refill == e.threads[t].refill
            else if e.threads[t].refill.Refilled? then Pays(m, t)
            else EarlyBy(m, t, e.threads[t].n, e.threads[t].refill.delay))
  {
    hide Elapsed, Tokens, Wrap, Carry, ToAdd;
  }

  /** How a step can leave a thread trying to take tokens. */
  lemma StepTrying(p: Params, m: State, l: Label, t: nat)
    requires p.interval > 0 && t < |m.threads|
    ensures var e := Apply(p, m, l);
      && |e.threads| == |m.threads|
      && (e.threads[t].LoadForTake? || e.threads[t].Take? ==>
            if m.threads[t].LoadForTake? || m.threads[t].Take?
            then m.threads[t].n == e.threads[t].n && m.threads[t].refill == e.threads[t].refill
            else l == Run(t) && if e.threads[t].refill.Refilled? then Pays(m, t)
                                else EarlyBy(m, t, e.threads[t].n, e.threads[t].refill.delay))
  {
    hide RunThread;
    if l == Run(t) {
      RunTrying(p, m, t);
    } else if l.Run? && l.thread < |m.threads| {
      OthersStay(p, m, l.thread, t);
    }
  }

  /** A thread that tries to take tokens remembers how its last refill attempt went. */
  lemma {:induction false} Remembers(p: Params, s: State, run: seq<Label>, i: nat, t: nat)
    requires p.interval > 0 && i <= |run| && t < |s.threads| && s.threads[t] == Idle
    ensures |At(p, s, run, i).threads| == |s.threads|
    ensures Trying(p, s, run, i, t) ==>
      var pc := At(p, s, run, i).threads[t];
      if pc.refill.Refilled? then Paid(p, s, run, i, t) else TooEarly(p, s, run, i, t, pc.n, pc.refill.delay)
  {
    SameThreads(p, s, run, i);
    if i == 0 {
      assert run[..0] == [];
    } else {
      AtNext(p, s, run, i - 1);
      Remembers(p, s, run, i - 1, t);
      var m, e := At(p, s, run, i - 1), At(p, s, run, i);
      StepTrying(p, m, run[i - 1], t);
      hide Exec, At, Apply, EarlyBy, Pays;
      if Trying(p, s, run, i, t) {
        if !Trying(p, s, run, i - 1, t) {
          assert Last(p, s, run, i - 1, i, t);
        } else if m.threads[t].refill.Refilled? {
          var j: nat :| Last(p, s, run, j, i - 1, t) && Pays(At(p, s, run, j), t);
          LastOn(p, s, run, j, i - 1, t);
        } else {
          var j: nat :| Last(p, s, run, j, i - 1, t)
            && EarlyBy(At(p, s, run, j), t, m.threads[t].n, m.threads[t].refill.delay);
          LastOn(p, s, run, j, i - 1, t);
        }
      }
    }
  }

  /** Before step `i` thread `t` finds fewer than the `n` tokens it looks for, after an attempt that was too early. */
  ghost predicate Short(p: Params, s: State, run: seq<Label>, i: nat, t: nat, n: nat, delay: nat)
    requires p.interval > 0 && i <= |run|
  {
    var m := At(p, s, run, i);
    && t < |m.threads| && m.threads[t].LoadForTake? && m.threads[t].n == n && m.available < n
    && TooEarly(p, s, run, i, t, n, delay)
  }

  lemma PaidNotEarly(p: Params, s: State, run: seq<Label>, i: nat, t: nat, n: nat, delay: nat)
    requires p.interval > 0 && i <= |run| && TooEarly(p, s, run, i, t, n, delay)
    ensures !Paid(p, s, run, i, t)
  {
    hide At;
    forall j: nat, k: nat | Last(p, s, run, j, i, t) && Last(p, s, run, k, i, t) ensures j == k {
      LastUnique(p, s, run, i, j, k, t);
    }
  }

  /** What remembering means: the attempt a thread remembers is its last one, and is one or the other. */
  lemma RemembersExactly(p: Params, s: State, run: seq<Label>, i: nat, t: nat)
    requires p.interval > 0 && i <= |run| && t < |s.threads| && s.threads[t] == Idle && Trying(p, s, run, i, t)
    ensures |At(p, s, run, i).threads| == |s.threads|
    ensures var pc := At(p, s, run, i).threads[t];
      forall delay :: TooEarly(p, s, run, i, t, pc.n, delay) <==> pc.refill == NotDue(delay)
  {
    Remembers(p, s, run, i, t);
    var pc := At(p, s, run, i).threads[t];
    hide At;
    forall delay | TooEarly(p, s, run, i, t, pc.n, delay) ensures pc.refill == NotDue(delay) {
      if pc.refill.Refilled? {
        PaidNotEarly(p, s, run, i, t, pc.n, delay);
      } else {
        var j: nat :| Last(p, s, run, j, i, t) && EarlyBy(At(p, s, run, j), t, pc.n, delay);
        var k: nat :| Last(p, s, run, k, i, t) && EarlyBy(At(p, s, run, k), t, pc.n, pc.refill.delay);
        LastUnique(p, s, run, i, j, k, t);
      }
    }
  }

  /** How one thread's step answers its call, given what the thread remembers. */
  lemma StepAnswers(p: Params, m: State, t: nat)
    requires p.interval > 0 && t < |m.threads|
    ensures var pc, e := m.threads[t], RunThread(p, m, t);
      && |e.threads| == |m.threads|
      && (if pc.LoadForTake? && m.available < pc.n && pc.refill.NotDue?
          then e == m.(threads := m.threads[t := Idle],
                       history := m.history.(refused := m.history.refused + [Refusal(t, pc.n, pc.refill.delay)]))
          else e.history.refused == m.history.refused)
      && (pc.LoadForTake? && m.available < pc.n && pc.refill.Refilled? ==> e == m.(threads := m.threads[t := ReadClock(pc.n)]))
      && (if pc.Take? && m.available == pc.seen && pc.n <= m.available
          then e.threads[t] == Idle && e.available == m.available - pc.n && e.history.granted == m.history.granted + pc.n
          else e.history.granted == m.history.granted)
      && (e.threads[t] == Idle ==> pc == Idle || e.history.refused != m.history.refused || pc.Take?)
      && (pc.Take? && e.threads[t] == Idle ==> m.available == pc.seen && pc.n <= m.available)
  {
    hide Elapsed, Tokens, Wrap, Carry, ToAdd;
  }

  /** In every interleaving a step of a thread refuses its call exactly if the thread finds too few tokens after a refill
      attempt that was too early, and with that attempt's delay; if it finds too few after one that paid, it starts over.
      The only other way for a call to end is a grant, which takes exactly its tokens out of a bucket that holds them. */
  lemma AnswersExactly(p: Params, s: State, run: seq<Label>, i: nat, t: nat)
    requires p.interval > 0 && i < |run| && run[i] == Run(t) && t < |s.threads| && s.threads[t] == Idle
    ensures var m, e := At(p, s, run, i), At(p, s, run, i + 1);
      && |e.threads| == |m.threads| == |s.threads|
      && (forall n, delay :: Short(p, s, run, i, t, n, delay) ==>
            && e.history.refused == m.history.refused + [Refusal(t, n, delay)] && e.threads[t] == Idle
            && e.available == m.available && e.history.granted == m.history.granted)
      && (e.history.refused != m.history.refused ==> exists n, delay :: Short(p, s, run, i, t, n, delay))
      && (m.threads[t].LoadForTake? && m.available < m.threads[t].n && Paid(p, s, run, i, t) ==>
            e.threads[t] == ReadClock(m.threads[t].n))
      && (m.threads[t] != Idle && e.threads[t] == Idle && e.history.refused == m.history.refused ==>
            && m.threads[t].Take? && m.threads[t].n <= m.available && e.available == m.available - m.threads[t].n
            && e.history.granted == m.history.granted + m.threads[t].n)
  {
    var m := At(p, s, run, i);
    Remembers(p, s, run, i, t);
    AtNext(p, s, run, i);
    StepAnswers(p, m, t);
    if Trying(p, s, run, i, t) {
      RemembersExactly(p, s, run, i, t);
      if m.threads[t].refill.NotDue? {
        var n, delay := m.threads[t].n, m.threads[t].refill.delay;
        PaidNotEarly(p, s, run, i, t, n, delay);
        assert m.threads[t].LoadForTake? && m.available < n ==> Short(p, s, run, i, t, n, delay);
      }
    }
    hide At, RunThread, TooEarly, Paid;
  }

  lemma RunReadsClock(p: Params, m: State, t: nat)
    requires p.interval > 0 && t < |m.threads|
    ensures var pc, e := m.threads[t], RunThread(p, m, t);
      && |e.threads| == |m.threads|
      && (e.threads[t].ReadClock? ==> pc.LoadForTake? && m.available < pc.n && pc.refill.Refilled?)
      && (pc.ClaimIntervals? && m.refillAt != pc.seenAt ==> e.threads[t] == LoadRefillAt(pc.n, pc.time))
  {
    hide Elapsed, Tokens, Wrap, Carry, ToAdd;
  }

  /** A thread is about to read the clock just after its call, or after it found too few tokens although its last refill
      attempt paid; in particular a lost race to claim does not make it read the clock again, it tries to claim as of the
      same time. */
  lemma ReadsClockOncePerPass(p: Params, s: State, run: seq<Label>, i: nat, t: nat)
    requires p.interval > 0 && i < |run| && t < |s.threads| && s.threads[t] == Idle
    ensures |At(p, s, run, i).threads| == |At(p, s, run, i + 1).threads| == |s.threads|
    ensures var m, e := At(p, s, run, i), At(p, s, run, i + 1);
      && (e.threads[t].ReadClock? && !m.threads[t].ReadClock? ==>
            || run[i] == Call(t, e.threads[t].n)
            || (run[i] == Run(t) && m.threads[t].LoadForTake? && m.available < m.threads[t].n && Paid(p, s, run, i, t)))
      && (m.threads[t].ClaimIntervals? && run[i] == Run(t) && m.refillAt != m.threads[t].seenAt ==>
            e.threads[t] == LoadRefillAt(m.threads[t].n, m.threads[t].time))
  {
    SameThreads(p, s, run, i);
    AtNext(p, s, run, i);
    Remembers(p, s, run, i, t);
    var m, l := At(p, s, run, i), run[i];
    if l == Run(t) {
      RunReadsClock(p, m, t);
    } else if l.Run? && l.thread < |m.threads| {
      OthersStay(p, m, l.thread, t);
    }
    hide At, RunThread, Paid;
  }

  /** A call is refused at once, without delay, exactly if it asks for no tokens or for more than the bucket can hold. */
  lemma CallTaken(p: Params, s: State, t: nat, n: nat)
    requires p.interval > 0 && t < |s.threads| && s.threads[t] == Idle
    ensures Apply(p, s, Call(t, n)) ==
      if 0 < n <= p.capacity then s.(threads := s.threads[t := ReadClock(n)])
      else s.(history := s.history.(refused := s.history.refused + [Refusal(t, n, 0)]))
  {
    assert s.threads[t := Idle] == s.threads;
  }

  /** An amendment takes tokens out, or puts some in, as far as the ends of the range allow. */
  lemma AmendmentTaken(p: Params, s: State, remove: int)
    requires p.interval > 0
    ensures var e := Apply(p, s, Amend(remove));
      && e.threads == s.threads && e.refillAt == s.refillAt
      && e.available == if s.available < remove then 0 else if s.available - remove < U64 then s.available - remove else U64 - 1
  {}
}
