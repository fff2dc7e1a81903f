/** What `connect` hands out: connections that were just opened or ready to use, never one that was not; and the lives of
    connections and streams. */
module HbonePoolReady {
  import opened HbonePool

  // A connection that was not ready is gone for good.

  /** Nobody can put the connection back: it is not pooled and nobody may pool it. */
  ghost predicate Retired(s: State, c: nat) {
    && c < |s.shared.conns| && (forall id :: id in s.shared.pool ==> s.shared.pool[id].conn != c)
    && (forall t :: 0 <= t < |s.tasks| ==> !Carries(s.tasks[t], c))
  }

  ghost predicate AllRetired(s: State) {
    forall c :: c in s.shared.broken ==> Retired(s, c)
  }

  /** How one task's step may change which connections are retired: one that it takes out of the pool may be. */
  ghost predicate Retires(g: Shared, g': Shared, pc': Pc) {
    && |g.conns| <= |g'.conns|
    && (g'.broken == g.broken ||
        (!MayPut(pc') && exists id :: id in g.pool && g'.pool == g.pool - {id} && g'.broken == g.broken + {g.pool[id].conn}))
  }

  lemma ActRetires(h: Hash, g: Shared, t: nat, task: Task, a: Action)
    requires CanAct(h, g, task, a)
    ensures var (g', pc') := Act(h, g, t, task, a); Retires(g, g', pc')
  {}

  lemma MoveRetires(s: State, s': State, t: nat)
    requires Linear(s) && AllRetired(s) && Moves(s, s', t)
    requires RightMove(s.shared, s'.shared, s.tasks[t], s'.tasks[t].pc) && Retires(s.shared, s'.shared, s'.tasks[t].pc)
    ensures AllRetired(s')
  {
    forall u | 0 <= u < |s'.tasks| ensures u != t ==> s'.tasks[u] == s.tasks[u] {}
    forall c | c in s'.shared.broken ensures Retired(s', c) {
      if c in s.shared.broken { assert Retired(s, c); }
    }
  }

  lemma NextRetires(h: Hash, s: State, l: Label)
    requires Inv(h, s) && AllRetired(s)
    ensures AllRetired(Next(h, s, l)) && s.shared.broken <= Next(h, s, l).shared.broken
  {
    var s' := Next(h, s, l);
    if Enabled(h, s, l) {
      if l.Step? {
        ActRetires(h, s.shared, l.task, s.tasks[l.task], l.action);
        ActRightMove(h, s.shared, l.task, s.tasks[l.task], l.action);
        hide Act;
        MoveRetires(s, s', l.task);
      } else {
        forall c | c in s'.shared.broken ensures Retired(s', c) { assert Retired(s, c); }
      }
    }
  }

  /** The tasks that use a connection are among those that did, and none of them is further back. */
  ghost predicate NoNewUser(s: State, s': State, c: nat) {
    |s.tasks| <= |s'.tasks| &&
    forall t :: 0 <= t < |s'.tasks| && Uses(s'.tasks[t].pc, c) ==>
      && t < |s.tasks| && Uses(s.tasks[t].pc, c)
      && (InCheckout(s'.tasks[t].pc) ==> InCheckout(s.tasks[t].pc))
  }

  /** Only from the pool, or with a new connection, does a task get to check one out. */
  lemma ActCheckout(h: Hash, g: Shared, t: nat, task: Task, a: Action)
    requires CanAct(h, g, task, a)
    ensures var (g', pc') := Act(h, g, t, task, a);
      InCheckout(pc') ==>
        || (InCheckout(task.pc) && task.pc.conn == pc'.conn)
        || (a.Opened? && task.pc.Open? && pc'.conn == |g.conns|)
        || (a.Get? && a.ready && a.id in g.pool && g.pool[a.id].conn == pc'.conn)
  {}

  lemma NextNoNewUser(h: Hash, s: State, l: Label, c: nat)
    requires Inv(h, s) && Retired(s, c)
    ensures NoNewUser(s, Next(h, s, l), c)
  {
    var s' := Next(h, s, l);
    if Enabled(h, s, l) && l.Step? {
      ActUseMove(h, s.shared, l.task, s.tasks[l.task], l.action);
      ActCheckout(h, s.shared, l.task, s.tasks[l.task], l.action);
      hide Act;
      forall u | 0 <= u < |s'.tasks| ensures u != l.task ==> s'.tasks[u] == s.tasks[u] {}
    }
  }

  /** Once a connection was not ready at a checkout, over any further run it is never pooled again, no task gets it any
      more, and `connect` returns it to none but those that had it already. */
  lemma {:induction false} BrokenForGood(h: Hash, s: State, run: seq<Label>, c: nat)
    requires Inv(h, s) && AllRetired(s) && c in s.shared.broken
    ensures var e := Exec(h, s, run); c in e.shared.broken && Retired(e, c) && NoNewUser(s, e, c)
    decreases run
  {
    if run == [] {
      assert Retired(s, c);
    } else {
      var s' := Next(h, s, run[0]);
      NextRetires(h, s, run[0]);
      NextKeepsInv(h, s, run[0]);
      assert Retired(s, c);
      NextNoNewUser(h, s, run[0], c);
      hide Next, Inv;
      BrokenForGood(h, s', run[1..], c);
    }
  }

  lemma {:induction false} RunRetires(h: Hash, s: State, run: seq<Label>)
    requires Inv(h, s) && AllRetired(s)
    ensures AllRetired(Exec(h, s, run))
    decreases run
  {
    if run != [] {
      NextRetires(h, s, run[0]);
      NextKeepsInv(h, s, run[0]);
      hide Next, Inv;
      RunRetires(h, Next(h, s, run[0]), run[1..]);
    }
  }

  /** In particular from its first checkout that found it not ready on, in every run from the start. */
  lemma NotReadyNeverReturned(h: Hash, s: State, before: seq<Label>, t: nat, id: nat, after: seq<Label>)
    requires Initial(s)
    requires var m := Exec(h, s, before);
      && Enabled(h, m, Step(t, Get(id, false))) && m.shared.pool[id].conn < |m.shared.conns|
      && m.shared.conns[m.shared.pool[id].conn].key == m.tasks[t].key
    ensures var m := Exec(h, s, before);
      var m' := Next(h, m, Step(t, Get(id, false)));
      var e, c := Exec(h, m', after), m.shared.pool[id].conn;
      && Retired(e, c) && NoNewUser(m', e, c) && !Uses(m'.tasks[t].pc, c)
  {
    hide Exec;
    var m, l := Exec(h, s, before), Step(t, Get(id, false));
    EmptyInv(h, s);
    RunKeepsInv(h, s, before);
    RunRetires(h, s, before);
    NextRetires(h, m, l);
    NextKeepsInv(h, m, l);
    hide Inv;
    BrokenForGood(h, Next(h, m, l), after, m.shared.pool[id].conn);
  }

  // Where a connection comes from.

  /** The state before a step of a run. */
  ghost function At(h: Hash, s: State, run: seq<Label>, i: nat): State
    requires i <= |run|
  {
    Exec(h, s, run[..i])
  }

  lemma AtNext(h: Hash, s: State, run: seq<Label>, i: nat)
    requires i < |run|
    ensures At(h, s, run, i + 1) == Next(h, At(h, s, run, i), run[i])
  {
    var l, m := run[i], At(h, s, run, i);
    ExecAppend(h, s, run[..i], [l]);
    assert run[..i] + [l] == run[..i + 1];
    assert [l][1..] == [] && Exec(h, Next(h, m, l), []) == Next(h, m, l);
  }

  /** In step `k` the task opened the connection, or checked it out and found it ready. */
  ghost predicate Got(h: Hash, s: State, run: seq<Label>, k: nat, t: nat, c: nat)
    requires k < |run|
  {
    var m, l := At(h, s, run, k), run[k];
    && Enabled(h, m, l) && l.Step? && l.task == t
    && ((l.action.Opened? && c == |m.shared.conns|) ||
        (l.action.Get? && l.action.ready && l.action.id in m.shared.pool && m.shared.pool[l.action.id].conn == c))
  }

  /** Every connection a task is about to check in, or has from `connect`, is one that it opened itself or that was ready
      when it checked it out. */
  lemma {:induction false} ReturnedReady(h: Hash, s: State, run: seq<Label>, i: nat, t: nat)
    requires Initial(s) && i <= |run| && t < |At(h, s, run, i).tasks| && InCheckout(At(h, s, run, i).tasks[t].pc)
    ensures exists k :: 0 <= k < i && Got(h, s, run, k, t, At(h, s, run, i).tasks[t].pc.conn)
  {
    if i > 0 {
      AtNext(h, s, run, i - 1);
      var m, e, l := At(h, s, run, i - 1), At(h, s, run, i), run[i - 1];
      if Enabled(h, m, l) && l.Step? && l.task == t {
        ActCheckout(h, m.shared, t, m.tasks[t], l.action);
      }
      hide Exec, Act;
      if t < |m.tasks| && InCheckout(m.tasks[t].pc) && m.tasks[t].pc.conn == e.tasks[t].pc.conn {
        hide At;
        ReturnedReady(h, s, run, i - 1, t);
      } else {
        assert Got(h, s, run, i - 1, t, e.tasks[t].pc.conn);
      }
    }
  }

  // How a task fails, waits and gets a connection.

  /** A task fails exactly if its connection cannot be opened, the pool drains while it waits, the connection it finds
      under its hash is for another key, or its request fails. */
  lemma FailsExactly(h: Hash, s: State, run: seq<Label>, i: nat, t: nat)
    requires i < |run| && t < |At(h, s, run, i).tasks| && At(h, s, run, i).tasks[t].pc != Failed
    ensures var m, e, l := At(h, s, run, i), At(h, s, run, i + 1), run[i];
      t < |e.tasks| &&
      (e.tasks[t].pc == Failed <==>
         Enabled(h, m, l) && l.Step? && l.task == t &&
         (l.action.OpenFailed? || l.action.Drained? || l.action.SendFailed? ||
          (l.action.Get? && m.shared.conns[m.shared.pool[l.action.id].conn].key != m.tasks[t].key)))
  {
    AtNext(h, s, run, i);
    hide At;
  }

  /** A task that lost the race to open a connection waits, and when notified looks again. */
  lemma LoserWaits(h: Hash, s: State, t: nat)
    requires t < |s.tasks|
    ensures s.tasks[t].pc.TryLock? && s.tasks[t].pc.lock in s.shared.holders ==>
      Next(h, s, Step(t, Go)) == Goto(s, t, AwaitNotify)
    ensures s.tasks[t].pc.AwaitNotify? ==> Next(h, s, Step(t, Go)) == Goto(s, t, FindLock(Notified))
  {}

  /** Nobody holds the lock of the task's hash, if there is one yet. */
  ghost predicate LockFree(h: Hash, s: State, t: nat)
    requires t < |s.tasks|
  {
    h(s.tasks[t].key) in s.shared.lockMap ==> s.shared.lockMap[h(s.tasks[t].key)] !in s.shared.holders
  }

  /** A task's next step by itself. */
  lemma ThenGo(h: Hash, s: State, m: State, t: nat) returns (e: State)
    requires Reaches(h, s, m) && t < |m.tasks| && CanAct(h, m.shared, m.tasks[t], Go)
    ensures var (g, pc) := Run(h, m.shared, t, m.tasks[t]); e == Goto(m, t, pc).(shared := g)
    ensures Reaches(h, s, e)
  {
    hide Reaches;
    e := Then(h, s, m, Step(t, Go));
  }

  /** A task that begins, or waits, with its hash in the lock map and the lock free, gets to look into the pool under the
      lock. */
  lemma LooksAlone(h: Hash, s: State, t: nat) returns (e: State)
    requires t < |s.tasks| && (s.tasks[t].pc == FindLock(First) || s.tasks[t].pc.AwaitNotify?)
    requires h(s.tasks[t].key) in s.shared.lockMap && LockFree(h, s, t)
    ensures var lock := s.shared.lockMap[h(s.tasks[t].key)];
      e == Goto(s, t, Search(lock)).(shared := s.shared.(holders := s.shared.holders[lock := t]))
    ensures Reaches(h, s, e)
  {
    assert Exec(h, s, []) == s;
    hide Reaches;
    e := s;
    if s.tasks[t].pc.AwaitNotify? { e := ThenGo(h, s, s, t); }
    e := ThenGo(h, s, e, t);
    e := ThenGo(h, s, e, t);
  }

  lemma CheckInAlone(h: Hash, s: State, m: State, t: nat) returns (e: State)
    requires Reaches(h, s, m) && t < |m.tasks| && m.tasks[t].pc.CheckIn? && m.tasks[t].pc.conn < |m.shared.conns|
    ensures Reaches(h, s, e) && e.tasks == m.tasks[t := m.tasks[t].(pc := Connected(m.tasks[t].pc.conn))]
    ensures e.shared.conns == m.shared.conns && e.shared.holders == m.shared.holders - {m.tasks[t].pc.lock}
    ensures e.shared.lockMap == m.shared.lockMap
  {
    hide Reaches;
    e := Then(h, s, m, Step(t, Go));
    if e.tasks[t].pc.PutBack? { e := Then(h, s, e, Step(t, Go)); }
    e := Then(h, s, e, Step(t, Go));
  }

  /** With no other task moving, `connect` uses a connection that is pooled under its key and ready. */
  lemma PooledAlone(h: Hash, s: State, t: nat, id: nat) returns (e: State)
    requires t < |s.tasks| && (s.tasks[t].pc == FindLock(First) || s.tasks[t].pc.AwaitNotify?)
    requires h(s.tasks[t].key) in s.shared.lockMap && LockFree(h, s, t)
    requires id in s.shared.pool && s.shared.pool[id].conn < |s.shared.conns|
    requires s.shared.pool[id].hash == h(s.tasks[t].key) && s.shared.conns[s.shared.pool[id].conn].key == s.tasks[t].key
    ensures Reaches(h, s, e) && e.tasks == s.tasks[t := s.tasks[t].(pc := Connected(s.shared.pool[id].conn))]
    ensures e.shared.conns == s.shared.conns && e.shared.holders == s.shared.holders
  {
    hide Reaches;
    e := LooksAlone(h, s, t);
    e := Then(h, s, e, Step(t, Get(id, true)));
    e := CheckInAlone(h, s, e, t);
    assert e.shared.holders == s.shared.holders;
  }

  /** If none is pooled under its hash it opens one. */
  lemma OpenedAlone(h: Hash, s: State, t: nat, configured: nat, limit: nat) returns (e: State)
    requires t < |s.tasks| && (s.tasks[t].pc == FindLock(First) || s.tasks[t].pc.AwaitNotify?)
    requires h(s.tasks[t].key) in s.shared.lockMap && LockFree(h, s, t) && configured < U16
    requires forall id :: id in s.shared.pool ==> s.shared.pool[id].hash != h(s.tasks[t].key)
    ensures Reaches(h, s, e) && e.tasks == s.tasks[t := s.tasks[t].(pc := Connected(|s.shared.conns|))]
    ensures |e.shared.conns| == |s.shared.conns| + 1 && e.shared.conns[|s.shared.conns|].key == s.tasks[t].key
    ensures e.shared.holders == s.shared.holders
  {
    hide Reaches;
    e := LooksAlone(h, s, t);
    e := Then(h, s, e, Step(t, Go));
    e := Then(h, s, e, Step(t, Opened(configured, limit)));
    e := CheckInAlone(h, s, e, t);
    assert e.shared.holders == s.shared.holders;
  }

  /** The shared state with a lock for a new hash. */
  function WithLock(g: Shared, hash: nat): Shared {
    g.(lockMap := g.lockMap[hash := g.nextLock], nextLock := g.nextLock + 1)
  }

  lemma MakesLockAlone(h: Hash, s: State, t: nat) returns (e: State)
    requires t < |s.tasks| && s.tasks[t].pc == FindLock(First) && h(s.tasks[t].key) !in s.shared.lockMap
    ensures Reaches(h, s, e) && e == Goto(s, t, FetchLock).(shared := WithLock(s.shared, h(s.tasks[t].key)))
  {
    assert Exec(h, s, []) == s;
    hide Reaches;
    e := ThenGo(h, s, s, t);
    e := ThenGo(h, s, e, t);
  }

  lemma WinsAlone(h: Hash, s: State, t: nat) returns (e: State)
    requires t < |s.tasks| && s.tasks[t].pc == FindLock(First) && h(s.tasks[t].key) !in s.shared.lockMap
    requires s.shared.nextLock !in s.shared.holders
    ensures var g, lock := WithLock(s.shared, h(s.tasks[t].key)), s.shared.nextLock;
      e == Goto(s, t, Open(lock)).(shared := g.(holders := g.holders[lock := t]))
    ensures Reaches(h, s, e)
  {
    hide Reaches;
    e := MakesLockAlone(h, s, t);
    e := ThenGo(h, s, e, t);
    e := ThenGo(h, s, e, t);
  }

  /** If its hash is new it makes the lock, wins it and opens one. */
  lemma FirstAlone(h: Hash, s: State, t: nat, configured: nat, limit: nat) returns (e: State)
    requires t < |s.tasks| && s.tasks[t].pc == FindLock(First) && h(s.tasks[t].key) !in s.shared.lockMap
    requires configured < U16 && Locked(h, s)
    ensures Reaches(h, s, e) && e.tasks == s.tasks[t := s.tasks[t].(pc := Connected(|s.shared.conns|))]
    ensures |e.shared.conns| == |s.shared.conns| + 1 && e.shared.conns[|s.shared.conns|].key == s.tasks[t].key
    ensures e.shared.holders == s.shared.holders && h(s.tasks[t].key) in e.shared.lockMap
  {
    assert forall lock :: lock in s.shared.holders ==> lock < s.shared.nextLock by {
      forall lock | lock in s.shared.holders ensures lock < s.shared.nextLock {
        assert HeldBy(lock, s.shared.holders[lock], s.tasks);
      }
    }
    e := WinsAlone(h, s, t);
    hide Reaches;
    e := Then(h, s, e, Step(t, Opened(configured, limit)));
    e := CheckInAlone(h, s, e, t);
    assert e.shared.holders == s.shared.holders;
  }

  /** A request that succeeds is a stream with both halves; one that fails is subtracted at once. */
  lemma SendIs(h: Hash, s: State, t: nat)
    requires t < |s.tasks| && s.tasks[t].pc.Sending? && s.tasks[t].pc.conn < |s.shared.conns|
    ensures Next(h, s, Step(t, SendOk)) == Goto(s, t, Stream(s.tasks[t].pc.conn, true, true, false))
    ensures Next(h, s, Step(t, SendFailed)) ==
      Goto(s, t, Failed).(shared := s.shared.(conns := Add(s.shared.conns, s.tasks[t].pc.conn, -1)))
  {}

  /** Eviction takes one clone out of the pool and does nothing else. */
  lemma EvictIs(h: Hash, s: State, id: nat)
    ensures Next(h, s, Evict(id)) == s.(shared := s.shared.(pool := s.shared.pool - {id}))
  {
    assert id !in s.shared.pool ==> s.shared.pool - {id} == s.shared.pool;
  }

  // Opening.

  /** A task takes out of the pool only what is filed under its own hash, and only while it holds the lock of that. */
  lemma TakesUnderOwnHash(h: Hash, s: State, t: nat, id: nat, ready: bool)
    requires Inv(h, s) && Enabled(h, s, Step(t, Get(id, ready)))
    ensures id in s.shared.pool && s.shared.pool[id].hash == h(s.tasks[t].key)
    ensures h(s.tasks[t].key) in s.shared.lockMap && s.shared.lockMap[h(s.tasks[t].key)] in s.shared.holders
    ensures s.shared.holders[s.shared.lockMap[h(s.tasks[t].key)]] == t
  {
    assert TaskLocked(h, s.shared, t, s.tasks[t]);
  }

  /** A task that holds its lock and looks into the pool opens a connection only if none is pooled under its hash. */
  lemma OpensIfNonePooled(h: Hash, s: State, l: Label, t: nat)
    requires t < |s.tasks| && s.tasks[t].pc.Search? && Next(h, s, l).tasks[t].pc.Open?
    ensures forall id :: id in s.shared.pool ==> s.shared.pool[id].hash != h(s.tasks[t].key)
  {}

  ghost predicate Lowest(c: Conn) {
    c.max == if c.configured <= c.limit then c.configured else c.limit
  }

  lemma ActLowest(h: Hash, g: Shared, t: nat, task: Task, a: Action)
    requires CanAct(h, g, task, a)
    ensures var g' := Act(h, g, t, task, a).0;
      |g.conns| <= |g'.conns| && forall c :: 0 <= c < |g'.conns| ==>
        if c < |g.conns| then g'.conns[c] == g.conns[c].(count := g'.conns[c].count)
        else Lowest(g'.conns[c]) && a == Opened(g'.conns[c].configured, g'.conns[c].limit) && g'.conns[c].key == task.key
  {}

  /** Over every run the cap of each connection is the configured limit or the peer's, whichever is lower. */
  lemma {:induction false} CapIsLowest(h: Hash, s: State, run: seq<Label>)
    requires forall c :: 0 <= c < |s.shared.conns| ==> Lowest(s.shared.conns[c])
    ensures forall c :: 0 <= c < |Exec(h, s, run).shared.conns| ==> Lowest(Exec(h, s, run).shared.conns[c])
    decreases run
  {
    if run != [] {
      var s', l := Next(h, s, run[0]), run[0];
      if Enabled(h, s, l) && l.Step? {
        ActLowest(h, s.shared, l.task, s.tasks[l.task], l.action);
        hide Act;
        forall c | 0 <= c < |s'.shared.conns| ensures Lowest(s'.shared.conns[c]) {
          if c < |s.shared.conns| { assert Lowest(s.shared.conns[c]); }
        }
      }
      CapIsLowest(h, s', run[1..]);
    }
  }

  // The end of a stream.

  function Other(half: Half): Half {
    if half.Read? then Write else Read
  }

  /** Dropping a half leaves the other as it is; the first to be dropped has yet to subtract the stream. */
  lemma DropIs(h: Hash, s: State, t: nat, half: Half)
    requires t < |s.tasks| && s.tasks[t].pc.Stream? && s.tasks[t].pc.conn < |s.shared.conns|
    requires if half.Read? then s.tasks[t].pc.read else s.tasks[t].pc.write
    ensures var pc, s' := s.tasks[t].pc, Next(h, s, Step(t, Drop(half)));
      && s'.shared == s.shared
      && s'.tasks == s.tasks[t := s.tasks[t].(pc := Stream(
           pc.conn, if half.Read? then false else pc.read, if half.Read? then pc.write else false,
           pc.settling || (pc.read && pc.write)))]
  {}

  lemma SettleIs(h: Hash, s: State, t: nat)
    requires t < |s.tasks| && s.tasks[t].pc.Stream? && s.tasks[t].pc.settling && s.tasks[t].pc.conn < |s.shared.conns|
    ensures var pc, s' := s.tasks[t].pc, Next(h, s, Step(t, Go));
      && s'.shared == s.shared.(conns := Add(s.shared.conns, pc.conn, -1))
      && s'.tasks == s.tasks[t := s.tasks[t].(pc := Stream(pc.conn, pc.read, pc.write, false))]
  {}

  /** A stream is subtracted exactly once, whichever half is dropped first and whether or not the second is dropped before
      the first has subtracted. */
  lemma SubtractedOnce(h: Hash, s: State, t: nat, first: Half)
    requires t < |s.tasks| && s.tasks[t].pc.Stream? && s.tasks[t].pc.conn < |s.shared.conns|
    requires s.tasks[t].pc.read && s.tasks[t].pc.write && !s.tasks[t].pc.settling
    ensures var c, drop, settle, drop2 := s.tasks[t].pc.conn, Step(t, Drop(first)), Step(t, Go), Step(t, Drop(Other(first)));
      var end := State(s.shared.(conns := Add(s.shared.conns, c, -1)), s.nextId,
                       s.tasks[t := s.tasks[t].(pc := Stream(c, false, false, false))]);
      && Next(h, Next(h, Next(h, s, drop), settle), drop2) == end
      && Next(h, Next(h, Next(h, s, drop), drop2), settle) == end
      && !Enabled(h, end, settle) && !Enabled(h, end, drop) && !Enabled(h, end, drop2)
  {
    hide Act;
    var m := Next(h, s, Step(t, Drop(first)));
    DropIs(h, s, t, first);
    assert m.tasks[t].pc == Stream(s.tasks[t].pc.conn, !first.Read?, first.Read?, true);
    SettleIs(h, m, t);
    DropIs(h, m, t, Other(first));
    DropIs(h, Next(h, m, Step(t, Go)), t, Other(first));
    SettleIs(h, Next(h, m, Step(t, Drop(Other(first)))), t);
  }
}
