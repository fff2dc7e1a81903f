/** The HBONE connection pool: any number of tasks run `connect` and then use the connection they got,
    one shared-memory operation per step, in any order. Keys are hashed by an arbitrary function, so that
    distinct keys may collide. */
module HbonePool {

  type Key = string
  type Hash = Key -> nat

  const U16: int := 0x1_0000

  /** What all clones of a client share; `configured` and `limit` are the configured and the peer's limit on concurrent
      streams, `max` the cap the client keeps to, and `count` the atomic 16-bit stream counter. */
  datatype Conn = Conn(key: Key, configured: nat, limit: nat, max: nat, count: nat)

  /** Whether a checkout is the first attempt of `connect`, or follows a pool notification. */
  datatype Stage = First | Notified

  /** Where a task stands: the next operation on shared state it will perform. */
  datatype Pc =
    | FindLock(stage: Stage)
    | AwaitLock(lock: nat)
    | Search(lock: nat)
    | Open(lock: nat)
    | CheckIn(lock: nat, conn: nat)
    | PutBack(lock: nat, conn: nat)
    | Unlock(lock: nat, conn: nat)
    | InsertLock
    | FetchLock
    | TryLock(lock: nat)
    | AwaitNotify
    | Connected(conn: nat)
    | Failed
    | Panicked
    | Sending(conn: nat)
    | Stream(conn: nat, read: bool, write: bool, settling: bool)

  /** A call of `connect` with the pool id it drew from the global counter. */
  datatype Task = Task(key: Key, id: nat, pc: Pc)

  /** A pooled clone, filed under its connection meta's hash. */
  datatype Pooled = Pooled(hash: nat, conn: nat)

  /** The state all tasks share. `lockMap` takes a hash to its lock and `holders` a locked lock to its task; `pool` is
      keyed by pool id, and `puts` lists the ids under which connections were put into it; `broken` are the connections
      that were not ready to use when they were checked out. */
  datatype Shared = Shared(
    lockMap: map<nat, nat>, nextLock: nat, holders: map<nat, nat>,
    pool: map<nat, Pooled>, puts: seq<nat>, conns: seq<Conn>, broken: set<nat>)

  datatype State = State(shared: Shared, nextId: nat, tasks: seq<Task>)

  datatype Half = Read | Write

  /** A task's next step, with what the network, the scheduler or the inner pool chooses about it. */
  datatype Action =
    | Go
    | Get(id: nat, ready: bool)
    | Opened(configured: nat, limit: nat)
    | OpenFailed
    | Drained
    | SendOk
    | SendFailed
    | Drop(half: Half)

  datatype Label = Connect(key: Key) | Evict(id: nat) | Step(task: nat, action: Action)

  predicate Initial(s: State) {
    s == State(Shared(map[], 0, map[], map[], [], [], {}), 0, [])
  }

  /** The cap of a new connection: the configured one, or the peer's if that is lower, saturated to 16 bits. */
  function MaxAllowed(configured: nat, limit: nat): (max: nat)
    ensures max <= configured && max <= limit && (configured >= 1 && limit >= 1 ==> max >= 1)
    ensures configured < U16 ==> max < U16 && (max == configured || max == limit)
  {
    var reported := if limit < U16 then limit else U16 - 1;
    if configured <= reported then configured else reported
  }

  /** Whether `maybe_checkin_conn` keeps the connection out of the pool. */
  predicate WillBeAtMax(c: Conn) {
    (c.count + 1) % U16 >= c.max
  }

  function Add(conns: seq<Conn>, c: nat, delta: int): seq<Conn>
    requires c < |conns|
  {
    conns[c := conns[c].(count := (conns[c].count + delta) % U16)]
  }

  predicate UsesConn(pc: Pc) {
    pc.CheckIn? || pc.PutBack? || pc.Unlock? || pc.Connected? || pc.Sending? || pc.Stream?
  }

  predicate CanAct(h: Hash, g: Shared, task: Task, a: Action) {
    && (UsesConn(task.pc) ==> task.pc.conn < |g.conns|)
    && match a
       case Go =>
         (match task.pc
          case AwaitLock(lock) => lock !in g.holders
          case Search(lock) => forall id :: id in g.pool ==> g.pool[id].hash != h(task.key)
          case Stream(_, _, _, settling) => settling
          case FindLock(_) | InsertLock | FetchLock | TryLock(_) | AwaitNotify => true
          case CheckIn(_, _) | PutBack(_, _) | Unlock(_, _) | Connected(_) => true
          case _ => false)
       case Get(id, _) => task.pc.Search? && id in g.pool && g.pool[id].hash == h(task.key) && g.pool[id].conn < |g.conns|
       case Opened(configured, _) => task.pc.Open? && configured < U16
       case OpenFailed => task.pc.Open?
       case Drained => task.pc.AwaitNotify?
       case SendOk => task.pc.Sending?
       case SendFailed => task.pc.Sending?
       case Drop(half) => task.pc.Stream? && if half.Read? then task.pc.read else task.pc.write
  }

  function Run(h: Hash, g: Shared, t: nat, task: Task): (Shared, Pc)
    requires UsesConn(task.pc) ==> task.pc.conn < |g.conns|
  {
    var hash := h(task.key);
    match task.pc
    case FindLock(stage) =>
      (g, if hash in g.lockMap then AwaitLock(g.lockMap[hash]) else if stage.First? then InsertLock else AwaitNotify)
    case AwaitLock(lock) => (g.(holders := g.holders[lock := t]), Search(lock))
    case Search(lock) => (g, Open(lock))
    case CheckIn(lock, conn) => (g, if WillBeAtMax(g.conns[conn]) then Unlock(lock, conn) else PutBack(lock, conn))
    case PutBack(lock, conn) =>
      (g.(pool := g.pool[task.id := Pooled(hash, conn)], puts := g.puts + [task.id]), Unlock(lock, conn))
    case Unlock(lock, conn) => (g.(holders := g.holders - {lock}), Connected(conn))
    case InsertLock =>
      (if hash in g.lockMap then g
       else g.(lockMap := g.lockMap[hash := g.nextLock], nextLock := g.nextLock + 1), FetchLock)
    case FetchLock => (g, if hash in g.lockMap then TryLock(g.lockMap[hash]) else Panicked)
    case TryLock(lock) =>
      if lock in g.holders then (g, AwaitNotify) else (g.(holders := g.holders[lock := t]), Open(lock))
    case AwaitNotify => (g, FindLock(Notified))
    case Connected(conn) => (g.(conns := Add(g.conns, conn, 1)), Sending(conn))
    case Stream(conn, read, write, _) => (g.(conns := Add(g.conns, conn, -1)), Stream(conn, read, write, false))
    case pc => (g, pc)
  }

  /** What a step does to the shared state, and where it leaves the task. */
  function Act(h: Hash, g: Shared, t: nat, task: Task, a: Action): (Shared, Pc)
    requires CanAct(h, g, task, a)
  {
    var pc := task.pc;
    match a
    case Go => Run(h, g, t, task)
    case Get(id, ready) =>
      var taken := g.(pool := g.pool - {id});
      if g.conns[g.pool[id].conn].key != task.key then (taken.(holders := g.holders - {pc.lock}), Failed)
      else if ready then (taken, CheckIn(pc.lock, g.pool[id].conn))
      else (taken.(broken := g.broken + {g.pool[id].conn}), pc)
    case Opened(configured, limit) =>
      (g.(conns := g.conns + [Conn(task.key, configured, limit, MaxAllowed(configured, limit), 0)]), CheckIn(pc.lock, |g.conns|))
    case OpenFailed => (g.(holders := g.holders - {pc.lock}), Failed)
    case Drained => (g, Failed)
    case SendOk => (g, Stream(pc.conn, true, true, false))
    case SendFailed => (g.(conns := Add(g.conns, pc.conn, -1)), Failed)
    case Drop(half) =>
      // The halves share one reference; the one dropped while the other is alive is not its last owner,
      // and it is that one that goes on to decrement the counter.
      (g, Stream(pc.conn, pc.read && half.Write?, pc.write && half.Read?, pc.settling || (pc.read && pc.write)))
  }

  predicate Enabled(h: Hash, s: State, l: Label) {
    match l
    case Connect(_) => true
    case Evict(id) => id in s.shared.pool
    case Step(t, a) => t < |s.tasks| && CanAct(h, s.shared, s.tasks[t], a)
  }

  function Apply(h: Hash, s: State, l: Label): State
    requires Enabled(h, s, l)
  {
    match l
    case Connect(key) => s.(nextId := s.nextId + 1, tasks := s.tasks + [Task(key, s.nextId, FindLock(First))])
    case Evict(id) => s.(shared := s.shared.(pool := s.shared.pool - {id}))
    case Step(t, a) =>
      var (g, pc) := Act(h, s.shared, t, s.tasks[t], a);
      s.(shared := g, tasks := s.tasks[t := s.tasks[t].(pc := pc)])
  }

  predicate Holding(pc: Pc) {
    pc.Search? || pc.Open? || pc.CheckIn? || pc.PutBack? || pc.Unlock?
  }

  predicate KnowsLock(pc: Pc) {
    Holding(pc) || pc.AwaitLock? || pc.TryLock?
  }

  /** A task past the point where the lock map must have an entry for its hash. */
  predicate NeedsLock(pc: Pc) {
    pc.FetchLock? || pc.AwaitNotify? || pc == FindLock(Notified)
  }

  // Locks.

  ghost predicate TaskLocked(h: Hash, g: Shared, t: nat, task: Task) {
    && (Holding(task.pc) ==> task.pc.lock in g.holders && g.holders[task.pc.lock] == t)
    && (KnowsLock(task.pc) ==> h(task.key) in g.lockMap && g.lockMap[h(task.key)] == task.pc.lock)
    && (NeedsLock(task.pc) ==> h(task.key) in g.lockMap)
    && task.pc != Panicked
  }

  ghost predicate HeldBy(lock: nat, t: nat, tasks: seq<Task>) {
    t < |tasks| && Holding(tasks[t].pc) && tasks[t].pc.lock == lock
  }

  /** Locks are held by exactly the tasks that think so, every task's lock is the one mapped to its hash, and distinct
      hashes have distinct locks. */
  ghost predicate Locked(h: Hash, s: State) {
    && (forall t :: 0 <= t < |s.tasks| ==> TaskLocked(h, s.shared, t, s.tasks[t]))
    && (forall l :: l in s.shared.holders ==> HeldBy(l, s.shared.holders[l], s.tasks))
    && (forall k :: k in s.shared.lockMap ==> s.shared.lockMap[k] < s.shared.nextLock)
    && (forall j, k :: j in s.shared.lockMap && k in s.shared.lockMap && s.shared.lockMap[j] == s.shared.lockMap[k] ==> j == k)
  }

  /** How one task's step from `pc` to `pc'` may change the lock map and the locks. */
  ghost predicate LockMove(h: Hash, g: Shared, g': Shared, t: nat, task: Task, pc': Pc) {
    && (if g'.lockMap == g.lockMap then g'.nextLock == g.nextLock
        else h(task.key) !in g.lockMap && g'.lockMap == g.lockMap[h(task.key) := g.nextLock] && g'.nextLock == g.nextLock + 1)
    && (if Holding(pc') then
          if Holding(task.pc) then pc'.lock == task.pc.lock && g'.holders == g.holders
          else pc'.lock !in g.holders && g'.holders == g.holders[pc'.lock := t]
        else g'.holders == if Holding(task.pc) then g.holders - {task.pc.lock} else g.holders)
    && TaskLocked(h, g', t, task.(pc := pc'))
  }

  lemma ActLockMove(h: Hash, g: Shared, t: nat, task: Task, a: Action)
    requires CanAct(h, g, task, a) && TaskLocked(h, g, t, task)
    ensures var (g', pc') := Act(h, g, t, task, a); LockMove(h, g, g', t, task, pc')
  {}

  /** From `s` to `s'` only task `t` moves. */
  ghost predicate Moves(s: State, s': State, t: nat) {
    && t < |s.tasks| == |s'.tasks|
    && s'.tasks == s.tasks[t := s.tasks[t].(pc := s'.tasks[t].pc)]
  }

  lemma MoveLocked(h: Hash, s: State, s': State, t: nat)
    requires Locked(h, s) && Moves(s, s', t) && LockMove(h, s.shared, s'.shared, t, s.tasks[t], s'.tasks[t].pc)
    ensures Locked(h, s')
  {
    forall u | 0 <= u < |s'.tasks| ensures TaskLocked(h, s'.shared, u, s'.tasks[u]) {
      if u != t { assert TaskLocked(h, s.shared, u, s.tasks[u]) && s'.tasks[u] == s.tasks[u]; }
    }
    forall l | l in s'.shared.holders ensures HeldBy(l, s'.shared.holders[l], s'.tasks) {
      if l in s.shared.holders { assert HeldBy(l, s.shared.holders[l], s.tasks); }
    }
  }

  lemma StepLocked(h: Hash, s: State, l: Label)
    requires Locked(h, s) && Enabled(h, s, l)
    ensures Locked(h, Apply(h, s, l))
  {
    var s' := Apply(h, s, l);
    if l.Step? {
      ActLockMove(h, s.shared, l.task, s.tasks[l.task], l.action);
      hide Act;
      MoveLocked(h, s, s', l.task);
    } else {
      forall u | 0 <= u < |s.tasks| ensures s'.tasks[u] == s.tasks[u] {}
      forall l | l in s'.shared.holders ensures HeldBy(l, s'.shared.holders[l], s'.tasks) {
        assert HeldBy(l, s.shared.holders[l], s.tasks);
      }
    }
  }

  // Keys.

  ghost predicate TaskKeyed(conns: seq<Conn>, task: Task) {
    UsesConn(task.pc) ==> task.pc.conn < |conns| && conns[task.pc.conn].key == task.key
  }

  ghost predicate PooledKeyed(h: Hash, conns: seq<Conn>, e: Pooled) {
    e.conn < |conns| && e.hash == h(conns[e.conn].key)
  }

  /** Every task's connection was opened for the task's own key, and pooled clones are filed under their key's hash. */
  ghost predicate Keyed(h: Hash, s: State) {
    && (forall id :: id in s.shared.pool ==> PooledKeyed(h, s.shared.conns, s.shared.pool[id]))
    && (forall t :: 0 <= t < |s.tasks| ==> TaskKeyed(s.shared.conns, s.tasks[t]))
  }

  ghost predicate KeysKept(conns: seq<Conn>, conns': seq<Conn>) {
    |conns| <= |conns'| && forall c :: 0 <= c < |conns| ==> conns'[c].key == conns[c].key
  }

  lemma ActKeyed(h: Hash, g: Shared, t: nat, task: Task, a: Action)
    requires CanAct(h, g, task, a) && TaskKeyed(g.conns, task)
    ensures var (g', pc') := Act(h, g, t, task, a);
      && TaskKeyed(g'.conns, task.(pc := pc')) && KeysKept(g.conns, g'.conns)
      && forall id :: id in g'.pool ==> (id in g.pool && g'.pool[id] == g.pool[id]) || PooledKeyed(h, g.conns, g'.pool[id])
  {}

  lemma StepKeyed(h: Hash, s: State, l: Label)
    requires Keyed(h, s) && Enabled(h, s, l)
    ensures Keyed(h, Apply(h, s, l))
  {
    var s' := Apply(h, s, l);
    if l.Step? {
      ActKeyed(h, s.shared, l.task, s.tasks[l.task], l.action);
      hide Act;
      forall u | 0 <= u < |s'.tasks| ensures TaskKeyed(s'.shared.conns, s'.tasks[u]) {
        if u != l.task { assert TaskKeyed(s.shared.conns, s.tasks[u]) && s'.tasks[u] == s.tasks[u]; }
      }
      forall id | id in s'.shared.pool ensures PooledKeyed(h, s'.shared.conns, s'.shared.pool[id]) {
        if id in s.shared.pool { assert PooledKeyed(h, s.shared.conns, s.shared.pool[id]); }
      }
    }
  }

  // The right to put a connection into the pool.

  /** A task that may still check a connection in. */
  predicate BeforeCheckIn(pc: Pc) {
    !(pc.Unlock? || pc.Connected? || pc.Failed? || pc.Panicked? || pc.Sending? || pc.Stream?)
  }

  /** A task that has a connection and may put it into the pool. */
  predicate MayPut(pc: Pc) {
    pc.CheckIn? || pc.PutBack?
  }

  predicate Carries(task: Task, conn: nat) {
    MayPut(task.pc) && task.pc.conn == conn
  }

  /** That right is never duplicated: at most one clone is pooled, or at most one task is about to check one in, and
      not both. */
  ghost predicate Linear(s: State) {
    && (forall id :: id in s.shared.pool ==> s.shared.pool[id].conn < |s.shared.conns|)
    && (forall t :: 0 <= t < |s.tasks| && MayPut(s.tasks[t].pc) ==> s.tasks[t].pc.conn < |s.shared.conns|)
    && (forall i, j :: i in s.shared.pool && j in s.shared.pool && s.shared.pool[i].conn == s.shared.pool[j].conn ==> i == j)
    && (forall i, t :: i in s.shared.pool && 0 <= t < |s.tasks| ==> !Carries(s.tasks[t], s.shared.pool[i].conn))
    && (forall t, u ::
          0 <= t < |s.tasks| && 0 <= u < |s.tasks| && MayPut(s.tasks[t].pc) && Carries(s.tasks[u], s.tasks[t].pc.conn) ==> t == u)
  }

  /** How one task's step may move the right to put: nowhere, out of the task into the pool, out of the pool into the
      task, or with a new connection. */
  ghost predicate RightMove(g: Shared, g': Shared, task: Task, pc': Pc) {
    && |g.conns| <= |g'.conns|
    && (if MayPut(pc') then
          && pc'.conn < |g'.conns|
          && (if MayPut(task.pc) then g'.pool == g.pool && pc'.conn == task.pc.conn else
              (g'.pool == g.pool && pc'.conn == |g.conns|) ||
              (exists id :: id in g.pool && g.pool[id].conn == pc'.conn && g'.pool == g.pool - {id}))
        else
          (forall i :: i in g'.pool ==>
             (i in g.pool && g'.pool[i] == g.pool[i]) || (i == task.id && Carries(task, g'.pool[i].conn))))
  }

  lemma ActRightMove(h: Hash, g: Shared, t: nat, task: Task, a: Action)
    requires CanAct(h, g, task, a)
    ensures var (g', pc') := Act(h, g, t, task, a); RightMove(g, g', task, pc')
  {}

  lemma MoveLinear(s: State, s': State, t: nat)
    requires Linear(s) && Moves(s, s', t) && RightMove(s.shared, s'.shared, s.tasks[t], s'.tasks[t].pc)
    ensures Linear(s')
  {}

  lemma StepLinear(h: Hash, s: State, l: Label)
    requires Linear(s) && Enabled(h, s, l)
    ensures Linear(Apply(h, s, l))
  {
    var s' := Apply(h, s, l);
    if l.Step? {
      ActRightMove(h, s.shared, l.task, s.tasks[l.task], l.action);
      hide Act;
      MoveLinear(s, s', l.task);
    } else {
      forall u | 0 <= u < |s.tasks| ensures s'.tasks[u] == s.tasks[u] {}
    }
  }

  /** A task puts under its own id, and once. */
  ghost predicate PutOnce(s: State) {
    && s.nextId == |s.tasks|
    && (forall t :: 0 <= t < |s.tasks| ==> s.tasks[t].id == t)
    && (forall i :: 0 <= i < |s.shared.puts| ==> s.shared.puts[i] < |s.tasks| && !BeforeCheckIn(s.tasks[s.shared.puts[i]].pc))
    && (forall i, j :: 0 <= i < j < |s.shared.puts| ==> s.shared.puts[i] != s.shared.puts[j])
    && (forall id :: id in s.shared.pool ==> id in s.shared.puts)
  }

  lemma ActPuts(h: Hash, g: Shared, t: nat, task: Task, a: Action)
    requires CanAct(h, g, task, a)
    ensures var (g', pc') := Act(h, g, t, task, a);
      && (BeforeCheckIn(pc') ==> BeforeCheckIn(task.pc))
      && (if g'.puts == g.puts then g'.pool.Keys <= g.pool.Keys
          else
            && g'.puts == g.puts + [task.id] && g'.pool.Keys <= g.pool.Keys + {task.id}
            && BeforeCheckIn(task.pc) && !BeforeCheckIn(pc'))
  {}

  lemma StepPutOnce(h: Hash, s: State, l: Label)
    requires PutOnce(s) && Enabled(h, s, l)
    ensures PutOnce(Apply(h, s, l))
  {
    var s' := Apply(h, s, l);
    if l.Step? {
      ActPuts(h, s.shared, l.task, s.tasks[l.task], l.action);
      hide Act;
      forall u | 0 <= u < |s'.tasks| ensures u != l.task ==> s'.tasks[u] == s.tasks[u] {}
      forall i | 0 <= i < |s'.shared.puts|
        ensures s'.shared.puts[i] < |s'.tasks| && !BeforeCheckIn(s'.tasks[s'.shared.puts[i]].pc)
      {
        if i < |s.shared.puts| { assert s'.shared.puts[i] == s.shared.puts[i]; }
      }
    }
  }

  // Stream counters.

  /** A task's share in the counter of connection `c`: a send in flight, or a stream whose halves are both alive
      or whose first dropped half has yet to decrement. */
  function Share(pc: Pc, c: nat): nat {
    if (pc.Sending? && pc.conn == c) || (pc.Stream? && pc.conn == c && ((pc.read && pc.write) || pc.settling)) then 1 else 0
  }

  function Active(tasks: seq<Task>, c: nat): nat {
    if tasks == [] then 0 else Share(tasks[0].pc, c) + Active(tasks[1..], c)
  }

  lemma {:induction false} ActiveUpdate(tasks: seq<Task>, t: nat, task: Task, c: nat)
    requires t < |tasks|
    ensures Active(tasks[t := task], c) == Active(tasks, c) - Share(tasks[t].pc, c) + Share(task.pc, c)
  {
    if t > 0 {
      assert tasks[t := task][1..] == tasks[1..][t - 1 := task];
      ActiveUpdate(tasks[1..], t - 1, task, c);
    }
  }

  lemma {:induction false} ActiveAppend(tasks: seq<Task>, task: Task, c: nat)
    ensures Active(tasks + [task], c) == Active(tasks, c) + Share(task.pc, c)
  {
    if tasks == [] {
      assert tasks + [task] == [task] && [task][1..] == [];
    } else {
      assert (tasks + [task])[1..] == tasks[1..] + [task];
      ActiveAppend(tasks[1..], task, c);
    }
  }

  lemma {:induction false} ActiveNone(tasks: seq<Task>, c: nat)
    requires forall t :: 0 <= t < |tasks| ==> Share(tasks[t].pc, c) == 0
    ensures Active(tasks, c) == 0
  {
    if tasks != [] { ActiveNone(tasks[1..], c); }
  }

  ghost predicate TaskCounted(conns: seq<Conn>, task: Task) {
    && (UsesConn(task.pc) ==> task.pc.conn < |conns|)
    && (task.pc.Stream? && task.pc.settling ==> !(task.pc.read && task.pc.write))
  }

  /** Every counter is the number of its connection's active streams, as a 16-bit number. */
  ghost predicate Counted(s: State) {
    && (forall t :: 0 <= t < |s.tasks| ==> TaskCounted(s.shared.conns, s.tasks[t]))
    && (forall c :: 0 <= c < |s.shared.conns| ==> s.shared.conns[c].count == Active(s.tasks, c) % U16)
  }

  /** A step changes each counter by the change in the task's share, so a stream is subtracted exactly once. */
  lemma ActShare(h: Hash, g: Shared, t: nat, task: Task, a: Action, c: nat)
    requires CanAct(h, g, task, a) && TaskCounted(g.conns, task)
    ensures var (g', pc') := Act(h, g, t, task, a);
      && |g.conns| <= |g'.conns| && TaskCounted(g'.conns, task.(pc := pc'))
      && (c < |g.conns| && g.conns[c].count < U16 ==>
            g'.conns[c].count == (g.conns[c].count + (Share(pc', c) - Share(task.pc, c))) % U16)
      && (|g.conns| <= c < |g'.conns| ==> g'.conns[c].count == 0)
      && (c >= |g.conns| ==> Share(pc', c) == 0 && Share(task.pc, c) == 0)
  {}

  lemma Recount(count: nat, active: nat, delta: int)
    requires count == active % U16
    ensures (count + delta) % U16 == (active + delta) % U16
  {}

  /** A connection that does not exist yet has no streams. */
  lemma NoShareYet(s: State, c: nat)
    requires Counted(s) && c >= |s.shared.conns|
    ensures Active(s.tasks, c) == 0
  {
    forall u | 0 <= u < |s.tasks| ensures Share(s.tasks[u].pc, c) == 0 { assert TaskCounted(s.shared.conns, s.tasks[u]); }
    ActiveNone(s.tasks, c);
  }

  lemma CountAfter(h: Hash, s: State, l: Label, c: nat)
    requires Counted(s) && Enabled(h, s, l) && l.Step? && c < |Apply(h, s, l).shared.conns|
    ensures Apply(h, s, l).shared.conns[c].count == Active(Apply(h, s, l).tasks, c) % U16
  {
    var s' := Apply(h, s, l);
    assert TaskCounted(s.shared.conns, s.tasks[l.task]);
    ActShare(h, s.shared, l.task, s.tasks[l.task], l.action, c);
    ActiveUpdate(s.tasks, l.task, s'.tasks[l.task], c);
    if c >= |s.shared.conns| {
      NoShareYet(s, c);
    } else {
      Recount(s.shared.conns[c].count, Active(s.tasks, c), Share(s'.tasks[l.task].pc, c) - Share(s.tasks[l.task].pc, c));
    }
    hide *;
  }

  lemma StepCounted(h: Hash, s: State, l: Label)
    requires Counted(s) && Enabled(h, s, l)
    ensures Counted(Apply(h, s, l))
  {
    var s' := Apply(h, s, l);
    if l.Step? {
      var task := s.tasks[l.task];
      ActShare(h, s.shared, l.task, task, l.action, 0);
      hide Act;
      forall u | 0 <= u < |s'.tasks| ensures TaskCounted(s'.shared.conns, s'.tasks[u]) {
        if u != l.task { assert TaskCounted(s.shared.conns, s.tasks[u]) && s'.tasks[u] == s.tasks[u]; }
      }
      forall c | 0 <= c < |s'.shared.conns| ensures s'.shared.conns[c].count == Active(s'.tasks, c) % U16 {
        CountAfter(h, s, l, c);
      }
    } else if l.Connect? {
      forall c | 0 <= c < |s.shared.conns| ensures Active(s'.tasks, c) == Active(s.tasks, c) {
        ActiveAppend(s.tasks, Task(l.key, s.nextId, FindLock(First)), c);
      }
    }
  }

  // Whole runs.

  /** A schedule is any sequence of labels; one that is not enabled changes nothing. */
  function Next(h: Hash, s: State, l: Label): State {
    if Enabled(h, s, l) then Apply(h, s, l) else s
  }

  function Exec(h: Hash, s: State, run: seq<Label>): State
    decreases run
  {
    if run == [] then s else Exec(h, Next(h, s, run[0]), run[1..])
  }

  ghost predicate Inv(h: Hash, s: State) {
    Locked(h, s) && Keyed(h, s) && Linear(s) && PutOnce(s) && Counted(s)
  }

  lemma NextKeepsInv(h: Hash, s: State, l: Label)
    requires Inv(h, s)
    ensures Inv(h, Next(h, s, l))
  {
    hide Apply;
    if Enabled(h, s, l) {
      StepLocked(h, s, l);
      StepKeyed(h, s, l);
      StepLinear(h, s, l);
      StepPutOnce(h, s, l);
      StepCounted(h, s, l);
    }
  }

  lemma {:induction false} RunKeepsInv(h: Hash, s: State, run: seq<Label>)
    requires Inv(h, s)
    ensures Inv(h, Exec(h, s, run))
    decreases run
  {
    if run != [] {
      NextKeepsInv(h, s, run[0]);
      RunKeepsInv(h, Next(h, s, run[0]), run[1..]);
    }
  }

  lemma EmptyInv(h: Hash, s: State)
    requires Initial(s)
    ensures Inv(h, s)
  {}

  /** In every interleaving and for every hash function: at most one task per hash is opening a connection; no unwrap of
      the lock map fails, and a task that was notified always finds its lock there. */
  lemma LockProtocol(h: Hash, s: State, run: seq<Label>)
    requires Initial(s)
    ensures var e := Exec(h, s, run);
      && (forall t, u :: 0 <= t < u < |e.tasks| && e.tasks[t].pc.Open? && e.tasks[u].pc.Open? ==>
            h(e.tasks[t].key) != h(e.tasks[u].key))
      && (forall t :: 0 <= t < |e.tasks| ==> e.tasks[t].pc != Panicked)
      && (forall t :: 0 <= t < |e.tasks| && e.tasks[t].pc == FindLock(Notified) ==>
            Next(h, e, Step(t, Go)).tasks[t].pc.AwaitLock?)
  {
    hide Exec;
    EmptyInv(h, s);
    RunKeepsInv(h, s, run);
    var e := Exec(h, s, run);
    forall t | 0 <= t < |e.tasks| ensures TaskLocked(h, e.shared, t, e.tasks[t]) {}
  }

  /** `connect` only ever returns a connection opened for its own key, however keys collide. */
  lemma ConnectReturnsOwnKey(h: Hash, s: State, run: seq<Label>)
    requires Initial(s)
    ensures var e := Exec(h, s, run);
      forall t :: 0 <= t < |e.tasks| && e.tasks[t].pc.Connected? ==>
        e.tasks[t].pc.conn < |e.shared.conns| && e.shared.conns[e.tasks[t].pc.conn].key == e.tasks[t].key
  {
    hide Exec;
    EmptyInv(h, s);
    RunKeepsInv(h, s, run);
    var e := Exec(h, s, run);
    forall t | 0 <= t < |e.tasks| ensures TaskKeyed(e.shared.conns, e.tasks[t]) {}
  }

  /** Each connection has at most one clone in the pool, and each pool id is put at most once. */
  lemma PooledOnce(h: Hash, s: State, run: seq<Label>)
    requires Initial(s)
    ensures var g := Exec(h, s, run).shared;
      && (forall i, j :: i in g.pool && j in g.pool && g.pool[i].conn == g.pool[j].conn ==> i == j)
      && (forall i, j :: 0 <= i < j < |g.puts| ==> g.puts[i] != g.puts[j])
  {
    hide Exec;
    EmptyInv(h, s);
    RunKeepsInv(h, s, run);
  }

  /** Each counter is the number of sends in flight and of streams not yet subtracted, as a 16-bit number; so with fewer
      than 2^16 of them a task that is to decrement finds its counter exact and above zero. */
  lemma StreamAccounting(h: Hash, s: State, run: seq<Label>)
    requires Initial(s)
    ensures var e := Exec(h, s, run);
      && (forall c :: 0 <= c < |e.shared.conns| ==> e.shared.conns[c].count == Active(e.tasks, c) % U16)
      && (forall t :: 0 <= t < |e.tasks| && (e.tasks[t].pc.Sending? || (e.tasks[t].pc.Stream? && e.tasks[t].pc.settling)) ==>
            var c := e.tasks[t].pc.conn;
            && c < |e.shared.conns| && Active(e.tasks, c) > 0
            && (Active(e.tasks, c) < U16 ==> e.shared.conns[c].count == Active(e.tasks, c)))
  {
    hide Exec;
    EmptyInv(h, s);
    RunKeepsInv(h, s, run);
    var e := Exec(h, s, run);
    forall t | 0 <= t < |e.tasks| && UsesConn(e.tasks[t].pc) && Share(e.tasks[t].pc, e.tasks[t].pc.conn) == 1
      ensures e.tasks[t].pc.conn < |e.shared.conns| && Active(e.tasks, e.tasks[t].pc.conn) > 0
    {
      assert TaskCounted(e.shared.conns, e.tasks[t]);
      ActiveUpdate(e.tasks, t, e.tasks[t].(pc := Failed), e.tasks[t].pc.conn);
    }
  }

  /** A lock-map entry is never removed or replaced. */
  lemma {:induction false} LockMapGrows(h: Hash, s: State, run: seq<Label>, hash: nat)
    requires hash in s.shared.lockMap
    ensures hash in Exec(h, s, run).shared.lockMap && Exec(h, s, run).shared.lockMap[hash] == s.shared.lockMap[hash]
    decreases run
  {
    if run != [] {
      var s' := Next(h, s, run[0]);
      assert hash in s'.shared.lockMap && s'.shared.lockMap[hash] == s.shared.lockMap[hash];
      LockMapGrows(h, s', run[1..], hash);
    }
  }

  // The stream cap.

  /** A task between taking a connection and sending on it. */
  predicate InCheckout(pc: Pc) {
    MayPut(pc) || pc.Unlock? || pc.Connected?
  }

  /** A block of a run in which checking a connection out and sending on it are one step: a single step that is not part
      of that, or the steps from check-in to the increment; there are four, or three and one that is not enabled. */
  datatype Block = Single(l: Label) | CheckoutAndSend(task: nat)

  predicate Fits(h: Hash, s: State, b: Block) {
    match b
    case Single(Step(t, Opened(configured, limit))) => configured >= 1 && limit >= 1
    case Single(Step(t, a)) => t < |s.tasks| ==> !InCheckout(s.tasks[t].pc)
    case Single(_) => true
    case CheckoutAndSend(t) => t < |s.tasks| && s.tasks[t].pc.CheckIn?
  }

  function Steps(b: Block): seq<Label> {
    match b
    case Single(l) => [l]
    case CheckoutAndSend(t) => [Step(t, Go), Step(t, Go), Step(t, Go), Step(t, Go)]
  }

  function Flatten(blocks: seq<Block>): seq<Label> {
    if blocks == [] then [] else Steps(blocks[0]) + Flatten(blocks[1..])
  }

  ghost predicate Fused(h: Hash, s: State, blocks: seq<Block>)
    decreases blocks
  {
    blocks == [] || (Fits(h, s, blocks[0]) && Fused(h, Exec(h, s, Steps(blocks[0])), blocks[1..]))
  }

  ghost predicate HasRoom(s: State, c: nat) {
    c < |s.shared.conns| && Active(s.tasks, c) < s.shared.conns[c].max
  }

  ghost predicate TaskCapped(s: State, task: Task) {
    InCheckout(task.pc) ==> task.pc.CheckIn? && HasRoom(s, task.pc.conn)
  }

  /** No connection has more active streams than it allows, and one that is pooled or about to be has room for another. */
  ghost predicate Capped(s: State) {
    && (forall c :: 0 <= c < |s.shared.conns| ==>
          Active(s.tasks, c) <= s.shared.conns[c].max < U16 && s.shared.conns[c].max <= s.shared.conns[c].limit)
    && (forall id :: id in s.shared.pool ==> HasRoom(s, s.shared.pool[id].conn))
    && (forall t :: 0 <= t < |s.tasks| ==> TaskCapped(s, s.tasks[t]))
  }

  /** How a step that takes no share may change the connections and the pool. */
  ghost predicate RoomKept(g: Shared, g': Shared, pc': Pc) {
    && (InCheckout(pc') ==> pc'.CheckIn?)
    && (forall id :: id in g'.pool ==> id in g.pool && g'.pool[id] == g.pool[id])
    && |g.conns| <= |g'.conns|
    && (forall i :: 0 <= i < |g.conns| ==> g'.conns[i].max == g.conns[i].max && g'.conns[i].limit == g.conns[i].limit)
    && (forall i :: |g.conns| <= i < |g'.conns| ==> 1 <= g'.conns[i].max < U16 && g'.conns[i].max <= g'.conns[i].limit)
    && (pc'.CheckIn? ==> (|g.conns| <= pc'.conn < |g'.conns|) || (exists id :: id in g.pool && g.pool[id].conn == pc'.conn))
  }

  /** Outside checkout and send, a step takes no share and pools nothing; it carries a connection off only out of the
      pool, or a new one. */
  lemma ActCapped(h: Hash, g: Shared, t: nat, task: Task, a: Action, c: nat)
    requires CanAct(h, g, task, a) && !InCheckout(task.pc)
    requires TaskCounted(g.conns, task) && (a.Opened? ==> a.configured >= 1 && a.limit >= 1)
    ensures var (g', pc') := Act(h, g, t, task, a);
      Share(pc', c) <= Share(task.pc, c) && RoomKept(g, g', pc')
  {}

  lemma MoveCapped(s: State, s': State, t: nat)
    requires Capped(s) && Moves(s, s', t) && RoomKept(s.shared, s'.shared, s'.tasks[t].pc)
    requires forall c :: 0 <= c ==>
      Active(s'.tasks, c) <= Active(s.tasks, c) && (c >= |s.shared.conns| ==> Active(s'.tasks, c) == 0)
    ensures Capped(s')
  {
    hide Active;
    forall u | 0 <= u < |s'.tasks| ensures TaskCapped(s', s'.tasks[u]) {
      if u != t { assert TaskCapped(s, s.tasks[u]) && s'.tasks[u] == s.tasks[u]; }
    }
    forall id | id in s'.shared.pool ensures HasRoom(s', s'.shared.pool[id].conn) {
      assert HasRoom(s, s.shared.pool[id].conn);
    }
  }

  lemma NoNewShare(h: Hash, s: State, l: Label, c: nat)
    requires Counted(s) && Fits(h, s, Single(l)) && Enabled(h, s, l) && l.Step?
    requires !InCheckout(s.tasks[l.task].pc)
    ensures var s' := Apply(h, s, l);
      Active(s'.tasks, c) <= Active(s.tasks, c) && (c >= |s.shared.conns| ==> Active(s'.tasks, c) == 0)
  {
    var s' := Apply(h, s, l);
    ActCapped(h, s.shared, l.task, s.tasks[l.task], l.action, c);
    ActiveUpdate(s.tasks, l.task, s'.tasks[l.task], c);
    if c >= |s.shared.conns| { NoShareYet(s, c); }
  }

  lemma SingleCapped(h: Hash, s: State, l: Label)
    requires Counted(s) && Capped(s) && Fits(h, s, Single(l)) && Enabled(h, s, l)
    ensures Capped(Apply(h, s, l))
  {
    var s' := Apply(h, s, l);
    if l.Step? {
      ActCapped(h, s.shared, l.task, s.tasks[l.task], l.action, 0);
      forall c | 0 <= c
        ensures Active(s'.tasks, c) <= Active(s.tasks, c) && (c >= |s.shared.conns| ==> Active(s'.tasks, c) == 0)
      {
        NoNewShare(h, s, l, c);
      }
      hide Act, Active, Capped;
      MoveCapped(s, s', l.task);
    } else if l.Connect? {
      forall c | 0 <= c ensures Active(s'.tasks, c) == Active(s.tasks, c) {
        ActiveAppend(s.tasks, Task(l.key, s.nextId, FindLock(First)), c);
      }
      forall u | 0 <= u < |s'.tasks| ensures TaskCapped(s', s'.tasks[u]) {
        if u < |s.tasks| { assert TaskCapped(s, s.tasks[u]) && s'.tasks[u] == s.tasks[u]; }
      }
    } else {
      forall u | 0 <= u < |s'.tasks| ensures TaskCapped(s', s'.tasks[u]) { assert TaskCapped(s, s.tasks[u]); }
    }
  }

  function Goto(s: State, t: nat, pc: Pc): State
    requires t < |s.tasks|
  {
    s.(tasks := s.tasks[t := s.tasks[t].(pc := pc)])
  }

  lemma CheckInOnly(h: Hash, s: State, t: nat)
    requires t < |s.tasks| && s.tasks[t].pc.CheckIn? && s.tasks[t].pc.conn < |s.shared.conns|
    requires WillBeAtMax(s.shared.conns[s.tasks[t].pc.conn])
    ensures Next(h, s, Step(t, Go)) == Goto(s, t, Unlock(s.tasks[t].pc.lock, s.tasks[t].pc.conn))
  {}

  lemma CheckInAndPut(h: Hash, s: State, t: nat)
    requires t < |s.tasks| && s.tasks[t].pc.CheckIn? && s.tasks[t].pc.conn < |s.shared.conns|
    requires !WillBeAtMax(s.shared.conns[s.tasks[t].pc.conn])
    ensures var go, g, task := Step(t, Go), s.shared, s.tasks[t];
      var put := g.(pool := g.pool[task.id := Pooled(h(task.key), task.pc.conn)], puts := g.puts + [task.id]);
      Next(h, Next(h, s, go), go) == Goto(s, t, Unlock(task.pc.lock, task.pc.conn)).(shared := put)
  {
    var s1 := Goto(s, t, PutBack(s.tasks[t].pc.lock, s.tasks[t].pc.conn));
    assert Next(h, s, Step(t, Go)) == s1;
  }

  lemma ReleaseAndSend(h: Hash, s: State, t: nat)
    requires t < |s.tasks| && s.tasks[t].pc.Unlock? && s.tasks[t].pc.conn < |s.shared.conns|
    ensures var go, pc := Step(t, Go), s.tasks[t].pc;
      var s' := Next(h, Next(h, s, go), go);
      && s'.tasks == s.tasks[t := s.tasks[t].(pc := Sending(pc.conn))] && Next(h, s', go) == s'
      && s'.shared == s.shared.(holders := s.shared.holders - {pc.lock}, conns := Add(s.shared.conns, pc.conn, 1))
  {}

  lemma FourTimes(h: Hash, s: State, l: Label)
    ensures Exec(h, s, [l, l, l, l]) == Next(h, Next(h, Next(h, Next(h, s, l), l), l), l)
  {
    hide Next;
    var s1 := Next(h, s, l);
    var s2 := Next(h, s1, l);
    var s3 := Next(h, s2, l);
    assert [l, l, l, l][1..] == [l, l, l] && [l, l, l][1..] == [l, l] && [l, l][1..] == [l] && [l][1..] == [];
    assert Exec(h, s3, [l]) == Next(h, s3, l);
    assert Exec(h, s2, [l, l]) == Exec(h, s3, [l]);
    assert Exec(h, s1, [l, l, l]) == Exec(h, s2, [l, l]);
  }

  /** The steps of a checkout and send, taken together. */
  lemma CheckoutAndSendIs(h: Hash, s: State, t: nat)
    requires t < |s.tasks| && s.tasks[t].pc.CheckIn? && s.tasks[t].pc.conn < |s.shared.conns|
    ensures var c, g, task := s.tasks[t].pc.conn, s.shared, s.tasks[t];
      var s' := Exec(h, s, Steps(CheckoutAndSend(t)));
      && s'.tasks == s.tasks[t := task.(pc := Sending(c))] && s'.shared.conns == Add(g.conns, c, 1)
      && s'.shared.pool == (if (g.conns[c].count + 1) % U16 >= g.conns[c].max then g.pool
                            else g.pool[task.id := Pooled(h(task.key), c)])
  {
    hide Exec, Next, Add;
    var go := Step(t, Go);
    FourTimes(h, s, go);
    if WillBeAtMax(s.shared.conns[s.tasks[t].pc.conn]) {
      CheckInOnly(h, s, t);
      ReleaseAndSend(h, Next(h, s, go), t);
    } else {
      CheckInAndPut(h, s, t);
      ReleaseAndSend(h, Next(h, Next(h, s, go), go), t);
    }
  }

  lemma SentCapped(h: Hash, s: State, s': State, t: nat, c: nat)
    requires Linear(s) && Capped(s) && t < |s.tasks| && Carries(s.tasks[t], c) && HasRoom(s, c)
    requires s.shared.conns[c].count == Active(s.tasks, c) % U16
    requires forall i :: 0 <= i ==> Active(s'.tasks, i) == Active(s.tasks, i) + if i == c then 1 else 0
    requires s'.tasks == s.tasks[t := s.tasks[t].(pc := Sending(c))] && s'.shared.conns == Add(s.shared.conns, c, 1)
    requires s'.shared.pool ==
      if WillBeAtMax(s.shared.conns[c]) then s.shared.pool else s.shared.pool[s.tasks[t].id := Pooled(h(s.tasks[t].key), c)]
    ensures Capped(s')
  {
    hide Active;
    forall id | id in s'.shared.pool ensures HasRoom(s', s'.shared.pool[id].conn) {
      if id in s.shared.pool && s'.shared.pool[id] == s.shared.pool[id] {
        assert HasRoom(s, s.shared.pool[id].conn) && !Carries(s.tasks[t], s.shared.pool[id].conn);
      }
    }
    forall u | 0 <= u < |s'.tasks| ensures TaskCapped(s', s'.tasks[u]) {
      if u != t {
        assert TaskCapped(s, s.tasks[u]) && s'.tasks[u] == s.tasks[u];
        assert s.tasks[u].pc.CheckIn? ==> !Carries(s.tasks[t], s.tasks[u].pc.conn);
      }
    }
  }

  lemma WholeCapped(h: Hash, s: State, t: nat)
    requires Counted(s) && Linear(s) && Capped(s) && t < |s.tasks| && s.tasks[t].pc.CheckIn?
    ensures Capped(Exec(h, s, Steps(CheckoutAndSend(t))))
  {
    hide Exec;
    assert TaskCapped(s, s.tasks[t]);
    CheckoutAndSendIs(h, s, t);
    var s' := Exec(h, s, Steps(CheckoutAndSend(t)));
    var c := s.tasks[t].pc.conn;
    forall i | 0 <= i ensures Active(s'.tasks, i) == Active(s.tasks, i) + if i == c then 1 else 0 {
      ActiveUpdate(s.tasks, t, s'.tasks[t], i);
    }
    SentCapped(h, s, s', t, c);
  }

  lemma {:induction false} ExecAppend(h: Hash, s: State, a: seq<Label>, b: seq<Label>)
    ensures Exec(h, s, a + b) == Exec(h, Exec(h, s, a), b)
    decreases a
  {
    if a == [] {
      assert a + b == b;
    } else {
      ExecAppend(h, Next(h, s, a[0]), a[1..], b);
      assert (a + b)[1..] == a[1..] + b;
    }
  }

  lemma {:induction false} FusedCapped(h: Hash, s: State, blocks: seq<Block>)
    requires Inv(h, s) && Capped(s) && Fused(h, s, blocks)
    ensures Capped(Exec(h, s, Flatten(blocks)))
    decreases blocks
  {
    if blocks != [] {
      var b, first := blocks[0], Steps(blocks[0]);
      var s' := Exec(h, s, first);
      if b.CheckoutAndSend? {
        WholeCapped(h, s, b.task);
      } else {
        assert s' == Exec(h, Next(h, s, b.l), []) by { assert first[1..] == []; }
        if Enabled(h, s, b.l) { SingleCapped(h, s, b.l); }
      }
      RunKeepsInv(h, s, first);
      FusedCapped(h, s', blocks[1..]);
      ExecAppend(h, s, first, Flatten(blocks[1..]));
    }
  }

  lemma CapMeaning(s: State)
    requires Counted(s) && Capped(s)
    ensures forall c :: 0 <= c < |s.shared.conns| ==>
      s.shared.conns[c].count <= s.shared.conns[c].max <= s.shared.conns[c].limit
    ensures forall id :: id in s.shared.pool ==>
      var c := s.shared.pool[id].conn; c < |s.shared.conns| && s.shared.conns[c].count < s.shared.conns[c].max
  {}

  /** In runs where checking out and sending are one step and every connection allows a stream, no connection ever exceeds
      its cap, which is within the peer's limit, and a pooled connection is strictly below it. */
  lemma StreamCap(h: Hash, s: State, blocks: seq<Block>)
    requires Initial(s) && Fused(h, s, blocks)
    ensures var g := Exec(h, s, Flatten(blocks)).shared;
      && (forall c :: 0 <= c < |g.conns| ==> g.conns[c].count <= g.conns[c].max <= g.conns[c].limit)
      && (forall id :: id in g.pool ==>
            g.pool[id].conn < |g.conns| && g.conns[g.pool[id].conn].count < g.conns[g.pool[id].conn].max)
  {
    hide Exec;
    EmptyInv(h, s);
    assert Capped(s);
    RunKeepsInv(h, s, Flatten(blocks));
    FusedCapped(h, s, blocks);
    CapMeaning(Exec(h, s, Flatten(blocks)));
  }

  // Without that, over every interleaving.

  predicate Uses(pc: Pc, c: nat) {
    UsesConn(pc) && pc.conn == c
  }

  /** A connection with at most one user, that is not pooled and not about to be. */
  ghost predicate Alone(s: State, c: nat) {
    && (forall id :: id in s.shared.pool ==> s.shared.pool[id].conn != c)
    && (forall t :: 0 <= t < |s.tasks| && Uses(s.tasks[t].pc, c) ==> !s.tasks[t].pc.PutBack?)
    && (forall t, u :: 0 <= t < |s.tasks| && 0 <= u < |s.tasks| && Uses(s.tasks[t].pc, c) && Uses(s.tasks[u].pc, c) ==> t == u)
  }

  ghost predicate SinglesAlone(s: State) {
    forall c :: 0 <= c < |s.shared.conns| && s.shared.conns[c].max == 1 ==> Alone(s, c)
  }

  /** How one task's step may change who uses which connection. */
  ghost predicate UseMove(g: Shared, g': Shared, task: Task, pc': Pc) {
    && |g.conns| <= |g'.conns| && (forall c :: 0 <= c < |g.conns| ==> g'.conns[c].max == g.conns[c].max)
    && (forall id :: id in g'.pool ==>
          (id in g.pool && g'.pool[id] == g.pool[id]) || (task.pc.PutBack? && g'.pool[id].conn == task.pc.conn))
    && (UsesConn(pc') ==>
          Uses(task.pc, pc'.conn) || pc'.conn == |g.conns| || exists id :: id in g.pool && g.pool[id].conn == pc'.conn)
    && (pc'.PutBack? ==>
          task.pc.CheckIn? && Uses(task.pc, pc'.conn) && pc'.conn < |g.conns| && !WillBeAtMax(g.conns[pc'.conn]))
  }

  lemma ActUseMove(h: Hash, g: Shared, t: nat, task: Task, a: Action)
    requires CanAct(h, g, task, a)
    ensures var (g', pc') := Act(h, g, t, task, a); UseMove(g, g', task, pc')
  {}

  /** The sole user of a connection finds its counter at zero when it checks it in. */
  lemma AloneAtZero(s: State, t: nat)
    requires Counted(s) && t < |s.tasks| && s.tasks[t].pc.CheckIn? && Alone(s, s.tasks[t].pc.conn)
    ensures s.tasks[t].pc.conn < |s.shared.conns| && s.shared.conns[s.tasks[t].pc.conn].count == 0
  {
    assert TaskCounted(s.shared.conns, s.tasks[t]);
    ActiveNone(s.tasks, s.tasks[t].pc.conn);
  }

  lemma MoveSinglesAlone(s: State, s': State, t: nat)
    requires Counted(s) && Linear(s) && SinglesAlone(s) && Moves(s, s', t)
    requires UseMove(s.shared, s'.shared, s.tasks[t], s'.tasks[t].pc)
    ensures SinglesAlone(s')
  {
    hide Active;
    forall u | 0 <= u < |s.tasks| ensures TaskCounted(s.shared.conns, s.tasks[u]) && (u != t ==> s'.tasks[u] == s.tasks[u]) {}
    forall c | 0 <= c < |s'.shared.conns| && s'.shared.conns[c].max == 1 ensures Alone(s', c) {
      if c < |s.shared.conns| {
        assert Alone(s, c);
        if s.tasks[t].pc.CheckIn? && s.tasks[t].pc.conn == c { AloneAtZero(s, t); }
      }
    }
  }

  lemma StepSinglesAlone(h: Hash, s: State, l: Label)
    requires Counted(s) && Linear(s) && SinglesAlone(s) && Enabled(h, s, l)
    ensures SinglesAlone(Apply(h, s, l))
  {
    var s' := Apply(h, s, l);
    if l.Step? {
      ActUseMove(h, s.shared, l.task, s.tasks[l.task], l.action);
      hide Act;
      MoveSinglesAlone(s, s', l.task);
    } else {
      forall c | 0 <= c < |s'.shared.conns| && s'.shared.conns[c].max == 1 ensures Alone(s', c) {
        assert Alone(s, c);
      }
    }
  }

  lemma {:induction false} RunSinglesAlone(h: Hash, s: State, run: seq<Label>)
    requires Inv(h, s) && SinglesAlone(s)
    ensures SinglesAlone(Exec(h, s, run))
    decreases run
  {
    if run != [] {
      hide Apply;
      NextKeepsInv(h, s, run[0]);
      if Enabled(h, s, run[0]) { StepSinglesAlone(h, s, run[0]); }
      RunSinglesAlone(h, Next(h, s, run[0]), run[1..]);
    }
  }

  lemma {:induction false} ActiveAlone(tasks: seq<Task>, c: nat)
    requires forall t, u :: 0 <= t < |tasks| && 0 <= u < |tasks| && Uses(tasks[t].pc, c) && Uses(tasks[u].pc, c) ==> t == u
    ensures Active(tasks, c) <= 1
  {
    if tasks != [] {
      var rest := tasks[1..];
      assert forall t :: 0 <= t < |rest| ==> rest[t] == tasks[t + 1];
      if Uses(tasks[0].pc, c) {
        forall t | 0 <= t < |rest| ensures Share(rest[t].pc, c) == 0 { assert !Uses(tasks[t + 1].pc, c); }
        ActiveNone(rest, c);
      } else {
        forall t, u | 0 <= t < |rest| && 0 <= u < |rest| && Uses(rest[t].pc, c) && Uses(rest[u].pc, c) ensures t == u {
          assert Uses(tasks[t + 1].pc, c) && Uses(tasks[u + 1].pc, c);
        }
        ActiveAlone(rest, c);
      }
    }
  }

  ghost predicate Reaches(h: Hash, s: State, e: State) {
    exists run :: Exec(h, s, run) == e
  }

  lemma Then(h: Hash, s: State, e: State, l: Label) returns (e': State)
    requires Reaches(h, s, e)
    ensures e' == Next(h, e, l) && Reaches(h, s, e')
  {
    e' := Next(h, e, l);
    var run :| Exec(h, s, run) == e;
    ExecAppend(h, s, run, [l]);
    assert Exec(h, e, [l]) == Exec(h, e', []) by { assert [l][1..] == []; }
  }

  /** Tasks 0 to n are all connected to one connection that allows `cap` streams; `sent` of them have sent. */
  function Crowd(h: Hash, key: Key, cap: nat, n: nat, sent: nat): State {
    State(
      Shared(map[h(key) := 0], 1, map[], map[n := Pooled(h(key), 0)], seq(n + 1, (i: nat) => i),
             [Conn(key, cap, cap, cap, sent % U16)], {}),
      n + 1, seq(n + 1, (i: nat) => Task(key, i, if i < sent then Sending(0) else Connected(0))))
  }

  function Trying(h: Hash, key: Key): State {
    State(Shared(map[h(key) := 0], 1, map[], map[], [], [], {}), 1, [Task(key, 0, TryLock(0))])
  }

  lemma FirstTries(h: Hash, key: Key, s: State)
    requires Initial(s)
    ensures Reaches(h, s, Trying(h, key))
  {
    assert Exec(h, s, []) == s;
    hide Reaches;
    var e := Then(h, s, s, Connect(key));
    e := Then(h, s, e, Step(0, Go));
    e := Then(h, s, e, Step(0, Go));
    e := Then(h, s, e, Step(0, Go));
    assert e == Trying(h, key);
  }

  lemma FirstConnects(h: Hash, key: Key, cap: nat, s: State)
    requires 2 <= cap < U16 && Reaches(h, s, Trying(h, key))
    ensures Reaches(h, s, Crowd(h, key, cap, 0, 0))
  {
    hide Reaches;
    var e := Then(h, s, Trying(h, key), Step(0, Go));
    e := Then(h, s, e, Step(0, Opened(cap, cap)));
    e := Then(h, s, e, Step(0, Go));
    e := Then(h, s, e, Step(0, Go));
    e := Then(h, s, e, Step(0, Go));
    assert e == Crowd(h, key, cap, 0, 0);
  }

  /** Task n + 1 has the lock and is about to look into the pool. */
  function Searching(h: Hash, key: Key, cap: nat, n: nat): State {
    var crowd := Crowd(h, key, cap, n, 0);
    State(crowd.shared.(holders := map[0 := n + 1]), n + 2, crowd.tasks + [Task(key, n + 1, Search(0))])
  }

  lemma NextSearches(h: Hash, key: Key, cap: nat, n: nat, s: State)
    requires Reaches(h, s, Crowd(h, key, cap, n, 0))
    ensures Reaches(h, s, Searching(h, key, cap, n))
  {
    hide Reaches;
    var e := Then(h, s, Crowd(h, key, cap, n, 0), Connect(key));
    e := Then(h, s, e, Step(n + 1, Go));
    e := Then(h, s, e, Step(n + 1, Go));
    assert e == Searching(h, key, cap, n);
  }

  lemma NextConnects(h: Hash, key: Key, cap: nat, n: nat, s: State)
    requires 2 <= cap < U16 && Reaches(h, s, Searching(h, key, cap, n))
    ensures Reaches(h, s, Crowd(h, key, cap, n + 1, 0))
  {
    hide Reaches;
    var e := Then(h, s, Searching(h, key, cap, n), Step(n + 1, Get(n, true)));
    e := Then(h, s, e, Step(n + 1, Go));
    e := Then(h, s, e, Step(n + 1, Go));
    e := Then(h, s, e, Step(n + 1, Go));
    assert e == Crowd(h, key, cap, n + 1, 0);
  }

  lemma NextSends(h: Hash, key: Key, cap: nat, n: nat, sent: nat, s: State)
    requires sent <= n && Reaches(h, s, Crowd(h, key, cap, n, sent))
    ensures Reaches(h, s, Crowd(h, key, cap, n, sent + 1))
  {
    hide Reaches;
    var e := Then(h, s, Crowd(h, key, cap, n, sent), Step(sent, Go));
    Recount(sent % U16, sent, 1);
    assert e == Crowd(h, key, cap, n, sent + 1);
  }

  lemma {:induction false} CrowdReached(h: Hash, key: Key, cap: nat, n: nat, sent: nat, s: State)
    requires Initial(s) && 2 <= cap < U16 && sent <= n + 1
    ensures Reaches(h, s, Crowd(h, key, cap, n, sent))
    decreases n, sent
  {
    if sent > 0 {
      CrowdReached(h, key, cap, n, sent - 1, s);
      NextSends(h, key, cap, n, sent - 1, s);
    } else if n > 0 {
      CrowdReached(h, key, cap, n - 1, 0, s);
      NextSearches(h, key, cap, n - 1, s);
      NextConnects(h, key, cap, n - 1, s);
    } else {
      FirstTries(h, key, s);
      FirstConnects(h, key, cap, s);
    }
  }

  lemma {:induction false} ActiveAll(tasks: seq<Task>, c: nat)
    requires forall t :: 0 <= t < |tasks| ==> Share(tasks[t].pc, c) == 1
    ensures Active(tasks, c) == |tasks|
  {
    if tasks != [] { ActiveAll(tasks[1..], c); }
  }

  predicate OnlyConn(s: State, conn: Conn) {
    s.shared.conns == [conn]
  }

  /** When other tasks may check out between a task's check-in and its send, a connection that allows two streams or more
      can be given any number. */
  lemma AnyNumberOfStreams(h: Hash, key: Key, cap: nat, streams: nat, s: State)
    requires Initial(s) && 2 <= cap < U16 && 0 < streams
    ensures exists e :: Reaches(h, s, e) && OnlyConn(e, Conn(key, cap, cap, cap, streams % U16)) && Active(e.tasks, 0) == streams
  {
    CrowdReached(h, key, cap, streams - 1, streams, s);
    var e := Crowd(h, key, cap, streams - 1, streams);
    ActiveAll(e.tasks, 0);
    assert OnlyConn(e, Conn(key, cap, cap, cap, streams % U16));
  }

  ghost predicate StreamsWithin(e: State, cap: nat) {
    forall c :: 0 <= c < |e.shared.conns| && e.shared.conns[c].max == cap ==> Active(e.tasks, c) <= cap
  }

  /** Every interleaving keeps the connections with this cap within it. */
  ghost predicate KeepsCap(h: Hash, cap: nat) {
    forall s, e :: Initial(s) && Reaches(h, s, e) ==> StreamsWithin(e, cap)
  }

  ghost predicate CountsWithin(e: State, cap: nat) {
    forall c :: 0 <= c < |e.shared.conns| && e.shared.conns[c].max == cap ==> e.shared.conns[c].count <= cap
  }

  /** Every interleaving keeps their counters within it. */
  ghost predicate KeepsCount(h: Hash, cap: nat) {
    forall s, e :: Initial(s) && Reaches(h, s, e) ==> CountsWithin(e, cap)
  }

  lemma SinglesWithin(h: Hash, s: State, run: seq<Label>)
    requires Initial(s)
    ensures var e := Exec(h, s, run);
      StreamsWithin(e, 1) && CountsWithin(e, 1) && CountsWithin(e, U16 - 1)
  {
    hide Exec, Active;
    EmptyInv(h, s);
    RunKeepsInv(h, s, run);
    RunSinglesAlone(h, s, run);
    var e := Exec(h, s, run);
    forall c | 0 <= c < |e.shared.conns| && e.shared.conns[c].max == 1 ensures Active(e.tasks, c) <= 1 {
      assert Alone(e, c);
      ActiveAlone(e.tasks, c);
    }
  }

  /** A connection that allows no streams is used once all the same. */
  lemma NoneAllowedUsed(h: Hash, key: Key, s: State) returns (e: State)
    requires Reaches(h, s, Trying(h, key))
    ensures Reaches(h, s, e) && OnlyConn(e, Conn(key, 0, 0, 0, 1)) && e.tasks == [Task(key, 0, Sending(0))]
  {
    hide Reaches;
    e := Then(h, s, Trying(h, key), Step(0, Go));
    e := Then(h, s, e, Step(0, Opened(0, 0)));
    e := Then(h, s, e, Step(0, Go));
    e := Then(h, s, e, Step(0, Go));
    e := Then(h, s, e, Step(0, Go));
  }

  /** One more stream than allowed, for every cap but one. */
  lemma CapExceeded(h: Hash, cap: nat, s: State) returns (e: State)
    requires Initial(s) && cap < U16 && cap != 1
    ensures Reaches(h, s, e) && OnlyConn(e, Conn("", cap, cap, cap, (cap + 1) % U16)) && Active(e.tasks, 0) == cap + 1
  {
    if cap == 0 {
      FirstTries(h, "", s);
      e := NoneAllowedUsed(h, "", s);
      ActiveAll(e.tasks, 0);
    } else {
      AnyNumberOfStreams(h, "", cap, cap + 1, s);
      e :| Reaches(h, s, e) && OnlyConn(e, Conn("", cap, cap, cap, (cap + 1) % U16)) && Active(e.tasks, 0) == cap + 1;
    }
  }

  /** Whatever the hash function, a cap on streams is kept by every interleaving exactly if it is one. Its counter is kept
      within it just then, or if the cap is the largest 16-bit number. */
  lemma KeepsCapIff(h: Hash, cap: nat)
    requires cap < U16
    ensures KeepsCap(h, cap) <==> cap == 1
    ensures KeepsCount(h, cap) <==> cap == 1 || cap == U16 - 1
  {
    forall s, e | Initial(s) && Reaches(h, s, e)
      ensures (cap == 1 ==> StreamsWithin(e, cap)) && (cap == 1 || cap == U16 - 1 ==> CountsWithin(e, cap))
    {
      var run :| Exec(h, s, run) == e;
      SinglesWithin(h, s, run);
    }
    if cap != 1 {
      var s := State(Shared(map[], 0, map[], map[], [], [], {}), 0, []);
      var e := CapExceeded(h, cap, s);
      assert e.shared.conns[0].max == cap;
      assert !StreamsWithin(e, cap) && (cap + 1 < U16 ==> !CountsWithin(e, cap));
    }
  }
}
