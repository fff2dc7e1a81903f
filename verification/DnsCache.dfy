/** The DNS cache: callers resolve names while each cached entry's background task refreshes it, and removes it once
    nobody asks; one operation on shared state per step, in any order. */
module DnsCache {
  import opened Prelude

  type Name = string
  type Addresses = seq<nat>
  type Cache = map<Name, nat>

  /** Where an entry's background task stands. */
  datatype Task = Starting | Swapping | Removing | Resolving | Notifying | Sleeping | Finished

  /** `notified` counts the calls of `notify_waiters`, which complete every wait begun before. */
  datatype Entry = Entry(name: Name, active: bool, addresses: Option<Addresses>, notified: nat, task: Task)

  /** Where a caller of `resolve` stands; `since` is the count when it created its wait. */
  datatype Caller =
    | LookUp(name: Name)
    | MarkActive(name: Name, entry: nat)
    | Subscribe(name: Name, entry: nat)
    | Load(name: Name, entry: nat, since: nat)
    | Parked(name: Name, entry: nat, since: nat)
    | Returned(name: Name, addresses: Addresses)

  datatype State = State(cache: Cache, entries: seq<Entry>, callers: seq<Caller>)

  datatype Label = Resolve(name: Name) | Call(caller: nat) | Background(entry: nat, answer: Addresses)

  predicate Initial(s: State) {
    s == State(map[], [], [])
  }

  predicate InBounds(s: State, c: Caller) {
    (c.MarkActive? || c.Subscribe? || c.Load? || c.Parked?) ==> c.entry < |s.entries|
  }

  predicate Enabled(s: State, l: Label) {
    match l
    case Resolve(_) => true
    case Call(i) => i < |s.callers| && InBounds(s, s.callers[i]) && !s.callers[i].Returned?
      && (s.callers[i].Parked? ==> s.callers[i].since < s.entries[s.callers[i].entry].notified)
    case Background(e, _) => e < |s.entries| && !s.entries[e].task.Finished?
  }

  /** A caller's step: the shared state after it, and where it leaves the caller. */
  function CallerStep(s: State, c: Caller): (State, Caller)
    requires InBounds(s, c)
  {
    match c
    case LookUp(name) =>
      if name in s.cache && s.cache[name] < |s.entries| then
        var e := s.cache[name];
        (s.(entries := s.entries[e := s.entries[e].(active := true)]), MarkActive(name, e))
      else
        var entry := Entry(name, false, None, 0, Starting);
        (s.(entries := s.entries + [entry], cache := s.cache[name := |s.entries|]), MarkActive(name, |s.entries|))
    case MarkActive(name, e) => (s.(entries := s.entries[e := s.entries[e].(active := true)]), Subscribe(name, e))
    case Subscribe(name, e) => (s, Load(name, e, s.entries[e].notified))
    case Load(name, e, since) =>
      (s, if s.entries[e].addresses.Some? then Returned(name, s.entries[e].addresses.value) else Parked(name, e, since))
    case Parked(name, e, _) =>
      (s, Returned(name, if s.entries[e].addresses.Some? then s.entries[e].addresses.value else []))
    case Returned(_, _) => (s, c)
  }

  /** A background task's step on its own entry; a failed lookup stores an empty answer. */
  function TaskStep(entry: Entry, answer: Addresses): Entry {
    match entry.task
    case Starting => entry.(active := true, task := Swapping)
    case Swapping => entry.(active := false, task := if entry.active then Resolving else Removing)
    case Resolving => entry.(addresses := Some(answer), task := Notifying)
    case Notifying => entry.(notified := entry.notified + 1, task := Sleeping)
    case Sleeping => entry.(task := Swapping)
    case Removing => entry.(task := Finished)
    case Finished => entry
  }

  function Apply(s: State, l: Label): State
    requires Enabled(s, l)
  {
    match l
    case Resolve(name) => s.(callers := s.callers + [LookUp(name)])
    case Call(i) =>
      var (s', c) := CallerStep(s, s.callers[i]);
      s'.(callers := s.callers[i := c])
    case Background(e, answer) =>
      var entry := s.entries[e];
      s.(entries := s.entries[e := TaskStep(entry, answer)],
         cache := if entry.task.Removing? then s.cache - {entry.name} else s.cache)
  }

  function Next(s: State, l: Label): State {
    if Enabled(s, l) then Apply(s, l) else s
  }

  function Exec(s: State, run: seq<Label>): State
    decreases run
  {
    if run == [] then s else Exec(Next(s, run[0]), run[1..])
  }

  predicate NameOwned(cache: Cache, entries: seq<Entry>, n: Name) {
    n in cache ==> cache[n] < |entries| && entries[cache[n]].name == n && !entries[cache[n]].task.Finished?
  }

  predicate EntryOwned(cache: Cache, entries: seq<Entry>, e: nat)
    requires e < |entries|
  {
    !entries[e].task.Finished? ==> entries[e].name in cache && cache[entries[e].name] == e
  }

  /** A name is cached exactly while some background task for it has yet to remove it, and then it maps to that task's
      own entry. */
  ghost predicate Owned(cache: Cache, entries: seq<Entry>) {
    && (forall n :: n in cache ==> NameOwned(cache, entries, n))
    && (forall e :: 0 <= e < |entries| ==> EntryOwned(cache, entries, e))
  }

  /** A task that is past its first lookup has filled its entry and, unless about to, notified; before that it is marked
      active, so it will not give up. */
  predicate Progressing(entry: Entry) {
    && (entry.addresses.None? ==> entry.task.Starting? || entry.task.Resolving? || (entry.task.Swapping? && entry.active))
    && (entry.task.Notifying? || entry.notified > 0 ==> entry.addresses.Some?)
  }

  /** A wait is never older than its entry's last notification without being complete, unless the answer is still to be
      announced. */
  predicate Awaited(s: State, c: Caller) {
    && InBounds(s, c)
    && (c.Load? ==> c.since <= s.entries[c.entry].notified)
    && (c.Parked? ==>
          && c.since <= s.entries[c.entry].notified
          && (c.since == s.entries[c.entry].notified ==>
              s.entries[c.entry].addresses.None? || s.entries[c.entry].task.Notifying?))
  }

  ghost predicate Inv(s: State) {
    && Owned(s.cache, s.entries)
    && (forall e :: 0 <= e < |s.entries| ==> Progressing(s.entries[e]))
    && (forall i :: 0 <= i < |s.callers| ==> Awaited(s, s.callers[i]))
  }

  /** How entries may change under a caller's wait. */
  predicate Advances(a: Entry, b: Entry) {
    && a.notified <= b.notified
    && (b.notified == a.notified && (a.addresses.None? || a.task.Notifying?) ==> b.addresses.None? || b.task.Notifying?)
  }

  lemma OthersAwaited(s: State, s': State, c: Caller)
    requires Awaited(s, c) && |s.entries| <= |s'.entries|
    requires forall e :: 0 <= e < |s.entries| ==> Advances(s.entries[e], s'.entries[e])
    ensures Awaited(s', c)
  {}

  lemma CallerOwned(s: State, c: Caller)
    requires Owned(s.cache, s.entries) && InBounds(s, c)
    ensures var s' := CallerStep(s, c).0; Owned(s'.cache, s'.entries)
  {
    var s' := CallerStep(s, c).0;
    if c.LookUp? && c.name in s.cache { assert NameOwned(s.cache, s.entries, c.name); }
    forall n | n in s'.cache ensures NameOwned(s'.cache, s'.entries, n) {
      if n in s.cache { assert NameOwned(s.cache, s.entries, n); }
    }
    forall e | 0 <= e < |s'.entries| ensures EntryOwned(s'.cache, s'.entries, e) {
      if e < |s.entries| { assert EntryOwned(s.cache, s.entries, e); }
    }
  }

  lemma TaskOwned(s: State, s': State, e: nat)
    requires Owned(s.cache, s.entries) && e < |s.entries| == |s'.entries|
    requires s'.entries == s.entries[e := s'.entries[e]] && s'.entries[e].name == s.entries[e].name
    requires s'.cache == if s.entries[e].task.Removing? then s.cache - {s.entries[e].name} else s.cache
    requires !s.entries[e].task.Finished? && (s'.entries[e].task.Finished? <==> s.entries[e].task.Removing?)
    ensures Owned(s'.cache, s'.entries)
  {
    assert EntryOwned(s.cache, s.entries, e);
    forall n | n in s'.cache ensures NameOwned(s'.cache, s'.entries, n) {
      assert NameOwned(s.cache, s.entries, n);
    }
    forall i | 0 <= i < |s'.entries| ensures EntryOwned(s'.cache, s'.entries, i) {
      assert EntryOwned(s.cache, s.entries, i);
    }
  }

  lemma StepOwned(s: State, l: Label)
    requires Owned(s.cache, s.entries) && Enabled(s, l)
    ensures Owned(Apply(s, l).cache, Apply(s, l).entries)
  {
    var s' := Apply(s, l);
    match l
    case Resolve(_) =>
      assert s'.cache == s.cache && s'.entries == s.entries;
    case Call(i) =>
      CallerOwned(s, s.callers[i]);
    case Background(e, answer) =>
      TaskOwned(s, s', e);
  }

  lemma StepEntries(s: State, l: Label)
    requires Enabled(s, l) && forall e :: 0 <= e < |s.entries| ==> Progressing(s.entries[e])
    ensures var s' := Apply(s, l);
      && |s.entries| <= |s'.entries|
      && (forall e :: 0 <= e < |s.entries| ==> Advances(s.entries[e], s'.entries[e]))
      && (forall e :: 0 <= e < |s'.entries| ==> Progressing(s'.entries[e]))
  {}

  lemma CallerAwaited(s: State, c: Caller)
    requires Awaited(s, c)
    ensures var (s', c') := CallerStep(s, c); Awaited(s', c')
  {}

  lemma StepKeepsInv(s: State, l: Label)
    requires Inv(s) && Enabled(s, l)
    ensures Inv(Apply(s, l))
  {
    StepOwned(s, l);
    StepEntries(s, l);
    var s' := Apply(s, l);
    if l.Call? {
      CallerAwaited(s, s.callers[l.caller]);
    }
    forall i | 0 <= i < |s'.callers| ensures Awaited(s', s'.callers[i]) {
      if i < |s.callers| && !(l.Call? && l.caller == i) {
        OthersAwaited(s, s', s.callers[i]);
      }
    }
  }

  lemma {:induction false} RunKeepsInv(s: State, run: seq<Label>)
    requires Inv(s)
    ensures Inv(Exec(s, run))
    decreases run
  {
    if run != [] {
      hide Apply;
      if Enabled(s, run[0]) { StepKeepsInv(s, run[0]); }
      RunKeepsInv(Next(s, run[0]), run[1..]);
    }
  }

  /** Some background task for the name has not finished. */
  predicate Live(s: State, n: Name) {
    exists i :: 0 <= i < |s.entries| && s.entries[i].name == n && !s.entries[i].task.Finished?
  }

  lemma TasksUnique(e: State)
    requires Owned(e.cache, e.entries)
    ensures forall i, j :: 0 <= i < j < |e.entries| && e.entries[i].name == e.entries[j].name ==>
      e.entries[i].task.Finished? || e.entries[j].task.Finished?
    ensures forall i :: 0 <= i < |e.entries| && e.entries[i].task.Removing? ==>
      e.entries[i].name in e.cache && e.cache[e.entries[i].name] == i
    ensures forall n :: n in e.cache <==> Live(e, n)
  {
    forall i | 0 <= i < |e.entries|
      ensures !e.entries[i].task.Finished? ==> e.entries[i].name in e.cache && e.cache[e.entries[i].name] == i
    {
      assert EntryOwned(e.cache, e.entries, i);
    }
    forall n | n in e.cache ensures Live(e, n) {
      assert NameOwned(e.cache, e.entries, n);
    }
  }

  /** In every interleaving at most one background task per name is live, and a task about to remove its name from the
      cache removes its own entry, never a newer one. */
  lemma OneTaskPerName(s: State, run: seq<Label>)
    requires Initial(s)
    ensures var e := Exec(s, run);
      && (forall i, j :: 0 <= i < j < |e.entries| && e.entries[i].name == e.entries[j].name ==>
            e.entries[i].task.Finished? || e.entries[j].task.Finished?)
      && (forall i :: 0 <= i < |e.entries| && e.entries[i].task.Removing? ==>
            e.entries[i].name in e.cache && e.cache[e.entries[i].name] == i)
      && (forall n :: n in e.cache <==> Live(e, n))
  {
    hide Exec;
    RunKeepsInv(s, run);
    TasksUnique(Exec(s, run));
  }

  /** No wake-up is lost: in every interleaving a parked caller either can go on and finds an answer, or its entry's task
      is about to announce one, or has its first answer still to look up. */
  lemma NoLostWakeup(s: State, run: seq<Label>, i: nat)
    requires Initial(s) && i < |Exec(s, run).callers| && Exec(s, run).callers[i].Parked?
    ensures var e := Exec(s, run);
      e.callers[i].entry < |e.entries| &&
      var entry := e.entries[e.callers[i].entry];
      if Enabled(e, Call(i)) then
        entry.addresses.Some? && Next(e, Call(i)).callers[i] == Returned(e.callers[i].name, entry.addresses.value)
      else
        || entry.task.Notifying?
        || (entry.addresses.None? &&
            (entry.task.Starting? || entry.task.Resolving? || (entry.task.Swapping? && entry.active)))
  {
    hide Exec;
    RunKeepsInv(s, run);
    var e := Exec(s, run);
    assert Awaited(e, e.callers[i]) && Progressing(e.entries[e.callers[i].entry]);
  }

  // What callers are told.

  /** The state before a step of a run. */
  ghost function At(s: State, run: seq<Label>, i: nat): State
    requires i <= |run|
  {
    Exec(s, run[..i])
  }

  lemma {:induction false} ExecSnoc(s: State, run: seq<Label>, l: Label)
    ensures Exec(s, run + [l]) == Next(Exec(s, run), l)
    decreases run
  {
    if run == [] {
      assert run + [l] == [l] && [l][1..] == [];
      assert Exec(Next(s, l), []) == Next(s, l);
    } else {
      assert (run + [l])[1..] == run[1..] + [l];
      ExecSnoc(Next(s, run[0]), run[1..], l);
    }
  }

  lemma AtNext(s: State, run: seq<Label>, i: nat)
    requires i < |run|
    ensures At(s, run, i + 1) == Next(At(s, run, i), run[i])
  {
    assert run[..i] + [run[i]] == run[..i + 1];
    ExecSnoc(s, run[..i], run[i]);
  }

  ghost predicate LookedAt(s: State, run: seq<Label>, k: nat, e: nat, n: Name, addresses: Addresses)
    requires k < |run|
  {
    && run[k] == Background(e, addresses) && e < |At(s, run, k).entries|
    && At(s, run, k).entries[e].name == n && At(s, run, k).entries[e].task.Resolving?
  }

  /** Before step `i` a background task looked the name up and was given these addresses. */
  ghost predicate Looked(s: State, run: seq<Label>, i: nat, n: Name, addresses: Addresses)
    requires i <= |run|
  {
    exists k: nat, e: nat :: k < i && LookedAt(s, run, k, e, n, addresses)
  }

  lemma LookedOn(s: State, run: seq<Label>, i: nat, n: Name, addresses: Addresses)
    requires i < |run| && Looked(s, run, i, n, addresses)
    ensures Looked(s, run, i + 1, n, addresses)
  {
    var k: nat, e: nat :| k < i && LookedAt(s, run, k, e, n, addresses);
  }

  /** A caller is with an entry of the name it asked for. */
  predicate OwnName(s: State, c: Caller) {
    (c.MarkActive? || c.Subscribe? || c.Load? || c.Parked?) ==> c.entry < |s.entries| && s.entries[c.entry].name == c.name
  }

  lemma CallerOwnName(s: State, c: Caller)
    requires Inv(s) && OwnName(s, c)
    ensures var (s', c') := CallerStep(s, c);
      && OwnName(s', c') && c'.name == c.name && |s.entries| <= |s'.entries|
      && (forall e :: 0 <= e < |s.entries| ==>
            s'.entries[e].name == s.entries[e].name && s'.entries[e].addresses == s.entries[e].addresses)
      && (forall e :: |s.entries| <= e < |s'.entries| ==> s'.entries[e].addresses.None?)
  {
    if c.LookUp? && c.name in s.cache { assert NameOwned(s.cache, s.entries, c.name); }
  }

  /** What a step may change about the answers entries hold. */
  lemma StepAnswers(s: State, l: Label)
    requires Inv(s) && Enabled(s, l)
    ensures var s' := Apply(s, l);
      && |s.entries| <= |s'.entries|
      && (forall e :: 0 <= e < |s.entries| ==> s'.entries[e].name == s.entries[e].name)
      && (forall e :: 0 <= e < |s'.entries| && s'.entries[e].addresses.Some? ==>
            e < |s.entries| &&
            (s'.entries[e].addresses == s.entries[e].addresses ||
             (s.entries[e].task.Resolving? && l == Background(e, s'.entries[e].addresses.value))))
  {
    if l.Call? {
      var c := s.callers[l.caller];
      assert Awaited(s, c);
      if c.LookUp? && c.name in s.cache { assert NameOwned(s.cache, s.entries, c.name); }
    }
  }

  ghost predicate Told(s: State, run: seq<Label>, i: nat)
    requires i <= |run|
  {
    var m := At(s, run, i);
    && Inv(m)
    && (forall c :: 0 <= c < |m.callers| ==> OwnName(m, m.callers[c]))
    && (forall e :: 0 <= e < |m.entries| && m.entries[e].addresses.Some? ==>
          Looked(s, run, i, m.entries[e].name, m.entries[e].addresses.value))
    && (forall c :: 0 <= c < |m.callers| && m.callers[c].Returned? ==>
          Looked(s, run, i, m.callers[c].name, m.callers[c].addresses))
  }

  lemma CallersTold(s: State, run: seq<Label>, i: nat)
    requires i < |run| && Told(s, run, i) && Enabled(At(s, run, i), run[i])
    requires At(s, run, i + 1) == Apply(At(s, run, i), run[i])
    requires forall n, a :: Looked(s, run, i, n, a) ==> Looked(s, run, i + 1, n, a)
    ensures var m' := At(s, run, i + 1);
      forall c :: 0 <= c < |m'.callers| ==>
        && OwnName(m', m'.callers[c])
        && (m'.callers[c].Returned? ==> Looked(s, run, i + 1, m'.callers[c].name, m'.callers[c].addresses))
  {
    var m, l, m' := At(s, run, i), run[i], At(s, run, i + 1);
    hide At, Looked;
    StepAnswers(m, l);
    forall c | 0 <= c < |m'.callers|
      ensures OwnName(m', m'.callers[c])
      ensures m'.callers[c].Returned? ==> Looked(s, run, i + 1, m'.callers[c].name, m'.callers[c].addresses)
    {
      if c < |m.callers| {
        assert OwnName(m, m.callers[c]) && Awaited(m, m.callers[c]);
        if l == Call(c) {
          CallerOwnName(m, m.callers[c]);
          if m.callers[c].Parked? { assert Progressing(m.entries[m.callers[c].entry]); }
        }
      }
    }
  }

  lemma StepTold(s: State, run: seq<Label>, i: nat)
    requires i < |run| && Told(s, run, i) && At(s, run, i + 1) == Next(At(s, run, i), run[i])
    ensures Told(s, run, i + 1)
  {
    var m, l, m' := At(s, run, i), run[i], At(s, run, i + 1);
    hide At;
    forall n, a | Looked(s, run, i, n, a) ensures Looked(s, run, i + 1, n, a) { LookedOn(s, run, i, n, a); }
    if Enabled(m, l) {
      StepKeepsInv(m, l);
      StepAnswers(m, l);
      forall e | 0 <= e < |m'.entries| && m'.entries[e].addresses.Some?
        ensures Looked(s, run, i + 1, m'.entries[e].name, m'.entries[e].addresses.value)
      {
        if m'.entries[e].addresses != m.entries[e].addresses {
          assert LookedAt(s, run, i, e, m.entries[e].name, m'.entries[e].addresses.value);
        }
      }
      CallersTold(s, run, i);
    }
  }

  lemma {:induction false} RunTold(s: State, run: seq<Label>, i: nat)
    requires Initial(s) && i <= |run|
    ensures Told(s, run, i)
  {
    if i == 0 {
      assert run[..0] == [];
    } else {
      RunTold(s, run, i - 1);
      AtNext(s, run, i - 1);
      StepTold(s, run, i - 1);
    }
  }

  /** In every interleaving what `resolve` returns for a name is the answer of some earlier lookup of that very name. */
  lemma ReturnsOwnAnswer(s: State, run: seq<Label>, c: nat)
    requires Initial(s) && c < |Exec(s, run).callers| && Exec(s, run).callers[c].Returned?
    ensures Looked(s, run, |run|, Exec(s, run).callers[c].name, Exec(s, run).callers[c].addresses)
  {
    assert run[..|run|] == run;
    RunTold(s, run, |run|);
  }

  /** A call of `resolve` is a caller with its name. */
  lemma ResolveAsks(s: State, n: Name)
    ensures Next(s, Resolve(n)) == s.(callers := s.callers + [LookUp(n)])
  {}

  /** It keeps that name. */
  lemma NameKept(s: State, l: Label, c: nat)
    requires c < |s.callers|
    ensures c < |Next(s, l).callers| && Next(s, l).callers[c].name == s.callers[c].name
  {
    if Enabled(s, l) && l.Call? {
      var c' := CallerStep(s, s.callers[l.caller]).1;
      assert c'.name == s.callers[l.caller].name && Next(s, l).callers == s.callers[l.caller := c'];
    }
  }

  // When an entry is given up.

  /** A step that marks an entry active: a caller that finds it under its name or has it, or its task starting. */
  predicate Asks(s: State, l: Label, e: nat) {
    Enabled(s, l) && e < |s.entries| &&
    match l
    case Resolve(_) => false
    case Call(i) =>
      var c := s.callers[i];
      (c.LookUp? && c.name in s.cache && s.cache[c.name] == e) || (c.MarkActive? && c.entry == e)
    case Background(f, _) => f == e && s.entries[e].task.Starting?
  }

  /** A step in which an entry's task looks whether it was asked for. */
  predicate Checks(s: State, l: Label, e: nat) {
    l.Background? && l.entry == e && e < |s.entries| && s.entries[e].task.Swapping?
  }

  ghost predicate Unchecked(s: State, run: seq<Label>, k: nat, i: nat, e: nat)
    requires i <= |run|
  {
    forall j :: k < j < i ==> !Checks(At(s, run, j), run[j], e)
  }

  /** The entry was asked for before step `i`, and its task has not looked since. */
  ghost predicate AskedFor(s: State, run: seq<Label>, i: nat, e: nat)
    requires i <= |run|
  {
    exists k: nat :: k < i && Asks(At(s, run, k), run[k], e) && Unchecked(s, run, k, i, e)
  }

  lemma AskedNext(s: State, run: seq<Label>, i: nat, e: nat)
    requires i < |run|
    ensures AskedFor(s, run, i + 1, e) <==>
      Asks(At(s, run, i), run[i], e) || (AskedFor(s, run, i, e) && !Checks(At(s, run, i), run[i], e))
  {
    hide At, Asks, Checks;
    if Asks(At(s, run, i), run[i], e) {
      assert Unchecked(s, run, i, i + 1, e);
    }
    if AskedFor(s, run, i, e) && !Checks(At(s, run, i), run[i], e) {
      var k: nat :| k < i && Asks(At(s, run, k), run[k], e) && Unchecked(s, run, k, i, e);
      assert Unchecked(s, run, k, i + 1, e);
    }
    if AskedFor(s, run, i + 1, e) && !Asks(At(s, run, i), run[i], e) {
      var k: nat :| k < i + 1 && Asks(At(s, run, k), run[k], e) && Unchecked(s, run, k, i + 1, e);
      assert k < i && Unchecked(s, run, k, i, e);
    }
  }

  /** A step changes an entry's mark as it should, and a new entry has none. */
  lemma StepMarks(s: State, l: Label, e: nat)
    requires Inv(s)
    ensures var s' := Next(s, l);
      && |s.entries| <= |s'.entries|
      && (e < |s.entries| ==> (s'.entries[e].active <==> Asks(s, l, e) || (s.entries[e].active && !Checks(s, l, e))))
      && (|s.entries| <= e < |s'.entries| ==> !s'.entries[e].active)
  {
    if l.Call? && l.caller < |s.callers| { assert Awaited(s, s.callers[l.caller]); }
  }

  lemma {:induction false} MarkIsAsked(s: State, run: seq<Label>, i: nat, e: nat)
    requires Initial(s) && i <= |run|
    ensures Inv(At(s, run, i))
    ensures AskedFor(s, run, i, e) <==> e < |At(s, run, i).entries| && At(s, run, i).entries[e].active
  {
    RunKeepsInv(s, run[..i]);
    if i == 0 {
      assert run[..0] == [];
    } else {
      MarkIsAsked(s, run, i - 1, e);
      AtNext(s, run, i - 1);
      AskedNext(s, run, i - 1, e);
      StepMarks(At(s, run, i - 1), run[i - 1], e);
      hide At, Asks, Checks, Inv;
    }
  }

  /** In every interleaving an entry's task that looks whether it was asked for gives the entry up exactly if nobody asked
      since it last looked, and refreshes it otherwise. */
  lemma GivenUpExactly(s: State, run: seq<Label>, i: nat, e: nat)
    requires Initial(s) && i < |run| && Checks(At(s, run, i), run[i], e)
    ensures var m := At(s, run, i + 1);
      e < |m.entries| && m.entries[e].task == if AskedFor(s, run, i, e) then Resolving else Removing
  {
    MarkIsAsked(s, run, i, e);
    AtNext(s, run, i);
    hide AskedFor, At;
  }

  // One caller, or one task, with nobody else running.

  /** A caller of a name whose entry is filled is told its addresses, and the entry is marked active. */
  lemma ResolveAlone(s: State, i: nat)
    requires Inv(s) && i < |s.callers| && s.callers[i].LookUp? && s.callers[i].name in s.cache
    requires s.entries[s.cache[s.callers[i].name]].addresses.Some?
    ensures var n, call := s.callers[i].name, Call(i);
      var e := s.cache[n];
      Next(Next(Next(Next(s, call), call), call), call) ==
        s.(entries := s.entries[e := s.entries[e].(active := true)],
           callers := s.callers[i := Returned(n, s.entries[e].addresses.value)])
  {
    assert NameOwned(s.cache, s.entries, s.callers[i].name);
    var n, call := s.callers[i].name, Call(i);
    var e := s.cache[n];
    var marked := s.entries[e := s.entries[e].(active := true)];
    var s1 := s.(entries := marked, callers := s.callers[i := MarkActive(n, e)]);
    var s2 := s.(entries := marked, callers := s.callers[i := Subscribe(n, e)]);
    var s3 := s.(entries := marked, callers := s.callers[i := Load(n, e, s.entries[e].notified)]);
    assert Next(s, call) == s1;
    assert marked[e := marked[e].(active := true)] == marked && Next(s1, call) == s2;
    assert Next(s2, call) == s3;
  }

  /** An entry that nobody has cached is made with a task of its own, for the caller to wait on. */
  lemma FirstAsks(s: State, i: nat)
    requires i < |s.callers| && s.callers[i].LookUp? && s.callers[i].name !in s.cache
    ensures var n := s.callers[i].name;
      Next(s, Call(i)) == State(s.cache[n := |s.entries|], s.entries + [Entry(n, false, None, 0, Starting)],
                                s.callers[i := MarkActive(n, |s.entries|)])
  {}

  /** A task begins with its entry marked active. If it finds the mark it takes it away, looks the name up, stores the
      answer, wakes whoever waits and sleeps, and then starts over; if not it removes the entry and is done. */
  lemma TaskAlone(s: State, e: nat, answer: Addresses)
    requires e < |s.entries| && s.entries[e].task.Swapping?
    ensures var entry, step := s.entries[e], Background(e, answer);
      var s2 := Next(Next(s, step), step);
      if entry.active then
        Next(Next(s2, step), step) == s.(entries := s.entries[e :=
          entry.(active := false, addresses := Some(answer), notified := entry.notified + 1)])
      else s2 == s.(cache := s.cache - {entry.name}, entries := s.entries[e := entry.(task := Finished)])
  {
    var entry, step := s.entries[e], Background(e, answer);
    var off := entry.(active := false);
    if entry.active {
      var s1 := s.(entries := s.entries[e := off.(task := Resolving)]);
      var s2 := s.(entries := s.entries[e := off.(addresses := Some(answer), task := Notifying)]);
      var s3 := s.(entries := s.entries[e := off.(addresses := Some(answer), notified := entry.notified + 1, task := Sleeping)]);
      assert Next(s, step) == s1;
      assert Next(s1, step) == s2;
      assert Next(s2, step) == s3;
      assert Next(s3, step).entries == s3.entries[e := s3.entries[e].(task := Swapping)];
    } else {
      var s1 := s.(entries := s.entries[e := off.(task := Removing)]);
      assert Next(s, step) == s1;
    }
  }

  lemma TaskBegins(s: State, e: nat, answer: Addresses)
    requires e < |s.entries| && s.entries[e].task.Starting?
    ensures Next(s, Background(e, answer)) == s.(entries := s.entries[e := s.entries[e].(active := true, task := Swapping)])
  {}

  // The round-robin buffer of an answer's addresses.

  /** What `calls` successive calls return from an index on: the addresses in turn. */
  function Turns(data: Addresses, index: nat, calls: nat): seq<nat>
    requires data != []
    decreases calls
  {
    if calls == 0 then [] else [data[index % |data|]] + Turns(data, index + 1, calls - 1)
  }

  lemma {:induction false} TurnsAt(data: Addresses, index: nat, calls: nat)
    requires data != []
    ensures var r := Turns(data, index, calls);
      |r| == calls && forall i :: 0 <= i < calls ==> r[i] == data[(index + i) % |data|]
    decreases calls
  {
    if calls > 0 { TurnsAt(data, index + 1, calls - 1); }
  }

  class CircularBuffer {
    const data: Addresses
    var index: nat
    ghost var served: seq<nat>

    /** Everything served so far was served in turn. */
    ghost predicate Valid()
      reads this
    {
      index == |served| && if data == [] then served == [] else served == Turns(data, 0, index)
    }

    constructor (items: Addresses)
      ensures Valid() && data == items && served == []
    {
      data, index, served := items, 0, [];
    }

    method GetAndAdvance() returns (r: Option<nat>)
      requires Valid()
      modifies this
      ensures Valid() && (r.None? <==> data == [])
      ensures served == old(served) + if r.Some? then [r.value] else []
    {
      if data == [] {
        return None;
      }
      TurnsAt(data, 0, index);
      TurnsAt(data, 0, index + 1);
      var current := index;
      index := index + 1;
      r := Some(data[current % |data|]);
      served := served + [r.value];
      assert served == Turns(data, 0, index);
    }
  }

  lemma OnlyZero(d: int, n: nat)
    requires 0 < n + d * n < 2 * n
    ensures d == 0
  {}

  lemma RemainderIs(x: nat, n: nat, q: nat, rest: nat)
    requires rest < n && x == q * n + rest
    ensures x % n == rest
  {
    OnlyZero(x / n - q, n);
  }

  lemma RemainderAfter(from: nat, i: nat, n: nat)
    requires i < n
    ensures (from + i) % n == if from % n + i < n then from % n + i else from % n + i - n
  {
    var q, rest := from / n, from % n + i;
    RemainderIs(from + i, n, if rest < n then q else q + 1, if rest < n then rest else rest - n);
  }

  /** Whatever was served before, as many further calls as there are addresses return each of them once, in rotation. */
  lemma RoundRobin(data: Addresses, from: nat)
    requires data != []
    ensures var n, first := |data|, from % |data|;
      |Turns(data, 0, from + n)| == from + n
      && var window := Turns(data, 0, from + n)[from..];
         window == data[first..] + data[..first] && multiset(window) == multiset(data)
  {
    var n, first := |data|, from % |data|;
    TurnsAt(data, 0, from + n);
    var window, rotated := Turns(data, 0, from + n)[from..], data[first..] + data[..first];
    forall i | 0 <= i < n ensures window[i] == rotated[i] {
      RemainderAfter(from, i, n);
      assert window[i] == data[(0 + (from + i)) % n];
    }
    assert window == rotated;
    assert data == data[..first] + data[first..];
  }
}
