/** The delta xDS client: its cache of known resources, on-demand waiters, readiness gate and replies, over any sequence
    of connections, responses, demands and failures. */
module XdsClient {

  type TypeUrl = string
  type Name = string

  datatype Key = Key(typeUrl: TypeUrl, name: Name)

  /** A resource on the wire: whether its payload decodes is up to the payload. */
  datatype Resource = Resource(name: Name, decodes: bool)

  /** A discovery response, with the handler's verdict on it. */
  datatype Response = Response(typeUrl: TypeUrl, nonce: string, resources: seq<Resource>, removed: seq<Name>, rejected: bool)

  datatype Request =
    | Announce(typeUrl: TypeUrl, versions: set<Name>)
    | Subscribe(typeUrl: TypeUrl, name: Name)
    | Reply(typeUrl: TypeUrl, nonce: string, error: bool)

  datatype Watch = Watch(typeUrl: TypeUrl, onDemand: bool)

  /** The types that have handlers, and the initial requests in order. */
  datatype Config = Config(handlers: set<TypeUrl>, watches: seq<Watch>)

  /** What observers outside the client see happen, in order. */
  datatype Entry = HandlerRan(response: Response) | Notified(waiter: nat, key: Key)

  type Cache = map<TypeUrl, set<Name>>

  datatype State = State(
    known: Cache, pending: map<Key, nat>, expected: set<TypeUrl>, releases: nat, sent: seq<Request>, log: seq<Entry>)

  /** `delivered` is whether the request the event gives rise to could be sent; if not the stream ends there. */
  datatype Event =
    | Connected
    | Message(response: Response, delivered: bool)
    | Demand(waiter: nat, key: Key, delivered: bool)
    | Disconnected

  function Expected(watches: seq<Watch>): set<TypeUrl> {
    set w | w in watches && !w.onDemand :: w.typeUrl
  }

  function Start(c: Config): State {
    State(map[], map[], Expected(c.watches), 0, [], [])
  }

  predicate Knows(known: Cache, key: Key) {
    key.typeUrl in known && key.name in known[key.typeUrl]
  }

  function Notify(s: State, key: Key): State {
    if key in s.pending then s.(pending := s.pending - {key}, log := s.log + [Notified(s.pending[key], key)]) else s
  }

  function Insert(known: Cache, key: Key): Cache {
    known[key.typeUrl := (if key.typeUrl in known then known[key.typeUrl] else {}) + {key.name}]
  }

  function RemoveOne(s: State, key: Key): State {
    var known := if key.typeUrl in s.known then s.known[key.typeUrl := s.known[key.typeUrl] - {key.name}] else s.known;
    Notify(s.(known := known), key)
  }

  function AddOne(s: State, key: Key): State {
    var s' := Notify(s, key);
    s'.(known := Insert(s'.known, key))
  }

  function RemoveEach(s: State, typeUrl: TypeUrl, names: seq<Name>): State {
    if names == [] then s
    else RemoveOne(RemoveEach(s, typeUrl, names[..|names| - 1]), Key(typeUrl, names[|names| - 1]))
  }

  function AddEach(s: State, typeUrl: TypeUrl, resources: seq<Resource>): State {
    if resources == [] then s
    else AddOne(AddEach(s, typeUrl, resources[..|resources| - 1]), Key(typeUrl, resources[|resources| - 1].name))
  }

  /** The handler runs on the updates and then the removals; the cache takes the removals first. */
  function Handle(s: State, r: Response): State {
    AddEach(RemoveEach(s.(log := s.log + [HandlerRan(r)]), r.typeUrl, r.removed), r.typeUrl, r.resources)
  }

  predicate Decodes(r: Response) {
    forall i :: 0 <= i < |r.resources| ==> r.resources[i].decodes
  }

  predicate Nacked(c: Config, r: Response) {
    r.typeUrl in c.handlers && (r.rejected || !Decodes(r))
  }

  function OnMessage(c: Config, s: State, r: Response, delivered: bool): State {
    var s' := if r.typeUrl in c.handlers then Handle(s, r) else s;
    if !delivered then s' else
      var replied := s'.(sent := s'.sent + [Reply(r.typeUrl, r.nonce, Nacked(c, r))]);
      if Nacked(c, r) || s.expected == {} then replied
      else if s.expected - {r.typeUrl} == {} then replied.(expected := {}, releases := s.releases + 1)
      else replied.(expected := s.expected - {r.typeUrl})
  }

  function OnDemand(s: State, waiter: nat, key: Key, delivered: bool): State {
    var s' := s.(pending := s.pending[key := waiter], known := Insert(s.known, key));
    if delivered then s'.(sent := s'.sent + [Subscribe(key.typeUrl, key.name)]) else s'
  }

  function Announcements(known: Cache, watches: seq<Watch>): seq<Request> {
    if watches == [] then [] else
      var w := watches[|watches| - 1];
      Announcements(known, watches[..|watches| - 1])
      + [Announce(w.typeUrl, if w.typeUrl in known then known[w.typeUrl] else {})]
  }

  function Apply(c: Config, s: State, e: Event): State {
    match e
    case Connected => s.(sent := s.sent + Announcements(s.known, c.watches))
    case Message(r, delivered) => OnMessage(c, s, r, delivered)
    case Demand(waiter, key, delivered) => OnDemand(s, waiter, key, delivered)
    case Disconnected => s
  }

  function Run(c: Config, es: seq<Event>): State {
    if es == [] then Start(c) else Apply(c, Run(c, es[..|es| - 1]), es[|es| - 1])
  }

  // What one response does.

  predicate Adds(r: Response, key: Key) {
    r.typeUrl == key.typeUrl && exists i :: 0 <= i < |r.resources| && r.resources[i].name == key.name
  }

  predicate Removes(r: Response, key: Key) {
    r.typeUrl == key.typeUrl && key.name in r.removed
  }

  predicate Names(r: Response, key: Key) {
    Adds(r, key) || Removes(r, key)
  }

  lemma {:induction false} RemoveEachKnows(s: State, t: TypeUrl, names: seq<Name>, key: Key)
    ensures Knows(RemoveEach(s, t, names).known, key) <==> Knows(s.known, key) && !(key.typeUrl == t && key.name in names)
  {
    if names != [] {
      RemoveEachKnows(s, t, names[..|names| - 1], key);
      assert names == names[..|names| - 1] + [names[|names| - 1]];
    }
  }

  lemma {:induction false} AddEachKnows(s: State, t: TypeUrl, rs: seq<Resource>, key: Key)
    ensures Knows(AddEach(s, t, rs).known, key) <==>
      Knows(s.known, key) || (key.typeUrl == t && exists i :: 0 <= i < |rs| && rs[i].name == key.name)
  {
    if rs != [] {
      var front := rs[..|rs| - 1];
      AddEachKnows(s, t, front, key);
      assert forall i :: 0 <= i < |front| ==> front[i] == rs[i];
    }
  }

  lemma HandleKnows(s: State, r: Response, key: Key)
    ensures Knows(Handle(s, r).known, key) <==> Adds(r, key) || (Knows(s.known, key) && !Removes(r, key))
  {
    var ran := s.(log := s.log + [HandlerRan(r)]);
    RemoveEachKnows(ran, r.typeUrl, r.removed, key);
    AddEachKnows(RemoveEach(ran, r.typeUrl, r.removed), r.typeUrl, r.resources, key);
  }

  // The cache over whole runs.

  datatype Write = Added | Removed | Untouched

  /** What an event says about a key, without reference to the cache. */
  function WriteOf(c: Config, e: Event, key: Key): Write {
    match e
    case Demand(_, k, _) => if k == key then Added else Untouched
    case Message(r, _) =>
      if r.typeUrl !in c.handlers then Untouched
      else if Adds(r, key) then Added else if Removes(r, key) then Removed else Untouched
    case _ => Untouched
  }

  /** The last event that says anything about a key decides. */
  function LastWrite(c: Config, es: seq<Event>, key: Key): Write {
    if es == [] then Removed else
      var w := WriteOf(c, es[|es| - 1], key);
      if w == Untouched then LastWrite(c, es[..|es| - 1], key) else w
  }

  /** Over any run with any reconnects the cache is the last-writer fold of the demands and responses. */
  lemma {:induction false} CacheIsLastWrite(c: Config, es: seq<Event>, key: Key)
    ensures Knows(Run(c, es).known, key) <==> LastWrite(c, es, key) == Added
  {
    if es != [] {
      var s := Run(c, es[..|es| - 1]);
      CacheIsLastWrite(c, es[..|es| - 1], key);
      match es[|es| - 1]
      case Message(r, _) => HandleKnows(s, r, key);
      case _ =>
    }
  }

  lemma {:induction false} AnnouncementsAre(known: Cache, watches: seq<Watch>)
    ensures var a := Announcements(known, watches);
      |a| == |watches| && forall i :: 0 <= i < |a| ==>
        && a[i].Announce? && a[i].typeUrl == watches[i].typeUrl
        && forall n :: n in a[i].versions <==> Knows(known, Key(watches[i].typeUrl, n))
  {
    if watches != [] {
      AnnouncementsAre(known, watches[..|watches| - 1]);
    }
  }

  /** Every connection announces exactly the resources whose last write added them, type by type. */
  lemma ReconnectAnnouncesCache(c: Config, es: seq<Event>)
    ensures var before, after := Run(c, es).sent, Run(c, es + [Connected]).sent;
      && |after| == |before| + |c.watches| && before <= after
      && forall i :: 0 <= i < |c.watches| ==>
        && after[|before| + i].Announce? && after[|before| + i].typeUrl == c.watches[i].typeUrl
        && forall n :: n in after[|before| + i].versions <==> LastWrite(c, es, Key(c.watches[i].typeUrl, n)) == Added
  {
    assert (es + [Connected])[..|es|] == es;
    AnnouncementsAre(Run(c, es).known, c.watches);
    forall key: Key ensures Knows(Run(c, es).known, key) <==> LastWrite(c, es, key) == Added {
      CacheIsLastWrite(c, es, key);
    }
  }

  // The cache and a handler's store.

  /** The keys of a store that applies a response the way the handler is given it: decoded updates, then removals. */
  function StoreAfter(store: set<Key>, r: Response): set<Key> {
    store
    + (set i | 0 <= i < |r.resources| && r.resources[i].decodes :: Key(r.typeUrl, r.resources[i].name))
    - (set n | n in r.removed :: Key(r.typeUrl, n))
  }

  ghost predicate Agrees(known: Cache, store: set<Key>) {
    forall key :: Knows(known, key) <==> key in store
  }

  /** Whether a response's resource reaches the store too: it decodes, or is already there, and is not also removed. */
  ghost predicate Stored(store: set<Key>, r: Response, i: nat)
    requires i < |r.resources|
  {
    var key := Key(r.typeUrl, r.resources[i].name);
    && !Removes(r, key)
    && (key in store || exists j :: 0 <= j < |r.resources| && r.resources[j].name == key.name && r.resources[j].decodes)
  }

  /** From agreement, one response keeps cache and store in agreement exactly if each of its resources is not also among
      its removals and decodes at least once or was stored already. */
  lemma AgreementKeptIff(s: State, store: set<Key>, r: Response)
    requires Agrees(s.known, store)
    ensures Agrees(Handle(s, r).known, StoreAfter(store, r)) <==> forall i :: 0 <= i < |r.resources| ==> Stored(store, r, i)
  {
    var known', store' := Handle(s, r).known, StoreAfter(store, r);
    forall key ensures Knows(known', key) <==> Adds(r, key) || (Knows(s.known, key) && !Removes(r, key)) {
      HandleKnows(s, r, key);
    }
    if Agrees(known', store') {
      forall i | 0 <= i < |r.resources| ensures Stored(store, r, i) {
        assert Knows(known', Key(r.typeUrl, r.resources[i].name));
      }
    }
    if forall i :: 0 <= i < |r.resources| ==> Stored(store, r, i) {
      forall key ensures Knows(known', key) <==> key in store' {
        if Adds(r, key) {
          var i :| 0 <= i < |r.resources| && r.resources[i].name == key.name;
          assert Stored(store, r, i);
        }
      }
    }
  }

  predicate Disjoint(r: Response) {
    forall i :: 0 <= i < |r.resources| ==> r.resources[i].name !in r.removed
  }

  /** An event of a run in which nothing is demanded and every response has a handler and decodes, is accepted,
      and names no resource in both its lists. */
  predicate Clean(c: Config, e: Event) {
    && !e.Demand?
    && (e.Message? ==> e.response.typeUrl in c.handlers && !Nacked(c, e.response) && Disjoint(e.response))
  }

  function Store(es: seq<Event>): set<Key> {
    if es == [] then {} else
      var front := Store(es[..|es| - 1]);
      if es[|es| - 1].Message? then StoreAfter(front, es[|es| - 1].response) else front
  }

  lemma {:induction false} CleanRunsAgree(c: Config, es: seq<Event>)
    requires forall i :: 0 <= i < |es| ==> Clean(c, es[i])
    ensures Agrees(Run(c, es).known, Store(es))
  {
    if es != [] {
      var front, e := es[..|es| - 1], es[|es| - 1];
      CleanRunsAgree(c, front);
      if e.Message? {
        forall i | 0 <= i < |e.response.resources| ensures Stored(Store(front), e.response, i) {
          assert e.response.resources[i].decodes;
        }
        AgreementKeptIff(Run(c, front), Store(front), e.response);
        assert Run(c, es).known == Handle(Run(c, front), e.response).known;
      }
    }
  }

  // Replies.

  function Replies(sent: seq<Request>): seq<Request> {
    if sent == [] then [] else
      Replies(sent[..|sent| - 1]) + if sent[|sent| - 1].Reply? then [sent[|sent| - 1]] else []
  }

  /** A response fails if its type has a handler and that rejects it, or some resource in it does not decode. */
  ghost predicate Fails(c: Config, r: Response) {
    r.typeUrl in c.handlers && (r.rejected || exists i :: 0 <= i < |r.resources| && !r.resources[i].decodes)
  }

  /** One reply for each response that could be answered, in order. */
  ghost function RepliesDue(c: Config, es: seq<Event>): seq<Request> {
    if es == [] then [] else
      var e := es[|es| - 1];
      RepliesDue(c, es[..|es| - 1]) +
      if e.Message? && e.delivered then [Reply(e.response.typeUrl, e.response.nonce, Fails(c, e.response))] else []
  }

  lemma {:induction false} RepliesAppend(a: seq<Request>, b: seq<Request>)
    ensures Replies(a + b) == Replies(a) + Replies(b)
  {
    if b == [] {
      assert a + b == a;
    } else {
      var front, last := b[..|b| - 1], b[|b| - 1];
      RepliesAppend(a, front);
      assert (a + b)[..|a + b| - 1] == a + front && (a + b)[|a + b| - 1] == last;
    }
  }

  lemma {:induction false} NoReplies(a: seq<Request>)
    requires forall i :: 0 <= i < |a| ==> !a[i].Reply?
    ensures Replies(a) == []
  {
    if a != [] { NoReplies(a[..|a| - 1]); }
  }

  lemma {:induction false} RemoveEachFrame(s: State, t: TypeUrl, names: seq<Name>)
    ensures var s' := RemoveEach(s, t, names); s'.sent == s.sent && s'.expected == s.expected && s'.releases == s.releases
  {
    if names != [] { RemoveEachFrame(s, t, names[..|names| - 1]); }
  }

  lemma {:induction false} AddEachFrame(s: State, t: TypeUrl, rs: seq<Resource>)
    ensures var s' := AddEach(s, t, rs); s'.sent == s.sent && s'.expected == s.expected && s'.releases == s.releases
  {
    if rs != [] { AddEachFrame(s, t, rs[..|rs| - 1]); }
  }

  lemma {:induction false} HandleFrame(s: State, r: Response)
    ensures var s' := Handle(s, r); s'.sent == s.sent && s'.expected == s.expected && s'.releases == s.releases
  {
    var ran := s.(log := s.log + [HandlerRan(r)]);
    RemoveEachFrame(ran, r.typeUrl, r.removed);
    AddEachFrame(RemoveEach(ran, r.typeUrl, r.removed), r.typeUrl, r.resources);
  }

  /** The requests an event makes the client send. */
  function Emits(c: Config, s: State, e: Event): seq<Request> {
    match e
    case Connected => Announcements(s.known, c.watches)
    case Message(r, delivered) => if delivered then [Reply(r.typeUrl, r.nonce, Nacked(c, r))] else []
    case Demand(_, key, delivered) => if delivered then [Subscribe(key.typeUrl, key.name)] else []
    case Disconnected => []
  }

  lemma ApplyEmits(c: Config, s: State, e: Event)
    ensures Apply(c, s, e).sent == s.sent + Emits(c, s, e)
  {
    if e.Message? { HandleFrame(s, e.response); }
    hide Handle;
  }

  lemma EmittedReplies(c: Config, s: State, e: Event)
    ensures Replies(Emits(c, s, e)) == if e.Message? then Emits(c, s, e) else []
  {
    var out := Emits(c, s, e);
    if e.Message? && e.delivered {
      assert out[..0] == [];
    } else {
      AnnouncementsAre(s.known, c.watches);
      NoReplies(out);
    }
  }

  /** The replies sent are exactly those due: one per answered response, in order, echoing type and nonce, with an error
      exactly if the type has a handler and it rejected the response or a resource failed to decode. */
  lemma {:induction false} RepliesAreDue(c: Config, es: seq<Event>)
    ensures Replies(Run(c, es).sent) == RepliesDue(c, es)
  {
    if es != [] {
      var s, e := Run(c, es[..|es| - 1]), es[|es| - 1];
      RepliesAreDue(c, es[..|es| - 1]);
      ApplyEmits(c, s, e);
      EmittedReplies(c, s, e);
      RepliesAppend(s.sent, Emits(c, s, e));
    }
  }

  // Readiness.

  ghost predicate Acks(c: Config, e: Event, t: TypeUrl) {
    e.Message? && e.delivered && e.response.typeUrl == t && !Fails(c, e.response)
  }

  ghost predicate Acked(c: Config, es: seq<Event>, t: TypeUrl) {
    exists i :: 0 <= i < |es| && Acks(c, es[i], t)
  }

  lemma AckedAppend(c: Config, es: seq<Event>, t: TypeUrl)
    requires es != []
    ensures Acked(c, es, t) <==> Acked(c, es[..|es| - 1], t) || Acks(c, es[|es| - 1], t)
  {}

  /** Across connections, rejections and errors: the types still awaited are those of the watches that are not on demand
      and not yet acknowledged, and the readiness gate has been released once if there are such watches and all their
      types are acknowledged, and else never. */
  lemma {:induction false} ReadyOnceAllAcked(c: Config, es: seq<Event>)
    ensures var s := Run(c, es);
      && (forall t :: t in s.expected <==>
            (exists i :: 0 <= i < |c.watches| && !c.watches[i].onDemand && c.watches[i].typeUrl == t) && !Acked(c, es, t))
      && s.releases == (if (exists i :: 0 <= i < |c.watches| && !c.watches[i].onDemand)
                           && (forall i :: 0 <= i < |c.watches| && !c.watches[i].onDemand ==> Acked(c, es, c.watches[i].typeUrl))
                        then 1 else 0)
  {
    if es == [] {
      forall i | 0 <= i < |c.watches| && !c.watches[i].onDemand ensures c.watches[i].typeUrl in Start(c).expected {
        assert c.watches[i] in c.watches;
      }
    } else {
      var front, e := es[..|es| - 1], es[|es| - 1];
      var s, s' := Run(c, front), Run(c, es);
      ReadyOnceAllAcked(c, front);
      forall t ensures Acked(c, es, t) <==> Acked(c, front, t) || Acks(c, e, t) {
        AckedAppend(c, es, t);
      }
      if e.Message? {
        HandleFrame(s, e.response);
        hide Handle;
        assert s'.expected == if e.delivered && !Nacked(c, e.response) then s.expected - {e.response.typeUrl} else s.expected;
      }
    }
  }

  // On-demand waiters.

  /** What became of a demand: still pending, notified, or displaced by a later demand for the same key. */
  datatype Fate = Waiting | Told | Displaced

  /** The first later event that concerns the demanded key decides: a handled response naming it, or another demand. */
  function FateOf(c: Config, es: seq<Event>, i: nat): Fate
    requires i < |es| && es[i].Demand?
    decreases |es|
  {
    if i == |es| - 1 then Waiting else
      var before, e := FateOf(c, es[..|es| - 1], i), es[|es| - 1];
      if before != Waiting then before
      else if e.Demand? && e.key == es[i].key then Displaced
      else if e.Message? && e.response.typeUrl in c.handlers && Names(e.response, es[i].key) then Told
      else Waiting
  }

  /** Each demand brings its own one-shot sender. */
  predicate FreshWaiters(es: seq<Event>) {
    forall i, j :: 0 <= i < j < |es| && es[i].Demand? && es[j].Demand? ==> es[i].waiter != es[j].waiter
  }

  predicate Named(t: TypeUrl, names: seq<Name>, key: Key) {
    key.typeUrl == t && key.name in names
  }

  predicate Listed(t: TypeUrl, rs: seq<Resource>, key: Key) {
    key.typeUrl == t && exists i :: 0 <= i < |rs| && rs[i].name == key.name
  }

  predicate Holds(pending: map<Key, nat>, key: Key, w: nat) {
    key in pending && pending[key] == w
  }

  /** From `s` to `s'` exactly the pending waiters on keys in `touched` are notified. */
  ghost predicate Notifies(s: State, s': State, touched: bool, key: Key, w: nat) {
    && (Holds(s'.pending, key, w) <==> Holds(s.pending, key, w) && !touched)
    && (Notified(w, key) in s'.log <==> Notified(w, key) in s.log || (Holds(s.pending, key, w) && touched))
  }

  lemma {:induction false} RemoveEachNotifies(s: State, t: TypeUrl, names: seq<Name>, key: Key, w: nat)
    ensures Notifies(s, RemoveEach(s, t, names), Named(t, names, key), key, w)
  {
    if names != [] {
      RemoveEachNotifies(s, t, names[..|names| - 1], key, w);
      assert names == names[..|names| - 1] + [names[|names| - 1]];
    }
  }

  lemma {:induction false} AddEachNotifies(s: State, t: TypeUrl, rs: seq<Resource>, key: Key, w: nat)
    ensures Notifies(s, AddEach(s, t, rs), Listed(t, rs, key), key, w)
  {
    if rs != [] {
      var front := rs[..|rs| - 1];
      AddEachNotifies(s, t, front, key, w);
      assert forall i :: 0 <= i < |front| ==> front[i] == rs[i];
    }
  }

  lemma HandleNotifies(s: State, r: Response, key: Key, w: nat)
    ensures Notifies(s, Handle(s, r), Names(r, key), key, w)
  {
    var ran := s.(log := s.log + [HandlerRan(r)]);
    RemoveEachNotifies(ran, r.typeUrl, r.removed, key, w);
    AddEachNotifies(RemoveEach(ran, r.typeUrl, r.removed), r.typeUrl, r.resources, key, w);
  }

  /** Waiters, pending or notified, are those of demands made. */
  lemma {:induction false} WaitersDemanded(c: Config, es: seq<Event>, key: Key, w: nat) returns (i: nat)
    requires Holds(Run(c, es).pending, key, w) || Notified(w, key) in Run(c, es).log
    ensures i < |es| && es[i].Demand? && es[i].waiter == w && es[i].key == key
  {
    var s, e := Run(c, es[..|es| - 1]), es[|es| - 1];
    if e.Demand? && e.waiter == w && e.key == key {
      i := |es| - 1;
    } else {
      if e.Message? { HandleNotifies(s, e.response, key, w); }
      i := WaitersDemanded(c, es[..|es| - 1], key, w);
    }
  }

  /** At every point each demand is in exactly one of three places, and which one is decided by the events alone: pending,
      notified, or neither because a later demand for its key displaced it first. */
  lemma {:induction false} EveryDemandHasItsFate(c: Config, es: seq<Event>, i: nat)
    requires FreshWaiters(es) && i < |es| && es[i].Demand?
    ensures var s, fate := Run(c, es), FateOf(c, es, i);
      && (Holds(s.pending, es[i].key, es[i].waiter) <==> fate == Waiting)
      && (Notified(es[i].waiter, es[i].key) in s.log <==> fate == Told)
    decreases |es|
  {
    var front, e := es[..|es| - 1], es[|es| - 1];
    var s, key, w := Run(c, front), es[i].key, es[i].waiter;
    if i == |es| - 1 {
      if Notified(w, key) in s.log {
        var j := WaitersDemanded(c, front, key, w);
      }
    } else {
      assert front[i] == es[i];
      EveryDemandHasItsFate(c, front, i);
      if e.Message? { HandleNotifies(s, e.response, key, w); }
    }
  }

  /** No waiter is pending twice, notified twice, or pending when it has been notified. */
  ghost predicate Tidy(s: State) {
    && (forall j, k :: j in s.pending && k in s.pending && s.pending[j] == s.pending[k] ==> j == k)
    && (forall k, p :: k in s.pending && 0 <= p < |s.log| && s.log[p].Notified? ==> s.log[p].waiter != s.pending[k])
    && (forall p, q :: 0 <= p < q < |s.log| && s.log[p].Notified? && s.log[q].Notified? ==> s.log[p].waiter != s.log[q].waiter)
  }

  ghost predicate Ran(log: seq<Entry>, p: nat, key: Key) {
    exists q :: 0 <= q < p <= |log| && log[q].HandlerRan? && Names(log[q].response, key)
  }

  /** Every notification comes after the handler ran on a response naming its key. */
  ghost predicate Justified(log: seq<Entry>) {
    forall p :: 0 <= p < |log| && log[p].Notified? ==> Ran(log, p, log[p].key)
  }

  lemma NotifyKeeps(s: State, key: Key)
    requires Tidy(s) && Justified(s.log) && Ran(s.log, |s.log|, key)
    ensures Tidy(Notify(s, key)) && Justified(Notify(s, key).log) && s.log <= Notify(s, key).log
  {
    var log, log' := s.log, Notify(s, key).log;
    forall p | 0 <= p < |log'| && log'[p].Notified? ensures Ran(log', p, log'[p].key) {
      if p < |log| {
        assert Ran(log, p, log[p].key);
        var q :| 0 <= q < p && log[q].HandlerRan? && Names(log[q].response, log[p].key);
        assert log'[q] == log[q];
      } else {
        var q :| 0 <= q < |log| && log[q].HandlerRan? && Names(log[q].response, key);
        assert log'[q] == log[q];
      }
    }
  }

  lemma {:induction false} RemoveEachKeeps(s: State, r: Response, n: nat)
    requires Tidy(s) && Justified(s.log) && HandlerRan(r) in s.log && n <= |r.removed|
    ensures var s' := RemoveEach(s, r.typeUrl, r.removed[..n]); Tidy(s') && Justified(s'.log) && HandlerRan(r) in s'.log
  {
    if n > 0 {
      RemoveEachKeeps(s, r, n - 1);
      assert r.removed[..n][..n - 1] == r.removed[..n - 1];
      var s' := RemoveEach(s, r.typeUrl, r.removed[..n - 1]);
      var key := Key(r.typeUrl, r.removed[n - 1]);
      var q :| 0 <= q < |s'.log| && s'.log[q] == HandlerRan(r);
      assert Names(s'.log[q].response, key);
      NotifyKeeps(s', key);
    }
  }

  lemma {:induction false} AddEachKeeps(s: State, r: Response, n: nat)
    requires Tidy(s) && Justified(s.log) && HandlerRan(r) in s.log && n <= |r.resources|
    ensures var s' := AddEach(s, r.typeUrl, r.resources[..n]); Tidy(s') && Justified(s'.log) && HandlerRan(r) in s'.log
  {
    if n > 0 {
      AddEachKeeps(s, r, n - 1);
      assert r.resources[..n][..n - 1] == r.resources[..n - 1];
      var s' := AddEach(s, r.typeUrl, r.resources[..n - 1]);
      var key := Key(r.typeUrl, r.resources[n - 1].name);
      var q :| 0 <= q < |s'.log| && s'.log[q] == HandlerRan(r);
      assert Names(s'.log[q].response, key);
      NotifyKeeps(s', key);
    }
  }

  lemma HandleKeeps(s: State, r: Response)
    requires Tidy(s) && Justified(s.log)
    ensures Tidy(Handle(s, r)) && Justified(Handle(s, r).log)
  {
    var ran := s.(log := s.log + [HandlerRan(r)]);
    forall p | 0 <= p < |ran.log| && ran.log[p].Notified? ensures Ran(ran.log, p, ran.log[p].key) {
      assert Ran(s.log, p, s.log[p].key);
      var q :| 0 <= q < p && s.log[q].HandlerRan? && Names(s.log[q].response, s.log[p].key);
      assert ran.log[q] == s.log[q];
    }
    assert ran.log[|s.log|] == HandlerRan(r);
    assert r.removed[..|r.removed|] == r.removed && r.resources[..|r.resources|] == r.resources;
    RemoveEachKeeps(ran, r, |r.removed|);
    AddEachKeeps(RemoveEach(ran, r.typeUrl, r.removed), r, |r.resources|);
  }

  /** A new demand's waiter is neither pending nor notified yet. */
  lemma NewWaiter(c: Config, es: seq<Event>, key: Key, w: nat)
    requires FreshWaiters(es) && es != [] && es[|es| - 1].Demand? && es[|es| - 1].waiter == w
    ensures var s := Run(c, es[..|es| - 1]); !Holds(s.pending, key, w) && Notified(w, key) !in s.log
  {
    var front := es[..|es| - 1];
    if Holds(Run(c, front).pending, key, w) || Notified(w, key) in Run(c, front).log {
      var i := WaitersDemanded(c, front, key, w);
    }
  }

  lemma DemandKeeps(s: State, w: nat, key: Key, delivered: bool)
    requires Tidy(s) && forall k :: !Holds(s.pending, k, w) && Notified(w, k) !in s.log
    ensures Tidy(OnDemand(s, w, key, delivered))
  {
    forall p | 0 <= p < |s.log| && s.log[p].Notified? ensures s.log[p].waiter != w {
      assert Notified(w, s.log[p].key) !in s.log;
    }
    forall k | k in s.pending ensures s.pending[k] != w {
      assert !Holds(s.pending, k, w);
    }
  }

  lemma KeepsByLogAndPending(s': State, s: State)
    requires s'.pending == s.pending && s'.log == s.log && Tidy(s)
    ensures Tidy(s')
  {}

  /** Over any run each waiter is notified at most once, and only after the handler has run on a response naming its key. */
  lemma {:induction false} NotifiedOnceAfterHandling(c: Config, es: seq<Event>)
    requires FreshWaiters(es)
    ensures Tidy(Run(c, es)) && Justified(Run(c, es).log)
  {
    if es != [] {
      var front, e := es[..|es| - 1], es[|es| - 1];
      var s := Run(c, front);
      NotifiedOnceAfterHandling(c, front);
      if e.Message? {
        HandleKeeps(s, e.response);
        var handled := if e.response.typeUrl in c.handlers then Handle(s, e.response) else s;
        KeepsByLogAndPending(OnMessage(c, s, e.response, e.delivered), handled);
      } else if e.Demand? {
        forall k ensures !Holds(s.pending, k, e.waiter) && Notified(e.waiter, k) !in s.log {
          NewWaiter(c, es, k, e.waiter);
        }
        DemandKeeps(s, e.waiter, e.key, e.delivered);
      }
    }
  }
}
