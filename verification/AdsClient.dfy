/** The xDS client as an object: the event handlers that update its fields, and its reconnect backoff. */
module AdsClient {
  import opened Prelude
  import opened XdsClient

  class AdsClient {
    const config: Config
    var known: Cache
    var pending: map<Key, nat>
    var typesToExpect: set<TypeUrl>
    var blockReady: bool
    var sent: seq<Request>
    ghost var log: seq<Entry>
    ghost var releases: nat

    ghost function Snapshot(): State
      reads this
    {
      State(known, pending, typesToExpect, releases, sent, log)
    }

    /** The gate is held until it is released, and is held while a type is still awaited. */
    ghost predicate Valid()
      reads this
    {
      (blockReady <==> releases == 0) && (typesToExpect != {} ==> blockReady)
    }

    constructor (config: Config)
      ensures Valid() && this.config == config && Snapshot() == Start(config)
      ensures forall t :: t in typesToExpect <==>
        exists i :: 0 <= i < |config.watches| && !config.watches[i].onDemand && config.watches[i].typeUrl == t
      ensures blockReady && known == map[] && pending == map[]
    {
      this.config := config;
      known, pending, typesToExpect := map[], map[], Expected(config.watches);
      blockReady, sent, log, releases := true, [], [], 0;
    }

    method NotifyOnDemand(key: Key)
      modifies this`pending, this`log
      ensures Snapshot() == Notify(old(Snapshot()), key)
    {
      if key in pending {
        log := log + [Notified(pending[key], key)];
        pending := pending - {key};
      }
    }

    method AddResource(typeUrl: TypeUrl, name: Name)
      modifies this`known
      ensures known == Insert(old(known), Key(typeUrl, name))
    {
      if typeUrl !in known {
        known := known[typeUrl := {}];
      }
      known := known[typeUrl := known[typeUrl] + {name}];
    }

    method RemoveResource(key: Key)
      modifies this`known, this`pending, this`log
      ensures Snapshot() == RemoveOne(old(Snapshot()), key)
    {
      if key.typeUrl in known {
        known := known[key.typeUrl := known[key.typeUrl] - {key.name}];
      }
      NotifyOnDemand(key);
    }

    method UpdateResource(key: Key)
      modifies this`known, this`pending, this`log
      ensures Snapshot() == AddOne(old(Snapshot()), key)
    {
      NotifyOnDemand(key);
      AddResource(key.typeUrl, key.name);
    }

    /** Decodes every resource, keeping track of failures but going on. */
    method DecodeEach(r: Response) returns (decoded: bool)
      ensures decoded <==> forall i :: 0 <= i < |r.resources| ==> r.resources[i].decodes
    {
      decoded := true;
      for i := 0 to |r.resources|
        invariant decoded <==> forall j :: 0 <= j < i ==> r.resources[j].decodes
      {
        if !r.resources[i].decodes {
          decoded := false;
        }
      }
    }

    /** `HandlerWrapper::handle`: the handler first, then the cache and its waiters. */
    method HandleResponse(r: Response) returns (ok: bool)
      requires r.typeUrl in config.handlers
      modifies this`known, this`pending, this`log
      ensures Snapshot() == Handle(old(Snapshot()), r)
      ensures ok <==> !r.rejected && forall i :: 0 <= i < |r.resources| ==> r.resources[i].decodes
    {
      hide RemoveOne, AddOne;
      log := log + [HandlerRan(r)];
      ghost var ran := Snapshot();
      var decoded := DecodeEach(r);
      for i := 0 to |r.removed|
        invariant Snapshot() == RemoveEach(ran, r.typeUrl, r.removed[..i])
      {
        RemoveResource(Key(r.typeUrl, r.removed[i]));
        assert r.removed[..i + 1][..i] == r.removed[..i];
      }
      assert r.removed[..|r.removed|] == r.removed;
      ghost var removed := Snapshot();
      for i := 0 to |r.resources|
        invariant Snapshot() == AddEach(removed, r.typeUrl, r.resources[..i])
      {
        UpdateResource(Key(r.typeUrl, r.resources[i].name));
        assert r.resources[..i + 1][..i] == r.resources[..i];
      }
      assert r.resources[..|r.resources|] == r.resources;
      ok := !r.rejected && decoded;
    }

    /** The message arm of the receive loop; `delivered` is whether the reply could be sent. */
    method OnMessage(r: Response, delivered: bool)
      requires Valid()
      modifies this
      ensures Valid() && Snapshot() == XdsClient.OnMessage(config, old(Snapshot()), r, delivered)
    {
      HandleFrame(Snapshot(), r);
      var awaiting := typesToExpect != {};
      var ok := true;
      if r.typeUrl in config.handlers {
        ok := HandleResponse(r);
      }
      if !delivered {
        return;
      }
      sent := sent + [Reply(r.typeUrl, r.nonce, !ok)];
      if ok && awaiting {
        typesToExpect := typesToExpect - {r.typeUrl};
        if typesToExpect == {} {
          if blockReady {
            releases := releases + 1;
          }
          blockReady := false;
        }
      }
    }

    method OnDemand(waiter: nat, key: Key, delivered: bool)
      requires Valid()
      modifies this
      ensures Valid() && Snapshot() == XdsClient.OnDemand(old(Snapshot()), waiter, key, delivered)
    {
      pending := pending[key := waiter];
      AddResource(key.typeUrl, key.name);
      if delivered {
        sent := sent + [Subscribe(key.typeUrl, key.name)];
      }
    }

    /** Opening a stream sends the initial requests, each with the resources already known. */
    method Connect()
      requires Valid()
      modifies this`sent
      ensures Valid() && Snapshot() == Apply(config, old(Snapshot()), Connected)
    {
      for i := 0 to |config.watches|
        invariant sent == old(sent) + Announcements(known, config.watches[..i])
        invariant Snapshot() == old(Snapshot()).(sent := sent)
      {
        var t := config.watches[i].typeUrl;
        sent := sent + [Announce(t, if t in known then known[t] else {})];
        assert config.watches[..i + 1][..i] == config.watches[..i];
      }
      assert config.watches[..|config.watches|] == config.watches;
    }
  }

  // Reconnect backoff, in milliseconds.

  const INITIAL_BACKOFF: nat := 10
  const MAX_BACKOFF: nat := 15_000

  /** How a stream ended; a gRPC status is `benign` if it is one of those that call for a plain reconnect. */
  datatype End = ConnectionError | TransportError | GrpcStatus(benign: bool) | OtherError | Completed

  predicate BacksOff(e: End) {
    e.ConnectionError? || e.TransportError? || (e.GrpcStatus? && !e.benign)
  }

  function NextBackoff(backoff: nat, e: End): nat {
    match e
    case ConnectionError => Min(MAX_BACKOFF, backoff * 2)
    case TransportError => Min(MAX_BACKOFF, backoff * 2)
    case GrpcStatus(benign) => if benign then INITIAL_BACKOFF else Min(MAX_BACKOFF, backoff * 2)
    case OtherError => INITIAL_BACKOFF
    case Completed => INITIAL_BACKOFF
  }

  function Backoff(ends: seq<End>): nat {
    if ends == [] then INITIAL_BACKOFF else NextBackoff(Backoff(ends[..|ends| - 1]), ends[|ends| - 1])
  }

  /** The number of consecutive failures a run ends with. */
  function Streak(ends: seq<End>): nat {
    if ends == [] || !BacksOff(ends[|ends| - 1]) then 0 else 1 + Streak(ends[..|ends| - 1])
  }

  function Pow2(k: nat): nat {
    if k == 0 then 1 else 2 * Pow2(k - 1)
  }

  /** After any history of connections the backoff doubles with each consecutive failure, up to the maximum. */
  lemma {:induction false} BackoffDoubles(ends: seq<End>)
    ensures Backoff(ends) == Min(15_000, 10 * Pow2(Streak(ends)))
  {
    if ends != [] {
      BackoffDoubles(ends[..|ends| - 1]);
    }
  }
}
