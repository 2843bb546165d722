/** `sendToSubscription` and `sendToPlayers` (functions/index.js): resolve each target
    player id to its stored push subscription and hand one payload per well-formed
    subscription to the Web Push transport.

    The subscription collection of one game is a map from player id to the stored
    document. The transport is not modelled: each call to it is recorded as a Send,
    in call order, whatever the transport then reports. */
module Dispatcher {
  import opened JsValues

  /** The time-to-live hint passed with every send, in seconds. */
  const TtlSeconds := 3600

  datatype Keys = Keys(p256dh: string, auth: string)

  /** A stored subscription document; a missing or falsy string is "". */
  datatype SubscriptionDoc = SubscriptionDoc(endpoint: string, keys: Option<Keys>)

  /** The configured VAPID key pair; a missing key is "". */
  datatype VapidConfig = VapidConfig(privateKey: string, publicKey: string)

  /** The `{title, body}` object serialised as the push message. */
  datatype Payload = Payload(title: string, body: string)

  /** One call of the push transport. */
  datatype Send = Send(endpoint: string, p256dh: string, auth: string, payload: Payload, ttl: nat)

  /** `getVapidKeys()` returns a key pair (rather than null). */
  predicate HasVapidKeys(cfg: VapidConfig) {
    cfg.privateKey != "" && cfg.publicKey != ""
  }

  /** The document has an endpoint and both keys. */
  predicate WellFormed(doc: SubscriptionDoc) {
    doc.endpoint != "" && doc.keys.Some? && doc.keys.value.p256dh != "" && doc.keys.value.auth != ""
  }

  /** The player has a subscription document and it is well formed. */
  predicate Reachable(store: map<string, SubscriptionDoc>, id: string) {
    id in store && WellFormed(store[id])
  }

  /** `sendToSubscription(doc, payload)`: the transport call it makes, if any. */
  function SendToSubscription(cfg: VapidConfig, doc: SubscriptionDoc, payload: Payload): (r: Option<Send>)
    ensures r.Some? <==> WellFormed(doc) && HasVapidKeys(cfg)
    ensures r.Some? ==>
      r.value.endpoint == doc.endpoint && doc.keys == Some(Keys(r.value.p256dh, r.value.auth))
      && r.value.payload == payload && r.value.ttl == TtlSeconds
  {
    if !WellFormed(doc) then None
    else if !HasVapidKeys(cfg) then None
    else Some(Send(doc.endpoint, doc.keys.value.p256dh, doc.keys.value.auth, payload, TtlSeconds))
  }

  /** What one iteration of the `sendToPlayers` loop sends for `id`. */
  function SendsForId(cfg: VapidConfig, store: map<string, SubscriptionDoc>, id: string, payload: Payload): seq<Send> {
    if id !in store then []
    else match SendToSubscription(cfg, store[id], payload)
      case None => []
      case Some(s) => [s]
  }

  /** The sends of the `sendToPlayers` loop over `ids`, in order. */
  function SendsFor(cfg: VapidConfig, store: map<string, SubscriptionDoc>, ids: seq<string>, payload: Payload): (r: seq<Send>)
    ensures |r| <= |ids|
    ensures forall s :: s in r ==> s.payload == payload && s.ttl == TtlSeconds
  {
    if ids == [] then []
    else SendsForId(cfg, store, ids[0], payload) + SendsFor(cfg, store, ids[1..], payload)
  }

  /** Everything `sendToPlayers(db, joinCode, ids, payload)` sends. */
  function Dispatched(cfg: VapidConfig, store: map<string, SubscriptionDoc>, ids: seq<string>, payload: Payload): (r: seq<Send>)
    ensures ids == [] || !HasVapidKeys(cfg) ==> r == []
    ensures |r| <= |ids|
    ensures forall s :: s in r ==> s.payload == payload && s.ttl == TtlSeconds
  {
    if |ids| == 0 then []
    else if !HasVapidKeys(cfg) then []
    else SendsFor(cfg, store, ids, payload)
  }

  /** `sendToPlayers`: an empty list or missing keys send nothing; otherwise each id
      in order is looked up, a missing document is skipped, and the rest go through
      `sendToSubscription`. The sends are returned in the order they are made. */
  method SendToPlayers(cfg: VapidConfig, store: map<string, SubscriptionDoc>, playerIds: seq<string>, payload: Payload)
    returns (sends: seq<Send>)
    ensures sends == Dispatched(cfg, store, playerIds, payload)
  {
    sends := [];
    if |playerIds| == 0 {
      return;
    }
    if !HasVapidKeys(cfg) {
      return;
    }
    for i := 0 to |playerIds|
      invariant sends == SendsFor(cfg, store, playerIds[..i], payload)
    {
      var playerId := playerIds[i];
      SendsForConcat(cfg, store, playerIds[..i], [playerId], payload);
      assert playerIds[..i + 1] == playerIds[..i] + [playerId];
      assert [playerId][1..] == [];
      if playerId !in store {
        continue;
      }
      var sent := SendToSubscription(cfg, store[playerId], payload);
      if sent.Some? {
        sends := sends + [sent.value];
      }
    }
    assert playerIds[..|playerIds|] == playerIds;
  }

  // ---------------------------------------------------------------------------
  // Properties of the dispatch

  lemma {:induction false} SendsForConcat(cfg: VapidConfig, store: map<string, SubscriptionDoc>,
                                          xs: seq<string>, ys: seq<string>, payload: Payload)
    ensures SendsFor(cfg, store, xs + ys, payload) == SendsFor(cfg, store, xs, payload) + SendsFor(cfg, store, ys, payload)
  {
    if xs == [] {
      assert xs + ys == ys;
    } else {
      assert (xs + ys)[1..] == xs[1..] + ys;
      SendsForConcat(cfg, store, xs[1..], ys, payload);
    }
  }

  /** Ids are served in list order: dispatching to a concatenation is dispatching to
      each part in turn. */
  lemma DispatchedConcat(cfg: VapidConfig, store: map<string, SubscriptionDoc>,
                         xs: seq<string>, ys: seq<string>, payload: Payload)
    ensures Dispatched(cfg, store, xs + ys, payload) == Dispatched(cfg, store, xs, payload) + Dispatched(cfg, store, ys, payload)
  {
    if xs == [] {
      assert xs + ys == ys;
    } else if ys == [] {
      assert xs + ys == xs;
    } else {
      SendsForConcat(cfg, store, xs, ys, payload);
    }
  }

  /** An id with no subscription document, or with one lacking the endpoint or a key,
      changes nothing for the other ids: dropping it from the list leaves the sends
      as they were. */
  lemma DispatchedSkipsUnreachable(cfg: VapidConfig, store: map<string, SubscriptionDoc>,
                                   ids: seq<string>, k: nat, payload: Payload)
    requires k < |ids| && !Reachable(store, ids[k])
    ensures Dispatched(cfg, store, ids, payload) == Dispatched(cfg, store, ids[..k] + ids[k + 1..], payload)
  {
    assert ids == ids[..k] + ([ids[k]] + ids[k + 1..]);
    DispatchedConcat(cfg, store, ids[..k], [ids[k]] + ids[k + 1..], payload);
    DispatchedConcat(cfg, store, [ids[k]], ids[k + 1..], payload);
    DispatchedConcat(cfg, store, ids[..k], ids[k + 1..], payload);
    assert [ids[k]][1..] == [];
  }

  /** A send is made exactly for the reachable ids, and only when keys are configured. */
  lemma {:induction false} DispatchedExactly(cfg: VapidConfig, store: map<string, SubscriptionDoc>,
                                             ids: seq<string>, payload: Payload, s: Send)
    ensures s in Dispatched(cfg, store, ids, payload) <==>
      HasVapidKeys(cfg)
      && (exists i :: 0 <= i < |ids| && Reachable(store, ids[i])
                      && SendToSubscription(cfg, store[ids[i]], payload) == Some(s))
  {
    if ids != [] && HasVapidKeys(cfg) {
      SendsForExactly(cfg, store, ids, payload, s);
    }
  }

  lemma {:induction false} SendsForExactly(cfg: VapidConfig, store: map<string, SubscriptionDoc>,
                                           ids: seq<string>, payload: Payload, s: Send)
    requires HasVapidKeys(cfg)
    ensures s in SendsFor(cfg, store, ids, payload) <==>
      exists i :: 0 <= i < |ids| && Reachable(store, ids[i])
        && SendToSubscription(cfg, store[ids[i]], payload) == Some(s)
  {
    if ids != [] {
      SendsForExactly(cfg, store, ids[1..], payload, s);
      if s in SendsFor(cfg, store, ids[1..], payload) {
        var i :| 0 <= i < |ids[1..]| && Reachable(store, ids[1..][i])
          && SendToSubscription(cfg, store[ids[1..][i]], payload) == Some(s);
        assert ids[i + 1] == ids[1..][i];
      }
      if exists i :: 0 <= i < |ids| && Reachable(store, ids[i])
          && SendToSubscription(cfg, store[ids[i]], payload) == Some(s) {
        var i :| 0 <= i < |ids| && Reachable(store, ids[i])
          && SendToSubscription(cfg, store[ids[i]], payload) == Some(s);
        if i > 0 {
          assert ids[1..][i - 1] == ids[i];
        }
      }
    }
  }
}
