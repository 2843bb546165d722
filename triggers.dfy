/** The two Firestore update handlers of functions/index.js, with the document reads
    replaced by their results: `onGameUpdated` detects the game notifications and
    dispatches them one after another; `onPrivateStateUpdated` dispatches the role
    notification, if any, to the player whose private state changed. */
module Triggers {
  import opened JsValues
  import opened GameNotifier
  import opened Dispatcher

  /** `{ title: n.title, body: n.body }` */
  function PayloadOf(n: Notification): Payload {
    Payload(n.title, n.body)
  }

  /** The sends of dispatching each notification of `ns` in turn. */
  function DispatchAll(cfg: VapidConfig, store: map<string, SubscriptionDoc>, ns: seq<Notification>): seq<Send> {
    if ns == [] then []
    else Dispatched(cfg, store, ns[0].playerIds, PayloadOf(ns[0])) + DispatchAll(cfg, store, ns[1..])
  }

  /** Every send carries the payload of one of the notifications. */
  lemma {:induction false} DispatchAllPayloads(cfg: VapidConfig, store: map<string, SubscriptionDoc>,
                                               ns: seq<Notification>, s: Send)
    requires s in DispatchAll(cfg, store, ns)
    ensures exists n :: n in ns && s.payload == PayloadOf(n)
  {
    if s !in Dispatched(cfg, store, ns[0].playerIds, PayloadOf(ns[0])) {
      DispatchAllPayloads(cfg, store, ns[1..], s);
      var n :| n in ns[1..] && s.payload == PayloadOf(n);
      assert n in ns;
    }
  }

  lemma {:induction false} DispatchAllConcat(cfg: VapidConfig, store: map<string, SubscriptionDoc>,
                                             xs: seq<Notification>, ys: seq<Notification>)
    ensures DispatchAll(cfg, store, xs + ys) == DispatchAll(cfg, store, xs) + DispatchAll(cfg, store, ys)
  {
    if xs == [] {
      assert xs + ys == ys;
    } else {
      assert (xs + ys)[1..] == xs[1..] + ys;
      DispatchAllConcat(cfg, store, xs[1..], ys);
    }
  }

  /** `onGameUpdated`: the notifications of DetectGame are sent one after another. */
  method OnGameUpdated(cfg: VapidConfig, store: map<string, SubscriptionDoc>, before: GameDoc, after: GameDoc)
    returns (sends: seq<Send>)
    ensures sends == DispatchAll(cfg, store, DetectGame(before, after))
  {
    var notifications := DetectGame(before, after);
    sends := DispatchNotifications(cfg, store, notifications);
  }

  /** The dispatch loop at the end of `onGameUpdated`. */
  method DispatchNotifications(cfg: VapidConfig, store: map<string, SubscriptionDoc>, notifications: seq<Notification>)
    returns (sends: seq<Send>)
    ensures sends == DispatchAll(cfg, store, notifications)
  {
    sends := [];
    for i := 0 to |notifications|
      invariant sends == DispatchAll(cfg, store, notifications[..i])
    {
      var n := notifications[i];
      var sent := SendToPlayers(cfg, store, n.playerIds, PayloadOf(n));
      DispatchAllConcat(cfg, store, notifications[..i], [n]);
      assert notifications[..i + 1] == notifications[..i] + [n];
      assert [n][1..] == [];
      sends := sends + sent;
    }
    assert notifications[..|notifications|] == notifications;
  }

  /** `onPrivateStateUpdated` for the private document of `playerId`. */
  method OnPrivateStateUpdated(cfg: VapidConfig, store: map<string, SubscriptionDoc>, playerId: string,
                               before: PrivateDoc, after: PrivateDoc)
    returns (sends: seq<Send>)
    ensures sends == match DetectRole(playerId, before, after)
      case None => []
      case Some(n) => Dispatched(cfg, store, [playerId], PayloadOf(n))
    ensures |sends| <= 1
  {
    var roleBefore, roleAfter := RoleOf(before), RoleOf(after);
    if roleBefore == roleAfter || roleAfter == "" || roleAfter == Unassigned {
      return [];
    }
    sends := SendToPlayers(cfg, store, [playerId], Payload(AppTitle, RoleBody));
  }

  // ---------------------------------------------------------------------------
  // Properties of the handlers

  /** Without VAPID keys no handler sends anything. */
  lemma {:induction false} NoKeysNoSends(cfg: VapidConfig, store: map<string, SubscriptionDoc>, ns: seq<Notification>)
    requires !HasVapidKeys(cfg)
    ensures DispatchAll(cfg, store, ns) == []
  {
    if ns != [] {
      NoKeysNoSends(cfg, store, ns[1..]);
    }
  }

  /** An update that changes nothing in the game document sends nothing. */
  lemma UnchangedGameSendsNothing(cfg: VapidConfig, store: map<string, SubscriptionDoc>, d: GameDoc)
    ensures DispatchAll(cfg, store, DetectGame(d, d)) == []
  {
    UnchangedGameNotifiesNobody(d);
  }

  /** Entering night sends the start payload and then the night payload to every
      reachable player with an id, before anything the rematch and bulletin rules add. */
  lemma EnteringNightSendsStartThenNight(cfg: VapidConfig, store: map<string, SubscriptionDoc>,
                                         before: GameDoc, after: GameDoc)
    requires NormalPhase(before.phase) != "night" && NormalPhase(after.phase) == "night"
    ensures var ids := PlayerIds(Normalize(after).players);
      var start, night := Dispatched(cfg, store, ids, Payload(AppTitle, StartBody)),
                          Dispatched(cfg, store, ids, Payload(AppTitle, NightBody));
      DispatchAll(cfg, store, DetectGame(before, after))
        == start + night
           + DispatchAll(cfg, store, Emit(Rematch, Normalize(before), Normalize(after))
                                     + Emit(NewBulletin, Normalize(before), Normalize(after)))
  {
    var b, a := Normalize(before), Normalize(after);
    var ids := PlayerIds(a.players);
    var n0, n1 := Notification(ids, AppTitle, StartBody), Notification(ids, AppTitle, NightBody);
    var e3, e4 := Emit(Rematch, b, a), Emit(NewBulletin, b, a);
    EnteringNightNotifiesTwice(before, after);
    assert DetectGame(before, after) == [n0, n1] + (e3 + e4);
    DispatchAllTwoFirst(cfg, store, n0, n1, e3 + e4);
  }

  lemma DispatchAllTwoFirst(cfg: VapidConfig, store: map<string, SubscriptionDoc>,
                            n0: Notification, n1: Notification, tail: seq<Notification>)
    ensures DispatchAll(cfg, store, [n0, n1] + tail)
      == Dispatched(cfg, store, n0.playerIds, PayloadOf(n0)) + Dispatched(cfg, store, n1.playerIds, PayloadOf(n1))
         + DispatchAll(cfg, store, tail)
  {
    var ns := [n0, n1] + tail;
    assert ns[1..] == [n1] + tail;
    assert ns[1..][1..] == tail;
  }

  /** A role assignment sends one message to the player's own endpoint when the
      player is reachable and keys are configured, and nothing otherwise: this is
      what `OnPrivateStateUpdated` sends once `DetectRole` fires. */
  lemma RoleAssignmentReachesOnlyThatPlayer(cfg: VapidConfig, store: map<string, SubscriptionDoc>, playerId: string,
                                            before: PrivateDoc, after: PrivateDoc)
    requires DetectRole(playerId, before, after).Some?
    ensures var sends := Dispatched(cfg, store, [playerId], PayloadOf(DetectRole(playerId, before, after).value));
      (|sends| == 1 <==> HasVapidKeys(cfg) && Reachable(store, playerId))
      && (|sends| == 1 ==> sends[0].endpoint == store[playerId].endpoint && sends[0].payload == Payload(AppTitle, RoleBody))
  {
    var payload := PayloadOf(DetectRole(playerId, before, after).value);
    assert payload == Payload(AppTitle, RoleBody);
    var sends := Dispatched(cfg, store, [playerId], payload);
    assert [playerId][1..] == [];
    if HasVapidKeys(cfg) && Reachable(store, playerId) {
      assert sends == SendsForId(cfg, store, playerId, payload);
    }
  }
}
