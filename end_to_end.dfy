/** What a player's device shows for a message the backend sends: the backend
    serialises `{title, body}`, the worker parses it back, and every notification
    the backend produces has a non-empty title and body, so none of the worker's
    defaults take over. */
module EndToEnd {
  import opened GameNotifier
  import opened Dispatcher
  import opened Triggers
  import opened PushHandler

  /** The push event a device receives for a payload: the parsed object has the
      payload's title and body and no tag. */
  function Received(p: Payload): PushData {
    Json(p.title, p.body, "")
  }

  /** Every message `onGameUpdated` sends is shown with exactly its title and body,
      under the worker's default tag, with a click target at the worker's origin. */
  lemma GameMessagesShownVerbatim(cfg: VapidConfig, store: map<string, SubscriptionDoc>,
                                  before: GameDoc, after: GameDoc, origin: string)
    ensures forall s :: s in DispatchAll(cfg, store, DetectGame(before, after)) ==>
      ShownFor(Received(s.payload), origin)
        == Shown(s.payload.title, s.payload.body, DefaultTag, IconPath, IconPath, origin + "/")
  {
    var ns := DetectGame(before, after);
    forall s | s in DispatchAll(cfg, store, ns)
      ensures ShownFor(Received(s.payload), origin)
        == Shown(s.payload.title, s.payload.body, DefaultTag, IconPath, IconPath, origin + "/")
    {
      DispatchAllPayloads(cfg, store, ns, s);
      var n :| n in ns && s.payload == PayloadOf(n);
      assert n.title != "" && n.body != "";
    }
  }

  /** The role message is shown with exactly its title and body too. */
  lemma RoleMessageShownVerbatim(playerId: string, before: PrivateDoc, after: PrivateDoc, origin: string)
    requires DetectRole(playerId, before, after).Some?
    ensures var n := DetectRole(playerId, before, after).value;
      ShownFor(Received(PayloadOf(n)), origin) == Shown(AppTitle, RoleBody, DefaultTag, IconPath, IconPath, origin + "/")
  {
  }
}
