/** The service worker's two listeners (apps/player/web/push_handler.js): the `push`
    listener turns an incoming message into the notification it shows, and the
    `notificationclick` listener decides which window the click brings forward.
    The platform calls (showNotification, matchAll, focus, openWindow) are the
    values these methods return. */
module PushHandler {
  import opened JsValues

  const DefaultTitle := "Club Blackout"
  const DefaultBody := "Something happened in the game."
  const DefaultTag := "cb-push"
  const IconPath := "/icons/Icon-192.png"

  /** The push event's data: absent, present but not parseable as JSON (or parsed
      to a value whose fields cannot be read), or a parsed object whose `title`,
      `body` and `tag` are "" when missing or falsy. */
  datatype PushData = NoData | Malformed | Json(title: string, body: string, tag: string)

  /** The listener's local `data` record; a tag that was never set is "". */
  datatype Fields = Fields(title: string, body: string, tag: string)

  /** The arguments of `showNotification`; `url` is the one entry of its `data`. */
  datatype Shown = Shown(title: string, body: string, tag: string, icon: string, badge: string, url: string)

  /** The notification shown for a push event, field by field. */
  function ShownFor(event: PushData, origin: string): (n: Shown)
    ensures !event.Json? ==> n.title == DefaultTitle && n.body == DefaultBody && n.tag == DefaultTag
    ensures event.Json? ==> (n.title == event.title || (event.title == "" && n.title == DefaultTitle))
    ensures event.Json? ==> (n.body == event.body || (event.body == "" && n.body == DefaultBody))
    ensures event.Json? ==> (n.tag == event.tag || (event.tag == "" && n.tag == DefaultTag))
    ensures n.title != "" && n.body != "" && n.tag != ""
    ensures n.url == origin + "/" && n.icon == IconPath && n.badge == IconPath
  {
    match event
    case Json(title, body, tag) =>
      Shown(OrElse(title, DefaultTitle), OrElse(body, DefaultBody), OrElse(tag, DefaultTag), IconPath, IconPath, origin + "/")
    case _ =>
      Shown(DefaultTitle, DefaultBody, DefaultTag, IconPath, IconPath, origin + "/")
  }

  /** The `push` listener: start from the defaults, overwrite each field the payload
      sets to a truthy value, and show a notification whatever happened. */
  method OnPush(event: PushData, origin: string) returns (n: Shown)
    ensures n == ShownFor(event, origin)
  {
    var data := Fields(DefaultTitle, DefaultBody, "");
    if event.Json? {
      if event.title != "" {
        data := data.(title := event.title);
      }
      if event.body != "" {
        data := data.(body := event.body);
      }
      if event.tag != "" {
        data := data.(tag := event.tag);
      }
    }
    n := Shown(data.title, data.body, OrElse(data.tag, DefaultTag), IconPath, IconPath, origin + "/");
  }

  /** An open window client: its URL and whether it has a `focus` method. */
  datatype Client = Client(url: string, canFocus: bool)

  /** What the click does besides closing the notification. */
  datatype ClickAction = CloseOnly | FocusClient(index: nat) | OpenWindow(url: string)

  /** `client.url.indexOf(origin) === 0 && 'focus' in client` */
  predicate Matches(c: Client, origin: string) {
    origin <= c.url && c.canFocus
  }

  /** The `notificationclick` listener. `url` is the notification's `data.url` ("" when
      absent); `canOpenWindow` says whether `clients.openWindow` exists. */
  method OnNotificationClick(url: string, clients: seq<Client>, origin: string, canOpenWindow: bool)
    returns (action: ClickAction)
    ensures url == "" ==> action == CloseOnly
    ensures action.FocusClient? ==>
      action.index < |clients| && Matches(clients[action.index], origin)
      && forall j :: 0 <= j < action.index ==> !Matches(clients[j], origin)
    ensures url != "" && (exists j :: 0 <= j < |clients| && Matches(clients[j], origin)) ==> action.FocusClient?
    ensures url != "" && (forall j :: 0 <= j < |clients| ==> !Matches(clients[j], origin)) ==>
      action == (if canOpenWindow then OpenWindow(url) else CloseOnly)
  {
    if url == "" {
      return CloseOnly;
    }
    var i := 0;
    while i < |clients|
      invariant 0 <= i <= |clients|
      invariant forall j :: 0 <= j < i ==> !Matches(clients[j], origin)
    {
      if origin <= clients[i].url && clients[i].canFocus {
        return FocusClient(i);
      }
      i := i + 1;
    }
    if canOpenWindow {
      return OpenWindow(url);
    }
    return CloseOnly;
  }
}
