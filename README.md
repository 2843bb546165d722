# Club Blackout push notifications: a Dafny model

This project models the push-notification logic of the game "Club Blackout":

- **Game rules.** The backend rules turn a (before, after) pair of a game document into notifications. There are five of them: game start, day, night, rematch and new public bulletin. A separate rule watches a player's private document and fires when a role is assigned.
- **Dispatcher.** It resolves each target player id to a stored Web Push subscription and hands one payload per well-formed subscription to the transport.
- **Service worker.** It turns an incoming push message into the notification it shows, and decides which window a click brings forward.

Modules:

- `JsValues` (`js_values.dfy`) sets the JavaScript conventions:
  - A missing, null or empty string field is `""`, so `s || fallback` becomes `OrElse`.
  - A field whose absence the code treats specially is an `Option`.
  - `substring(0, n)` becomes `Prefix`.
- `GameNotifier` (`game_notifier.dfy`) holds the rules as pure functions:
  - `Normalize` applies the defaults of `onGameUpdated` (absent phase is `"lobby"`, absent flag is false, absent lists are empty).
  - `DetectGame` is the `notifications` array the handler builds.
  - `DetectRole` is the guard of `onPrivateStateUpdated`.
- `Dispatcher` (`dispatcher.dfy`) models `sendToSubscription` as a function. `sendToPlayers` is a method with the source's `for`/`continue` loop over the ids. It returns the transport calls it makes, in order, and is proved equal to the specification function `Dispatched`.
- `Triggers` (`triggers.dfy`) holds the two update handlers as methods. They dispatch what the rules detect, one notification after another.
- `PushHandler` (`push_handler.dfy`) covers the service worker:
  - The `push` listener is a method that overwrites the fields of its local record step by step.
  - The `notificationclick` listener is a loop with an early return.
- `EndToEnd` (`end_to_end.dfy`) shows that every message the backend sends is displayed by the worker with exactly its title and body.

Three behaviours of the code that the model keeps:

- A notification's target ids are a list in roster order. Duplicate ids are not removed. The day audience keeps players whose id is missing or empty; the other rules drop them.
- The rematch rule reads `!!rematchOffered`: an absent flag counts as false.
- Dispatch goes through the ids one at a time, in list order.

## Model

| member | source | states |
|---|---|---|
| `JsValues.OrElse` | functions/index.js:141 | computes `s` or, when `s` is falsy (the empty string in this model), the fallback; used for the bulletin title (`GameNotifier.Intent`), `GameNotifier.BulletinText`, `PushHandler.ShownFor` and the tag in `PushHandler.OnPush` |
| `JsValues.Prefix` | functions/index.js:142 | `substring(0, 100)` gives a prefix of the text whose length is the smaller of 100 and the text's length |
| `GameNotifier.NormalPhase` | functions/index.js:88-89 | the normalised phase is never empty; it is `"lobby"` exactly when the stored phase is absent, empty or `"lobby"`; otherwise it is the stored phase |
| `GameNotifier.Normalize` | functions/index.js:88-92 | applies the defaults before any rule runs: the `phase` default, `rematchOffered` is true only when stored as true, and an absent player list or bulletin board is empty |
| `GameNotifier.Alive` | functions/index.js:108 | computes `isAlive !== false`: a player whose flag is absent or true counts as alive |
| `GameNotifier.PlayerIds` | functions/index.js:93 | the non-empty ids of the roster, in roster order; never longer than the roster, and no id in it is empty |
| `GameNotifier.LivingIds` | functions/index.js:108 | the ids of the players whose `isAlive` is not false, in roster order, empty ids included; never longer than the roster |
| `GameNotifier.PublicEntries` | functions/index.js:135-136 | the board entries that are not host-only, in board order; never longer than the board, and none of them host-only |
| `GameNotifier.PlayerIdsMembers` | functions/index.js:93 | the audience of the start, night, rematch and bulletin rules contains an id iff it is non-empty and some roster player has it |
| `GameNotifier.LivingIdsMembers` | functions/index.js:108 | the day audience contains an id iff some roster player whose `isAlive` is not false has it; empty ids are kept |
| `GameNotifier.PublicEntriesMembers` | functions/index.js:135-136 | an entry is counted by the bulletin rule iff it is on the board and not host-only |
| `GameNotifier.PublicEntriesConcat` | functions/index.js:135-136 | the filter keeps board order and multiplicity: the public entries of a concatenated board are the concatenation of the public entries of its parts |
| `GameNotifier.PublicEntriesPost` | functions/index.js:135-137 | posting one entry appends it to the public entries iff it is not host-only, so the public count the bulletin rule compares grows by exactly one for a public post, duplicates included |
| `GameNotifier.BulletinText` | functions/index.js:142 | computes the entry's content, or its `floatContent` when the content is empty, or the empty string when both are |
| `GameNotifier.BulletinBody` | functions/index.js:142 | the bulletin body is never empty. If the content (or else `floatContent`) is non-empty, the body is a prefix of it of length min(length, 100). Otherwise it is `'New message in the game.'` |
| `GameNotifier.Fires` | functions/index.js:98-137 | computes the guard of each of the five `if` blocks on the normalised documents: a phase change into setup or night, into day, into night; the rematch flag going from false to true; the number of public entries strictly growing (and non-zero) |
| `GameNotifier.Intent` | functions/index.js:99-143 | the record a firing rule pushes: the day rule targets the living players' ids and every other rule the general audience; every rule but the bulletin one uses the app title; title and body are never empty |
| `GameNotifier.Emit` | functions/index.js:98-143 | computes what one guarded push block adds to the list: the rule's record when its guard holds, nothing otherwise |
| `GameNotifier.DetectGame` | functions/index.js:95-144 | at most five notifications, each with a non-empty title and body |
| `GameNotifier.RoleOf` | functions/index.js:161-162 | computes the role read at those lines: the stored role, or the empty string when it is absent |
| `GameNotifier.DetectRole` | functions/index.js:161-167 | a role notification exists iff the new role is non-empty, differs from the old one and is not `'unassigned'`; it targets exactly `[playerId]` with the fixed title and body |
| `GameNotifier.SamePhaseNoPhaseNotification` | functions/index.js:88-123 | when the normalised phase is unchanged (absent counts as lobby), no start, day or night notification is produced: the output is only what the rematch and bulletin rules add, at most two entries |
| `GameNotifier.EnteringNightNotifiesTwice` | functions/index.js:97-123 | entering night from another phase yields the start notification and then the night notification, both to the same ids; the day rule adds nothing, and only rematch and bulletin entries follow |
| `GameNotifier.EnteringDayTargetsLiving` | functions/index.js:106-114 | entering day yields one day notification, to the living players' ids, followed only by rematch and bulletin entries |
| `GameNotifier.LivingIdsEmptyIffAllDead` | functions/index.js:108 | the day audience is empty iff every player has `isAlive` false; an all-dead roster gives an empty target list |
| `GameNotifier.LivingIdsConcat` | functions/index.js:108 | the day audience keeps roster order: the audience of a concatenated roster is the concatenation of the audiences |
| `GameNotifier.PlayerIdsConcat` | functions/index.js:93 | the id list keeps roster order in the same sense |
| `GameNotifier.AudiencesAgreeWhenAllAliveWithIds` | functions/index.js:93-108 | on a roster where every player is alive and has an id, the day audience equals the general audience, which lists every player's id in roster order |
| `GameNotifier.RematchFiresIff` | functions/index.js:90-131 | the rematch notification fires iff the stored flag was not true before and is true after; it goes to the general audience |
| `GameNotifier.LastPublicEntry` | functions/index.js:136-138 | the entry the bulletin rule announces is on the board, is not host-only, and every entry after it is host-only |
| `GameNotifier.BulletinFiresIff` | functions/index.js:134-143 | the bulletin notification fires iff the count of public entries strictly grows. It then goes to the general audience with the entry's title (or `'Club Blackout'`). Its body is a prefix of at most 100 characters of content-or-`floatContent`, is exactly 100 characters long when that text has at least 100, and is the default text when that text is empty; in every case it equals `BulletinBody` of that entry |
| `GameNotifier.DetectGameOrder` | functions/index.js:95-144 | the output holds the notification of each firing rule, position by position. At most five rules fire, and they appear in strictly increasing rank (start, day, night, rematch, bulletin), so each rule contributes at most once |
| `GameNotifier.UnchangedGameNotifiesNobody` | functions/index.js:88-144 | an update that leaves the document unchanged produces no notification |
| `GameNotifier.LobbyToNightExample` | functions/index.js:88-123 | an absent phase (read as lobby) to night with players p1 and p2 yields exactly two notifications, start then night, each to `["p1", "p2"]` |
| `Dispatcher.SendToSubscription` | functions/index.js:30-59 | a transport call is made iff the document has an endpoint and both keys and the VAPID keys are configured. The call carries that endpoint, those keys, the payload and a TTL of 3600 |
| `Dispatcher.HasVapidKeys` | functions/index.js:17-26 | computes whether `getVapidKeys()` returns a pair: both the private and the public key are non-empty |
| `Dispatcher.WellFormed` | functions/index.js:33 | computes the guard of `sendToSubscription`: the document has a non-empty endpoint, a `keys` object, and non-empty `p256dh` and `auth` |
| `Dispatcher.SendsForId` | functions/index.js:70-73 | computes one iteration of the loop: nothing when the id has no document, otherwise the call `sendToSubscription` makes for it, if any |
| `Dispatcher.SendsFor` | functions/index.js:69-74 | the sends of the loop over the ids, one iteration after another in list order; at most one send per list entry, each carrying the given payload and TTL |
| `Dispatcher.Dispatched` | functions/index.js:64-75 | an empty id list or missing VAPID keys send nothing; at most one send per list entry (a duplicated id is served once per entry); every send carries the given payload and TTL |
| `Dispatcher.SendToPlayers` | functions/index.js:64-75 | the loop's sends are exactly `Dispatched` of its arguments |
| `Dispatcher.DispatchedConcat` | functions/index.js:69-74 | ids are served in list order: dispatching to `xs + ys` sends what `xs` sends, then what `ys` sends |
| `Dispatcher.DispatchedSkipsUnreachable` | functions/index.js:69-73 | an id with no document, or with a document lacking the endpoint, `p256dh` or `auth`, can be removed from the list without changing any send |
| `Dispatcher.DispatchedExactly` | functions/index.js:33-74 | a send is made iff keys are configured and it is the send for some listed id whose document exists and is well formed |
| `Triggers.DispatchAllPayloads` | functions/index.js:146-148 | every send of a handler carries the `{title, body}` of one of the detected notifications |
| `Triggers.PayloadOf` | functions/index.js:147 | computes the `{title, body}` payload a notification is dispatched with |
| `Triggers.DispatchAll` | functions/index.js:146-148 | computes the sends of the dispatch loop: `Dispatched` of each notification's ids and `{title, body}`, concatenated in list order |
| `Triggers.OnGameUpdated` | functions/index.js:88-148 | the handler's sends are the dispatch of each detected notification, in detection order |
| `Triggers.DispatchNotifications` | functions/index.js:146-148 | the loop over the notifications sends, for each in turn, exactly what `sendToPlayers` sends for its ids and `{title, body}` |
| `Triggers.OnPrivateStateUpdated` | functions/index.js:154-169 | the handler sends nothing unless a role notification is detected, and then dispatches it to `[playerId]`; at most one send |
| `Triggers.NoKeysNoSends` | functions/index.js:64-67 | without VAPID keys, dispatching any list of notifications sends nothing |
| `Triggers.UnchangedGameSendsNothing` | functions/index.js:88-148 | an update that changes nothing sends nothing |
| `Triggers.EnteringNightSendsStartThenNight` | functions/index.js:97-148 | entering night first sends the start payload to the general audience, then the night payload to the same audience, then whatever the rematch and bulletin rules add |
| `Triggers.RoleAssignmentReachesOnlyThatPlayer` | functions/index.js:161-168 | once a role is detected, the handler's dispatch of it sends exactly one message iff keys are configured and the player's subscription is well formed; that message goes to the player's own endpoint with the role title and body |
| `PushHandler.ShownFor` | apps/player/web/push_handler.js:5-24 | with no data or an unreadable payload, the notification shows `'Club Blackout'`, `'Something happened in the game.'` and tag `'cb-push'`. Otherwise each of title, body and tag comes from the payload when non-empty and from the default when empty. The click URL is always the origin followed by `/` |
| `PushHandler.OnPush` | apps/player/web/push_handler.js:5-24 | the step-by-step overwrite of the local record shows exactly `ShownFor` of the event |
| `PushHandler.Matches` | apps/player/web/push_handler.js:33 | computes the client test of the click listener: the client's URL starts with the origin and the client supports focus |
| `PushHandler.OnNotificationClick` | apps/player/web/push_handler.js:26-42 | with no URL the click only closes the notification. A focused client is the first in list order whose URL starts with the origin and which supports focus, and one is focused whenever such a client exists. With no such client, a window opens at the URL iff `openWindow` exists |
| `EndToEnd.Received` | functions/index.js:50 | computes the push data a device receives for a payload: the worker's `event.data.json()` (apps/player/web/push_handler.js, line 9) gives back the serialised title and body, with no tag |
| `EndToEnd.GameMessagesShownVerbatim` | apps/player/web/push_handler.js:6-21 | every message `onGameUpdated` sends is shown with exactly its title and body, the default tag, and a click URL at the worker's origin |
| `EndToEnd.RoleMessageShownVerbatim` | functions/index.js:165-168 | the role message is shown with its own title and body, not the worker's defaults |

## Left out

- Firestore is not modelled: trigger registration, `admin.initializeApp` and the document reads. The before/after documents are parameters. The subscription collection of a game is a `map` from player id to document.
- How Firestore reacts to an empty or missing id is not modelled. Such an id can reach the lookup through the day audience. The model looks it up in the map like any other key.
- The Web Push transport is not modelled: `setVapidDetails`, encryption and the HTTP request. Each transport call is recorded as a `Send`. Transport failures, including the 404/410 branch, have no effect on the sends, because the source swallows them.
- Configuration reads and `console.warn` logging are left out. The VAPID key pair is a parameter.
- JSON serialisation of the payload is left out. The worker receives the payload's title and body as parsed string fields (`EndToEnd.Received`).
- JavaScript truthiness is modelled for strings only. A non-string truthy JSON value (a number, say) in the worker's payload is not modelled.
- `substring` counts UTF-16 code units; the model counts Dafny characters.
- async/await sequencing is modelled as sequential, in-order execution.
- The worker's platform calls are returned as values: `showNotification` as `Shown`, `focus`/`openWindow` as `ClickAction`. The calls `matchAll` and `waitUntil`, and the `close()` that every click performs, are not modelled.
- The build scripts are not modelled: splicing the worker into the web bundle, the persistence source rewrite and the guide-screen script. They only read and write files.
