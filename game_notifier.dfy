/** The transition rules of `onGameUpdated` and `onPrivateStateUpdated`
    (functions/index.js): given the game document before and after an update,
    the notifications to send, in the order the handler pushes them. */
module GameNotifier {
  import opened JsValues

  const AppTitle := "Club Blackout"
  const StartBody := "The game is starting! Open the app to see your role."
  const DayBody := "Day phase — time to discuss and vote."
  const NightBody := "Night phase — check the app for your action."
  const RematchBody := "Rematch! The host started a new game. Open the app to rejoin."
  const DefaultBulletinBody := "New message in the game."
  const RoleBody := "Your role is ready. Open the app to confirm and see your character."
  const Unassigned := "unassigned"
  /** The bulletin body keeps at most this many characters of the entry's text. */
  const BulletinBodyLimit := 100

  /** A roster entry; a missing or falsy id is "". */
  datatype Player = Player(id: string, isAlive: Option<bool>)

  /** A bulletin board entry; missing strings are "", a missing isHostOnly is false. */
  datatype BulletinEntry = BulletinEntry(title: string, content: string, floatContent: string, isHostOnly: bool)

  /** The game document as stored: each field the handler defaults may be absent. */
  datatype GameDoc = GameDoc(
    phase: Option<string>,
    rematchOffered: Option<bool>,
    players: Option<seq<Player>>,
    bulletinBoard: Option<seq<BulletinEntry>>)

  /** The game document after the handler's defaults are applied. */
  datatype GameView = GameView(
    phase: string,
    rematchOffered: bool,
    players: seq<Player>,
    bulletinBoard: seq<BulletinEntry>)

  /** The `{playerIds, title, body}` record the handler pushes. */
  datatype Notification = Notification(playerIds: seq<string>, title: string, body: string)

  /** The per-player private document; a missing roleId is None. */
  datatype PrivateDoc = PrivateDoc(roleId: Option<string>)

  /** The five rules of `onGameUpdated`, named in the order they are evaluated. */
  datatype Rule = GameStart | DayPhase | NightPhase | Rematch | NewBulletin

  // ---------------------------------------------------------------------------
  // Normalisation of absent fields

  /** `phase || 'lobby'` */
  function NormalPhase(p: Option<string>): (r: string)
    ensures r != ""
    ensures r == "lobby" <==> p == None || p == Some("") || p == Some("lobby")
    ensures r != "lobby" ==> p == Some(r)
  {
    match p
    case None => "lobby"
    case Some(s) => if s == "" then "lobby" else s
  }

  function Normalize(d: GameDoc): (v: GameView)
    ensures v.phase == NormalPhase(d.phase)
    ensures v.rematchOffered <==> d.rematchOffered == Some(true)
    ensures d.players.Some? ==> v.players == d.players.value
    ensures d.players.None? ==> v.players == []
    ensures d.bulletinBoard.Some? ==> v.bulletinBoard == d.bulletinBoard.value
    ensures d.bulletinBoard.None? ==> v.bulletinBoard == []
  {
    GameView(
      NormalPhase(d.phase),
      d.rematchOffered == Some(true),
      match d.players case None => [] case Some(ps) => ps,
      match d.bulletinBoard case None => [] case Some(bs) => bs)
  }

  // ---------------------------------------------------------------------------
  // Audiences

  /** `players.map((p) => p.id).filter(Boolean)`: the non-empty ids, in roster order. */
  function PlayerIds(ps: seq<Player>): (ids: seq<string>)
    ensures |ids| <= |ps|
    ensures forall x :: x in ids ==> x != ""
  {
    if ps == [] then []
    else (if ps[0].id != "" then [ps[0].id] else []) + PlayerIds(ps[1..])
  }

  /** `p.isAlive !== false`: a player whose isAlive is absent counts as alive. */
  predicate Alive(p: Player) {
    p.isAlive != Some(false)
  }

  /** `players.filter((p) => p.isAlive !== false).map((p) => p.id)`: falsy ids are kept. */
  function LivingIds(ps: seq<Player>): (ids: seq<string>)
    ensures |ids| <= |ps|
  {
    if ps == [] then []
    else (if Alive(ps[0]) then [ps[0].id] else []) + LivingIds(ps[1..])
  }

  /** `(bulletinBoard).filter((b) => !b.isHostOnly)` */
  function PublicEntries(bs: seq<BulletinEntry>): (r: seq<BulletinEntry>)
    ensures |r| <= |bs|
    ensures forall e :: e in r ==> !e.isHostOnly
  {
    if bs == [] then []
    else (if !bs[0].isHostOnly then [bs[0]] else []) + PublicEntries(bs[1..])
  }

  /** `last.content || last.floatContent || ''` */
  function BulletinText(e: BulletinEntry): string {
    OrElse(e.content, e.floatContent)
  }

  /** `(text).substring(0, 100) || 'New message in the game.'` */
  function BulletinBody(e: BulletinEntry): (body: string)
    ensures body != ""
    ensures BulletinText(e) == "" ==> body == DefaultBulletinBody
    ensures BulletinText(e) != "" ==>
      body <= BulletinText(e) && |body| == Min(|BulletinText(e)|, BulletinBodyLimit)
  {
    var cut := Prefix(BulletinText(e), BulletinBodyLimit);
    if cut != "" then cut else DefaultBulletinBody
  }

  /** The general audience holds exactly the non-empty ids of the roster. */
  lemma {:induction false} PlayerIdsMembers(ps: seq<Player>, x: string)
    ensures x in PlayerIds(ps) <==> x != "" && exists p :: p in ps && p.id == x
  {
    if ps != [] {
      PlayerIdsMembers(ps[1..], x);
      assert forall p :: p in ps <==> p == ps[0] || p in ps[1..];
    }
  }

  /** The day audience holds exactly the ids of the players that are alive. */
  lemma {:induction false} LivingIdsMembers(ps: seq<Player>, x: string)
    ensures x in LivingIds(ps) <==> exists p :: p in ps && Alive(p) && p.id == x
  {
    if ps != [] {
      LivingIdsMembers(ps[1..], x);
      assert forall p :: p in ps <==> p == ps[0] || p in ps[1..];
    }
  }

  /** The public entries are exactly the entries that are not host-only. */
  lemma {:induction false} PublicEntriesMembers(bs: seq<BulletinEntry>, e: BulletinEntry)
    ensures e in PublicEntries(bs) <==> e in bs && !e.isHostOnly
  {
    if bs != [] {
      PublicEntriesMembers(bs[1..], e);
      assert e in bs <==> e == bs[0] || e in bs[1..];
    }
  }

  // ---------------------------------------------------------------------------
  // The rules of onGameUpdated

  predicate Fires(rule: Rule, b: GameView, a: GameView) {
    match rule
    case GameStart => b.phase != a.phase && (a.phase == "setup" || a.phase == "night")
    case DayPhase => b.phase != a.phase && a.phase == "day"
    case NightPhase => b.phase != a.phase && a.phase == "night"
    case Rematch => !b.rematchOffered && a.rematchOffered
    case NewBulletin =>
      |PublicEntries(a.bulletinBoard)| > |PublicEntries(b.bulletinBoard)|
      && |PublicEntries(a.bulletinBoard)| > 0
  }

  /** The record a rule pushes when it fires. */
  function Intent(rule: Rule, b: GameView, a: GameView): (n: Notification)
    requires Fires(rule, b, a)
    ensures rule == DayPhase ==> n.playerIds == LivingIds(a.players)
    ensures rule != DayPhase ==> n.playerIds == PlayerIds(a.players)
    ensures rule != NewBulletin ==> n.title == AppTitle
    ensures n.title != "" && n.body != ""
  {
    match rule
    case GameStart => Notification(PlayerIds(a.players), AppTitle, StartBody)
    case DayPhase => Notification(LivingIds(a.players), AppTitle, DayBody)
    case NightPhase => Notification(PlayerIds(a.players), AppTitle, NightBody)
    case Rematch => Notification(PlayerIds(a.players), AppTitle, RematchBody)
    case NewBulletin =>
      var pub := PublicEntries(a.bulletinBoard);
      var last := pub[|pub| - 1];
      Notification(PlayerIds(a.players), OrElse(last.title, AppTitle), BulletinBody(last))
  }

  /** What one `if (...) notifications.push(...)` block contributes. */
  function Emit(rule: Rule, b: GameView, a: GameView): seq<Notification> {
    if Fires(rule, b, a) then [Intent(rule, b, a)] else []
  }

  /** The `notifications` array `onGameUpdated` builds before dispatching it. */
  function DetectGame(before: GameDoc, after: GameDoc): (r: seq<Notification>)
    ensures |r| <= 5
    ensures forall n :: n in r ==> n.title != "" && n.body != ""
  {
    var b, a := Normalize(before), Normalize(after);
    Emit(GameStart, b, a) + Emit(DayPhase, b, a) + Emit(NightPhase, b, a)
      + Emit(Rematch, b, a) + Emit(NewBulletin, b, a)
  }

  // ---------------------------------------------------------------------------
  // The rule of onPrivateStateUpdated

  /** `roleId || ''` */
  function RoleOf(d: PrivateDoc): string {
    match d.roleId
    case None => ""
    case Some(s) => s
  }

  /** The notification `onPrivateStateUpdated` sends for player `playerId`, if any. */
  function DetectRole(playerId: string, before: PrivateDoc, after: PrivateDoc): (r: Option<Notification>)
    ensures r.Some? <==>
      RoleOf(after) != "" && RoleOf(after) != RoleOf(before) && RoleOf(after) != Unassigned
    ensures r.Some? ==> r.value.playerIds == [playerId] && r.value.title == AppTitle && r.value.body == RoleBody
  {
    var roleBefore, roleAfter := RoleOf(before), RoleOf(after);
    if roleBefore == roleAfter || roleAfter == "" || roleAfter == Unassigned then None
    else Some(Notification([playerId], AppTitle, RoleBody))
  }

  // ---------------------------------------------------------------------------
  // Properties of the phase rules

  /** An unchanged phase (an absent phase reading as "lobby") yields no start, day
      or night notification: only the rematch and bulletin rules can fire. */
  lemma SamePhaseNoPhaseNotification(before: GameDoc, after: GameDoc)
    requires NormalPhase(before.phase) == NormalPhase(after.phase)
    ensures DetectGame(before, after)
      == Emit(Rematch, Normalize(before), Normalize(after)) + Emit(NewBulletin, Normalize(before), Normalize(after))
    ensures |DetectGame(before, after)| <= 2
  {
    var b, a := Normalize(before), Normalize(after);
    assert Emit(GameStart, b, a) == [] && Emit(DayPhase, b, a) == [] && Emit(NightPhase, b, a) == [];
  }

  /** Entering night from any other phase yields the start notification and then the
      night notification, both addressed to the same ids; the day rule stays silent
      and only the rematch and bulletin rules can add to them. */
  lemma EnteringNightNotifiesTwice(before: GameDoc, after: GameDoc)
    requires NormalPhase(before.phase) != "night" && NormalPhase(after.phase) == "night"
    ensures var b, a := Normalize(before), Normalize(after);
      var ids := PlayerIds(a.players);
      DetectGame(before, after)
        == [Notification(ids, AppTitle, StartBody), Notification(ids, AppTitle, NightBody)]
           + Emit(Rematch, b, a) + Emit(NewBulletin, b, a)
  {
    var b, a := Normalize(before), Normalize(after);
    assert Emit(DayPhase, b, a) == [];
  }

  /** The day notification goes to exactly the players whose isAlive is not false,
      falsy ids included. */
  lemma EnteringDayTargetsLiving(before: GameDoc, after: GameDoc)
    requires NormalPhase(before.phase) != "day" && NormalPhase(after.phase) == "day"
    ensures DetectGame(before, after)
      == [Notification(LivingIds(Normalize(after).players), AppTitle, DayBody)]
         + Emit(Rematch, Normalize(before), Normalize(after))
         + Emit(NewBulletin, Normalize(before), Normalize(after))
  {
    var b, a := Normalize(before), Normalize(after);
    assert Emit(GameStart, b, a) == [] && Emit(NightPhase, b, a) == [];
  }

  /** The day audience is empty exactly when no player is alive. */
  lemma {:induction false} LivingIdsEmptyIffAllDead(ps: seq<Player>)
    ensures LivingIds(ps) == [] <==> forall p :: p in ps ==> !Alive(p)
  {
    if ps != [] {
      LivingIdsEmptyIffAllDead(ps[1..]);
      assert forall p :: p in ps <==> p == ps[0] || p in ps[1..];
    }
  }

  /** The day audience keeps roster order: it distributes over a split of the roster. */
  lemma {:induction false} LivingIdsConcat(xs: seq<Player>, ys: seq<Player>)
    ensures LivingIds(xs + ys) == LivingIds(xs) + LivingIds(ys)
  {
    if xs == [] {
      assert xs + ys == ys;
    } else {
      var head: seq<string> := if Alive(xs[0]) then [xs[0].id] else [];
      assert (xs + ys)[0] == xs[0] && (xs + ys)[1..] == xs[1..] + ys;
      assert LivingIds(xs + ys) == head + LivingIds(xs[1..] + ys);
      assert LivingIds(xs) == head + LivingIds(xs[1..]);
      LivingIdsConcat(xs[1..], ys);
    }
  }

  /** The other audiences keep roster order too. */
  lemma {:induction false} PlayerIdsConcat(xs: seq<Player>, ys: seq<Player>)
    ensures PlayerIds(xs + ys) == PlayerIds(xs) + PlayerIds(ys)
  {
    if xs == [] {
      assert xs + ys == ys;
    } else {
      var head: seq<string> := if xs[0].id != "" then [xs[0].id] else [];
      assert (xs + ys)[0] == xs[0] && (xs + ys)[1..] == xs[1..] + ys;
      assert PlayerIds(xs + ys) == head + PlayerIds(xs[1..] + ys);
      assert PlayerIds(xs) == head + PlayerIds(xs[1..]);
      PlayerIdsConcat(xs[1..], ys);
    }
  }

  /** The public entries keep board order and multiplicity: filtering a concatenated
      board concatenates the filtered parts. */
  lemma {:induction false} PublicEntriesConcat(xs: seq<BulletinEntry>, ys: seq<BulletinEntry>)
    ensures PublicEntries(xs + ys) == PublicEntries(xs) + PublicEntries(ys)
  {
    if xs == [] {
      assert xs + ys == ys;
    } else {
      var head: seq<BulletinEntry> := if !xs[0].isHostOnly then [xs[0]] else [];
      assert (xs + ys)[0] == xs[0] && (xs + ys)[1..] == xs[1..] + ys;
      assert PublicEntries(xs + ys) == head + PublicEntries(xs[1..] + ys);
      assert PublicEntries(xs) == head + PublicEntries(xs[1..]);
      PublicEntriesConcat(xs[1..], ys);
    }
  }

  /** Posting one entry grows the public count by one exactly when the entry is not
      host-only, even when an equal entry is already on the board. */
  lemma PublicEntriesPost(bs: seq<BulletinEntry>, e: BulletinEntry)
    ensures PublicEntries(bs + [e]) == PublicEntries(bs) + (if e.isHostOnly then [] else [e])
    ensures |PublicEntries(bs + [e])| == |PublicEntries(bs)| + (if e.isHostOnly then 0 else 1)
  {
    PublicEntriesConcat(bs, [e]);
    assert [e][1..] == [];
  }

  /** On a roster where everyone is alive and has an id, the day audience and the
      audience of the other rules coincide, position by position. */
  lemma {:induction false} AudiencesAgreeWhenAllAliveWithIds(ps: seq<Player>)
    requires forall p :: p in ps ==> Alive(p) && p.id != ""
    ensures LivingIds(ps) == PlayerIds(ps)
    ensures |PlayerIds(ps)| == |ps| && forall i :: 0 <= i < |ps| ==> PlayerIds(ps)[i] == ps[i].id
  {
    if ps != [] {
      assert ps[0] in ps;
      assert forall p :: p in ps[1..] ==> p in ps;
      AudiencesAgreeWhenAllAliveWithIds(ps[1..]);
    }
  }

  // ---------------------------------------------------------------------------
  // Properties of the rematch and bulletin rules

  /** The rematch notification fires iff the stored flag goes from not-true to true. */
  lemma RematchFiresIff(before: GameDoc, after: GameDoc)
    ensures Emit(Rematch, Normalize(before), Normalize(after)) != []
      <==> before.rematchOffered != Some(true) && after.rematchOffered == Some(true)
    ensures Emit(Rematch, Normalize(before), Normalize(after)) != [] ==>
      Emit(Rematch, Normalize(before), Normalize(after))
        == [Notification(PlayerIds(Normalize(after).players), AppTitle, RematchBody)]
  {
  }

  /** The last public entry is the last entry of the board that is not host-only. */
  lemma {:induction false} LastPublicEntry(bs: seq<BulletinEntry>)
    requires |PublicEntries(bs)| > 0
    ensures var pub := PublicEntries(bs);
      exists k :: 0 <= k < |bs| && bs[k] == pub[|pub| - 1] && !bs[k].isHostOnly
        && forall j :: k < j < |bs| ==> bs[j].isHostOnly
  {
    var pub := PublicEntries(bs);
    var rest := PublicEntries(bs[1..]);
    if |rest| > 0 {
      LastPublicEntry(bs[1..]);
      var k :| 0 <= k < |bs[1..]| && bs[1..][k] == rest[|rest| - 1] && !bs[1..][k].isHostOnly
        && forall j :: k < j < |bs[1..]| ==> bs[1..][j].isHostOnly;
      assert pub[|pub| - 1] == rest[|rest| - 1];
      assert bs[k + 1] == pub[|pub| - 1];
      forall j | k + 1 < j < |bs| ensures bs[j].isHostOnly {
        assert bs[j] == bs[1..][j - 1];
      }
    } else {
      assert pub == [bs[0]];
      forall j | 0 < j < |bs| ensures bs[j].isHostOnly {
        assert bs[j] in bs[1..];
        PublicEntriesMembers(bs[1..], bs[j]);
      }
    }
  }

  /** The bulletin rule fires iff the number of public entries strictly grows, and
      then announces the last public entry: its title or the app title, and a body
      that is a prefix of at most 100 characters of its content (falling back to
      floatContent), or the default text when both are empty. */
  lemma BulletinFiresIff(before: GameDoc, after: GameDoc)
    ensures var b, a := Normalize(before), Normalize(after);
      var pb, pa := PublicEntries(b.bulletinBoard), PublicEntries(a.bulletinBoard);
      (Emit(NewBulletin, b, a) != [] <==> |pa| > |pb|)
      && (|pa| > |pb| ==>
        var last := pa[|pa| - 1];
        var n := Emit(NewBulletin, b, a)[0];
        n.playerIds == PlayerIds(a.players)
        && n.title == (if last.title != "" then last.title else AppTitle)
        && (BulletinText(last) == "" ==> n.body == DefaultBulletinBody)
        && (BulletinText(last) != "" ==> n.body <= BulletinText(last) && 0 < |n.body| <= BulletinBodyLimit)
        && (|BulletinText(last)| >= BulletinBodyLimit ==> |n.body| == BulletinBodyLimit)
        && n.body == BulletinBody(last))
  {
    var b, a := Normalize(before), Normalize(after);
    var pb, pa := PublicEntries(b.bulletinBoard), PublicEntries(a.bulletinBoard);
    if |pa| > |pb| {
      var last := pa[|pa| - 1];
      assert Fires(NewBulletin, b, a);
      assert Emit(NewBulletin, b, a)[0]
        == Notification(PlayerIds(a.players), OrElse(last.title, AppTitle), BulletinBody(last));
    } else {
      assert !Fires(NewBulletin, b, a);
    }
  }

  // ---------------------------------------------------------------------------
  // Output order and size

  function Rank(rule: Rule): nat {
    match rule
    case GameStart => 0
    case DayPhase => 1
    case NightPhase => 2
    case Rematch => 3
    case NewBulletin => 4
  }

  /** `[rule]` when the rule fires, `[]` otherwise. */
  function Pick(rule: Rule, b: GameView, a: GameView): seq<Rule> {
    if Fires(rule, b, a) then [rule] else []
  }

  /** The rules that fire, in the order the handler evaluates them. */
  function FiredRules(b: GameView, a: GameView): seq<Rule> {
    Pick(GameStart, b, a) + Pick(DayPhase, b, a) + Pick(NightPhase, b, a)
      + Pick(Rematch, b, a) + Pick(NewBulletin, b, a)
  }

  /** `rs` lists rules in strictly increasing rank. */
  predicate InRankOrder(rs: seq<Rule>) {
    forall i, j :: 0 <= i < j < |rs| ==> Rank(rs[i]) < Rank(rs[j])
  }

  /** `ns` is the notification of each rule of `rs`, position by position. */
  predicate IntentsOf(ns: seq<Notification>, rs: seq<Rule>, b: GameView, a: GameView) {
    |ns| == |rs| && forall i :: 0 <= i < |rs| ==> Fires(rs[i], b, a) && ns[i] == Intent(rs[i], b, a)
  }

  lemma IntentsOfConcat(n1: seq<Notification>, r1: seq<Rule>, n2: seq<Notification>, r2: seq<Rule>,
                        b: GameView, a: GameView)
    requires IntentsOf(n1, r1, b, a) && IntentsOf(n2, r2, b, a)
    ensures IntentsOf(n1 + n2, r1 + r2, b, a)
  {
    forall i | 0 <= i < |r1 + r2| ensures Fires((r1 + r2)[i], b, a) && (n1 + n2)[i] == Intent((r1 + r2)[i], b, a) {
      if i >= |r1| {
        assert (r1 + r2)[i] == r2[i - |r1|] && (n1 + n2)[i] == n2[i - |n1|];
      }
    }
  }

  /** Appending a rule that outranks every listed rule keeps the list in rank order. */
  lemma RankOrderAppend(rs: seq<Rule>, rule: Rule, b: GameView, a: GameView)
    requires InRankOrder(rs) && forall i :: 0 <= i < |rs| ==> Rank(rs[i]) < Rank(rule)
    ensures InRankOrder(rs + Pick(rule, b, a))
    ensures forall i :: 0 <= i < |rs + Pick(rule, b, a)| ==> Rank((rs + Pick(rule, b, a))[i]) <= Rank(rule)
  {
    var ext := rs + Pick(rule, b, a);
    forall i, j | 0 <= i < j < |ext| ensures Rank(ext[i]) < Rank(ext[j]) {
      if j >= |rs| {
        assert ext[j] == rule && ext[i] == rs[i];
      }
    }
    forall i | 0 <= i < |ext| ensures Rank(ext[i]) <= Rank(rule) {
      if i >= |rs| {
        assert ext[i] == rule;
      }
    }
  }

  /** The output lists one notification per firing rule, at most five, and the rules
      appear in strictly increasing rank: start, day, night, rematch, bulletin, each
      at most once. */
  lemma DetectGameOrder(before: GameDoc, after: GameDoc)
    ensures |FiredRules(Normalize(before), Normalize(after))| <= 5
    ensures InRankOrder(FiredRules(Normalize(before), Normalize(after)))
    ensures IntentsOf(DetectGame(before, after), FiredRules(Normalize(before), Normalize(after)),
                      Normalize(before), Normalize(after))
  {
    var b, a := Normalize(before), Normalize(after);
    FiredRulesInRankOrder(b, a);
    DetectGameIntents(before, after);
  }

  lemma FiredRulesInRankOrder(b: GameView, a: GameView)
    ensures |FiredRules(b, a)| <= 5
    ensures InRankOrder(FiredRules(b, a))
  {
    var p0, p1, p2, p3 := Pick(GameStart, b, a), Pick(DayPhase, b, a), Pick(NightPhase, b, a), Pick(Rematch, b, a);
    RankOrderAppend([], GameStart, b, a);
    assert [] + p0 == p0;
    RankOrderAppend(p0, DayPhase, b, a);
    RankOrderAppend(p0 + p1, NightPhase, b, a);
    RankOrderAppend(p0 + p1 + p2, Rematch, b, a);
    RankOrderAppend(p0 + p1 + p2 + p3, NewBulletin, b, a);
  }

  lemma DetectGameIntents(before: GameDoc, after: GameDoc)
    ensures IntentsOf(DetectGame(before, after), FiredRules(Normalize(before), Normalize(after)),
                      Normalize(before), Normalize(after))
  {
    var b, a := Normalize(before), Normalize(after);
    var p0, p1, p2, p3, p4 := Pick(GameStart, b, a), Pick(DayPhase, b, a), Pick(NightPhase, b, a),
      Pick(Rematch, b, a), Pick(NewBulletin, b, a);
    var e0, e1, e2, e3, e4 := Emit(GameStart, b, a), Emit(DayPhase, b, a), Emit(NightPhase, b, a),
      Emit(Rematch, b, a), Emit(NewBulletin, b, a);
    assert IntentsOf(e0, p0, b, a) && IntentsOf(e1, p1, b, a) && IntentsOf(e2, p2, b, a);
    assert IntentsOf(e3, p3, b, a) && IntentsOf(e4, p4, b, a);
    IntentsOfConcat(e0, p0, e1, p1, b, a);
    IntentsOfConcat(e0 + e1, p0 + p1, e2, p2, b, a);
    IntentsOfConcat(e0 + e1 + e2, p0 + p1 + p2, e3, p3, b, a);
    IntentsOfConcat(e0 + e1 + e2 + e3, p0 + p1 + p2 + p3, e4, p4, b, a);
  }

  /** An update that changes nothing notifies nobody. */
  lemma UnchangedGameNotifiesNobody(d: GameDoc)
    ensures DetectGame(d, d) == []
  {
  }

  /** An absent phase (read as lobby) to night with two players yields two
      notifications, each to both players. */
  lemma LobbyToNightExample()
    ensures var p1, p2 := Player("p1", None), Player("p2", None);
      DetectGame(GameDoc(None, None, None, None), GameDoc(Some("night"), None, Some([p1, p2]), None))
      == [Notification(["p1", "p2"], AppTitle, StartBody), Notification(["p1", "p2"], AppTitle, NightBody)]
  {
    var p1, p2 := Player("p1", None), Player("p2", None);
    assert [p1, p2][1..] == [p2];
    assert PlayerIds([p1, p2]) == ["p1", "p2"];
  }
}
