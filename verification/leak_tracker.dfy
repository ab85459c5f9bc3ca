/**
 * The state the polling bot keeps between messages (`TelegramLeakBot` in bot.py): the
 * per-user leak history, bounded to the 50 most recent entries, the per-user
 * `user_info` records with their message counters, and the NORMAL/ULTRA mode switch.
 */
module LeakTracker {
  import opened Common
  import opened Text
  import opened LeakClassifier

  /** Number of leaks kept per user. */
  const LeakHistoryLimit: nat := 50

  // ---------------------------------------------------------------------
  // Bounded leak history
  // ---------------------------------------------------------------------

  /** Python's `s[-n:]` for `n > 0`: the last `n` elements, or all of `s` when shorter. */
  function Latest<T>(s: seq<T>, n: nat): seq<T> {
    if |s| <= n then s else s[|s| - n..]
  }

  /** `history.append(leak)` followed by `history = history[-50:]` when it grew past 50. */
  function Recorded<T>(history: seq<T>, leak: T): (r: seq<T>)
    ensures |r| == Min(|history| + 1, LeakHistoryLimit)
    ensures r[|r| - 1] == leak
    ensures r[..|r| - 1] == history[|history| - (|r| - 1)..]
  {
    var appended := history + [leak];
    if |appended| > LeakHistoryLimit then
      assert appended[|appended| - LeakHistoryLimit..][..LeakHistoryLimit - 1] == history[|history| - (LeakHistoryLimit - 1)..];
      appended[|appended| - LeakHistoryLimit..]
    else
      assert appended[..|appended| - 1] == history;
      appended
  }

  /** The history left by recording `leaks` one after another, starting empty. */
  function RecordAll<T>(leaks: seq<T>): seq<T> {
    if leaks == [] then [] else Recorded(RecordAll(leaks[..|leaks| - 1]), leaks[|leaks| - 1])
  }

  /** However many leaks are recorded, the history holds exactly the 50 most recent
      of them, oldest first. */
  lemma {:induction false} RecordAllKeepsLatest<T>(leaks: seq<T>)
    ensures RecordAll(leaks) == Latest(leaks, LeakHistoryLimit)
  {
    if leaks != [] {
      var earlier, leak := leaks[..|leaks| - 1], leaks[|leaks| - 1];
      RecordAllKeepsLatest(earlier);
      assert leaks == earlier + [leak];
      LatestAfterRecord(earlier, leak);
    }
  }

  /** Recording one more leak into the latest 50 gives the latest 50 of the longer list. */
  lemma LatestAfterRecord<T>(earlier: seq<T>, leak: T)
    ensures Recorded(Latest(earlier, LeakHistoryLimit), leak) == Latest(earlier + [leak], LeakHistoryLimit)
  {
    var r := Recorded(Latest(earlier, LeakHistoryLimit), leak);
    var want := Latest(earlier + [leak], LeakHistoryLimit);
    assert |r| == |want|;
    forall i | 0 <= i < |r| ensures r[i] == want[i] {
      if i < |r| - 1 {
        assert r[i] == r[..|r| - 1][i];
      }
    }
  }

  /** `leaks_by_user[u]` of a `defaultdict(list)`: a user without leaks has an empty history. */
  function History(leaksByUser: map<int, seq<LeakInfo>>, u: int): seq<LeakInfo> {
    if u in leaksByUser then leaksByUser[u] else []
  }

  // ---------------------------------------------------------------------
  // User records
  // ---------------------------------------------------------------------

  /** One entry of `user_info`. */
  datatype UserInfo = UserInfo(
    username: string, firstName: string, lastName: string,
    lastSeen: string, firstSeen: string, messageCount: nat)

  /** The record created the first time a user is seen: `username or f"id{user_id}"`,
      empty names for absent ones, both timestamps `now`, and a count of 0. */
  function FirstSighting(u: User, now: string): (info: UserInfo)
    ensures info.messageCount == 0 && info.firstSeen == now && info.lastSeen == now
    ensures info.username != ""
    ensures u.username.Some? && u.username.value != "" ==> info.username == u.username.value
    ensures info.firstName == u.firstName.GetOr("") && info.lastName == u.lastName.GetOr("")
  {
    UserInfo(
      DisplayName(u),
      u.firstName.GetOr(""), u.lastName.GetOr(""), now, now, 0)
  }

  /** The record after seeing its user once more. */
  function SeenAgain(info: UserInfo, now: string): (r: UserInfo)
    ensures r.messageCount == info.messageCount + 1 && r.lastSeen == now
    ensures r.username == info.username && r.firstName == info.firstName
    ensures r.lastName == info.lastName && r.firstSeen == info.firstSeen
  {
    info.(lastSeen := now, messageCount := info.messageCount + 1)
  }

  /** Whether `monitor_messages` handles the update at all: it needs a message from a
      group or channel, not from a private chat. */
  predicate Monitored(update: Option<Message>)
    ensures Monitored(update) ==> update.Some?
    ensures update.Some? && update.value.chat.kind == "private" ==> !Monitored(update)
    ensures update.Some? && update.value.chat.kind in {"group", "supergroup", "channel"} ==> Monitored(update)
  {
    update.Some? && update.value.chat.kind != "private"
  }

  /** The verdict `monitor_messages` acts on: `detect_leak_ultra` at the bot's fixed level
      in ULTRA mode, `detect_leak` otherwise. */
  function Verdict(m: Message, now: string, ultra: bool): (r: Option<LeakInfo>)
    ensures r.Some? ==> r.value.mode == (if ultra then Ultra else Normal) && r.value.messageId == m.messageId
    ensures r.Some? ==> (r.value.ultraLevel == Some(UltraDetectionLevel) <==> ultra)
  {
    if ultra then DetectLeakUltra(m, now, UltraDetectionLevel) else DetectLeak(m, now)
  }

  /** Switching the bot to ULTRA mode never silences a verdict NORMAL mode would give. */
  lemma UltraModeMissesNothing(m: Message, now: string)
    ensures Verdict(m, now, false).Some? ==> Verdict(m, now, true).Some?
  {
    UltraReportsWhatNormalReports(m, now, UltraDetectionLevel);
  }

  // ---------------------------------------------------------------------
  // The bot
  // ---------------------------------------------------------------------

  class LeakBot {
    var leaksByUser: map<int, seq<LeakInfo>>
    var userInfo: map<int, UserInfo>
    var ultraMode: bool
    const ultraLevel: nat := UltraDetectionLevel

    /** Number of monitored messages from each user since the last clear; it exists
        only to state what `messageCount` counts. */
    ghost var sightings: map<int, nat>

    /** Every history is bounded, and a user's `messageCount` is the number of their
        monitored messages minus the first one. */
    ghost predicate Valid()
      reads this
    {
      && (forall u :: u in leaksByUser ==> |leaksByUser[u]| <= LeakHistoryLimit)
      && userInfo.Keys == sightings.Keys
      && (forall u :: u in userInfo ==> userInfo[u].messageCount + 1 == sightings[u])
    }

    /** The bot as it starts when there is no saved data. */
    constructor ()
      ensures Valid()
      ensures leaksByUser == map[] && userInfo == map[] && !ultraMode
    {
      leaksByUser, userInfo, ultraMode := map[], map[], false;
      sightings := map[];
    }

    /** `calculate_screenshot_score`, adding up its score step by step. */
    method CalculateScreenshotScore(m: Message) returns (score: nat)
      ensures score == ScreenshotScore(m)
    {
      score := 0;
      if m.replyAgeSeconds.Some? {
        var age := m.replyAgeSeconds.value;
        if age > 180 {
          score := score + 30;
        }
      }
      if m.text != "" {
        if |m.text| < 15 && HasScreenshotEmoji(m.text) {
          score := score + 40;
        }
      }
      if m.hasPhoto || m.hasVideo || m.hasDocument {
        score := score + 20;
      }
      score := Min(score, ScoreCeiling);
    }

    /** `calculate_screenshot_score_ultra` with this bot's detection level. */
    method CalculateScreenshotScoreUltra(m: Message) returns (score: nat)
      ensures score == ScreenshotScoreUltra(m, ultraLevel)
    {
      score := 0;
      if m.replyAgeSeconds.Some? {
        var age := m.replyAgeSeconds.value;
        if age > 60 {
          score := score + 25;
        }
        if age > 300 {
          score := score + 35;
        }
      }
      if m.text != "" {
        if HasScreenshotEmoji(m.text) {
          score := score + 30;
        }
        if |m.text| < 10 && HasDigit(m.text) {
          score := score + 20;
        }
      }
      if m.hasPhoto {
        score := score + 25;
      }
      if m.hasVideo {
        score := score + 20;
      }
      if m.hasDocument {
        score := score + 15;
      }
      score := Min(score * ultraLevel, ScoreCeiling);
    }

    /** `handle_leak` without the alert and the save: appends `leak` to the user's
        history and keeps the 50 most recent entries. */
    method HandleLeak(userId: int, leak: LeakInfo)
      requires Valid()
      modifies this
      ensures Valid()
      ensures leaksByUser == old(leaksByUser)[userId := Recorded(History(old(leaksByUser), userId), leak)]
      ensures userInfo == old(userInfo) && ultraMode == old(ultraMode) && sightings == old(sightings)
    {
      var history := History(leaksByUser, userId);
      leaksByUser := leaksByUser[userId := Recorded(history, leak)];
    }

    /** The `user_info` update of `monitor_messages`: a first sighting creates the
        sender's record with a count of 0, a later one adds 1 and sets `last_seen`. */
    method CountSighting(sender: User, now: string)
      requires Valid()
      modifies this
      ensures Valid()
      ensures userInfo == old(userInfo)[sender.id := if sender.id in old(userInfo) then SeenAgain(old(userInfo)[sender.id], now)
                                                    else FirstSighting(sender, now)]
      ensures sightings == old(sightings)[sender.id := if sender.id in old(sightings) then old(sightings)[sender.id] + 1 else 1]
      ensures leaksByUser == old(leaksByUser) && ultraMode == old(ultraMode)
    {
      var userId := sender.id;
      if userId !in userInfo {
        userInfo := userInfo[userId := FirstSighting(sender, now)];
        sightings := sightings[userId := 1];
      } else {
        userInfo := userInfo[userId := SeenAgain(userInfo[userId], now)];
        sightings := sightings[userId := sightings[userId] + 1];
      }
    }

    /** `monitor_messages`: counts the message for its sender, classifies it in the
        current mode and records a reported leak. Returns the leak it reported. */
    method MonitorMessage(update: Option<Message>, now: string) returns (reported: Option<LeakInfo>)
      requires Valid()
      modifies this
      ensures Valid()
      ensures ultraMode == old(ultraMode)
      ensures !Monitored(update) ==>
        && reported.None?
        && leaksByUser == old(leaksByUser) && userInfo == old(userInfo) && sightings == old(sightings)
      ensures Monitored(update) ==>
        var m := update.value;
        var uid := m.sender.id;
        && userInfo == old(userInfo)[uid := if uid in old(userInfo) then SeenAgain(old(userInfo)[uid], now)
                                             else FirstSighting(m.sender, now)]
        && sightings == old(sightings)[uid := if uid in old(sightings) then old(sightings)[uid] + 1 else 1]
        && reported == Verdict(m, now, ultraMode)
        && leaksByUser == (if reported.Some?
                           then old(leaksByUser)[uid := Recorded(History(old(leaksByUser), uid), reported.value)]
                           else old(leaksByUser))
    {
      reported := None;
      if !Monitored(update) {
        return;
      }
      var m := update.value;
      var userId := m.sender.id;

      CountSighting(m.sender, now);

      reported := Verdict(m, now, ultraMode);

      if reported.Some? {
        HandleLeak(userId, reported.value);
      }
    }

    /** `skillup_command`: an allowed requester flips the detection mode; anyone else
        changes nothing. */
    method ToggleUltra(requester: int, allowed: seq<int>)
      requires Valid()
      modifies this
      ensures Valid()
      ensures ultraMode == (if requester in allowed then !old(ultraMode) else old(ultraMode))
      ensures leaksByUser == old(leaksByUser) && userInfo == old(userInfo) && sightings == old(sightings)
    {
      if requester !in allowed {
        return;
      }
      ultraMode := !ultraMode;
    }

    /** `clear_command`: an allowed requester empties the leak histories and the user
        records; anyone else changes nothing. The count in its reply is not modelled. */
    method Clear(requester: int, allowed: seq<int>)
      requires Valid()
      modifies this
      ensures Valid()
      ensures ultraMode == old(ultraMode)
      ensures requester in allowed ==> leaksByUser == map[] && userInfo == map[] && sightings == map[]
      ensures requester !in allowed ==>
        leaksByUser == old(leaksByUser) && userInfo == old(userInfo) && sightings == old(sightings)
    {
      if requester !in allowed {
        return;
      }
      leaksByUser, userInfo := map[], map[];
      sightings := map[];
    }
  }

  /** A user's first monitored message creates their record with a count of 0, and each
      later one adds 1: after `n` sightings the count is `n - 1`. */
  lemma {:induction false} CountAfterSightings(u: User, times: seq<string>)
    requires |times| >= 1
    ensures SightingsRecord(u, times).messageCount == |times| - 1
    ensures SightingsRecord(u, times).firstSeen == times[0]
    ensures SightingsRecord(u, times).lastSeen == times[|times| - 1]
  {
    if |times| > 1 {
      CountAfterSightings(u, times[..|times| - 1]);
    }
  }

  /** The record of user `u` after being seen at the given times, first to last. */
  function SightingsRecord(u: User, times: seq<string>): UserInfo
    requires |times| >= 1
  {
    if |times| == 1 then FirstSighting(u, times[0])
    else SeenAgain(SightingsRecord(u, times[..|times| - 1]), times[|times| - 1])
  }
}
