/**
 * The bookkeeping the webhook bot does for each incoming update (`webhook` in app.py):
 * it stores the message, keeps per-user `messages` and `leaks` counters, appends a
 * leak record when the keyword scorer reports a leak, and picks the alert recipients,
 * who are the allowed ids other than the offender.
 *
 * `Storage` holds the three collections the source mutates in place. Its invariant
 * ties every user's counters to the stored messages and leak records.
 */
module Webhook {
  import opened Common
  import opened Text
  import opened KeywordDetector

  /** The `from` object of an update; fields the platform may omit are options. */
  datatype Sender = Sender(id: Option<int>, username: Option<string>, firstName: Option<string>)

  /** The `message` object of an update, reduced to the fields the webhook reads.
      An absent `text` or `caption` is the empty string. */
  datatype InboundMessage = InboundMessage(
    messageId: Option<int>,
    sender: Option<Sender>,
    chatId: Option<int>,
    text: string,
    caption: string,
    hasForwardDate: bool)

  /** One entry of `storage.messages`. */
  datatype StoredMessage = StoredMessage(id: Option<int>, userId: int, chatId: int, text: string, time: string, isForward: bool)

  /** One entry of `storage.users`. */
  datatype UserRecord = UserRecord(
    id: int, username: string, firstName: string,
    messages: nat, leaks: nat,
    firstSeen: string, lastSeen: Option<string>)

  /** One entry of `storage.leaks`. */
  datatype LeakRecord = LeakRecord(
    userId: int, username: string, text: string,
    leakTypes: seq<string>, riskScore: int, timestamp: string, chatId: int)

  /** Longest stored message text and longest text kept in a leak record. */
  const StoredTextLength: nat := 500
  const LeakTextLength: nat := 200

  /** `msg.get("from", {}).get("id", 0)`: a missing sender or id counts as user 0. */
  function SenderId(m: InboundMessage): (id: int)
    ensures m.sender.Some? && m.sender.value.id.Some? ==> id == m.sender.value.id.value
    ensures m.sender.None? || m.sender.value.id.None? ==> id == 0
  {
    match m.sender
    case Some(s) => s.id.GetOr(0)
    case None => 0
  }

  /** `msg.get("chat", {}).get("id", 0)`. */
  function ChatId(m: InboundMessage): (id: int)
    ensures m.chatId.Some? ==> id == m.chatId.value
    ensures m.chatId.None? ==> id == 0
  {
    m.chatId.GetOr(0)
  }

  /** `msg.get("text", "") or msg.get("caption", "")`. */
  function MessageText(m: InboundMessage): (t: string)
    ensures t == m.text || t == m.caption
    ensures m.text != "" ==> t == m.text
    ensures t == "" <==> m.text == "" && m.caption == ""
  {
    if m.text != "" then m.text else m.caption
  }

  /** The record `storage.messages` gains for `m`. */
  function StoredFor(m: InboundMessage, now: string): StoredMessage {
    StoredMessage(m.messageId, SenderId(m), ChatId(m), Take(MessageText(m), StoredTextLength), now, m.hasForwardDate)
  }

  /** The stored record carries the sender, the chat and the forward flag, and its text
      is the message text cut to its first 500 characters. */
  lemma StoredForFields(m: InboundMessage, now: string)
    ensures var r := StoredFor(m, now);
      && r.id == m.messageId && r.userId == SenderId(m) && r.chatId == ChatId(m)
      && r.time == now && r.isForward == m.hasForwardDate
      && r.text <= MessageText(m) && |r.text| <= StoredTextLength
      && (|MessageText(m)| <= StoredTextLength ==> r.text == MessageText(m))
      && (|MessageText(m)| > StoredTextLength ==> |r.text| == StoredTextLength)
  {
  }

  /** The record a first sighting of the sender of `m` creates, before it is counted. */
  function NewUser(m: InboundMessage, now: string): (u: UserRecord)
    ensures u.id == SenderId(m)
    ensures u.messages == 0 && u.leaks == 0
    ensures u.firstSeen == now && u.lastSeen.None?
  {
    var username := match m.sender case Some(s) => s.username.GetOr("") case None => "";
    var firstName := match m.sender case Some(s) => s.firstName.GetOr("") case None => "";
    UserRecord(SenderId(m), username, firstName, 0, 0, now, None)
  }

  /** The keyword scorer runs only on a non-empty text, and a leak is recorded when it reports one. */
  predicate Leaked(m: InboundMessage) {
    MessageText(m) != "" && Assess(MessageText(m)).hasLeak
  }

  /** Number of stored messages from user `u`. */
  function MessageCount(msgs: seq<StoredMessage>, u: int): nat {
    if msgs == [] then 0
    else MessageCount(msgs[..|msgs| - 1], u) + (if msgs[|msgs| - 1].userId == u then 1 else 0)
  }

  /** Number of leak records of user `u`. */
  function LeakCount(leaks: seq<LeakRecord>, u: int): nat {
    if leaks == [] then 0
    else LeakCount(leaks[..|leaks| - 1], u) + (if leaks[|leaks| - 1].userId == u then 1 else 0)
  }

  lemma MessageCountAppend(msgs: seq<StoredMessage>, x: StoredMessage, u: int)
    ensures MessageCount(msgs + [x], u) == MessageCount(msgs, u) + (if x.userId == u then 1 else 0)
  {
    assert (msgs + [x])[..|msgs|] == msgs;
  }

  lemma LeakCountAppend(leaks: seq<LeakRecord>, x: LeakRecord, u: int)
    ensures LeakCount(leaks + [x], u) == LeakCount(leaks, u) + (if x.userId == u then 1 else 0)
  {
    assert (leaks + [x])[..|leaks|] == leaks;
  }

  // ---------------------------------------------------------------------
  // Alert recipients
  // ---------------------------------------------------------------------

  /** `ids` without the occurrences of `offender`, in order. */
  function Without(ids: seq<int>, offender: int): seq<int> {
    if ids == [] then []
    else Without(ids[..|ids| - 1], offender) + (if ids[|ids| - 1] != offender then [ids[|ids| - 1]] else [])
  }

  /** The offender is never among the recipients; every other allowed id is, once per listing. */
  lemma {:induction false} WithoutMembers(ids: seq<int>, offender: int)
    ensures forall a :: a in Without(ids, offender) <==> a in ids && a != offender
    ensures |Without(ids, offender)| <= |ids|
    ensures offender !in ids ==> Without(ids, offender) == ids
  {
    if ids != [] {
      var rest := ids[..|ids| - 1];
      WithoutMembers(rest, offender);
      assert ids == rest + [ids[|ids| - 1]];
    }
  }

  /** The loop `for allowed_id in ALLOWED_IDS: if allowed_id != user_id: send(...)`,
      returning the ids an alert goes to, in sending order. */
  method AlertRecipients(allowed: seq<int>, offender: int) returns (recipients: seq<int>)
    ensures recipients == Without(allowed, offender)
    ensures offender !in recipients
    ensures forall a :: a in recipients <==> a in allowed && a != offender
  {
    recipients := [];
    var i := 0;
    while i < |allowed|
      invariant 0 <= i <= |allowed|
      invariant recipients == Without(allowed[..i], offender)
    {
      if allowed[i] != offender {
        recipients := recipients + [allowed[i]];
      }
      assert allowed[..i + 1][..i] == allowed[..i];
      i := i + 1;
    }
    assert allowed[..i] == allowed;
    WithoutMembers(allowed, offender);
  }

  // ---------------------------------------------------------------------
  // The store
  // ---------------------------------------------------------------------

  /** Every user record is keyed by its own id and its counters count that user's
      stored messages and leak records; users without a record have neither. */
  ghost predicate Consistent(messages: seq<StoredMessage>, users: map<int, UserRecord>, leaks: seq<LeakRecord>) {
    && (forall u :: u in users ==>
          users[u].id == u
          && users[u].messages == MessageCount(messages, u)
          && users[u].leaks == LeakCount(leaks, u))
    && (forall u :: u !in users ==> MessageCount(messages, u) == 0 && LeakCount(leaks, u) == 0)
  }

  /** Storing a message from `before.id` and counting it keeps the counters exact. */
  lemma CountMessageKeepsConsistent(messages: seq<StoredMessage>, users: map<int, UserRecord>, leaks: seq<LeakRecord>,
                                    stored: StoredMessage, before: UserRecord, now: string)
    requires Consistent(messages, users, leaks)
    requires stored.userId == before.id
    requires before.id in users ==> before == users[before.id]
    requires before.id !in users ==> before.messages == 0 && before.leaks == 0
    ensures Consistent(messages + [stored], users[before.id := before.(messages := before.messages + 1, lastSeen := Some(now))], leaks)
  {
    forall u ensures MessageCount(messages + [stored], u) == MessageCount(messages, u) + (if u == before.id then 1 else 0) {
      MessageCountAppend(messages, stored, u);
    }
  }

  /** Appending a leak record of user `uid` and counting it keeps the counters exact. */
  lemma CountLeakKeepsConsistent(messages: seq<StoredMessage>, users: map<int, UserRecord>, leaks: seq<LeakRecord>,
                                 record: LeakRecord)
    requires Consistent(messages, users, leaks)
    requires record.userId in users
    ensures Consistent(messages, users[record.userId := users[record.userId].(leaks := users[record.userId].leaks + 1)], leaks + [record])
  {
    forall u ensures LeakCount(leaks + [record], u) == LeakCount(leaks, u) + (if u == record.userId then 1 else 0) {
      LeakCountAppend(leaks, record, u);
    }
  }

  class Storage {
    var messages: seq<StoredMessage>
    var users: map<int, UserRecord>
    var leaks: seq<LeakRecord>

    ghost predicate Valid()
      reads this
    {
      Consistent(messages, users, leaks)
    }

    /** The store as it starts when there is no saved data. */
    constructor ()
      ensures Valid()
      ensures messages == [] && users == map[] && leaks == []
    {
      messages, users, leaks := [], map[], [];
    }

    /** Appends `m` to the stored messages and counts it for its sender, creating the
        sender's record with both counters at 0 on first sight. */
    method CountMessage(m: InboundMessage, now: string)
      requires Valid()
      modifies this
      ensures Valid()
      ensures var uid := SenderId(m);
        var before := if uid in old(users) then old(users)[uid] else NewUser(m, now);
        && messages == old(messages) + [StoredFor(m, now)]
        && users == old(users)[uid := before.(messages := before.messages + 1, lastSeen := Some(now))]
        && leaks == old(leaks)
    {
      var userId := SenderId(m);
      var stored := StoredFor(m, now);
      if userId !in users {
        users := users[userId := NewUser(m, now)];
      }
      var user := users[userId];
      CountMessageKeepsConsistent(messages, old(users), leaks, stored, user, now);
      messages := messages + [stored];
      users := users[userId := user.(messages := user.messages + 1, lastSeen := Some(now))];
    }

    /** Appends a leak record and counts it for its user. */
    method CountLeak(record: LeakRecord)
      requires Valid()
      requires record.userId in users
      modifies this
      ensures Valid()
      ensures messages == old(messages)
      ensures users == old(users)[record.userId := old(users)[record.userId].(leaks := old(users)[record.userId].leaks + 1)]
      ensures leaks == old(leaks) + [record]
    {
      CountLeakKeepsConsistent(messages, users, leaks, record);
      leaks := leaks + [record];
      users := users[record.userId := users[record.userId].(leaks := users[record.userId].leaks + 1)];
    }

    /** The counter and log updates of `webhook()` for one update. An update without a
        `message` changes nothing. Returns the ids an alert is sent to. */
    method HandleUpdate(update: Option<InboundMessage>, allowed: seq<int>, now: string) returns (alerted: seq<int>)
      requires Valid()
      modifies this
      ensures Valid()
      ensures update.None? ==>
        messages == old(messages) && users == old(users) && leaks == old(leaks) && alerted == []
      ensures update.Some? ==>
        var m, uid := update.value, SenderId(update.value);
        var before := if uid in old(users) then old(users)[uid] else NewUser(m, now);
        && messages == old(messages) + [StoredFor(m, now)]
        && users == old(users)[uid := before.(messages := before.messages + 1,
                                               leaks := before.leaks + (if Leaked(m) then 1 else 0),
                                               lastSeen := Some(now))]
        && |leaks| == |old(leaks)| + (if Leaked(m) then 1 else 0)
        && leaks[..|old(leaks)|] == old(leaks)
        && (Leaked(m) ==>
              var rec := leaks[|old(leaks)|];
              && rec.userId == uid
              && rec.username == before.username
              && rec.text == Take(MessageText(m), LeakTextLength)
              && rec.riskScore == Assess(MessageText(m)).riskScore
              && rec.timestamp == now
              && rec.chatId == ChatId(m)
              && NoDuplicates(rec.leakTypes)
              && (forall l :: l in rec.leakTypes <==> l in Assess(MessageText(m)).labels))
        && alerted == (if Leaked(m) then Without(allowed, uid) else [])
    {
      alerted := [];
      if update.None? {
        return;
      }
      var m := update.value;
      var userId := SenderId(m);
      var chatId := ChatId(m);
      var text := MessageText(m);

      CountMessage(m, now);

      if text != "" {
        var leakInfo := DetectLeaks(text, now);
        if leakInfo.hasLeak {
          var record := LeakRecord(userId, users[userId].username, Take(text, LeakTextLength),
                                   leakInfo.leakTypes, leakInfo.riskScore, leakInfo.timestamp, chatId);
          CountLeak(record);
          alerted := AlertRecipients(allowed, userId);
        }
      }
    }
  }
}
