/**
 * The rule-based leak classifier of the polling bot (`detect_leak`,
 * `detect_leak_ultra`, `calculate_screenshot_score`,
 * `calculate_screenshot_score_ultra` in bot.py).
 *
 * Both modes pick a leak type by a priority chain: a forward from a chat, then a
 * forward from a user, then a link in the text, then a long multi-line text. A high
 * screenshot score then overrides the choice, and ULTRA mode finally falls back to
 * "media saved" for a message with media and no type yet.
 */
module LeakClassifier {
  import opened Common
  import opened Text

  // ---------------------------------------------------------------------
  // Messages
  // ---------------------------------------------------------------------

  datatype User = User(id: int, username: Option<string>, firstName: Option<string>, lastName: Option<string>)

  /** `kind` is the platform's chat type ("private", "group", "supergroup", "channel"). */
  datatype Chat = Chat(id: int, kind: string, title: Option<string>)

  datatype ForwardChat = ForwardChat(id: int, title: Option<string>)

  /** An incoming message, reduced to what the classifier reads. An absent text or
      caption is the empty string; `replyAgeSeconds` is the time since the message it
      replies to, when it is a reply. */
  datatype Message = Message(
    messageId: int,
    sender: User,
    chat: Chat,
    forwardFromChat: Option<ForwardChat>,
    forwardFrom: Option<User>,
    text: string,
    caption: string,
    replyAgeSeconds: Option<int>,
    hasPhoto: bool,
    hasVideo: bool,
    hasDocument: bool)

  predicate HasMedia(m: Message) {
    m.hasPhoto || m.hasVideo || m.hasDocument
  }

  /** `msg.text or msg.caption`: the text the text rules look at. */
  function TextOf(m: Message): (t: string)
    ensures t == m.text || t == m.caption
    ensures m.text != "" ==> t == m.text
    ensures t == "" <==> m.text == "" && m.caption == ""
  {
    if m.text != "" then m.text else m.caption
  }

  // ---------------------------------------------------------------------
  // Verdicts
  // ---------------------------------------------------------------------

  datatype LeakType = ChatForward | UserForward | LinkCopy | TextCopy | ScreenshotSuspect | MediaSaved {
    /** The label the bot stores and shows. */
    function Name(): string {
      match this
      case ChatForward => "ПЕРЕСЫЛКА В ЧАТ"
      case UserForward => "ПЕРЕСЫЛКА ПОЛЬЗОВАТЕЛЮ"
      case LinkCopy => "КОПИРОВАНИЕ ССЫЛКИ"
      case TextCopy => "КОПИРОВАНИЕ ТЕКСТА"
      case ScreenshotSuspect => "ПОДОЗРЕНИЕ НА СКРИНШОТ"
      case MediaSaved => "СОХРАНЕНИЕ МЕДИА"
    }
  }

  datatype DetectionMode = Normal | Ultra

  /** The dictionary a detector returns. `detectionScore` and `ultraLevel` are present in
      ULTRA mode only. `timestamp` is the caller's clock reading. */
  datatype LeakInfo = LeakInfo(
    kind: LeakType,
    details: string,
    timestamp: string,
    chatId: int,
    chatTitle: string,
    messageId: int,
    mode: DetectionMode,
    detectionScore: Option<int>,
    ultraLevel: Option<nat>)

  /** A type chosen so far (or none) with its details text. */
  datatype Choice = Choice(kind: Option<LeakType>, details: string)

  const NoChoice := Choice(None, "")

  // ---------------------------------------------------------------------
  // Thresholds and weights
  // ---------------------------------------------------------------------

  /** Length a multi-line text must exceed to count as copied, per mode. */
  const NormalLongText: nat := 300
  const UltraLongText: nat := 150

  /** Screenshot score a message must exceed to be classed as a screenshot, per mode. */
  const NormalScreenshotThreshold: nat := 75
  const UltraScreenshotThreshold: nat := 50

  /** The bot's `ultra_detection_level`. */
  const UltraDetectionLevel: nat := 5

  /** `detection_score` of every ULTRA verdict that is not a screenshot. */
  const DefaultDetectionScore: int := 85

  const ScoreCeiling: nat := 100

  const ScreenshotEmojis: seq<string> := ["📸", "🖼", "💾", "📱", "📲", "⬇️", "⬆️", "👇", "👆"]

  // ---------------------------------------------------------------------
  // Text rules
  // ---------------------------------------------------------------------

  /** A character of the class `[a-zA-Z0-9_\-/]`. */
  predicate IsLinkPathChar(c: char) {
    ('a' <= c <= 'z') || ('A' <= c <= 'Z') || ('0' <= c <= '9') || c == '_' || c == '-' || c == '/'
  }

  /** The pattern `t\.me/(?:c/)?[a-zA-Z0-9_\-/]+` matches at the start of `s`. Since `c`
      and `/` are in the class, the optional `c/` adds nothing: the pattern matches exactly
      when `t.me/` is followed by one character of the class. */
  predicate TelegramLinkAt(s: string) {
    "t.me/" <= s && |s| > 5 && IsLinkPathChar(s[5])
  }

  /** `re.search` of the Telegram link pattern. */
  predicate HasTelegramLink(s: string)
    decreases |s|
  {
    TelegramLinkAt(s) || (|s| > 0 && HasTelegramLink(s[1..]))
  }

  /** `s` starts with `prefix` followed by a non-space character. */
  predicate LinkWith(s: string, prefix: string) {
    prefix <= s && |s| > |prefix| && !IsSpace(s[|prefix|])
  }

  /** The pattern `(https?://\S+|www\.\S+|t\.me/\S+)` matches at the start of `s`. */
  predicate LinkAt(s: string) {
    LinkWith(s, "http://") || LinkWith(s, "https://") || LinkWith(s, "www.") || LinkWith(s, "t.me/")
  }

  /** `re.search` of the ULTRA link pattern. */
  predicate HasLink(s: string)
    decreases |s|
  {
    LinkAt(s) || (|s| > 0 && HasLink(s[1..]))
  }

  /** Length of the run of non-space characters `s` starts with. */
  function NonSpaceRun(s: string): (n: nat)
    ensures n <= |s|
    ensures forall i :: 0 <= i < n ==> !IsSpace(s[i])
    ensures n < |s| ==> IsSpace(s[n])
  {
    if s == [] || IsSpace(s[0]) then 0 else 1 + NonSpaceRun(s[1..])
  }

  predicate NoSpaceIn(s: string) {
    forall i :: 0 <= i < |s| ==> !IsSpace(s[i])
  }

  /** A link match runs to the next whitespace, so it extends past its prefix and its
      text is itself a link. */
  lemma LinkWithSpan(s: string, prefix: string)
    requires LinkWith(s, prefix) && NoSpaceIn(prefix)
    ensures NonSpaceRun(s) > |prefix|
    ensures LinkWith(s[..NonSpaceRun(s)], prefix)
  {
  }

  lemma LinkSpan(s: string)
    requires LinkAt(s)
    ensures NonSpaceRun(s) >= 1
    ensures LinkAt(s[..NonSpaceRun(s)])
  {
    if LinkWith(s, "http://") {
      LinkWithSpan(s, "http://");
    } else if LinkWith(s, "https://") {
      LinkWithSpan(s, "https://");
    } else if LinkWith(s, "www.") {
      LinkWithSpan(s, "www.");
    } else {
      LinkWithSpan(s, "t.me/");
    }
  }

  /** No link pattern matches at any position from `lo` up to (not including) `hi`. */
  predicate NoLinkBetween(s: string, lo: nat, hi: nat)
    requires lo <= hi <= |s|
  {
    forall p :: lo <= p < hi ==> !LinkAt(s[p..])
  }

  /** `re.findall` of the ULTRA link pattern, resuming the scan at position `i`: where the
      pattern matches, the match runs to the next whitespace (every alternative ends in a
      greedy `\S+`) and the scan resumes after it; elsewhere the scan moves one character on. */
  function FindLinksFrom(s: string, i: nat): (links: seq<string>)
    requires i <= |s|
    ensures forall k :: 0 <= k < |links| ==> LinkAt(links[k]) && NoSpaceIn(links[k]) && Contains(s, links[k])
    decreases |s| - i
  {
    if i == |s| then []
    else if LinkAt(s[i..]) then
      LinkSpan(s[i..]);
      var n := NonSpaceRun(s[i..]);
      var link := s[i..i + n];
      assert s[i..][..n] == link;
      assert OccursAt(s, link, i);
      ContainsIffOccurs(s, link);
      [link] + FindLinksFrom(s, i + n)
    else FindLinksFrom(s, i + 1)
  }

  /** `re.findall` of the ULTRA link pattern over the whole text. */
  function FindLinks(s: string): (links: seq<string>)
    ensures forall k :: 0 <= k < |links| ==> LinkAt(links[k]) && NoSpaceIn(links[k]) && Contains(s, links[k])
  {
    FindLinksFrom(s, 0)
  }

  /** The scan from `j` returns first the match at the leftmost position `i >= j` where the
      pattern matches, running to the next whitespace, and then the matches after it: the
      links come left to right and do not overlap. */
  lemma {:induction false} FindLinksLeftmost(s: string, j: nat, i: nat)
    requires j <= i < |s| && LinkAt(s[i..]) && NoLinkBetween(s, j, i)
    ensures i + NonSpaceRun(s[i..]) <= |s|
    ensures FindLinksFrom(s, j) == [s[i..i + NonSpaceRun(s[i..])]] + FindLinksFrom(s, i + NonSpaceRun(s[i..]))
    decreases i - j
  {
    if j < i {
      assert !LinkAt(s[j..]);
      FindLinksLeftmost(s, j + 1, i);
    } else {
      LinkSpan(s[i..]);
      assert s[i..][..NonSpaceRun(s[i..])] == s[i..i + NonSpaceRun(s[i..])];
    }
  }

  /** Where the pattern matches at no position from `j` on, the scan returns nothing. */
  lemma {:induction false} FindLinksNone(s: string, j: nat)
    requires j <= |s| && NoLinkBetween(s, j, |s|)
    ensures FindLinksFrom(s, j) == []
    decreases |s| - j
  {
    if j < |s| {
      FindLinksNone(s, j + 1);
    }
  }

  /** The scan from `j` finds something exactly when the pattern matches at some position from `j` on. */
  lemma {:induction false} FindLinksFromNonEmptyIff(s: string, j: nat)
    requires j <= |s|
    ensures |FindLinksFrom(s, j)| > 0 <==> exists p :: j <= p < |s| && LinkAt(s[p..])
    decreases |s| - j
  {
    if j < |s| && !LinkAt(s[j..]) {
      FindLinksFromNonEmptyIff(s, j + 1);
      if p :| j <= p < |s| && LinkAt(s[p..]) {
        assert p != j;
      }
    }
  }

  /** `findall` finds something exactly when `search` does. */
  lemma FindLinksNonEmptyIff(s: string)
    ensures |FindLinks(s)| > 0 <==> HasLink(s)
  {
    FindLinksFromNonEmptyIff(s, 0);
    HasLinkIffSomewhere(s);
    if i :| 0 <= i <= |s| && LinkAt(s[i..]) {
      assert i < |s|;
    }
  }

  /** Every Telegram link the NORMAL pattern finds is also a link for the ULTRA pattern. */
  lemma {:induction false} TelegramLinkIsLink(s: string)
    ensures HasTelegramLink(s) ==> HasLink(s)
    decreases |s|
  {
    if TelegramLinkAt(s) {
      assert LinkWith(s, "t.me/");
    } else if |s| > 0 {
      TelegramLinkIsLink(s[1..]);
    }
  }

  /** The optional `c/` of the Telegram pattern adds no match: a private-channel link
      `t.me/c/...` is already matched by `t.me/` followed by `c`. */
  lemma TelegramChannelLinkMatches(s: string)
    requires "t.me/c/" <= s && |s| > 7 && IsLinkPathChar(s[7])
    ensures TelegramLinkAt(s)
  {
    assert s[5] == 'c';
  }

  /** `re.search` of the Telegram pattern succeeds exactly when the pattern matches at
      some position of the text. */
  lemma {:induction false} HasTelegramLinkIffSomewhere(s: string)
    ensures HasTelegramLink(s) <==> exists i :: 0 <= i <= |s| && TelegramLinkAt(s[i..])
    decreases |s|
  {
    assert s[0..] == s;
    if |s| > 0 {
      HasTelegramLinkIffSomewhere(s[1..]);
      if HasTelegramLink(s[1..]) {
        var j :| 0 <= j <= |s| - 1 && TelegramLinkAt(s[1..][j..]);
        assert s[1..][j..] == s[j + 1..];
      }
      if i :| 1 <= i <= |s| && TelegramLinkAt(s[i..]) {
        assert s[1..][i - 1..] == s[i..];
      }
    }
  }

  /** `re.search` of the ULTRA link pattern succeeds exactly when the pattern matches at
      some position of the text. */
  lemma {:induction false} HasLinkIffSomewhere(s: string)
    ensures HasLink(s) <==> exists i :: 0 <= i <= |s| && LinkAt(s[i..])
    decreases |s|
  {
    assert s[0..] == s;
    if |s| > 0 {
      HasLinkIffSomewhere(s[1..]);
      if HasLink(s[1..]) {
        var j :| 0 <= j <= |s| - 1 && LinkAt(s[1..][j..]);
        assert s[1..][j..] == s[j + 1..];
      }
      if i :| 1 <= i <= |s| && LinkAt(s[i..]) {
        assert s[1..][i - 1..] == s[i..];
      }
    }
  }

  /** `len(text) > threshold and '\n' in text`. */
  predicate LongMultiline(t: string, threshold: nat) {
    |t| > threshold && '\n' in t
  }

  // ---------------------------------------------------------------------
  // Screenshot scores
  // ---------------------------------------------------------------------

  /** `any(emoji in text for emoji in screenshot_emojis)`. */
  predicate HasScreenshotEmoji(t: string) {
    exists k :: 0 <= k < |ScreenshotEmojis| && Contains(t, ScreenshotEmojis[k])
  }

  /** `any(c.isdigit() for c in text)`. */
  predicate HasDigit(t: string) {
    exists i :: 0 <= i < |t| && IsDigit(t[i])
  }

  /** NORMAL: 30 for a reply to a message more than 180 s older. */
  function ReplyAgePart(m: Message): nat {
    match m.replyAgeSeconds
    case Some(age) => if age > 180 then 30 else 0
    case None => 0
  }

  /** NORMAL: 40 for a text shorter than 15 characters holding a screenshot emoji. */
  function EmojiPart(m: Message): nat {
    if m.text != "" && |m.text| < 15 && HasScreenshotEmoji(m.text) then 40 else 0
  }

  /** NORMAL: 20 for a message with a photo, video or document. */
  function MediaPart(m: Message): nat {
    if HasMedia(m) then 20 else 0
  }

  /** `calculate_screenshot_score`: the three parts, clamped to 100. The parts add up to
      at most 90, so the clamp never applies, and the score exceeds the NORMAL threshold
      only when all three parts fire. */
  function ScreenshotScore(m: Message): (score: nat)
    ensures score <= 90
    ensures score == ReplyAgePart(m) + EmojiPart(m) + MediaPart(m)
    ensures score > NormalScreenshotThreshold <==> ReplyAgePart(m) > 0 && EmojiPart(m) > 0 && MediaPart(m) > 0
  {
    Min(ReplyAgePart(m) + EmojiPart(m) + MediaPart(m), ScoreCeiling)
  }

  /** ULTRA: 25 for a reply more than 60 s old and 35 more beyond 300 s. */
  function UltraReplyPart(m: Message): nat {
    match m.replyAgeSeconds
    case Some(age) => (if age > 60 then 25 else 0) + (if age > 300 then 35 else 0)
    case None => 0
  }

  /** ULTRA: 30 for a screenshot emoji anywhere in the text, 20 for a text shorter than
      10 characters holding a digit. */
  function UltraTextPart(m: Message): nat {
    if m.text == "" then 0
    else (if HasScreenshotEmoji(m.text) then 30 else 0) + (if |m.text| < 10 && HasDigit(m.text) then 20 else 0)
  }

  /** ULTRA: 25 for a photo, 20 for a video, 15 for a document. */
  function UltraMediaPart(m: Message): nat {
    (if m.hasPhoto then 25 else 0) + (if m.hasVideo then 20 else 0) + (if m.hasDocument then 15 else 0)
  }

  /** The ULTRA score before it is multiplied by the detection level. */
  function UltraRawScore(m: Message): (raw: nat)
    ensures raw == 0 || raw >= 15
    ensures HasMedia(m) ==> raw >= 15
  {
    UltraReplyPart(m) + UltraTextPart(m) + UltraMediaPart(m)
  }

  /** `calculate_screenshot_score_ultra`: the raw score times the level, clamped to 100. */
  function ScreenshotScoreUltra(m: Message, level: nat): (score: nat)
    ensures score <= ScoreCeiling
    ensures score <= UltraRawScore(m) * level
    ensures score < ScoreCeiling ==> score == UltraRawScore(m) * level
    ensures UltraRawScore(m) == 0 ==> score == 0
    ensures UltraRawScore(m) > 0 ==> score >= Min(15 * level, ScoreCeiling)
  {
    Min(UltraRawScore(m) * level, ScoreCeiling)
  }

  // ---------------------------------------------------------------------
  // Details texts
  // ---------------------------------------------------------------------

  /** `msg.chat.title or f"Чат {msg.chat.id}"`: never empty, and when the chat has no
      title the number after "Чат " reads back as the chat id. */
  function ChatTitle(c: Chat): (t: string)
    ensures t != ""
    ensures c.title.Some? && c.title.value != "" ==> t == c.title.value
    ensures c.title.None? || c.title.value == "" ==>
      |t| > 4 && t[..4] == "Чат " && IsIntText(t[4..]) && IntValue(t[4..]) == c.id
  {
    if c.title.Some? && c.title.value != "" then c.title.value
    else
      var t := "Чат " + IntString(c.id);
      IntStringRoundTrip(c.id);
      assert t[4..] == IntString(c.id);
      t
  }

  /** `f"В чат: {msg.forward_from_chat.title}"` (a missing title prints as None). */
  function ChatForwardDetails(f: ForwardChat): (d: string)
    ensures |d| >= 7 && d[..7] == "В чат: "
    ensures f.title.Some? ==> d[7..] == f.title.value
    ensures f.title.None? ==> d[7..] == "None"
  {
    "В чат: " + f.title.GetOr("None")
  }

  /** `username or f"id{id}"`: never empty, the username when there is one, and
      otherwise "id" followed by a number that reads back as the user id. */
  function DisplayName(u: User): (name: string)
    ensures name != ""
    ensures u.username.Some? && u.username.value != "" ==> name == u.username.value
    ensures u.username.None? || u.username.value == "" ==>
      |name| > 2 && name[..2] == "id" && IsIntText(name[2..]) && IntValue(name[2..]) == u.id
  {
    if u.username.Some? && u.username.value != "" then u.username.value
    else
      var name := "id" + IntString(u.id);
      IntStringRoundTrip(u.id);
      assert name[2..] == IntString(u.id);
      name
  }

  /** `f"Пользователю: {target}"`. */
  function UserForwardDetails(u: User): (d: string)
    ensures |d| > 14 && d[..14] == "Пользователю: " && d[14..] == DisplayName(u)
  {
    "Пользователю: " + DisplayName(u)
  }

  /** `f"Скопировал {len(text)} символов"`: the number between the two words reads
      back as the length of the text. */
  function CopiedTextDetails(t: string): (d: string)
    ensures |d| > 20 && d[..11] == "Скопировал " && d[|d| - 9..] == " символов"
    ensures IsIntText(d[11..|d| - 9]) && IntValue(d[11..|d| - 9]) == |t|
  {
    var d := "Скопировал " + IntString(|t|) + " символов";
    IntStringRoundTrip(|t|);
    assert d[11..|d| - 9] == IntString(|t|);
    d
  }

  /** `"фото" if msg.photo else "видео" if msg.video else "документ"`. */
  function MediaName(m: Message): (name: string)
    ensures name == "фото" <==> m.hasPhoto
    ensures name == "видео" <==> !m.hasPhoto && m.hasVideo
    ensures name == "документ" <==> !m.hasPhoto && !m.hasVideo
  {
    if m.hasPhoto then "фото" else if m.hasVideo then "видео" else "документ"
  }

  // ---------------------------------------------------------------------
  // NORMAL mode
  // ---------------------------------------------------------------------

  /** The if/elif chain of `detect_leak` before the screenshot check. */
  function NormalChoice(m: Message): (c: Choice)
    ensures c.kind == Some(ChatForward) <==> m.forwardFromChat.Some?
    ensures c.kind == Some(UserForward) <==> m.forwardFromChat.None? && m.forwardFrom.Some?
    ensures c.kind == Some(LinkCopy) <==>
      m.forwardFromChat.None? && m.forwardFrom.None? && HasTelegramLink(TextOf(m))
    ensures c.kind == Some(TextCopy) <==>
      && m.forwardFromChat.None? && m.forwardFrom.None? && !HasTelegramLink(TextOf(m))
      && LongMultiline(TextOf(m), NormalLongText)
    ensures c.kind.None? <==>
      && m.forwardFromChat.None? && m.forwardFrom.None?
      && !HasTelegramLink(TextOf(m)) && !LongMultiline(TextOf(m), NormalLongText)
    // The details text that goes with each outcome.
    ensures c.kind == Some(ChatForward) ==> c.details == ChatForwardDetails(m.forwardFromChat.value)
    ensures c.kind == Some(UserForward) ==> c.details == UserForwardDetails(m.forwardFrom.value)
    ensures c.kind == Some(LinkCopy) ==> c.details == "Скопировал ссылку на сообщение"
    ensures c.kind == Some(TextCopy) ==> c.details == CopiedTextDetails(TextOf(m))
    ensures c.kind.None? ==> c.details == ""
  {
    if m.forwardFromChat.Some? then Choice(Some(ChatForward), ChatForwardDetails(m.forwardFromChat.value))
    else if m.forwardFrom.Some? then Choice(Some(UserForward), UserForwardDetails(m.forwardFrom.value))
    else if TextOf(m) != "" then
      var t := TextOf(m);
      if HasTelegramLink(t) then Choice(Some(LinkCopy), "Скопировал ссылку на сообщение")
      else if LongMultiline(t, NormalLongText) then Choice(Some(TextCopy), CopiedTextDetails(t))
      else NoChoice
    else NoChoice
  }

  /** `detect_leak`. */
  function DetectLeak(m: Message, now: string): (r: Option<LeakInfo>)
    ensures r.None? <==>
      && m.forwardFromChat.None? && m.forwardFrom.None?
      && !HasTelegramLink(TextOf(m)) && !LongMultiline(TextOf(m), NormalLongText)
      && ScreenshotScore(m) <= NormalScreenshotThreshold
    ensures r.Some? ==>
      && r.value.messageId == m.messageId && r.value.chatId == m.chat.id
      && r.value.mode == Normal && r.value.timestamp == now
      && r.value.detectionScore.None? && r.value.ultraLevel.None?
      && r.value.chatTitle == ChatTitle(m.chat)
      && r.value.details ==
           if ScreenshotScore(m) > NormalScreenshotThreshold
           then "Вероятность скриншота: " + IntString(ScreenshotScore(m)) + "%"
           else NormalChoice(m).details
    // The screenshot override comes last and wins over everything.
    ensures ScreenshotScore(m) > NormalScreenshotThreshold ==> r.Some? && r.value.kind == ScreenshotSuspect
    // Below it: chat forward, then user forward, then link, then long text.
    ensures ScreenshotScore(m) <= NormalScreenshotThreshold ==>
      && (m.forwardFromChat.Some? ==> r.Some? && r.value.kind == ChatForward)
      && (m.forwardFromChat.None? && m.forwardFrom.Some? ==> r.Some? && r.value.kind == UserForward)
      && (m.forwardFromChat.None? && m.forwardFrom.None? && HasTelegramLink(TextOf(m)) ==>
            r.Some? && r.value.kind == LinkCopy)
      && ((m.forwardFromChat.None? && m.forwardFrom.None? && !HasTelegramLink(TextOf(m))
             && LongMultiline(TextOf(m), NormalLongText)) ==> r.Some? && r.value.kind == TextCopy)
  {
    var score := ScreenshotScore(m);
    var choice :=
      if score > NormalScreenshotThreshold
      then Choice(Some(ScreenshotSuspect), "Вероятность скриншота: " + IntString(score) + "%")
      else NormalChoice(m);
    match choice.kind
    case Some(kind) =>
      Some(LeakInfo(kind, choice.details, now, m.chat.id, ChatTitle(m.chat), m.messageId, Normal, None, None))
    case None => None
  }

  // ---------------------------------------------------------------------
  // ULTRA mode
  // ---------------------------------------------------------------------

  /** The if/elif chain of `detect_leak_ultra` before the screenshot check. */
  function UltraChoice(m: Message): (c: Choice)
    ensures c.kind == Some(ChatForward) <==> m.forwardFromChat.Some?
    ensures c.kind == Some(UserForward) <==> m.forwardFromChat.None? && m.forwardFrom.Some?
    ensures c.kind == Some(LinkCopy) <==>
      m.forwardFromChat.None? && m.forwardFrom.None? && HasLink(TextOf(m))
    ensures c.kind == Some(LinkCopy) ==>
      c.details == "Найдены ссылки: " + Join(Take(FindLinks(TextOf(m)), 3), ", ")
    ensures c.kind == Some(TextCopy) <==>
      && m.forwardFromChat.None? && m.forwardFrom.None? && !HasLink(TextOf(m))
      && LongMultiline(TextOf(m), UltraLongText)
    ensures c.kind.None? <==>
      && m.forwardFromChat.None? && m.forwardFrom.None?
      && !HasLink(TextOf(m)) && !LongMultiline(TextOf(m), UltraLongText)
    ensures c.kind == Some(ChatForward) ==> c.details == ChatForwardDetails(m.forwardFromChat.value)
    ensures c.kind == Some(UserForward) ==> c.details == UserForwardDetails(m.forwardFrom.value)
    ensures c.kind == Some(TextCopy) ==> c.details == CopiedTextDetails(TextOf(m))
    ensures c.kind.None? ==> c.details == ""
  {
    FindLinksNonEmptyIff(TextOf(m));
    if m.forwardFromChat.Some? then Choice(Some(ChatForward), ChatForwardDetails(m.forwardFromChat.value))
    else if m.forwardFrom.Some? then Choice(Some(UserForward), UserForwardDetails(m.forwardFrom.value))
    else if TextOf(m) != "" then
      var t := TextOf(m);
      var links := FindLinks(t);
      if |links| > 0 then Choice(Some(LinkCopy), "Найдены ссылки: " + Join(Take(links, 3), ", "))
      else if LongMultiline(t, UltraLongText) then Choice(Some(TextCopy), CopiedTextDetails(t))
      else NoChoice
    else NoChoice
  }

  /** `'скриншот' in leak_type.lower()`, the test that picks the detection score. */
  predicate NamesScreenshot(kind: LeakType) {
    Contains(Lower(kind.Name()), "скриншот")
  }

  /** Only the screenshot type's label mentions a screenshot. */
  lemma NamesScreenshotIffScreenshot(kind: LeakType)
    ensures NamesScreenshot(kind) <==> kind == ScreenshotSuspect
  {
    match kind
    case ScreenshotSuspect => ScreenshotLabelNamesScreenshot();
    case ChatForward => LabelWithoutSh(kind.Name());
    case UserForward => LabelWithoutSh(kind.Name());
    case LinkCopy => LabelWithoutSh(kind.Name());
    case TextCopy => LabelWithoutSh(kind.Name());
    case MediaSaved => LabelWithoutSh(kind.Name());
  }

  /** A label without the letter Ш, in either case, does not mention a screenshot. */
  lemma LabelWithoutSh(name: string)
    requires 'Ш' !in name && 'ш' !in name
    ensures !Contains(Lower(name), "скриншот")
  {
    NoShAfterLower(name);
    MissingCharNotContained(Lower(name), "скриншот", 'ш');
  }

  lemma ScreenshotLabelNamesScreenshot()
    ensures NamesScreenshot(ScreenshotSuspect)
  {
    var lowered := Lower(ScreenshotSuspect.Name());
    assert lowered[14..22] == "скриншот";
    assert OccursAt(lowered, "скриншот", 14);
    ContainsIffOccurs(lowered, "скриншот");
  }

  /** Only `Ш` and `ш` lower-case to `ш`. */
  lemma NoShAfterLower(s: string)
    requires 'Ш' !in s && 'ш' !in s
    ensures 'ш' !in Lower(s)
  {
    forall i | 0 <= i < |s| ensures Lower(s)[i] != 'ш' {
      assert s[i] != 'Ш' && s[i] != 'ш';
    }
  }


  /** `detect_leak_ultra` with detection level `level`. */
  function DetectLeakUltra(m: Message, now: string, level: nat): (r: Option<LeakInfo>)
    ensures r.None? <==>
      && m.forwardFromChat.None? && m.forwardFrom.None?
      && !HasLink(TextOf(m)) && !LongMultiline(TextOf(m), UltraLongText)
      && ScreenshotScoreUltra(m, level) <= UltraScreenshotThreshold
      && !HasMedia(m)
    ensures r.Some? ==>
      && r.value.messageId == m.messageId && r.value.chatId == m.chat.id
      && r.value.mode == Ultra && r.value.timestamp == now && r.value.ultraLevel == Some(level)
      && r.value.detectionScore ==
           Some(if r.value.kind == ScreenshotSuspect then ScreenshotScoreUltra(m, level) else DefaultDetectionScore)
      && r.value.chatTitle == ChatTitle(m.chat)
      && r.value.details ==
           if ScreenshotScoreUltra(m, level) > UltraScreenshotThreshold
           then "Вероятность скриншота: " + IntString(ScreenshotScoreUltra(m, level)) + "% (ULTRA режим)"
           else if r.value.kind == MediaSaved then "Сохранил " + MediaName(m)
           else UltraChoice(m).details
    ensures ScreenshotScoreUltra(m, level) > UltraScreenshotThreshold ==> r.Some? && r.value.kind == ScreenshotSuspect
    ensures ScreenshotScoreUltra(m, level) <= UltraScreenshotThreshold ==>
      && (m.forwardFromChat.Some? ==> r.Some? && r.value.kind == ChatForward)
      && (m.forwardFromChat.None? && m.forwardFrom.Some? ==> r.Some? && r.value.kind == UserForward)
      && (m.forwardFromChat.None? && m.forwardFrom.None? && HasLink(TextOf(m)) ==>
            r.Some? && r.value.kind == LinkCopy)
      && ((m.forwardFromChat.None? && m.forwardFrom.None? && !HasLink(TextOf(m))
             && LongMultiline(TextOf(m), UltraLongText)) ==> r.Some? && r.value.kind == TextCopy)
    // Media is only a fallback: it is reported as such exactly when nothing else was.
    ensures (r.Some? && r.value.kind == MediaSaved) <==>
      && HasMedia(m) && m.forwardFromChat.None? && m.forwardFrom.None?
      && !HasLink(TextOf(m)) && !LongMultiline(TextOf(m), UltraLongText)
      && ScreenshotScoreUltra(m, level) <= UltraScreenshotThreshold
  {
    FindLinksNonEmptyIff(TextOf(m));
    var score := ScreenshotScoreUltra(m, level);
    var chosen :=
      if score > UltraScreenshotThreshold
      then Choice(Some(ScreenshotSuspect), "Вероятность скриншота: " + IntString(score) + "% (ULTRA режим)")
      else UltraChoice(m);
    var choice :=
      if HasMedia(m) && chosen.kind.None?
      then Choice(Some(MediaSaved), "Сохранил " + MediaName(m))
      else chosen;
    match choice.kind
    case Some(kind) =>
      NamesScreenshotIffScreenshot(kind);
      var detectionScore := if NamesScreenshot(kind) then score else DefaultDetectionScore;
      Some(LeakInfo(kind, choice.details, now, m.chat.id, ChatTitle(m.chat), m.messageId, Ultra,
                    Some(detectionScore), Some(level)))
    case None => None
  }

  // ---------------------------------------------------------------------
  // Properties across the two modes
  // ---------------------------------------------------------------------

  /** With any positive detection level, ULTRA mode reports every message NORMAL mode reports. */
  lemma UltraReportsWhatNormalReports(m: Message, now: string, level: nat)
    requires level >= 1
    ensures DetectLeak(m, now).Some? ==> DetectLeakUltra(m, now, level).Some?
  {
    TelegramLinkIsLink(TextOf(m));
    if ScreenshotScore(m) > NormalScreenshotThreshold {
      assert UltraRawScore(m) >= 25 + 30 + 15;
    }
  }

  /** At the bot's detection level 5 every ULTRA indicator alone lifts the score to at
      least 75, above the threshold of 50: a message with media, a screenshot emoji, a
      short text with a digit or a reply older than a minute is always reported as a
      screenshot, whatever else it is. */
  lemma UltraLevelFiveAnyIndicatorIsScreenshot(m: Message, now: string)
    requires UltraRawScore(m) > 0
    ensures DetectLeakUltra(m, now, UltraDetectionLevel).Some?
    ensures DetectLeakUltra(m, now, UltraDetectionLevel).value.kind == ScreenshotSuspect
  {
  }

  /** Hence, at level 5, the media fallback of ULTRA mode never fires. */
  lemma UltraLevelFiveNeverReportsMedia(m: Message, now: string)
    ensures DetectLeakUltra(m, now, UltraDetectionLevel).None? || DetectLeakUltra(m, now, UltraDetectionLevel).value.kind != MediaSaved
  {
    if HasMedia(m) {
      UltraLevelFiveAnyIndicatorIsScreenshot(m, now);
    }
  }
}
