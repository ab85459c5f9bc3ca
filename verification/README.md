# Leak detection for a Telegram group bot, in Dafny

The repository has two independent bots that watch group chats and report members who
appear to leak the chat's content.

- **The webhook bot** (app.py) scores a message text with a keyword scorer,
  `LeakDetector.detect_leaks`. The text is lower-cased. Six keyword categories add 20 each,
  at most once per category. Five danger phrases add their own weights. The sum is clamped
  to 100, and the labels that matched are returned de-duplicated. The webhook stores every
  message, keeps per-user `messages` and `leaks` counters, appends a leak record for each
  leaking message, and alerts every allowed id except the offender.
- **The polling bot** (bot.py) classifies a message by a priority chain:
  - a forward from a chat, then a forward from a user;
  - then a link in the text, then a long multi-line text;
  - then a screenshot score that overrides the earlier choice when it is high.

  Its ULTRA mode uses a looser link pattern and a lower length threshold. It multiplies the
  screenshot score by a detection level of 5, and it falls back to "media saved". The bot
  keeps a per-user history of the 50 most recent leaks and a per-user message counter.

The project is split into these modules:

- `common.dfy` (`Common`): `Option` and `Min`.
- `text.dfy` (`Text`): the Python string operations the detectors rely on:
  - `sub in s`, `str.lower()`, `str.isspace()`;
  - slicing `s[:n]`, `sep.join(...)`, `str(n)`.
- `keyword_detector.dfy` (`KeywordDetector`): `detect_leaks`.
  - `DetectLeaks` runs the category loop (`ScanCategories`, with its `break`) and the phrase loop (`ScanPhrases`).
  - It is proved against the reference verdict `Assess`, a function of the lower-cased text.
- `webhook.dfy` (`Webhook`): the webhook's storage as the class `Storage`.
  - Its invariant says every user's `messages` and `leaks` counters equal the number of that
    user's stored messages and leak records.
  - `AlertRecipients` is the alert loop.
- `leak_classifier.dfy` (`LeakClassifier`): `detect_leak`, `detect_leak_ultra` and the two
  screenshot scores, as functions. The two regular expressions are written as string
  predicates.
- `leak_tracker.dfy` (`LeakTracker`): the polling bot's state as the class `LeakBot`:
  - the bounded leak history;
  - the `user_info` records with their message counters;
  - the mode switch;
  - the step-by-step score computations, proved equal to the classifier's score functions.
    `MonitorMessage` does not call them: it classifies through the functions `DetectLeak` and
    `DetectLeakUltra`, which use the score functions directly.

## Model

| member | source | states |
|---|---|---|
| Text.Lower | app.py:65 | Lower-casing keeps the length and maps every code point on its own. |
| Text.LowerIdempotent | app.py:65 | Lower-casing an already lower-cased text changes nothing. |
| Text.ContainsIffOccurs | app.py:81 | `Contains`, the model of `keyword in text`, holds exactly when the keyword occurs at some index of the text. |
| Text.AsciiWhitespace | bot.py:347 | On ASCII, `IsSpace` (what `\S` excludes) holds exactly for the space, tab to carriage return, and 0x1C-0x1F, as Python's `isspace()` does. |
| Text.MissingCharNotContained | bot.py:377 | A string that holds a character the text lacks is not a substring of the text. |
| Text.Take | app.py:281 | `s[:n]` is a prefix of `s` whose length is the smaller of `n` and `len(s)`. |
| Text.NatString | bot.py:310 | `str(n)` of a natural number is a non-empty string of decimal digits, with no leading zero unless `n` is 0. |
| Text.NatStringRoundTrip | bot.py:310 | Reading the digits of `str(n)` back gives `n`. |
| Text.Join | bot.py:351 | `sep.join(parts)` is empty for no parts, is the part itself for one part, and always starts with the first part. |
| Text.JoinAppend | bot.py:351 | Joining one more part gives the earlier joined text, the separator, then the new part. |
| Text.IntString | bot.py:297 | `str(n)` of any integer is an optional minus sign followed by at least one digit. The minus sign is there exactly when `n` is negative. |
| Text.IntStringRoundTrip | bot.py:323 | Reading `str(n)` back gives `n`, for negative chat ids as well as for natural numbers. |
| KeywordDetector.DetectLeaks | app.py:61-105 | `has_leak` and `risk_score` equal the reference verdict's. The score is in [0,100]. `leak_types` has no duplicates and holds exactly the matched labels. The timestamp is the caller's clock. |
| KeywordDetector.ScanCategories | app.py:79-84 | The category loop with its `break` yields exactly the reference category labels, in table order, and 20 per label. |
| KeywordDetector.ScanPhrases | app.py:95-98 | The phrase loop yields exactly the reference phrase labels, in table order, and the sum of the weights of the phrases present. |
| KeywordDetector.Deduplicate | app.py:103 | `list(set(xs))`: no duplicates, the same members as `xs`, and no longer than `xs`. |
| KeywordDetector.AssessIgnoresCase | app.py:65 | The verdict on a text equals the verdict on its lower-cased form. |
| KeywordDetector.CategoryContribution | app.py:79-84 | Each category adds exactly one label, worth 20, when one of its keywords occurs, and nothing otherwise. |
| KeywordDetector.CategoryLabelsExact | app.py:79-84 | A category label is reported exactly when that category has a keyword in the text. There are at most as many labels as categories. |
| KeywordDetector.CategoryLabelsAppend | app.py:79-84 | Scanning two lists of categories one after the other gives the labels of the first, then those of the second. |
| KeywordDetector.PhraseContribution | app.py:87-98 | Each danger phrase adds its own weight when present, and nothing otherwise, whatever the other phrases do. |
| KeywordDetector.PhraseScoreAppend | app.py:95-98 | The phrase score of two lists of phrases is the sum of their scores. |
| KeywordDetector.PhraseLabelsExact | app.py:95-98 | A phrase label is reported exactly when its phrase occurs in the text. |
| KeywordDetector.PhraseScoreZeroIffNoLabel | app.py:87-98 | With positive weights, the phrase score is 0 exactly when no phrase label is reported. |
| KeywordDetector.HasLeakIffMatch | app.py:101 | `has_leak` holds exactly when some category keyword or danger phrase occurs in the lower-cased text. |
| KeywordDetector.HasLeakIffPositiveScore | app.py:100-102 | `has_leak` holds exactly when `risk_score` is positive. |
| KeywordDetector.NoHitNoCategoryLabel | app.py:79-84 | When no category has a keyword in the text, no category label is reported. |
| KeywordDetector.NoPhraseNoPhraseLabel | app.py:95-98 | When no phrase occurs in the text, no phrase label is reported. |
| KeywordDetector.TablesHaveNoEmptyEntry | app.py:70-93 | No keyword and no danger phrase is empty, so none matches every text. |
| KeywordDetector.EmptyTextIsClean | app.py:100-102 | The empty text gives no leak, a score of 0 and no labels. |
| Webhook.SenderId | app.py:272 | The sender id is the `from.id` of the update when both are present, and 0 when either is missing. |
| Webhook.ChatId | app.py:273 | The chat id is the `chat.id` of the update when it is present and 0 otherwise. |
| Webhook.MessageText | app.py:274 | The analysed text is the message text when it is non-empty, and otherwise the caption. It is empty exactly when both are empty. |
| Webhook.NewUser | app.py:289-297 | A first sighting creates a record keyed by the sender id, with both counters at 0, `first_seen` set to now and no `last_seen` yet. |
| Webhook.StoredForFields | app.py:277-284 | The stored message carries the message id, the sender id, the chat id, the caller's time and whether the update has `forward_date`. Its text is the analysed text cut to its first 500 characters: the whole text when it is that short, exactly 500 characters otherwise. |
| Webhook.MessageCountAppend | app.py:286 | Storing a message adds one to its sender's message count and nothing to anyone else's. |
| Webhook.LeakCountAppend | app.py:318 | Appending a leak record adds one to its user's leak count and nothing to anyone else's. |
| Webhook.WithoutMembers | app.py:324-325 | `Without(ids, offender)` contains every allowed id except the offender and never the offender. It is no longer than the list, and equals it when the offender is absent. |
| Webhook.AlertRecipients | app.py:324-325 | The alert loop sends to exactly the allowed ids other than the offender, in order. The offender is never alerted. |
| Webhook.CountMessageKeepsConsistent | app.py:286-300 | Storing a message and incrementing its sender's `messages` keeps every counter equal to its count. This holds whether or not the sender already had a record. |
| Webhook.CountLeakKeepsConsistent | app.py:318-319 | Appending a leak record and incrementing its user's `leaks` keeps every counter equal to its count. |
| Webhook.Storage.constructor | app.py:23-27 | The store starts empty and consistent. |
| Webhook.Storage.CountMessage | app.py:277-300 | The message is appended with its text cut to 500 characters. A sender seen for the first time gets a record with both counters at 0. The sender's `messages` rises by exactly 1 and `last_seen` is set. The counters stay exact. |
| Webhook.Storage.CountLeak | app.py:308-319 | The record is appended and its user's `leaks` rises by exactly 1. Nothing else changes and the counters stay exact. |
| Webhook.Storage.HandleUpdate | app.py:268-325 | An update without a message changes nothing. Otherwise `messages` rises by 1. `leaks` rises by 1 and a record is appended exactly when the text is non-empty and the scorer reports a leak. The record carries the sender, the text cut to 200 characters, the scorer's score and labels, and the chat. Alerts go to the allowed ids minus the offender, and only for a leak. |
| LeakClassifier.NonSpaceRun | bot.py:347 | The greedy `\S+` stops at the first whitespace character or at the end of the text. |
| LeakClassifier.LinkWithSpan | bot.py:347 | A link match runs past its prefix, and the matched text is itself a link. |
| LeakClassifier.LinkSpan | bot.py:347 | Wherever the link pattern matches (`LinkAt`), the match is non-empty and is itself a link. |
| LeakClassifier.FindLinksFrom | bot.py:348 | Every string the scan from a given position returns is a link, holds no whitespace and occurs in the text. |
| LeakClassifier.FindLinks | bot.py:348 | Every string `re.findall` returns is a link, holds no whitespace and occurs in the text. |
| LeakClassifier.FindLinksLeftmost | bot.py:347-351 | When the pattern first matches at position `i` at or after the scan position, the first link found is the text from `i` up to the next whitespace or the end. The scan then resumes right after that link, so the matches come left to right and do not overlap. |
| LeakClassifier.FindLinksNone | bot.py:348-349 | When the pattern matches at no position from the scan position on, `findall` returns nothing. |
| LeakClassifier.FindLinksFromNonEmptyIff | bot.py:348-349 | The scan from a position returns something exactly when the pattern matches at some position from there on. |
| LeakClassifier.FindLinksNonEmptyIff | bot.py:348-349 | `findall` returns a non-empty list exactly when `search` of the same pattern succeeds. |
| LeakClassifier.TelegramLinkIsLink | bot.py:347 | Every text that contains a NORMAL-mode `t.me/` link (bot.py:303) also contains an ULTRA-mode link. |
| LeakClassifier.TelegramChannelLinkMatches | bot.py:303 | The optional `c/` of the Telegram pattern adds no match: `t.me/c/` followed by a class character is already a match of `TelegramLinkAt`. |
| LeakClassifier.HasTelegramLinkIffSomewhere | bot.py:303-304 | `HasTelegramLink`, the `re.search` of the NORMAL pattern, holds exactly when the pattern matches at some position of the text. |
| LeakClassifier.HasLinkIffSomewhere | bot.py:347-349 | `HasLink`, the search of the ULTRA pattern, holds exactly when `LinkAt` holds at some position of the text. |
| LeakClassifier.ScreenshotScore | bot.py:383-399 | The score is the sum of the reply-age part (30), the emoji part (40) and the media part (20). It is at most 90, so the clamp to 100 never applies. It exceeds 75 exactly when all three parts fire. |
| LeakClassifier.UltraRawScore | bot.py:403-425 | The unscaled ULTRA score is 0 or at least 15, and at least 15 for any message with media. |
| LeakClassifier.ScreenshotScoreUltra | bot.py:401-427 | The score is at most 100 and at most the raw score times the level, and below 100 it equals that product, so it is `min(raw * level, 100)`. It is 0 when no indicator fires, and at least `min(15 * level, 100)` when one does. |
| LeakClassifier.TextOf | bot.py:300-301 | The text the text rules read is the message text when it is non-empty and the caption otherwise. It is empty exactly when both are. |
| LeakClassifier.ChatTitle | bot.py:323 | `chat_title` is never empty. It is the chat's title when there is one. Otherwise it is "Чат " followed by a number that reads back as the chat id. |
| LeakClassifier.ChatForwardDetails | bot.py:293 | The details of a chat forward are "В чат: " followed by the forwarded chat's title, or by "None" when it has none. |
| LeakClassifier.DisplayName | bot.py:297 | The forward target is never empty. It is the username when there is one. Otherwise it is "id" followed by a number that reads back as the user id. |
| LeakClassifier.UserForwardDetails | bot.py:297-298 | The details of a user forward are "Пользователю: " followed by the target's display name. |
| LeakClassifier.CopiedTextDetails | bot.py:310 | The details of a long text are "Скопировал ", a number and " символов", and the number reads back as the length of the text. |
| LeakClassifier.MediaName | bot.py:363 | The media word is "фото" exactly when there is a photo, "видео" exactly when there is a video and no photo, and "документ" otherwise. |
| LeakClassifier.NormalChoice | bot.py:291-310 | The NORMAL if/elif chain picks a chat forward exactly when there is one. It picks a user forward exactly when that is the first forward, and a link exactly when there is no forward and the text has a `t.me/` link. It picks a long text exactly when none of those hold and the text is over 300 characters with a newline. Otherwise it picks nothing. Each outcome carries its details: the forwarded chat's title, the user's display name, the fixed link message, the text length, or nothing. |
| LeakClassifier.UltraChoice | bot.py:335-355 | The ULTRA chain follows the same order with the ULTRA link pattern and a 150-character threshold. A link verdict lists the first three links `findall` returns, joined by ", ". The forward and long-text verdicts carry the same details as in NORMAL mode. |
| LeakClassifier.DetectLeak | bot.py:287-328 | The result is None exactly when there is no forward, no `t.me/` link, no long multi-line text (over 300 characters) and a screenshot score of at most 75. A score above 75 gives a screenshot verdict. Otherwise the order is chat forward, user forward, link, long text. The record carries the message id, the chat id, the caller's timestamp and mode NORMAL. Its `chat_title` is `ChatTitle` of the chat. Its details are the screenshot percentage when the score is above 75, and otherwise those of the chain. |
| LeakClassifier.LabelWithoutSh | bot.py:377 | A label with no `Ш` or `ш` does not contain `скриншот` once lower-cased. |
| LeakClassifier.NamesScreenshotIffScreenshot | bot.py:377 | `'скриншот' in leak_type.lower()` holds for the screenshot label and for no other label. |
| LeakClassifier.DetectLeakUltra | bot.py:330-381 | The same chain with the ULTRA link pattern, a length threshold of 150 and a score threshold of 50. Media is reported exactly when the message has media and nothing else was chosen. `detection_score` is the screenshot score for a screenshot verdict and 85 for any other. `ultra_level` is the level. Its `chat_title` is `ChatTitle` of the chat. Its details are the ULTRA screenshot percentage above 50, "Сохранил " with the media word for a media verdict, and otherwise those of the chain. |
| LeakClassifier.UltraReportsWhatNormalReports | bot.py:287-427 | At any level of at least 1, every message NORMAL mode reports is also reported by ULTRA mode. |
| LeakClassifier.UltraLevelFiveAnyIndicatorIsScreenshot | bot.py:357-360 | At level 5, any message with a screenshot indicator is reported as a screenshot, even when it is also a forward or holds a link. |
| LeakClassifier.UltraLevelFiveNeverReportsMedia | bot.py:362-366 | At level 5 the "СОХРАНЕНИЕ МЕДИА" fallback is never the verdict. |
| LeakTracker.Recorded | bot.py:430-433 | After the append and truncation, the history holds `min(n + 1, 50)` entries. The new leak is last, and before it come the most recent earlier entries, in order. |
| LeakTracker.LatestAfterRecord | bot.py:430-433 | Recording one more leak into the 50 most recent leaks gives the 50 most recent leaks of the longer list. |
| LeakTracker.RecordAllKeepsLatest | bot.py:430-433 | After any sequence of leaks, the history is exactly the 50 most recent of them, oldest first. |
| LeakTracker.CountAfterSightings | bot.py:269-280 | After a user is seen `n` times, their `message_count` is `n - 1`. `first_seen` is the first time and `last_seen` the last. |
| LeakTracker.FirstSighting | bot.py:269-277 | A new record has count 0 and both timestamps set to now. Its username is the sender's when non-empty and is never empty (`id<n>` otherwise). Absent names become "". |
| LeakTracker.SeenAgain | bot.py:278-280 | Seeing a known user raises the count by exactly 1 and sets `last_seen`. Names and `first_seen` are unchanged. |
| LeakTracker.Monitored | bot.py:263-265 | An update without a message is never monitored, nor is a message from a private chat. A message from a group, supergroup or channel always is. |
| LeakTracker.Verdict | bot.py:282 | The verdict `monitor_messages` acts on is tagged with the current mode and the message id. It carries the ULTRA level exactly in ULTRA mode. |
| LeakTracker.UltraModeMissesNothing | bot.py:282 | Switching the bot to ULTRA mode never silences a verdict that NORMAL mode would give for the same message. |
| LeakTracker.LeakBot.constructor | bot.py:110-120 | The bot starts with no histories, no user records and NORMAL mode. |
| LeakTracker.LeakBot.CalculateScreenshotScore | bot.py:383-399 | Adding up the parts step by step gives the NORMAL screenshot score. |
| LeakTracker.LeakBot.CalculateScreenshotScoreUltra | bot.py:401-427 | Adding up the ULTRA parts and scaling by the bot's level gives the ULTRA screenshot score. |
| LeakTracker.LeakBot.HandleLeak | bot.py:429-433 | Only the user's history changes. It becomes the bounded append of the leak, and every history stays within 50 entries. |
| LeakTracker.LeakBot.CountSighting | bot.py:269-280 | The sender's first sighting creates its record with count 0. A later sighting adds 1 to the count and sets `last_seen`. The leak histories and the mode are unchanged. |
| LeakTracker.LeakBot.MonitorMessage | bot.py:262-285 | A missing message or a private chat changes nothing. Otherwise the sender's record is created with count 0, or its count rises by 1 and `last_seen` is set. The message is classified in the current mode, and a reported leak is recorded. The count stays equal to the number of sightings minus one. |
| LeakTracker.LeakBot.ToggleUltra | bot.py:589-596 | An allowed requester flips the mode. Anyone else changes nothing. |
| LeakTracker.LeakBot.Clear | bot.py:578-587 | An allowed requester empties the histories and the user records. Anyone else changes nothing. |

## Left out

- Network I/O is not modelled:
  - the alert messages, command replies, the self-ping and keep-alive;
  - the Flask routes and webhook setup;
  - telegram_listener.py, which only formats and sends an alert.

  `AlertRecipients` and `HandleUpdate` return the ids an alert goes to instead of sending it.
- JSON persistence (`save`/`load`, `save_data`/`load_data`) is not modelled.
  - Both stores start empty, as they do when there is no saved file.
  - After a reload from JSON, user-id keys become strings. This is not captured.
- Background threads, the polling loop and the auto-save counter are not modelled: they only schedule work.
- `datetime.now()` is an opaque `now` string passed in by the caller.
- Text.Lower: lower-cases only ASCII, Latin-1 and basic Cyrillic capitals (including Ё and the other Ѐ-Џ letters). Python's `str.lower()` covers all of Unicode, which is not modelled. Every keyword and phrase in the tables is already lower case.
- Text.IsDigit: accepts only the ASCII digits 0-9. Python's `str.isdigit()` also accepts other Unicode digits, such as superscripts and Arabic-Indic digits.
- `Storage.chats` is never read or written by the modelled code.
- LeakTracker.LeakBot.MonitorMessage: assumes every monitored message has a sender (`msg.from_user`). A message without one makes the source raise an exception, which is not modelled.
- LeakTracker.LeakBot.Clear: does not model the count of removed leaks in the reply text.
- KeywordDetector.DetectLeaks: states the order of `leak_types` only as "no duplicates, same members", because `list(set(...))` has no fixed order.
- LeakClassifier.DetectLeak: the reply age is an integer number of seconds; the source's `total_seconds()` float is not modelled.
- The alert messages and command replies are not modelled. The `details` texts and chat titles of the leak records are modelled as the source builds them, and a missing forwarded-chat title renders as `None`.
