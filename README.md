# Reminder bot: the per-user reminder table

A Telegram bot meant to send each user a repeating reminder. A user presses
one of four interval buttons (1 minute, 5 minutes, 30 minutes, 1 hour). The
bot then schedules a repeating job. The job is meant to post one of five stock
messages every interval, to the chat where the button was pressed (in a group,
that is the group). The first post is meant to come one full interval later.
As written, every firing stops at line 136 before it sends anything (see
"## Findings"). The bot keeps one process-wide dictionary, `active_reminders`,
from user id to that user's job. Four handlers read and change it:

- the button handler, which either cancels or starts a reminder, replacing any earlier one;
- `/cancel`;
- `/status`;
- the job callback, which is meant to drop the user's entry when a delivery fails. As written it never reaches that cleanup, because of the same line 136.

The model follows this structure:

- `options.dfy`: `Option`.
- `strings.dfy` (`Strings`): Python's `str.replace` (every non-overlapping occurrence, left to right, including the empty-pattern case). Also `str(n)` for a non-negative integer, with its inverse.
- `config.dfy` (`Config`): the message pool `REMINDER_MESSAGES` and the code table `TIME_FRAMES`, with their exact values.
- `messages.dfy` (`Messages`): each handler's outcome as a `Reply` value, and the exact text each reply is shown as. Also the body of a delivered reminder, with a parser that recovers the pool message and the interval code from it.
- `sessions.dfy` (`Sessions`): the table as a value (`map<UserId, Session>`). Each handler is a function from the old table to the new table and the reply. The lemmas cover replace semantics, unknown codes, cancel and its idempotence, status, failure cleanup and timing. The module also has an event-trace semantics, with lemmas that consistency is preserved and that users are independent.
- `reminder_bot.dfy` (`ReminderBot`): the imperative core.
  - `Job` is a class whose only mutable field is `cancelled`.
  - `ReminderTable` is a class holding `active: map<UserId, Job>` plus a ghost set of every job ever scheduled.
  - Each handler is a method. Its `ensures` ties the new table to the matching `Sessions` function, and it keeps the invariant `Valid()`: every job still running is the entry recorded for its owner. So no user ever has two running timers, and a replaced or cancelled job is stopped.

Interval codes come from callback data by `str.replace("reminder_", "")`. This deletes the tag wherever it occurs, not only at the front, so `"reminder_1mreminder_"` also selects `1m` (`Sessions.TagDeletedAnywhere`). The model's button handler takes any callback data it is given. Only the routing pattern at line 212, which is not modelled, restricts that data to strings starting with the tag or with `cancel_reminder`.

`reminder_bot.py` has no custom reminder text (and so no length limit on it), no "random reminders" sub-menu, no cancel-setup button and no status reply beyond the interval code. Jobs are scheduled in seconds (`minutes * 60`).

## Model

| member | source | states |
|---|---|---|
| Strings.Replace | reminder_bot.py:98 | `str.replace` over the whole string; with a non-empty pattern and a replacement no longer than it, the result is never longer than the input |
| Strings.ReplaceWithoutOccurrence | reminder_bot.py:98 | a string in which the pattern never occurs is returned unchanged |
| Strings.ReplaceAtStart | reminder_bot.py:98 | a leading occurrence is replaced and the scan resumes right after it |
| Strings.ReplaceSkipsStretch | reminder_bot.py:98 | a stretch without the pattern's first character is copied unchanged and the scan continues after it |
| Strings.ReplaceBySelf | reminder_bot.py:98 | replacing a pattern by itself is the identity, for every string and pattern, the empty one included |
| Strings.DecimalString | reminder_bot.py:121 | `{minutes}` renders a non-empty string of decimal digits with no leading zero |
| Strings.DecimalRoundTrip | reminder_bot.py:121 | reading the rendered digits back yields the number rendered |
| Strings.DecimalStringInjective | reminder_bot.py:121 | different minute counts are rendered differently |
| Config.IntervalSeconds | reminder_bot.py:106-110 | the interval and first delay of a code are a whole number of minutes, the code's `TIME_FRAMES` value, and at least 60 seconds |
| Config.IntervalTable | reminder_bot.py:31-36 | the codes are exactly 1m, 5m, 30m, 1h, scheduling 60, 300, 1800 and 3600 seconds |
| Config.MessagesStartApart | reminder_bot.py:18-28 | the five pool messages open with five different characters |
| Messages.ReplyTextOpens | reminder_bot.py:87-178 | every reply except an ignored callback is shown, and its first character identifies which kind of reply it is |
| Messages.ConfirmationsDistinct | reminder_bot.py:118-124 | the confirmations of two interval codes are equal only when the codes are |
| Messages.ReplyTextsDistinct | reminder_bot.py:87-178 | two replies shown by the same text are the same reply, confirmations included when they carry a valid code and its minutes |
| Messages.StatusTextRoundTrip | reminder_bot.py:169-178 | the status text of an active reminder carries exactly its interval code, and no other reply reads as an active status |
| Messages.ConfirmationPlural | reminder_bot.py:121 | the confirmation says "minute" for 1m and "minutes" for 5m, 30m and 1h |
| Messages.ReminderBodyRoundTrip | reminder_bot.py:139-143 | a delivered text determines both the pool message chosen and the job's interval code |
| Sessions.SelectValidCode | reminder_bot.py:100-116 | a valid code leaves exactly one entry for the user (added or replaced), holding the chosen code, interval and first delay `60 * minutes` and the press's chat; the reply is Set with the code's minutes |
| Sessions.SelectUnknownCode | reminder_bot.py:97-100 | data whose stripped code is not in `TIME_FRAMES` changes nothing, and no message is edited |
| Sessions.ButtonDataSelects | reminder_bot.py:41-56 | each interval button's callback data is not the cancel data and selects exactly its code |
| Sessions.UntaggedDataUnchanged | reminder_bot.py:98 | data in which the tag cannot start anywhere is read as itself |
| Sessions.CancelDataIsNoCode | reminder_bot.py:87-98 | `cancel_reminder` is never read as an interval code |
| Sessions.CodeHasNoTagLetter | reminder_bot.py:31-36 | no interval code contains the tag's first letter |
| Sessions.TagDeletedAnywhere | reminder_bot.py:98 | for every interval code, the tag after the code, or tags on both sides, are deleted and the code is selected |
| Sessions.CancelSemantics | reminder_bot.py:158-167 | cancel removes exactly the user's entry and replies Cancelled when there is one, and otherwise leaves the table as it was and replies NothingToCancel |
| Sessions.CancelIdempotent | reminder_bot.py:158-167 | a second cancel replies NothingToCancel and leaves the table as the first left it |
| Sessions.StatusSemantics | reminder_bot.py:169-178 | status is Active(tf) exactly when the user has an entry with code tf, and Inactive exactly when the user has none |
| Sessions.DeliverySemantics | reminder_bot.py:145-156 | a failed delivery leaves the owner without an entry and every other user's entry as it was; a successful one changes nothing |
| Sessions.FirstFiringNotImmediate | reminder_bot.py:106-110 | in a consistent table every first delay equals its interval, which is at least 60 seconds |
| Sessions.OthersUntouched | reminder_bot.py:79-178 | no event keyed by one user changes another user's entry |
| Sessions.NextConsistent | reminder_bot.py:100-116 | every event keeps each entry's timing the one its code fixes |
| Sessions.RunConsistent | reminder_bot.py:79-178 | any sequence of events from a consistent table yields a consistent table |
| Sessions.RunIsolation | reminder_bot.py:79-178 | a user's entry after any sequence of events is the one that user's own events alone produce |
| Sessions.SelectThenStatus | reminder_bot.py:169-178 | pressing 5m and then asking for status reports an active 5m reminder |
| Sessions.FailedDeliveryThenStatus | reminder_bot.py:151-156 | after a failed delivery the owner's status is Inactive |
| Sessions.ReselectKeepsOne | reminder_bot.py:100-116 | pressing 1m and then 1h leaves one entry, the 1h one, and the same set of users |
| Config.ReminderMessages | reminder_bot.py:18-28 | the five pool texts, verbatim; properties: MessagesStartApart, ReminderBodyRoundTrip |
| Config.TimeFrames | reminder_bot.py:31-36 | code to minutes; properties: IntervalTable, IntervalSeconds |
| Messages.PluralSuffix | reminder_bot.py:121 | "s" when minutes exceed one, else empty; property: ConfirmationPlural |
| Messages.ConfirmationText | reminder_bot.py:118-124 | the confirmation text with the code, `str(minutes)` and the plural; properties: DecimalRoundTrip, DecimalStringInjective, ConfirmationPlural |
| Messages.ReplyText | reminder_bot.py:87-178 | the text each reply is shown as (lines 92, 94, 126, 165, 167, 176, 178); nothing for an ignored press; properties: ReplyTextOpens, ReplyTextsDistinct, StatusTextRoundTrip |
| Messages.ReminderBody | reminder_bot.py:140-143 | pool message, the interval note, then the code; property: ReminderBodyRoundTrip |
| Sessions.TimeFrameOf | reminder_bot.py:98 | the code read from callback data by deleting every tag; properties: ButtonDataSelects, CancelDataIsNoCode, UntaggedDataUnchanged, TagDeletedAnywhere |
| Sessions.NewSession | reminder_bot.py:106-114 | the session a valid code schedules: the press's chat, the code, both interval and first delay `60 * minutes`; properties: SelectValidCode, FirstFiringNotImmediate |
| Sessions.Select | reminder_bot.py:79-130 | the button handler on the table value; properties: SelectValidCode, SelectUnknownCode, ButtonDataSelects, OthersUntouched, NextConsistent, ReselectKeepsOne |
| Sessions.Cancel | reminder_bot.py:158-167 | cancel on the table value, shared by the button (lines 87-95) and `/cancel`; properties: CancelSemantics, CancelIdempotent, OthersUntouched |
| Sessions.Status | reminder_bot.py:169-178 | status on the table value; properties: StatusSemantics, SelectThenStatus, FailedDeliveryThenStatus |
| Sessions.AfterDelivery | reminder_bot.py:145-156 | the table after a firing, with the owner's entry dropped on failure; properties: DeliverySemantics, FailedDeliveryThenStatus |
| ReminderBot.JobDataAsWritten | reminder_bot.py:113 | the job payload as the handler builds it, holding the code only; property: OwnerLookupFails |
| ReminderBot.OwnerFromJobData | reminder_bot.py:136 | the owner read from a job's payload; None where the key is missing; property: OwnerLookupFails |
| ReminderBot.FireAsWritten | reminder_bot.py:132-156 | a firing as written: the owner lookup first, then the send and cleanup; property: OwnerLookupFails |
| ReminderBot.Job.constructor | reminder_bot.py:107-114 | a new job records owner, chat, code, interval and first delay, and is running |
| ReminderBot.Job.Cancel | reminder_bot.py:90 | a cancelled job is stopped |
| ReminderBot.ReminderTable.constructor | reminder_bot.py:39 | the table starts empty with nothing scheduled |
| ReminderBot.ReminderTable.Cancel | reminder_bot.py:158-167 | the table and reply follow `Sessions.Cancel`; the user's job, if any, is stopped; the invariant is kept |
| ReminderBot.ReminderTable.HandleCallback | reminder_bot.py:79-130 | the table and reply follow `Sessions.Select`; the earlier job is stopped before it is replaced or cancelled; an ignored press leaves the map exactly as it was; a new job is fresh and is the only job added; other users' jobs are the same objects; the invariant is kept |
| ReminderBot.ReminderTable.Status | reminder_bot.py:169-178 | the reply is `Sessions.Status` of the table, and an active reply carries a valid code |
| ReminderBot.ReminderTable.SendReminder | reminder_bot.py:132-156 | delivery goes to the job's chat, and the text is the chosen pool message plus the job's code; on failure the owner's entry is stopped and removed, a running failing job is itself stopped, and nothing else changes |
| ReminderBot.OwnerLookupFails | reminder_bot.py:136 | as written, the owner lookup on every job's data finds no `user_id`, so the firing stops before it sends |

## Findings

| source | as written | input that shows it | evidently intended | confidence | as-written member | corrected member |
|---|---|---|---|---|---|---|
| reminder_bot.py:136 | the job callback reads the owner as `job.data["user_id"]`, but line 113 creates the job with `data={"time_frame": time_frame}`; the user id is passed separately (line 112) | any job created by pressing the "1 Minute" button (data `reminder_1m`): its data is `{"time_frame": "1m"}`, so the lookup raises before the `try` at line 145, no reminder is sent, and the failure cleanup never runs | read the job's own owner (its `user_id`), as the cleanup at lines 153-156 needs | medium (rests on the job queue keeping `data` and `user_id` apart); not executed | ReminderBot.OwnerLookupFails | ReminderBot.ReminderTable.SendReminder |

`ReminderBot.ReminderTable.SendReminder` takes the owner from `Job.owner`, which the selection handler sets. This follows the intent of lines 153-156.

## Left out

- Telegram transport: `reply_text`, `edit_message_text`, `send_message`, `query.answer`, the inline keyboard (`get_reminder_keyboard`) and Markdown rendering. These are library calls; handlers return a `Reply` instead, and `Messages.ReplyText` gives its text.
- Job-queue timing and asyncio. A job is a record with a `cancelled` flag and no clock. A failed delivery that interleaves with a new selection by the same user is not modelled. Like the source, the cleanup removes whichever entry the owner has at that moment.
- The job queue's own `.cancel()` (lines 90, 103, 155, 163) is modelled as setting the job's `cancelled` flag. The job-queue library is not part of this model.
- `random.choice`: modelled as an arbitrary index `pick < 5` passed to `SendReminder`. The delivery outcome is the parameter `delivered`.
- The `print` of the failure reason (line 152), logging setup, `BOT_TOKEN`, `main`, handler registration, and the routing pattern at line 212. These are configuration and library dispatch.
- The static texts of `start` and `help_command`. They contain no logic.
