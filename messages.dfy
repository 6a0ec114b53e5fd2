/**
 * What the bot says: the outcome of each handler as a value, the text each
 * outcome is shown as, and the body of a reminder delivery.
 */
module Messages {
  import opened Options
  import opened Strings
  import opened Config

  /** The outcome of one handler call, in place of the message it edits or sends. */
  datatype Reply =
    | Cancelled                                 // a reminder was stopped
    | NothingToCancel                           // cancel asked, nothing was active
    | Set(timeFrame: string, minutes: nat)      // a reminder was (re)started
    | Active(timeFrame: string)                 // status: a reminder is running
    | Inactive                                  // status: nothing is running
    | Ignored                                   // unknown callback data: no message is edited

  const CancelledText := "✅ Reminder cancelled!"
  const NothingToCancelText := "❌ No active reminder found!"
  const ActivePrefix := "🟢 Active reminder set for every "
  const InactiveText := "🔴 No active reminder. Use /start to set one!"

  /** The "s" that makes "minute" plural. */
  function PluralSuffix(minutes: int): string {
    if minutes > 1 then "s" else ""
  }

  /** The confirmation shown when a reminder is set. */
  function ConfirmationText(timeFrame: string, minutes: nat): string {
    "\n✅ **Reminder Set!** ✅\n\n" +
    "I'll send you reminders every **" + timeFrame + "** starting in " +
    DecimalString(minutes) + " minute" + PluralSuffix(minutes) + ".\n\n" +
    "You can cancel anytime using the \"Cancel Reminder\" button.\n        "
  }

  /** The text a reply is shown as; for an ignored callback no message is edited. */
  function ReplyText(reply: Reply): Option<string> {
    match reply
    case Cancelled => Some(CancelledText)
    case NothingToCancel => Some(NothingToCancelText)
    case Set(tf, minutes) => Some(ConfirmationText(tf, minutes))
    case Active(tf) => Some(ActivePrefix + tf)
    case Inactive => Some(InactiveText)
    case Ignored => None
  }

  /** The interval code a status text reports, if it reports one. */
  function ReportedTimeFrame(text: string): Option<string> {
    if StartsWith(text, ActivePrefix) then Some(text[|ActivePrefix|..]) else None
  }

  /** The first character of each shown reply: one per kind of outcome. */
  function OpeningChar(reply: Reply): char {
    match reply
    case Cancelled => '✅'
    case NothingToCancel => '❌'
    case Set(_, _) => '\n'
    case Active(_) => '🟢'
    case Inactive => '🔴'
    case Ignored => ' '   // unused: an ignored press shows no text
  }

  lemma ReplyTextOpens(reply: Reply)
    requires reply != Ignored
    ensures ReplyText(reply).Some? && ReplyText(reply).value != []
    ensures ReplyText(reply).value[0] == OpeningChar(reply)
  {
  }

  /** The confirmations of two interval codes are different texts. */
  lemma ConfirmationsDistinct(a: string, b: string)
    requires a in TimeFrames && b in TimeFrames
    requires ConfirmationText(a, TimeFrames[a]) == ConfirmationText(b, TimeFrames[b])
    ensures a == b
  {
    var p := "\n✅ **Reminder Set!** ✅\n\n" + "I'll send you reminders every **";
    var ta, tb := ConfirmationText(a, TimeFrames[a]), ConfirmationText(b, TimeFrames[b]);
    assert ta[|p|] == a[0] && ta[|p| + 1] == a[1];
    assert tb[|p|] == b[0] && tb[|p| + 1] == b[1];
  }

  /**
   * Every reply but an ignored one is shown, and different replies are shown
   * differently; confirmations are compared for the codes and minutes the
   * button handler produces.
   */
  lemma ReplyTextsDistinct(a: Reply, b: Reply)
    requires ReplyText(a) == ReplyText(b)
    requires a.Set? ==> a.timeFrame in TimeFrames && a.minutes == TimeFrames[a.timeFrame]
    requires b.Set? ==> b.timeFrame in TimeFrames && b.minutes == TimeFrames[b.timeFrame]
    ensures a == b
  {
    if a != Ignored && b != Ignored {
      ReplyTextOpens(a);
      ReplyTextOpens(b);
      if a.Set? && b.Set? {
        ConfirmationsDistinct(a.timeFrame, b.timeFrame);
      }
      if a.Active? && b.Active? {
        StatusTextRoundTrip(a);
        StatusTextRoundTrip(b);
      }
    }
  }

  /** A status text names exactly the interval code of the running reminder, and only an Active reply is read as one. */
  lemma StatusTextRoundTrip(reply: Reply)
    requires reply != Ignored
    ensures ReportedTimeFrame(ReplyText(reply).value) ==
            (if reply.Active? then Some(reply.timeFrame) else None)
  {
    if reply.Active? {
      assert (ActivePrefix + reply.timeFrame)[..|ActivePrefix|] == ActivePrefix;
    } else {
      ReplyTextOpens(reply);
      var text := ReplyText(reply).value;
      assert ActivePrefix[0] == '🟢';
      assert !StartsWith(text, ActivePrefix) by {
        if |ActivePrefix| <= |text| {
          assert text[..|ActivePrefix|][0] != ActivePrefix[0];
        }
      }
    }
  }

  /** The confirmation says "minute" for one minute and "minutes" for every longer interval. */
  lemma ConfirmationPlural(timeFrame: string)
    requires timeFrame in TimeFrames
    ensures PluralSuffix(TimeFrames[timeFrame]) == (if timeFrame == "1m" then "" else "s")
  {
  }

  /** The line a delivery appends to the chosen pool message. */
  const IntervalNote := "\n\n⏱️ Reminder interval: "

  /** The text one firing delivers: pool message number `pick`, then the job's interval code. */
  function ReminderBody(pick: nat, timeFrame: string): string
    requires pick < |ReminderMessages|
  {
    ReminderMessages[pick] + IntervalNote + timeFrame
  }

  /** Which pool message, and which interval code, a delivered text carries. */
  function ParseReminderBody(text: string): Option<(nat, string)> {
    ParseFrom(text, 0)
  }

  function ParseFrom(text: string, i: nat): Option<(nat, string)>
    decreases |ReminderMessages| - i
  {
    if i >= |ReminderMessages| then None
    else
      var head := ReminderMessages[i] + IntervalNote;
      if StartsWith(text, head) then Some((i, text[|head|..])) else ParseFrom(text, i + 1)
  }

  /** A delivered text determines the pool message and the interval code it was built from. */
  lemma ReminderBodyRoundTrip(pick: nat, timeFrame: string)
    requires pick < |ReminderMessages|
    ensures ParseReminderBody(ReminderBody(pick, timeFrame)) == Some((pick, timeFrame))
  {
    ParseSkipsEarlier(ReminderBody(pick, timeFrame), pick, timeFrame, 0);
  }

  lemma {:induction false} ParseSkipsEarlier(text: string, pick: nat, timeFrame: string, i: nat)
    requires pick < |ReminderMessages| && i <= pick
    requires text == ReminderBody(pick, timeFrame)
    ensures ParseFrom(text, i) == Some((pick, timeFrame))
    decreases pick - i
  {
    var head := ReminderMessages[i] + IntervalNote;
    if i < pick {
      MessagesStartApart(i, pick);
      assert text[0] == ReminderMessages[pick][0];
      assert head[0] == ReminderMessages[i][0];
      assert !StartsWith(text, head) by {
        if |head| <= |text| {
          assert text[..|head|][0] != head[0];
        }
      }
      ParseSkipsEarlier(text, pick, timeFrame, i + 1);
    } else {
      assert text == head + timeFrame;
      assert text[..|head|] == head;
      assert text[|head|..] == timeFrame;
    }
  }
}
