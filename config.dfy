/** The bot's two fixed tables: the reminder message pool and the interval codes. */
module Config {

  const FriendlyReminder := "⏰ **Friendly Reminder!** ⏰" + "\n\n" +
    "Don't forget to take a break and stretch! Your productivity will thank you. 💪"
  const ReminderAlert := "🔔 **Reminder Alert!** 🔔" + "\n\n" +
    "Time to check your tasks and stay hydrated! 🚰 Remember: small consistent actions lead to big results. 🌟"
  const QuickUpdate := "📢 **Quick Update Reminder!** 📢" + "\n\n" +
    "Take a moment to review your progress. Celebrate small wins! 🎉 You're doing great!"
  const Mindfulness := "🌅 **Mindfulness Reminder** 🌅" + "\n\n" +
    "Pause for a minute. Breathe deeply. Reset your focus. You've got this! ✨"
  const ProductivityBoost := "🚀 **Productivity Boost Reminder!** 🚀" + "\n\n" +
    "Time to tackle that next task! Remember: progress over perfection. 📈"

  /** The five reminder texts a firing chooses from, in the bot's order. */
  const ReminderMessages: seq<string> := [FriendlyReminder, ReminderAlert, QuickUpdate, Mindfulness, ProductivityBoost]

  /** Interval code to interval length in minutes. */
  const TimeFrames: map<string, nat> := map["1m" := 1, "5m" := 5, "30m" := 30, "1h" := 60]

  /**
   * The seconds a job waits before its first firing and between firings:
   * a whole number of minutes, and never less than one minute.
   */
  function IntervalSeconds(timeFrame: string): (s: nat)
    requires timeFrame in TimeFrames
    ensures s >= 60 && s % 60 == 0
    ensures s / 60 == TimeFrames[timeFrame]
  {
    TimeFrames[timeFrame] * 60
  }

  /** The four codes and the seconds each one schedules. */
  lemma IntervalTable()
    ensures TimeFrames.Keys == {"1m", "5m", "30m", "1h"}
    ensures IntervalSeconds("1m") == 60 && IntervalSeconds("5m") == 300
    ensures IntervalSeconds("30m") == 1800 && IntervalSeconds("1h") == 3600
  {
  }

  /** Each pool message opens with its own emoji, so no message is a prefix of another. */
  lemma MessagesStartApart(i: nat, j: nat)
    requires i < |ReminderMessages| && j < |ReminderMessages| && i != j
    ensures ReminderMessages[i] != [] && ReminderMessages[j] != []
    ensures ReminderMessages[i][0] != ReminderMessages[j][0]
  {
    assert FriendlyReminder[0] == '⏰' && ReminderAlert[0] == '🔔' && QuickUpdate[0] == '📢';
    assert Mindfulness[0] == '🌅' && ProductivityBoost[0] == '🚀';
  }
}
