/**
 * The bot's process-wide table of running reminders and the four handlers
 * that read and change it. Each handler is proved to do to the table what
 * the matching function of Sessions does to its value, and to keep the
 * table's invariant: every job still running is the one recorded for its
 * owner, so no user ever has two.
 */
module ReminderBot {
  import opened Options
  import opened Config
  import opened Messages
  import opened Sessions

  /** A repeating job as the job queue creates it; only its cancelled flag ever changes. */
  class Job {
    const owner: UserId
    const chatId: ChatId
    const timeFrame: string
    const intervalSeconds: nat
    const firstSeconds: nat
    var cancelled: bool

    constructor (owner: UserId, chatId: ChatId, timeFrame: string, intervalSeconds: nat, firstSeconds: nat)
      ensures this.owner == owner && this.chatId == chatId && this.timeFrame == timeFrame
      ensures this.intervalSeconds == intervalSeconds && this.firstSeconds == firstSeconds
      ensures !cancelled
    {
      this.owner := owner;
      this.chatId := chatId;
      this.timeFrame := timeFrame;
      this.intervalSeconds := intervalSeconds;
      this.firstSeconds := firstSeconds;
      cancelled := false;
    }

    /** What the job was scheduled with. */
    function View(): Session {
      Session(chatId, timeFrame, intervalSeconds, firstSeconds)
    }

    /** Stops the job: it never fires again. */
    method Cancel()
      modifies this
      ensures cancelled
    {
      cancelled := true;
    }
  }

  /** The table of running reminders, one job per user. */
  class ReminderTable {
    var active: map<UserId, Job>
    /** Every job this table ever had scheduled, running or cancelled. */
    ghost var scheduled: set<Job>

    ghost predicate Valid()
      reads this, scheduled
    {
      && active.Values <= scheduled
      && (forall u :: u in active ==> active[u].owner == u && !active[u].cancelled)
      && (forall j :: j in scheduled && !j.cancelled ==> j.owner in active && active[j.owner] == j)
      && Consistent(View())
    }

    /** The table as a value: what each user's job was scheduled with. */
    function View(): Table
      reads this
    {
      map u | u in active :: active[u].View()
    }

    /** The job a handler for `user` may stop. */
    function JobOf(user: UserId): set<Job>
      reads this
    {
      if user in active then {active[user]} else {}
    }

    constructor ()
      ensures Valid() && active == map[] && scheduled == {}
    {
      active := map[];
      scheduled := {};
    }

    /** The cancel button and the /cancel command. */
    method Cancel(user: UserId) returns (reply: Reply)
      requires Valid()
      modifies this, JobOf(user)
      ensures Valid()
      ensures (View(), reply) == Sessions.Cancel(old(View()), user)
      ensures user in old(active) ==> old(active[user]).cancelled
      ensures active == old(active) - {user} && scheduled == old(scheduled)
    {
      if user in active {
        var job := active[user];
        job.Cancel();
        active := active - {user};
        reply := Cancelled;
        assert View() == old(View()) - {user};
      } else {
        reply := NothingToCancel;
      }
    }

    /**
     * A press of an inline button carrying `data`, by `user` in chat `chat`:
     * the cancel button, an interval button, or anything else.
     */
    method HandleCallback(user: UserId, chat: ChatId, data: string) returns (reply: Reply)
      requires Valid()
      modifies this, JobOf(user)
      ensures Valid()
      ensures (View(), reply) == Sessions.Select(old(View()), user, chat, data)
      ensures user in old(active) && reply != Ignored ==> old(active[user]).cancelled
      ensures reply == Ignored ==> active == old(active)
      ensures reply.Set? ==> user in active && fresh(active[user])
      ensures scheduled == old(scheduled) + (if reply.Set? then {active[user]} else {})
      ensures forall v :: v != user ==> (v in active <==> v in old(active))
      ensures forall v :: v != user && v in active ==> active[v] == old(active[v])
    {
      if data == CancelData {
        reply := Cancel(user);
        return;
      }
      var timeFrame := TimeFrameOf(data);
      if timeFrame in TimeFrames {
        if user in active {
          active[user].Cancel();
        }
        var minutes := TimeFrames[timeFrame];
        var job := new Job(user, chat, timeFrame, minutes * 60, minutes * 60);
        active := active[user := job];
        scheduled := scheduled + {job};
        reply := Set(timeFrame, minutes);
        assert View() == old(View())[user := NewSession(chat, timeFrame)];
      } else {
        reply := Ignored;
      }
    }

    /** The /status command; it changes nothing. */
    method Status(user: UserId) returns (reply: Reply)
      requires Valid()
      ensures reply == Sessions.Status(View(), user)
      ensures reply.Active? ==> reply.timeFrame in TimeFrames
    {
      if user in active {
        reply := Active(active[user].timeFrame);
      } else {
        reply := Inactive;
      }
    }

    /**
     * One firing of `job`: it delivers to the job's chat, and the text is pool
     * message `pick` followed by the job's interval code. When delivery fails the owner's reminder is
     * stopped and removed. The owner is the job's own field: this follows the
     * intent of the cleanup at reminder_bot.py:153-156, not the lookup at
     * line 136, which OwnerFromJobData models as written.
     */
    method SendReminder(job: Job, pick: nat, delivered: bool) returns (chat: ChatId, text: string)
      requires Valid() && pick < |ReminderMessages|
      modifies this, JobOf(job.owner)
      ensures Valid()
      ensures chat == job.chatId && text == ReminderBody(pick, job.timeFrame)
      ensures View() == AfterDelivery(old(View()), job.owner, delivered)
      ensures !delivered && job in old(scheduled) && !old(job.cancelled) ==> job.cancelled
      ensures !delivered && job.owner in old(active) ==> old(active[job.owner]).cancelled
      ensures active == (if delivered then old(active) else old(active) - {job.owner})
      ensures scheduled == old(scheduled)
    {
      chat, text := job.chatId, ReminderBody(pick, job.timeFrame);
      if !delivered {
        var owner := job.owner;
        if owner in active {
          active[owner].Cancel();
          active := active - {owner};
          assert View() == old(View()) - {owner};
        } else {
          assert View() == old(View()) - {owner};
        }
      }
    }
  }

  // ----------------------------------------- the owner lookup as written

  /** The `data` payload the selection handler gives a new job: the interval code only. */
  function JobDataAsWritten(timeFrame: string): map<string, string> {
    map["time_frame" := timeFrame]
  }

  /** A firing reads the owner from the payload; None stands for the missing key. */
  function OwnerFromJobData(data: map<string, string>): Option<string> {
    if "user_id" in data then Some(data["user_id"]) else None
  }

  /** The outcome of one firing of the handler as written. */
  datatype FiringAsWritten = KeyMissing(key: string) | Sent(text: string) | FailedAndCleaned(text: string)

  function FireAsWritten(data: map<string, string>, pick: nat, delivered: bool): FiringAsWritten
    requires pick < |ReminderMessages|
  {
    match OwnerFromJobData(data)
    case None => KeyMissing("user_id")
    case Some(_) =>
      if "time_frame" !in data then KeyMissing("time_frame")
      else if delivered then Sent(ReminderBody(pick, data["time_frame"]))
      else FailedAndCleaned(ReminderBody(pick, data["time_frame"]))
  }

  /**
   * As written, every job the bot creates fails at the owner lookup, before
   * anything is sent and before the failure cleanup can run.
   */
  lemma OwnerLookupFails(timeFrame: string, pick: nat, delivered: bool)
    requires pick < |ReminderMessages|
    ensures OwnerFromJobData(JobDataAsWritten(timeFrame)) == None
    ensures FireAsWritten(JobDataAsWritten(timeFrame), pick, delivered) == KeyMissing("user_id")
  {
  }

  // -------------------------------------------------------- a client

  /** Choosing 5m, then 1h: the first job is stopped and status follows each choice. */
  method ScenarioReselect(user: UserId, chat: ChatId)
  {
    var table := new ReminderTable();
    ButtonDataSelects("5m");
    var r := table.HandleCallback(user, chat, ButtonTag + "5m");
    assert r == Set("5m", 5);
    var first := table.active[user];
    r := table.Status(user);
    assert r == Active("5m");
    ButtonDataSelects("1h");
    r := table.HandleCallback(user, chat, ButtonTag + "1h");
    assert first.cancelled && table.active[user] != first;
    r := table.Status(user);
    assert r == Active("1h");
  }

  /** A failed delivery ends one user's reminder and leaves another's running. */
  method ScenarioFailure(user: UserId, other: UserId, chat: ChatId)
    requires user != other
  {
    var table := new ReminderTable();
    ButtonDataSelects("1m");
    var r := table.HandleCallback(other, chat, ButtonTag + "1m");
    r := table.HandleCallback(user, chat, ButtonTag + "1m");
    var job := table.active[user];
    assert table.View()[user] == job.View();
    assert job.chatId == chat && job in table.scheduled && !job.cancelled;
    var to, text := table.SendReminder(job, 2, false);
    assert to == chat && job.cancelled;
    r := table.Status(user);
    assert r == Inactive;
    r := table.Status(other);
    assert r == Active("1m");
  }

  /** Cancelling twice: the second cancel finds nothing. */
  method ScenarioCancelTwice(user: UserId, chat: ChatId)
  {
    var table := new ReminderTable();
    ButtonDataSelects("30m");
    var r := table.HandleCallback(user, chat, ButtonTag + "30m");
    r := table.Cancel(user);
    assert r == Cancelled;
    r := table.Cancel(user);
    assert r == NothingToCancel;
  }
}
