/**
 * The reminder table as a value: each user with a running reminder mapped to
 * what its job was scheduled with, and each handler as a function from the
 * table before to the table after and the reply. The class in ReminderBot is
 * proved to follow these functions; the lemmas here state what they promise.
 */
module Sessions {
  import opened Options
  import opened Strings
  import opened Config
  import opened Messages

  type UserId = int
  type ChatId = int

  /** What a job was scheduled with: where it delivers, its code and its timing. */
  datatype Session = Session(chatId: ChatId, timeFrame: string, intervalSeconds: nat, firstSeconds: nat)

  /** At most one session per user, by construction of the map. */
  type Table = map<UserId, Session>

  /** The callback data of the cancel button. */
  const CancelData := "cancel_reminder"

  /** The tag the interval buttons put in front of their code. */
  const ButtonTag := "reminder_"

  /** The interval code read from callback data: every occurrence of the tag is deleted, not only a leading one. */
  function TimeFrameOf(data: string): string {
    Replace(data, ButtonTag, "")
  }

  /** The session a valid code schedules: the first firing one full interval after activation, then one per interval. */
  function NewSession(chat: ChatId, timeFrame: string): Session
    requires timeFrame in TimeFrames
  {
    Session(chat, timeFrame, IntervalSeconds(timeFrame), IntervalSeconds(timeFrame))
  }

  /** A session whose timing is the one its code fixes. */
  predicate WellFormed(s: Session) {
    && s.timeFrame in TimeFrames
    && s.intervalSeconds == IntervalSeconds(s.timeFrame)
    && s.firstSeconds == s.intervalSeconds
  }

  predicate Consistent(t: Table) {
    forall u :: u in t ==> WellFormed(t[u])
  }

  function Entry(t: Table, u: UserId): Option<Session> {
    if u in t then Some(t[u]) else None
  }

  // ---------------------------------------------------------------- handlers

  /** The cancel button and the /cancel command. */
  function Cancel(t: Table, user: UserId): (Table, Reply) {
    if user in t then (t - {user}, Cancelled) else (t, NothingToCancel)
  }

  /** A press of an inline button carrying `data`, by `user` in chat `chat`. */
  function Select(t: Table, user: UserId, chat: ChatId, data: string): (Table, Reply) {
    if data == CancelData then Cancel(t, user)
    else
      var timeFrame := TimeFrameOf(data);
      if timeFrame in TimeFrames then
        (t[user := NewSession(chat, timeFrame)], Set(timeFrame, TimeFrames[timeFrame]))
      else
        (t, Ignored)
  }

  /** The /status command. */
  function Status(t: Table, user: UserId): Reply {
    if user in t then Active(t[user].timeFrame) else Inactive
  }

  /** A firing of `owner`'s job: a failed delivery drops the owner's entry, if any. */
  function AfterDelivery(t: Table, owner: UserId, delivered: bool): Table {
    if delivered then t else t - {owner}
  }

  // ------------------------------------------------------- one-call properties

  /** Replace semantics: a valid code leaves exactly the new session for the user, whatever was there. */
  lemma SelectValidCode(t: Table, user: UserId, chat: ChatId, data: string)
    requires data != CancelData && TimeFrameOf(data) in TimeFrames
    ensures var (t', reply) := Select(t, user, chat, data);
      && t'.Keys == t.Keys + {user}
      && t'[user] == Session(chat, TimeFrameOf(data), 60 * TimeFrames[TimeFrameOf(data)], 60 * TimeFrames[TimeFrameOf(data)])
      && reply == Set(TimeFrameOf(data), TimeFrames[TimeFrameOf(data)])
  {
  }

  /** Callback data whose code is unknown changes nothing and is not answered. */
  lemma SelectUnknownCode(t: Table, user: UserId, chat: ChatId, data: string)
    requires data != CancelData && TimeFrameOf(data) !in TimeFrames
    ensures Select(t, user, chat, data) == (t, Ignored)
  {
  }

  /** The interval buttons' own callback data select exactly the code they carry. */
  lemma {:induction false} ButtonDataSelects(code: string)
    requires code in TimeFrames
    ensures ButtonTag + code != CancelData
    ensures TimeFrameOf(ButtonTag + code) == code
  {
    ReplaceAtStart(ButtonTag, code, "");
    NoOccurrence(code, ButtonTag);
    ReplaceWithoutOccurrence(code, ButtonTag, "");
    assert (ButtonTag + code)[0] != CancelData[0];
  }

  /** The pattern cannot occur where no position with room for it holds the pattern's first character. */
  lemma {:induction false} NoOccurrence(s: string, pat: string)
    requires pat != []
    requires forall i :: 0 <= i && i + |pat| <= |s| ==> s[i] != pat[0]
    ensures !Contains(s, pat)
    decreases |s|
  {
    if |pat| <= |s| {
      assert s[..|pat|][0] == s[0];
    }
    if s != [] {
      forall i | 0 <= i && i + |pat| <= |s[1..]|
        ensures s[1..][i] != pat[0]
      {
        assert s[1..][i] == s[i + 1];
      }
      NoOccurrence(s[1..], pat);
    }
  }

  /** Data without the tag's first letter anywhere the tag would fit is read as itself. */
  lemma UntaggedDataUnchanged(data: string)
    requires forall i :: 0 <= i && i + |ButtonTag| <= |data| ==> data[i] != ButtonTag[0]
    ensures TimeFrameOf(data) == data
  {
    NoOccurrence(data, ButtonTag);
    ReplaceWithoutOccurrence(data, ButtonTag, "");
  }

  /** The cancel button's data is not read as an interval code. */
  lemma CancelDataIsNoCode()
    ensures TimeFrameOf(CancelData) !in TimeFrames
  {
    var s := CancelData;
    assert s[0] == 'c' && s[1] == 'a' && s[2] == 'n' && s[3] == 'c';
    assert s[4] == 'e' && s[5] == 'l' && s[6] == '_';
    UntaggedDataUnchanged(s);
  }

  /** No interval code contains the tag's first letter. */
  lemma CodeHasNoTagLetter(code: string)
    requires code in TimeFrames
    ensures forall i :: 0 <= i < |code| ==> code[i] != ButtonTag[0]
  {
    assert ButtonTag[0] == 'r';
  }

  /**
   * The tag is deleted wherever it stands: for every interval code, a tag
   * after the code, or tags on both sides, still select that code.
   */
  lemma {:induction false} TagDeletedAnywhere(code: string)
    requires code in TimeFrames
    ensures TimeFrameOf(code + ButtonTag) == code
    ensures TimeFrameOf(ButtonTag + code + ButtonTag) == code
  {
    CodeHasNoTagLetter(code);
    ReplaceSkipsStretch(code, ButtonTag, ButtonTag, "");
    assert ButtonTag == ButtonTag + [];
    ReplaceAtStart(ButtonTag, [], "");
    assert ButtonTag + code + ButtonTag == ButtonTag + (code + ButtonTag);
    ReplaceAtStart(ButtonTag, code + ButtonTag, "");
  }

  /** Cancel stops and removes the user's reminder if there is one, and otherwise changes nothing. */
  lemma CancelSemantics(t: Table, user: UserId)
    ensures var (t', reply) := Cancel(t, user);
      && t'.Keys == t.Keys - {user}
      && (forall v :: v in t' ==> t'[v] == t[v])
      && (reply == Cancelled <==> user in t)
      && (reply == NothingToCancel <==> user !in t)
      && (user !in t ==> t' == t)
  {
  }

  /** Cancelling twice: the second cancel finds nothing and changes nothing. */
  lemma CancelIdempotent(t: Table, user: UserId)
    ensures var (t1, _) := Cancel(t, user);
      Cancel(t1, user) == (t1, NothingToCancel)
  {
  }

  /** Status reports the stored code exactly when the user has an entry. */
  lemma StatusSemantics(t: Table, user: UserId, timeFrame: string)
    ensures Status(t, user) == Active(timeFrame) <==> user in t && t[user].timeFrame == timeFrame
    ensures Status(t, user) == Inactive <==> user !in t
  {
  }

  /** A failed delivery removes the owner's reminder; a successful one changes nothing. */
  lemma DeliverySemantics(t: Table, owner: UserId, delivered: bool)
    ensures delivered ==> AfterDelivery(t, owner, delivered) == t
    ensures var t' := AfterDelivery(t, owner, false);
      owner !in t' && forall v :: v != owner ==> Entry(t', v) == Entry(t, v)
  {
  }

  /** A session's first firing is one full interval after activation, and an interval is at least a minute. */
  lemma FirstFiringNotImmediate(t: Table, user: UserId)
    requires Consistent(t) && user in t
    ensures t[user].firstSeconds == t[user].intervalSeconds >= 60
  {
  }

  // ------------------------------------------------------------------ traces

  /** Every event the table can see. */
  datatype Event =
    | Callback(user: UserId, chat: ChatId, data: string)
    | CancelCommand(user: UserId)
    | StatusCommand(user: UserId)
    | Firing(owner: UserId, delivered: bool)

  function Subject(e: Event): UserId {
    match e
    case Callback(u, _, _) => u
    case CancelCommand(u) => u
    case StatusCommand(u) => u
    case Firing(u, _) => u
  }

  function Next(t: Table, e: Event): Table {
    match e
    case Callback(u, c, d) => Select(t, u, c, d).0
    case CancelCommand(u) => Cancel(t, u).0
    case StatusCommand(_) => t
    case Firing(u, ok) => AfterDelivery(t, u, ok)
  }

  function Run(t: Table, events: seq<Event>): Table
    decreases |events|
  {
    if events == [] then t else Run(Next(t, events[0]), events[1..])
  }

  function EventsOf(events: seq<Event>, u: UserId): seq<Event>
    decreases |events|
  {
    if events == [] then []
    else (if Subject(events[0]) == u then [events[0]] else []) + EventsOf(events[1..], u)
  }

  /** Every event keyed by a user leaves every other user's entry as it was. */
  lemma OthersUntouched(t: Table, e: Event, v: UserId)
    requires Subject(e) != v
    ensures Entry(Next(t, e), v) == Entry(t, v)
  {
  }

  /** Every event keeps every session's timing the one its code fixes. */
  lemma NextConsistent(t: Table, e: Event)
    requires Consistent(t)
    ensures Consistent(Next(t, e))
  {
  }

  /** From a consistent table, any sequence of events keeps every session's timing fixed by its code. */
  lemma {:induction false} RunConsistent(t: Table, events: seq<Event>)
    requires Consistent(t)
    ensures Consistent(Run(t, events))
    decreases |events|
  {
    if events != [] {
      NextConsistent(t, events[0]);
      RunConsistent(Next(t, events[0]), events[1..]);
    }
  }

  /**
   * Users are independent: a user's entry after any sequence of events is the
   * one that user's own events alone produce.
   */
  lemma {:induction false} RunIsolation(t: Table, events: seq<Event>, u: UserId)
    ensures Entry(Run(t, events), u) == Entry(Run(t, EventsOf(events, u)), u)
  {
    RunAgreeing(t, t, events, u);
  }

  lemma {:induction false} RunAgreeing(t1: Table, t2: Table, events: seq<Event>, u: UserId)
    requires Entry(t1, u) == Entry(t2, u)
    ensures Entry(Run(t1, events), u) == Entry(Run(t2, EventsOf(events, u)), u)
    decreases |events|
  {
    if events != [] {
      var e := events[0];
      if Subject(e) == u {
        assert EventsOf(events, u) == [e] + EventsOf(events[1..], u);
        assert Entry(Next(t1, e), u) == Entry(Next(t2, e), u) by {
          NextAgreeing(t1, t2, e, u);
        }
        RunAgreeing(Next(t1, e), Next(t2, e), events[1..], u);
        assert ([e] + EventsOf(events[1..], u))[1..] == EventsOf(events[1..], u);
      } else {
        assert EventsOf(events, u) == EventsOf(events[1..], u);
        OthersUntouched(t1, e, u);
        RunAgreeing(Next(t1, e), t2, events[1..], u);
      }
    }
  }

  /** An event by `u` affects `u`'s entry only through `u`'s entry. */
  lemma NextAgreeing(t1: Table, t2: Table, e: Event, u: UserId)
    requires Subject(e) == u && Entry(t1, u) == Entry(t2, u)
    ensures Entry(Next(t1, e), u) == Entry(Next(t2, e), u)
  {
  }

  // --------------------------------------------------------------- scenarios

  /** Choosing 5m and then asking for the status reports an active 5m reminder. */
  lemma SelectThenStatus(t: Table, user: UserId, chat: ChatId)
    ensures Status(Select(t, user, chat, ButtonTag + "5m").0, user) == Active("5m")
  {
    ButtonDataSelects("5m");
  }

  /** After a failed delivery the owner's status is inactive. */
  lemma FailedDeliveryThenStatus(t: Table, owner: UserId)
    ensures Status(AfterDelivery(t, owner, false), owner) == Inactive
  {
  }

  /** Choosing a second interval replaces the first; one entry remains. */
  lemma ReselectKeepsOne(t: Table, user: UserId, chat1: ChatId, chat2: ChatId)
    ensures var t1 := Select(t, user, chat1, ButtonTag + "1m").0;
      var t2 := Select(t1, user, chat2, ButtonTag + "1h").0;
      && t2 == t[user := NewSession(chat2, "1h")]
      && t2.Keys == t1.Keys
  {
    ButtonDataSelects("1m");
    ButtonDataSelects("1h");
    var t1 := Select(t, user, chat1, ButtonTag + "1m").0;
    assert t1 == t[user := NewSession(chat1, "1m")];
    assert Select(t1, user, chat2, ButtonTag + "1h").0 == t1[user := NewSession(chat2, "1h")];
  }
}
