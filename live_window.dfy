/** The per-channel message loop of the live report (telegram_chat_summary.py,
    lines 93-140): one pass over the chat history that drops the messages older
    than the window, counts the messages of each day, keeps the distinct senders
    of the day being read in a register that is stored away whenever the day
    changes, and collects the text messages. */
module LiveWindow {
  import opened Wrappers
  import opened Counting

  /** `DAYS_TO_FETCH`. */
  const DaysToFetch: int := 7

  /** The `from_user` of a message: its id and first name. */
  datatype User = User(id: int, firstName: string)

  /** One message of `get_chat_history`: `date` in seconds since the epoch, read
      as UTC; a missing or empty `text` is `""`. */
  datatype HistoryMessage = HistoryMessage(id: int, date: int, fromUser: Option<User>, text: string)

  /** One entry of `messages`; `senderId` is `None` where the source writes `'Unknown'`. */
  datatype Collected = Collected(id: int, date: int, senderId: Option<int>, senderName: string, text: string)

  /** What the loop leaves behind for the rest of the report. */
  datatype Window = Window(
    messages: seq<Collected>,
    participants: set<int>,
    messageCountByDay: map<int, nat>,
    participantCountByDay: map<int, nat>,
    msgCounter: nat,
    filteredCounter: nat)

  /** Line 73: `start_date = now - timedelta(days=DAYS_TO_FETCH)`. */
  function StartDate(now: int): int {
    now - DaysToFetch * SecondsPerDay
  }

  /** Lines 128-136: the entry collected for a text message. */
  function Record(m: HistoryMessage): Collected {
    match m.fromUser
    case Some(u) => Collected(m.id, m.date, Some(u.id), u.firstName, m.text)
    case None => Collected(m.id, m.date, None, "Unknown", m.text)
  }

  // ------------------------------------------------------ what the loop computes

  /** The messages the loop does not skip at line 104, in order. */
  function InWindow(history: seq<HistoryMessage>, start: int): (ms: seq<HistoryMessage>)
    ensures |ms| <= |history|
  {
    if history == [] then []
    else
      var m := history[|history| - 1];
      InWindow(history[..|history| - 1], start) + (if m.date < start then [] else [m])
  }

  /** The `messages` list: a record of each text message, in order. */
  function CollectedOf(ms: seq<HistoryMessage>): (r: seq<Collected>)
    ensures |r| <= |ms|
  {
    if ms == [] then []
    else
      var m := ms[|ms| - 1];
      CollectedOf(ms[..|ms| - 1]) + (if m.text != "" then [Record(m)] else [])
  }

  /** The day of each message, in order: `message_count_by_day` is its histogram. */
  function DayKeys(ms: seq<HistoryMessage>): (days: seq<int>)
    ensures |days| == |ms|
  {
    if ms == [] then [] else DayKeys(ms[..|ms| - 1]) + [Day(ms[|ms| - 1].date)]
  }

  /** The days some message falls on. */
  function DaysIn(ms: seq<HistoryMessage>): set<int> {
    set d | d in DayKeys(ms)
  }

  /** The id `m` adds to the sender sets: its sender's, if it has one. */
  function SenderOf(m: HistoryMessage): set<int> {
    if m.fromUser.Some? then {m.fromUser.value.id} else {}
  }

  /** The `participants` set. */
  function SenderIds(ms: seq<HistoryMessage>): set<int> {
    if ms == [] then {} else SenderIds(ms[..|ms| - 1]) + SenderOf(ms[|ms| - 1])
  }

  /** The senders of the run of day-`d` messages that ends `ms`. */
  function RunTail(ms: seq<HistoryMessage>, d: int): set<int> {
    if ms == [] || Day(ms[|ms| - 1].date) != d then {}
    else RunTail(ms[..|ms| - 1], d) + SenderOf(ms[|ms| - 1])
  }

  /** The senders of the last run of consecutive day-`d` messages in `ms`. */
  function LastRun(ms: seq<HistoryMessage>, d: int): set<int> {
    if ms == [] then {}
    else if Day(ms[|ms| - 1].date) == d then RunTail(ms, d)
    else LastRun(ms[..|ms| - 1], d)
  }

  /** `participant_count_by_day`: for each day, the number of distinct senders of
      that day's last run of messages, which is what the last store for that day
      wrote. */
  function ParticipantCountByDay(ms: seq<HistoryMessage>): map<int, nat> {
    map d | d in DaysIn(ms) :: |LastRun(ms, d)|
  }

  // ------------------------------------------------------------- the register

  /** What `current_day`, `day_participants` and `participant_count_by_day` hold
      after the loop has read the in-window messages `ms`: the day of the last
      message, the senders of the run it ends, and the right count for every
      other day seen. */
  predicate Register(ms: seq<HistoryMessage>, current: Option<int>, daySenders: set<int>, stored: map<int, nat>) {
    if ms == [] then current == None && stored == map[]
    else
      var c := Day(ms[|ms| - 1].date);
      && current == Some(c)
      && daySenders == RunTail(ms, c)
      && stored.Keys <= DaysIn(ms)
      && forall d :: d in DaysIn(ms) && d != c ==> d in stored && stored[d] == |LastRun(ms, d)|
  }

  lemma DaysInSnoc(ms: seq<HistoryMessage>, m: HistoryMessage)
    ensures DaysIn(ms + [m]) == DaysIn(ms) + {Day(m.date)}
    ensures DayKeys(ms + [m]) == DayKeys(ms) + [Day(m.date)]
  {
    assert (ms + [m])[..|ms|] == ms;
  }

  lemma InWindowSnoc(history: seq<HistoryMessage>, m: HistoryMessage, start: int)
    ensures InWindow(history + [m], start) == InWindow(history, start) + (if m.date < start then [] else [m])
  {
    assert (history + [m])[..|history|] == history;
  }

  /** What one more in-window message adds to the collected lists and sets. */
  lemma MessageSnoc(ms: seq<HistoryMessage>, m: HistoryMessage)
    ensures CollectedOf(ms + [m]) == CollectedOf(ms) + (if m.text != "" then [Record(m)] else [])
    ensures SenderIds(ms + [m]) == SenderIds(ms) + SenderOf(m)
    ensures DayKeys(ms + [m]) == DayKeys(ms) + [Day(m.date)]
  {
    assert (ms + [m])[..|ms|] == ms;
  }

  /** Reading one more message on a new day stores the finished day's count and
      starts a fresh set; on the same day it only adds the sender. */
  lemma RegisterStep(ms: seq<HistoryMessage>, m: HistoryMessage, current: Option<int>, daySenders: set<int>, stored: map<int, nat>)
    requires Register(ms, current, daySenders, stored)
    ensures var day := Day(m.date);
      if current != Some(day) then
        var stored' := if current.Some? then stored[current.value := |daySenders|] else stored;
        Register(ms + [m], Some(day), SenderOf(m), stored')
      else
        Register(ms + [m], current, daySenders + SenderOf(m), stored)
  {
    var ms', day := ms + [m], Day(m.date);
    assert ms'[..|ms|] == ms && ms'[|ms|] == m;
    DaysInSnoc(ms, m);
    assert RunTail(ms', day) == RunTail(ms, day) + SenderOf(m);
    forall d | d != day
      ensures LastRun(ms', d) == LastRun(ms, d)
    {
    }
    if current != Some(day) {
      if ms != [] {
        var c := current.value;
        assert RunTail(ms, day) == {};
        assert LastRun(ms, c) == RunTail(ms, c);
      }
    }
  }

  /** Line 140: storing the last day's count completes the map. */
  lemma RegisterFlush(ms: seq<HistoryMessage>, current: Option<int>, daySenders: set<int>, stored: map<int, nat>)
    requires Register(ms, current, daySenders, stored)
    ensures current.Some? ==> stored[current.value := |daySenders|] == ParticipantCountByDay(ms)
    ensures current.None? ==> stored == ParticipantCountByDay(ms)
  {
    if ms == [] {
      assert DaysIn(ms) == {};
    } else {
      var c := current.value;
      assert c in DaysIn(ms) by {
        assert DayKeys(ms)[|ms| - 1] == c;
      }
      assert LastRun(ms, c) == RunTail(ms, c);
    }
  }

  // ---------------------------------------------------------------- the loop

  /** Lines 108-116, for the in-window message `m` read after the in-window
      messages `ms`: on a new day, the finished day's count is stored and the
      set of the day's senders starts afresh. */
  method NextDay(ghost ms: seq<HistoryMessage>, m: HistoryMessage, currentDay: Option<int>, dayParticipants: set<int>,
                 participantCountByDay: map<int, nat>)
    returns (currentDay': Option<int>, dayParticipants': set<int>, participantCountByDay': map<int, nat>)
    requires Register(ms, currentDay, dayParticipants, participantCountByDay)
    ensures Register(ms + [m], currentDay', dayParticipants' + SenderOf(m), participantCountByDay')
  {
    currentDay', dayParticipants', participantCountByDay' := currentDay, dayParticipants, participantCountByDay;
    RegisterStep(ms, m, currentDay, dayParticipants, participantCountByDay);
    var messageDay := Day(m.date);
    if currentDay != Some(messageDay) {
      if currentDay.Some? {
        participantCountByDay' := participantCountByDay[currentDay.value := |dayParticipants|];
      }
      currentDay' := Some(messageDay);
      dayParticipants' := {};
      assert dayParticipants' + SenderOf(m) == SenderOf(m);
    }
  }

  /** The variables of the loop hold what it has computed from the in-window
      messages `ms` read so far. */
  predicate Tallied(ms: seq<HistoryMessage>, messages: seq<Collected>, participants: set<int>,
                    messageCountByDay: map<int, nat>, currentDay: Option<int>, dayParticipants: set<int>,
                    participantCountByDay: map<int, nat>) {
    && messages == CollectedOf(ms)
    && participants == SenderIds(ms)
    && messageCountByDay == Histogram(DayKeys(ms))
    && Register(ms, currentDay, dayParticipants, participantCountByDay)
  }

  /** Lines 108-136: one in-window message `m`, read after the in-window messages `ms`. */
  method CountMessage(ghost ms: seq<HistoryMessage>, m: HistoryMessage, messages: seq<Collected>, participants: set<int>,
                      messageCountByDay: map<int, nat>, currentDay: Option<int>, dayParticipants: set<int>,
                      participantCountByDay: map<int, nat>)
    returns (messages': seq<Collected>, participants': set<int>, messageCountByDay': map<int, nat>,
             currentDay': Option<int>, dayParticipants': set<int>, participantCountByDay': map<int, nat>)
    requires Tallied(ms, messages, participants, messageCountByDay, currentDay, dayParticipants, participantCountByDay)
    ensures Tallied(ms + [m], messages', participants', messageCountByDay', currentDay', dayParticipants', participantCountByDay')
  {
    MessageSnoc(ms, m);
    var messageDay := Day(m.date);
    currentDay', dayParticipants', participantCountByDay' :=
      NextDay(ms, m, currentDay, dayParticipants, participantCountByDay);
    ghost var daySoFar := dayParticipants';
    HistogramSnoc(DayKeys(ms), messageDay);
    messageCountByDay' := Bump(messageCountByDay, messageDay);
    participants' := participants;
    if m.fromUser.Some? {
      participants' := participants' + {m.fromUser.value.id};
      dayParticipants' := dayParticipants' + {m.fromUser.value.id};
    }
    assert participants' == SenderIds(ms + [m]) && dayParticipants' == daySoFar + SenderOf(m);
    messages' := messages;
    if m.text != "" {
      messages' := messages' + [Record(m)];
    }
    assert messages' == CollectedOf(ms + [m]);
  }

  /** Lines 73 and 93-140, for the history the client yields and the current
      instant `now`: the window starts `DaysToFetch` days before `now`. */
  method ScanHistory(history: seq<HistoryMessage>, now: int) returns (w: Window)
    ensures w.msgCounter == |history|
    ensures w.filteredCounter == |history| - |InWindow(history, StartDate(now))| <= w.msgCounter
    ensures w.messages == CollectedOf(InWindow(history, StartDate(now)))
    ensures w.participants == SenderIds(InWindow(history, StartDate(now)))
    ensures w.messageCountByDay == Histogram(DayKeys(InWindow(history, StartDate(now))))
    ensures w.participantCountByDay == ParticipantCountByDay(InWindow(history, StartDate(now)))
    ensures w.participantCountByDay.Keys == w.messageCountByDay.Keys
  {
    var start := StartDate(now);
    var messages: seq<Collected> := [];
    var participants: set<int> := {};
    var messageCountByDay: map<int, nat> := map[];
    var participantCountByDay: map<int, nat> := map[];
    var currentDay: Option<int> := None;
    var dayParticipants: set<int> := {};
    var msgCounter, filteredCounter := 0, 0;
    ghost var ws: seq<HistoryMessage> := [];
    for i := 0 to |history|
      invariant ws == InWindow(history[..i], start)
      invariant msgCounter == i && filteredCounter == i - |ws|
      invariant Tallied(ws, messages, participants, messageCountByDay, currentDay, dayParticipants, participantCountByDay)
    {
      var m := history[i];
      assert history[..i + 1] == history[..i] + [m];
      InWindowSnoc(history[..i], m, start);
      msgCounter := msgCounter + 1;
      if m.date < start {
        assert ws + [] == ws;
        filteredCounter := filteredCounter + 1;
        continue;
      }
      messages, participants, messageCountByDay, currentDay, dayParticipants, participantCountByDay :=
        CountMessage(ws, m, messages, participants, messageCountByDay, currentDay, dayParticipants, participantCountByDay);
      ws := ws + [m];
    }
    assert history[..|history|] == history;
    RegisterFlush(ws, currentDay, dayParticipants, participantCountByDay);
    if currentDay.Some? {
      participantCountByDay := participantCountByDay[currentDay.value := |dayParticipants|];
    }
    w := Window(messages, participants, messageCountByDay, participantCountByDay, msgCounter, filteredCounter);
  }

  // -------------------------------------------------------------- properties

  lemma {:induction false} InWindowAppend(a: seq<HistoryMessage>, b: seq<HistoryMessage>, start: int)
    ensures InWindow(a + b, start) == InWindow(a, start) + InWindow(b, start)
    decreases |b|
  {
    if b == [] {
      assert a + b == a;
    } else {
      var init := b[..|b| - 1];
      InWindowAppend(a, init, start);
      assert (a + b)[..|a + b| - 1] == a + init;
      assert (a + b)[|a + b| - 1] == b[|b| - 1];
    }
  }

  /** Line 104: what the loop keeps is from the history and not older than the window start. */
  lemma {:induction false} InWindowBounds(history: seq<HistoryMessage>, start: int, i: nat)
    requires i < |InWindow(history, start)|
    ensures start <= InWindow(history, start)[i].date && InWindow(history, start)[i] in history
  {
    var init := history[..|history| - 1];
    var m := history[|history| - 1];
    if i < |InWindow(init, start)| {
      InWindowBounds(init, start, i);
      assert InWindow(history, start)[i] == InWindow(init, start)[i];
    } else {
      assert InWindow(history, start)[i] == m;
    }
  }

  /** Lines 104-106: a message older than the window changes nothing the loop
      computes except `filtered_counter`. */
  lemma FilteredIgnored(a: seq<HistoryMessage>, m: HistoryMessage, b: seq<HistoryMessage>, start: int)
    requires m.date < start
    ensures InWindow(a + [m] + b, start) == InWindow(a + b, start)
  {
    InWindowAppend(a + [m], b, start);
    InWindowAppend(a, [m], start);
    InWindowAppend(a, b, start);
    assert [m][..0] == [];
  }

  /** Every in-window message is counted for its day, text or not, while only
      the text ones are collected: the day counts add up to the number of
      in-window messages, which is at least `total_messages` (line 143). */
  lemma DayCountsCoverMessages(history: seq<HistoryMessage>, start: int)
    ensures var ms := InWindow(history, start);
      SumValues(Histogram(DayKeys(ms))) == |ms| >= |CollectedOf(ms)|
  {
    HistogramSum(DayKeys(InWindow(history, start)));
  }

  /** Lines 122-125: the participants are exactly the senders of the in-window
      messages that have a `from_user`. */
  lemma {:induction false} ParticipantsAreSenders(ms: seq<HistoryMessage>, p: int)
    ensures p in SenderIds(ms) <==>
      exists i :: 0 <= i < |ms| && ms[i].fromUser.Some? && ms[i].fromUser.value.id == p
  {
    if ms != [] {
      var init := ms[..|ms| - 1];
      ParticipantsAreSenders(init, p);
      if p in SenderIds(init) {
        var i :| 0 <= i < |init| && init[i].fromUser.Some? && init[i].fromUser.value.id == p;
        assert ms[i] == init[i];
      } else if p in SenderOf(ms[|ms| - 1]) {
        assert ms[|ms| - 1].fromUser.value.id == p;
      } else {
        forall i | 0 <= i < |ms| && ms[i].fromUser.Some?
          ensures ms[i].fromUser.value.id != p
        {
          if i < |init| {
            assert ms[i] == init[i];
          }
        }
      }
    }
  }

  /** The senders of the day-`d` messages that have a `from_user`. */
  function SendersOn(ms: seq<HistoryMessage>, d: int): set<int> {
    if ms == [] then {}
    else SendersOn(ms[..|ms| - 1], d) + (if Day(ms[|ms| - 1].date) == d then SenderOf(ms[|ms| - 1]) else {})
  }

  /** The messages of each day come one after the other. */
  predicate Contiguous(ms: seq<HistoryMessage>) {
    forall i, j, k :: 0 <= i < j < k < |ms| && Day(ms[i].date) == Day(ms[k].date) ==>
      Day(ms[j].date) == Day(ms[i].date)
  }

  lemma {:induction false} SendersOnAbsent(ms: seq<HistoryMessage>, d: int)
    requires forall i :: 0 <= i < |ms| ==> Day(ms[i].date) != d
    ensures SendersOn(ms, d) == {}
  {
    if ms != [] {
      SendersOnAbsent(ms[..|ms| - 1], d);
    }
  }

  /** When the messages of a day are contiguous and the last one is on day `d`,
      the run it ends holds all of that day's senders. */
  lemma {:induction false} RunTailAll(ms: seq<HistoryMessage>, d: int)
    requires Contiguous(ms) && ms != [] && Day(ms[|ms| - 1].date) == d
    ensures RunTail(ms, d) == SendersOn(ms, d)
  {
    var init := ms[..|ms| - 1];
    if init != [] {
      assert Contiguous(init) by {
        forall i, j, k | 0 <= i < j < k < |init| && Day(init[i].date) == Day(init[k].date)
          ensures Day(init[j].date) == Day(init[i].date)
        {
          assert init[i] == ms[i] && init[j] == ms[j] && init[k] == ms[k];
        }
      }
      if Day(init[|init| - 1].date) == d {
        RunTailAll(init, d);
      } else {
        forall i | 0 <= i < |init|
          ensures Day(init[i].date) != d
        {
          assert init[i] == ms[i] && init[|init| - 1] == ms[|ms| - 2];
        }
        SendersOnAbsent(init, d);
      }
    }
  }

  /** Lines 108-116 and 138-140: for a history whose days are contiguous, the
      stored count of every day is its number of distinct senders. */
  lemma {:induction false} LastRunContiguous(ms: seq<HistoryMessage>, d: int)
    requires Contiguous(ms)
    ensures LastRun(ms, d) == SendersOn(ms, d)
  {
    if ms != [] {
      var init := ms[..|ms| - 1];
      if Day(ms[|ms| - 1].date) == d {
        RunTailAll(ms, d);
      } else {
        assert Contiguous(init) by {
          forall i, j, k | 0 <= i < j < k < |init| && Day(init[i].date) == Day(init[k].date)
            ensures Day(init[j].date) == Day(init[i].date)
          {
            assert init[i] == ms[i] && init[j] == ms[j] && init[k] == ms[k];
          }
        }
        LastRunContiguous(init, d);
      }
    }
  }

  lemma ParticipantCountContiguous(ms: seq<HistoryMessage>, d: int)
    requires Contiguous(ms) && d in DaysIn(ms)
    ensures d in ParticipantCountByDay(ms) && ParticipantCountByDay(ms)[d] == |SendersOn(ms, d)|
  {
    LastRunContiguous(ms, d);
  }

  /** The senders of a run of day-`d` messages are senders on day `d`. */
  lemma {:induction false} RunTailWithin(ms: seq<HistoryMessage>, d: int)
    ensures RunTail(ms, d) <= SendersOn(ms, d)
  {
    if ms != [] && Day(ms[|ms| - 1].date) == d {
      RunTailWithin(ms[..|ms| - 1], d);
    }
  }

  lemma {:induction false} LastRunWithin(ms: seq<HistoryMessage>, d: int)
    ensures LastRun(ms, d) <= SendersOn(ms, d)
  {
    if ms != [] {
      if Day(ms[|ms| - 1].date) == d {
        RunTailWithin(ms, d);
      } else {
        LastRunWithin(ms[..|ms| - 1], d);
      }
    }
  }

  /** A day has no more distinct senders than messages. */
  lemma {:induction false} SendersOnBound(ms: seq<HistoryMessage>, d: int)
    ensures |SendersOn(ms, d)| <= Occurrences(DayKeys(ms), d)
  {
    if ms != [] {
      var init, m := ms[..|ms| - 1], ms[|ms| - 1];
      SendersOnBound(init, d);
      OccurrencesSnoc(DayKeys(init), Day(m.date), d);
      var extra := if Day(m.date) == d then SenderOf(m) else {};
      assert |SendersOn(ms, d)| <= |SendersOn(init, d)| + |extra|;
    }
  }

  /** Every stored participant count is at most the message count of its day. */
  lemma ParticipantsAtMostMessages(ms: seq<HistoryMessage>, d: int)
    requires d in ParticipantCountByDay(ms)
    ensures d in Histogram(DayKeys(ms))
    ensures ParticipantCountByDay(ms)[d] <= Histogram(DayKeys(ms))[d]
  {
    LastRunWithin(ms, d);
    SubsetCardinality(LastRun(ms, d), SendersOn(ms, d));
    SendersOnBound(ms, d);
  }
}
