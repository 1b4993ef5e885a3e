/** The activity chart of the offline report (`generate_html`, lines 395-410):
    one point per day of `daily_message_count`, in date order, with the message
    count and the number of participants active that day. */
module OfflineChart {
  import opened Wrappers
  import opened Counting
  import opened OfflineProcess

  /** `sum(1 for user_id in participant_days if day in participant_days[user_id])`. */
  function ActiveOn(participantDays: map<string, set<int>>, day: int): nat {
    |set p | p in participantDays && day in participantDays[p]|
  }

  /** The loop of lines 399-402: the number of active participants on each day. */
  method ParticipantCounts(days: seq<int>, participantDays: map<string, set<int>>) returns (counts: seq<nat>)
    ensures |counts| == |days|
    ensures forall i :: 0 <= i < |days| ==> counts[i] == ActiveOn(participantDays, days[i])
  {
    counts := [];
    for i := 0 to |days|
      invariant |counts| == i
      invariant forall j :: 0 <= j < i ==> counts[j] == ActiveOn(participantDays, days[j])
    {
      counts := counts + [ActiveOn(participantDays, days[i])];
    }
  }

  /** Lines 395-410. `dayLabel` is `strptime(d).strftime('%m/%d')` and `todayLabel`
      is `datetime.now().strftime('%m/%d')`. */
  method ChartSeries(daily: map<int, nat>, participantDays: map<string, set<int>>,
                     dayLabel: int -> string, todayLabel: string) returns (chart: Chart)
    ensures |chart.labels| == |chart.messageCounts| == |chart.participantCounts| >= 1
    ensures daily == map[] ==> chart == Chart([todayLabel], [0], [0])
    ensures daily != map[] ==>
      var days := SortedSeq(daily.Keys);
      && |chart.labels| == |days|
      && forall i :: 0 <= i < |days| ==>
           && chart.labels[i] == dayLabel(days[i])
           && chart.messageCounts[i] == daily[days[i]]
           && chart.participantCounts[i] == ActiveOn(participantDays, days[i])
  {
    var sortedDates := SortedSeq(daily.Keys);
    var messageCounts := seq(|sortedDates|, i requires 0 <= i < |sortedDates| => daily[sortedDates[i]]);
    var participantCounts := ParticipantCounts(sortedDates, participantDays);
    var labels := seq(|sortedDates|, i requires 0 <= i < |sortedDates| => dayLabel(sortedDates[i]));
    if labels == [] {
      assert daily.Keys == {};
      labels, messageCounts, participantCounts := [todayLabel], [0], [0];
    }
    chart := Chart(labels, messageCounts, participantCounts);
  }

  /** The participants with a counted message on `day`. */
  function SendersOn(ms: seq<Message>, day: int): set<string> {
    set p | p in Senders(ms) && day in DaysOf(ms, p)
  }

  /** The participants of `day` after one more message. */
  lemma SendersOnSnoc(init: seq<Message>, m: Message, day: int)
    ensures SendersOn(init + [m], day)
      <= SendersOn(init, day) + (if HasSender(m) && Day(m.date) == day then {m.senderId.value} else {})
  {
    var ms := init + [m];
    assert ms[..|ms| - 1] == init;
    CollectionsSnoc(init, m);
    forall p | p in SendersOn(ms, day)
      ensures p in SendersOn(init, day) + (if HasSender(m) && Day(m.date) == day then {m.senderId.value} else {})
    {
      assert DaysOf(ms, p) == DaysOf(init, p) + (if m.senderId == Some(p) then {Day(m.date)} else {});
    }
  }

  /** A day has no more distinct participants than counted messages. */
  lemma {:induction false} SendersOnBound(ms: seq<Message>, day: int)
    ensures |SendersOn(ms, day)| <= Occurrences(SenderDays(ms), day)
  {
    if ms != [] {
      var init, m := ms[..|ms| - 1], ms[|ms| - 1];
      assert ms == init + [m];
      SendersOnBound(init, day);
      CollectionsSnoc(init, m);
      OccurrencesSnoc(SenderDays(init), Day(m.date), day);
      var extra: set<string> := if HasSender(m) && Day(m.date) == day then {m.senderId.value} else {};
      SendersOnSnoc(init, m, day);
      SubsetCardinality(SendersOn(ms, day), SendersOn(init, day) + extra);
      assert |SendersOn(init, day) + extra| <= |SendersOn(init, day)| + |extra|;
      if HasSender(m) {
        assert SenderDays(ms) == SenderDays(init) + [Day(m.date)];
      } else {
        assert SenderDays(ms) == SenderDays(init);
      }
    }
  }

  /** A day with a counted message has a participant. */
  lemma {:induction false} SendersOnNonEmpty(ms: seq<Message>, day: int)
    requires day in SenderDays(ms)
    ensures SendersOn(ms, day) != {}
  {
    var init, m := ms[..|ms| - 1], ms[|ms| - 1];
    assert ms == init + [m];
    CollectionsSnoc(init, m);
    if day in SenderDays(init) {
      SendersOnNonEmpty(init, day);
      var p :| p in SendersOn(init, day);
      assert p in SendersOn(ms, day);
    } else {
      assert m.senderId.value in SendersOn(ms, day);
    }
  }

  /** On every day of the chart, the participant count is at least one and at most
      the message count of that day. */
  lemma ParticipantsPerDay(ms: seq<Message>, day: int)
    requires day in Histogram(SenderDays(ms))
    ensures 1 <= ActiveOn(ParticipantDays(ms), day) <= Histogram(SenderDays(ms))[day]
  {
    var pd := ParticipantDays(ms);
    assert (set p | p in pd && day in pd[p]) == SendersOn(ms, day);
    SendersOnBound(ms, day);
    SendersOnNonEmpty(ms, day);
  }
}
