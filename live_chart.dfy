/** The activity chart of the live report (telegram_chat_summary.py, lines
    281-292): one point per day of `message_count_by_day`, in date order, when
    text messages were collected, and a single zero point for today otherwise. */
module LiveChart {
  import opened Counting
  import opened LiveWindow

  /** `participant_count_by_day.get(d, 0)`. */
  function CountOr0(m: map<int, nat>, d: int): nat {
    if d in m then m[d] else 0
  }

  /** Lines 280-292 for the loop's result `w`. `dayLabel` is
      `strptime(d, '%Y-%m-%d').strftime('%m/%d')` and `todayLabel` is
      `datetime.now().strftime('%m/%d')`. */
  method ChartSeries(w: Window, dayLabel: int -> string, todayLabel: string) returns (chart: Chart)
    ensures |chart.labels| == |chart.messageCounts| == |chart.participantCounts|
    ensures w.messages == [] ==> chart == Chart([todayLabel], [0], [0])
    ensures w.messages != [] ==>
      var days := SortedSeq(w.messageCountByDay.Keys);
      && |chart.labels| == |days|
      && forall i :: 0 <= i < |days| ==>
           && chart.labels[i] == dayLabel(days[i])
           && chart.messageCounts[i] == w.messageCountByDay[days[i]]
           && chart.participantCounts[i] == CountOr0(w.participantCountByDay, days[i])
  {
    if w.messages != [] {
      var sortedDates := SortedSeq(w.messageCountByDay.Keys);
      var messageCounts := seq(|sortedDates|, i requires 0 <= i < |sortedDates| => w.messageCountByDay[sortedDates[i]]);
      var participantCounts :=
        seq(|sortedDates|, i requires 0 <= i < |sortedDates| => CountOr0(w.participantCountByDay, sortedDates[i]));
      var labels := seq(|sortedDates|, i requires 0 <= i < |sortedDates| => dayLabel(sortedDates[i]));
      chart := Chart(labels, messageCounts, participantCounts);
    } else {
      chart := Chart([todayLabel], [0], [0]);
    }
  }

  /** For what the loop computes from the in-window messages `ms`: when text
      messages were collected the chart has at least one day, every day of the
      message counter has a stored participant count (so the `0` default of
      line 283 is never used), and no day shows more participants than messages. */
  lemma WindowChartFacts(ms: seq<HistoryMessage>)
    ensures CollectedOf(ms) != [] ==> Histogram(DayKeys(ms)) != map[]
    ensures forall d :: d in Histogram(DayKeys(ms)) ==>
      d in ParticipantCountByDay(ms) && ParticipantCountByDay(ms)[d] <= Histogram(DayKeys(ms))[d]
  {
    if CollectedOf(ms) != [] {
      assert DayKeys(ms)[0] in Histogram(DayKeys(ms));
    }
    forall d | d in Histogram(DayKeys(ms))
      ensures d in ParticipantCountByDay(ms) && ParticipantCountByDay(ms)[d] <= Histogram(DayKeys(ms))[d]
    {
      assert d in DaysIn(ms);
      ParticipantsAtMostMessages(ms, d);
    }
  }
}
