/** `process_telegram_data` of the offline report: two passes over an exported
    chat. The first pass collects the instants of the text messages whose date
    parses; the second keeps the text messages of the last seven days before the
    latest of them and counts them per day and per sender. */
module OfflineProcess {
  import opened Wrappers
  import opened Text
  import opened Counting

  /** `timedelta(days=7)`, in seconds. */
  const WeekSeconds: int := 7 * SecondsPerDay

  /** One entry of the export's `messages` array; a key the entry lacks is `None`. */
  datatype RawMessage = RawMessage(
    id: Option<int>,
    timestamp: Option<int>,
    date: Option<string>,
    text: Option<string>,
    fromId: Option<string>,
    firstName: Option<string>,
    username: Option<string>)

  /** The export's `metadata` object. */
  datatype Metadata = Metadata(chatTitle: Option<string>, chatId: Option<string>)

  /** The loaded JSON file; a missing `messages` array is the empty sequence. */
  datatype Export = Export(metadata: Metadata, messages: seq<RawMessage>)

  /** The two date conversions, as seconds since the epoch: `fromtimestamp(t, UTC)`
      and `strptime(date, '%Y-%m-%d %H:%M:%S %Z')`, each `None` where it raises
      `ValueError` (a timestamp out of the range of `datetime`, a date that does
      not parse). */
  datatype Parsers = Parsers(fromTimestamp: int -> Option<int>, strptime: string -> Option<int>)

  /** What the date conversions and the clock give; `now` is `datetime.now(UTC)`. */
  datatype Env = Env(parse: Parsers, now: int)

  /** One entry of the returned `messages` list. */
  datatype Message = Message(id: int, date: int, senderId: Option<string>, senderName: string, text: string)

  datatype Processed = Processed(
    chatTitle: string,
    chatId: string,
    windowStart: int,
    latest: int,
    messages: seq<Message>,
    participants: set<string>,
    dailyMessageCount: map<int, nat>,
    participantDays: map<string, set<int>>)

  /** Line 85 reads `datetime.datetime.min` where `datetime` is the class, which
      raises `AttributeError`: a run with no parseable date ends there. */
  datatype ProcessError = NoValidDates

  /** Python truthiness of an optional string: present and non-empty. */
  predicate Truthy(s: Option<string>) {
    s.Some? && s.value != ""
  }

  predicate HasText(m: RawMessage) {
    Truthy(m.text)
  }

  /** The instant a pass reads from a message: the converted `timestamp` when it
      is truthy, otherwise the parsed `date` (an absent date parses as `""`);
      `None` when the conversion raises `ValueError`. */
  function MessageInstant(m: RawMessage, parse: Parsers): Option<int> {
    if m.timestamp.Some? && m.timestamp.value != 0 then parse.fromTimestamp(m.timestamp.value)
    else parse.strptime(m.date.GetOr(""))
  }

  /** `first_name` (default `'Unknown'`) followed by ` (@username)` when the username is truthy. */
  function SenderName(m: RawMessage): string {
    m.firstName.GetOr("Unknown") + (if Truthy(m.username) then " (@" + m.username.value + ")" else "")
  }

  function Record(m: RawMessage, date: int): Message
    requires HasText(m)
  {
    Message(m.id.GetOr(0), date, m.fromId, SenderName(m), m.text.value)
  }

  // ---------------------------------------------------------------- first pass

  /** The `timestamps` list of the first pass: the instants of the text messages
      whose date parses, in input order. */
  function Timestamps(raw: seq<RawMessage>, parse: Parsers): (ts: seq<int>)
    ensures |ts| <= |raw|
  {
    if raw == [] then []
    else
      var m := raw[|raw| - 1];
      Timestamps(raw[..|raw| - 1], parse)
        + (if HasText(m) && MessageInstant(m, parse).Some? then [MessageInstant(m, parse).value] else [])
  }

  /** Every parseable text message contributes its instant to the first pass. */
  lemma {:induction false} TimestampOf(raw: seq<RawMessage>, parse: Parsers, i: nat)
    requires i < |raw| && HasText(raw[i]) && MessageInstant(raw[i], parse).Some?
    ensures MessageInstant(raw[i], parse).value in Timestamps(raw, parse)
    decreases |raw|
  {
    if i < |raw| - 1 {
      TimestampOf(raw[..|raw| - 1], parse, i);
    }
  }

  /** Every instant of the first pass is that of some parseable text message. */
  lemma {:induction false} TimestampSource(raw: seq<RawMessage>, parse: Parsers, t: int)
    returns (i: nat)
    requires t in Timestamps(raw, parse)
    ensures i < |raw| && HasText(raw[i]) && MessageInstant(raw[i], parse) == Some(t)
    decreases |raw|
  {
    var init := raw[..|raw| - 1];
    if t in Timestamps(init, parse) {
      i := TimestampSource(init, parse, t);
      assert raw[i] == init[i];
    } else {
      i := |raw| - 1;
    }
  }

  /** The first loop (lines 59-75). */
  method CollectTimestamps(raw: seq<RawMessage>, parse: Parsers) returns (timestamps: seq<int>)
    ensures timestamps == Timestamps(raw, parse)
  {
    timestamps := [];
    var i := 0;
    while i < |raw|
      invariant 0 <= i <= |raw|
      invariant timestamps == Timestamps(raw[..i], parse)
    {
      assert raw[..i + 1][..i] == raw[..i];
      var msg := raw[i];
      if !HasText(msg) {
        i := i + 1;
        continue;
      }
      var parsed := MessageInstant(msg, parse);
      if parsed.None? {
        i := i + 1;
        continue;
      }
      timestamps := timestamps + [parsed.value];
      i := i + 1;
    }
    assert raw[..i] == raw;
  }

  /** `max(timestamps)`. */
  function Latest(ts: seq<int>): (r: int)
    requires ts != []
    ensures r in ts
    ensures forall t :: t in ts ==> t <= r
  {
    if |ts| == 1 then ts[0]
    else
      var init, last := ts[..|ts| - 1], ts[|ts| - 1];
      var m := Latest(init);
      assert forall t :: t in ts ==> t in init || t == last by {
        assert ts == init + [last];
      }
      if last > m then last else m
  }

  // --------------------------------------------------------------- second pass

  /** What the second pass makes of one message: a text message whose date parses
      is kept, stamped with that date, when it is not older than `windowStart`; a
      text message whose date does not parse is kept, stamped `now`, with no
      window check; a message without text is dropped. */
  function Keep(m: RawMessage, env: Env, windowStart: int): (r: Option<Message>)
    ensures r.Some? <==> HasText(m) && (MessageInstant(m, env.parse).None? || windowStart <= MessageInstant(m, env.parse).value)
    ensures r.Some? ==> r.value.text == m.text.value && r.value.text != "" && r.value.senderId == m.fromId
    ensures r.Some? && MessageInstant(m, env.parse).Some? ==> r.value.date == MessageInstant(m, env.parse).value
    ensures r.Some? && MessageInstant(m, env.parse).None? ==> r.value.date == env.now
  {
    if !HasText(m) then None
    else match MessageInstant(m, env.parse)
      case Some(t) => if t < windowStart then None else Some(Record(m, t))
      case None => Some(Record(m, env.now))
  }

  /** The `messages` list the second pass builds, in input order. */
  function KeptMessages(raw: seq<RawMessage>, env: Env, windowStart: int): (ms: seq<Message>)
    ensures |ms| <= |raw|
  {
    if raw == [] then []
    else
      var k := Keep(raw[|raw| - 1], env, windowStart);
      KeptMessages(raw[..|raw| - 1], env, windowStart) + (if k.Some? then [k.value] else [])
  }

  /** The messages whose sender is truthy: the ones lines 117-121 count. */
  predicate HasSender(m: Message) {
    Truthy(m.senderId)
  }

  function WithSender(ms: seq<Message>): (r: seq<Message>)
    ensures |r| <= |ms|
    ensures forall m <- r :: HasSender(m)
  {
    if ms == [] then []
    else WithSender(ms[..|ms| - 1]) + (if HasSender(ms[|ms| - 1]) then [ms[|ms| - 1]] else [])
  }

  /** The day of each counted message, in order: `daily_message_count` is its histogram. */
  function SenderDays(ms: seq<Message>): (days: seq<int>)
    ensures |days| == |WithSender(ms)|
  {
    if ms == [] then []
    else SenderDays(ms[..|ms| - 1]) + (if HasSender(ms[|ms| - 1]) then [Day(ms[|ms| - 1].date)] else [])
  }

  /** The `participants` set. */
  function Senders(ms: seq<Message>): (r: set<string>)
    ensures forall p <- r :: p != ""
  {
    if ms == [] then {}
    else Senders(ms[..|ms| - 1]) + (if HasSender(ms[|ms| - 1]) then {ms[|ms| - 1].senderId.value} else {})
  }

  /** The days on which `p` sent a message. */
  function DaysOf(ms: seq<Message>, p: string): set<int> {
    if ms == [] then {}
    else DaysOf(ms[..|ms| - 1], p) + (if ms[|ms| - 1].senderId == Some(p) then {Day(ms[|ms| - 1].date)} else {})
  }

  /** The `participant_days` map: every participant, with the days they wrote on. */
  function ParticipantDays(ms: seq<Message>): (pd: map<string, set<int>>)
    ensures pd.Keys == Senders(ms)
    ensures forall p :: p in pd ==> pd[p] != {}
  {
    forall p | p in Senders(ms)
      ensures DaysOf(ms, p) != {}
    {
      SenderHasDay(ms, p);
    }
    map p | p in Senders(ms) :: DaysOf(ms, p)
  }

  lemma {:induction false} SenderHasDay(ms: seq<Message>, p: string)
    requires p in Senders(ms)
    ensures DaysOf(ms, p) != {}
  {
    var init := ms[..|ms| - 1];
    if p in Senders(init) {
      SenderHasDay(init, p);
    } else {
      assert Day(ms[|ms| - 1].date) in DaysOf(ms, p);
    }
  }

  lemma SnocPrefix<T>(xs: seq<T>, x: T)
    ensures (xs + [x])[..|xs|] == xs && (xs + [x])[|xs|] == x
  {
  }

  lemma SendersSnoc(ms: seq<Message>, m: Message)
    ensures Senders(ms + [m]) == Senders(ms) + (if HasSender(m) then {m.senderId.value} else {})
  {
    SnocPrefix(ms, m);
  }

  lemma SenderDaysSnoc(ms: seq<Message>, m: Message)
    ensures SenderDays(ms + [m]) == SenderDays(ms) + (if HasSender(m) then [Day(m.date)] else [])
  {
    SnocPrefix(ms, m);
  }

  lemma DaysOfSnoc(ms: seq<Message>, m: Message, p: string)
    ensures DaysOf(ms + [m], p) == DaysOf(ms, p) + (if m.senderId == Some(p) then {Day(m.date)} else {})
  {
    SnocPrefix(ms, m);
  }

  /** A message from a participant adds its day to their days and nothing else;
      a message without a sender changes nothing. */
  lemma ParticipantDaysSnoc(ms: seq<Message>, m: Message)
    ensures HasSender(m) ==>
      ParticipantDays(ms + [m]) == ParticipantDays(ms)[m.senderId.value :=
        (if m.senderId.value in ParticipantDays(ms) then ParticipantDays(ms)[m.senderId.value] else {}) + {Day(m.date)}]
    ensures !HasSender(m) ==> ParticipantDays(ms + [m]) == ParticipantDays(ms)
  {
    SendersSnoc(ms, m);
    var pd, pd' := ParticipantDays(ms), ParticipantDays(ms + [m]);
    if HasSender(m) {
      var q := m.senderId.value;
      var expected := pd[q := (if q in pd then pd[q] else {}) + {Day(m.date)}];
      if q !in pd && DaysOf(ms, q) != {} {
        DayOfSender(ms, q);
      }
      assert pd'.Keys == expected.Keys;
      forall p | p in pd'
        ensures pd'[p] == expected[p]
      {
        DaysOfSnoc(ms, m, p);
      }
    } else {
      assert pd'.Keys == pd.Keys;
      forall p | p in pd'
        ensures pd'[p] == pd[p]
      {
        DaysOfSnoc(ms, m, p);
      }
    }
  }

  /** One more kept message extends each collection the way lines 116-134 do. */
  lemma CollectionsSnoc(ms: seq<Message>, m: Message)
    ensures Senders(ms + [m]) == Senders(ms) + (if HasSender(m) then {m.senderId.value} else {})
    ensures SenderDays(ms + [m]) == SenderDays(ms) + (if HasSender(m) then [Day(m.date)] else [])
    ensures HasSender(m) ==>
      ParticipantDays(ms + [m]) == ParticipantDays(ms)[m.senderId.value :=
        (if m.senderId.value in ParticipantDays(ms) then ParticipantDays(ms)[m.senderId.value] else {}) + {Day(m.date)}]
    ensures !HasSender(m) ==> ParticipantDays(ms + [m]) == ParticipantDays(ms)
  {
    SendersSnoc(ms, m);
    SenderDaysSnoc(ms, m);
    ParticipantDaysSnoc(ms, m);
  }

  /** The daily counter after one more kept message. */
  lemma DailySnoc(ms: seq<Message>, m: Message)
    ensures Histogram(SenderDays(ms + [m])) ==
      if HasSender(m) then Bump(Histogram(SenderDays(ms)), Day(m.date)) else Histogram(SenderDays(ms))
  {
    CollectionsSnoc(ms, m);
    if HasSender(m) {
      HistogramSnoc(SenderDays(ms), Day(m.date));
    } else {
      assert SenderDays(ms + [m]) == SenderDays(ms);
    }
  }

  lemma KeptSnoc(raw: seq<RawMessage>, env: Env, windowStart: int, i: nat)
    requires i < |raw|
    ensures KeptMessages(raw[..i + 1], env, windowStart) == KeptMessages(raw[..i], env, windowStart)
      + (if Keep(raw[i], env, windowStart).Some? then [Keep(raw[i], env, windowStart).value] else [])
  {
    assert raw[..i + 1][..i] == raw[..i];
  }

  lemma {:induction false} DayOfSender(ms: seq<Message>, p: string)
    requires DaysOf(ms, p) != {}
    requires p != ""
    ensures p in Senders(ms)
  {
    var init := ms[..|ms| - 1];
    if DaysOf(init, p) != {} {
      DayOfSender(init, p);
    }
  }

  /** The second loop (lines 93-134). */
  method FilterAndCount(raw: seq<RawMessage>, env: Env, windowStart: int)
    returns (messages: seq<Message>, participants: set<string>,
             dailyMessageCount: map<int, nat>, participantDays: map<string, set<int>>)
    ensures messages == KeptMessages(raw, env, windowStart)
    ensures participants == Senders(messages)
    ensures dailyMessageCount == Histogram(SenderDays(messages))
    ensures participantDays == ParticipantDays(messages)
  {
    messages, participants, dailyMessageCount, participantDays := [], {}, map[], map[];
    var i := 0;
    while i < |raw|
      invariant 0 <= i <= |raw|
      invariant messages == KeptMessages(raw[..i], env, windowStart)
      invariant participants == Senders(messages)
      invariant dailyMessageCount == Histogram(SenderDays(messages))
      invariant participantDays == ParticipantDays(messages)
    {
      KeptSnoc(raw, env, windowStart, i);
      var msg := raw[i];
      if !HasText(msg) {
        i := i + 1;
        continue;
      }
      var date: int;
      var parsed := MessageInstant(msg, env.parse);
      if parsed.Some? {
        if parsed.value < windowStart {
          i := i + 1;
          continue;
        }
        date := parsed.value;
      } else {
        date := env.now;
      }
      var record := Record(msg, date);
      assert Keep(msg, env, windowStart) == Some(record);
      CollectionsSnoc(messages, record);
      DailySnoc(messages, record);
      var senderId := msg.fromId;
      if Truthy(senderId) {
        participants := participants + {senderId.value};
        var day := Day(date);
        dailyMessageCount := Bump(dailyMessageCount, day);
        var days := if senderId.value in participantDays then participantDays[senderId.value] else {};
        participantDays := participantDays[senderId.value := days + {day}];
      }
      messages := messages + [record];
      i := i + 1;
    }
    assert raw[..i] == raw;
  }

  /** `process_telegram_data`: the metadata defaults, both passes, and the window
      `[latest - 7 days, ...)` between them. */
  method ProcessTelegramData(data: Export, env: Env) returns (r: Result<Processed, ProcessError>)
    ensures r.Failure? <==> Timestamps(data.messages, env.parse) == []
    ensures r.Success? ==>
      var p := r.value;
      && p.chatTitle == data.metadata.chatTitle.GetOr("Unknown Chat")
      && p.chatId == data.metadata.chatId.GetOr("unknown_id")
      && p.latest == Latest(Timestamps(data.messages, env.parse))
      && p.windowStart == p.latest - WeekSeconds
      && p.messages == KeptMessages(data.messages, env, p.windowStart)
      && p.participants == Senders(p.messages)
      && p.dailyMessageCount == Histogram(SenderDays(p.messages))
      && p.participantDays == ParticipantDays(p.messages)
  {
    var chatTitle := data.metadata.chatTitle.GetOr("Unknown Chat");
    var chatId := data.metadata.chatId.GetOr("unknown_id");
    var timestamps := CollectTimestamps(data.messages, env.parse);
    if timestamps == [] {
      return Failure(NoValidDates);
    }
    var latest := Latest(timestamps);
    var windowStart := latest - WeekSeconds;
    var messages, participants, daily, participantDays := FilterAndCount(data.messages, env, windowStart);
    r := Success(Processed(chatTitle, chatId, windowStart, latest, messages, participants, daily, participantDays));
  }

  // ---------------------------------------------------------------- properties

  /** The kept messages keep the input order: keeping distributes over concatenation. */
  lemma {:induction false} KeptAppend(a: seq<RawMessage>, b: seq<RawMessage>, env: Env, windowStart: int)
    ensures KeptMessages(a + b, env, windowStart) == KeptMessages(a, env, windowStart) + KeptMessages(b, env, windowStart)
    decreases |b|
  {
    if b == [] {
      assert a + b == a;
    } else {
      var init := b[..|b| - 1];
      assert (a + b)[..|a + b| - 1] == a + init;
      KeptAppend(a, init, env, windowStart);
    }
  }

  lemma {:induction false} TimestampsAppend(a: seq<RawMessage>, b: seq<RawMessage>, parse: Parsers)
    ensures Timestamps(a + b, parse) == Timestamps(a, parse) + Timestamps(b, parse)
    decreases |b|
  {
    if b == [] {
      assert a + b == a;
    } else {
      var init := b[..|b| - 1];
      assert (a + b)[..|a + b| - 1] == a + init;
      TimestampsAppend(a, init, parse);
    }
  }

  /** A raw message whose `text` is missing or empty changes neither pass, so it
      shows up in no message, counter or set of the result. */
  lemma TextlessIgnored(a: seq<RawMessage>, m: RawMessage, b: seq<RawMessage>, env: Env, windowStart: int)
    requires !HasText(m)
    ensures Timestamps(a + [m] + b, env.parse) == Timestamps(a + b, env.parse)
    ensures KeptMessages(a + [m] + b, env, windowStart) == KeptMessages(a + b, env, windowStart)
  {
    TimestampsAppend(a + [m], b, env.parse);
    TimestampsAppend(a, [m], env.parse);
    TimestampsAppend(a, b, env.parse);
    assert Timestamps([m], env.parse) == [] by { assert [m][..0] == []; }
    KeptAppend(a + [m], b, env, windowStart);
    KeptAppend(a, [m], env, windowStart);
    KeptAppend(a, b, env, windowStart);
    assert KeptMessages([m], env, windowStart) == [] by { assert [m][..0] == []; }
  }

  /** The window: for a text message whose date parses, with the window start set
      to the latest parsed instant minus seven days, the message is kept exactly
      when its instant is not before the start, and it is never after the latest. */
  lemma WindowBounds(raw: seq<RawMessage>, env: Env, i: nat)
    requires i < |raw| && HasText(raw[i]) && MessageInstant(raw[i], env.parse).Some?
    ensures Timestamps(raw, env.parse) != []
    ensures
      var latest := Latest(Timestamps(raw, env.parse));
      var t := MessageInstant(raw[i], env.parse).value;
      && t <= latest
      && (Keep(raw[i], env, latest - WeekSeconds).Some? <==> latest - WeekSeconds <= t)
  {
    TimestampOf(raw, env.parse, i);
  }

  /** A kept message ends up in the `messages` list. */
  lemma {:induction false} KeptMember(raw: seq<RawMessage>, env: Env, windowStart: int, i: nat)
    requires i < |raw| && Keep(raw[i], env, windowStart).Some?
    ensures Keep(raw[i], env, windowStart).value in KeptMessages(raw, env, windowStart)
    decreases |raw|
  {
    if i < |raw| - 1 {
      KeptMember(raw[..|raw| - 1], env, windowStart, i);
    }
  }

  /** When the first pass found a date the second pass keeps at least the latest
      message, so a successful run never hands an empty `messages` list on. */
  lemma KeptNonEmpty(raw: seq<RawMessage>, env: Env)
    requires Timestamps(raw, env.parse) != []
    ensures KeptMessages(raw, env, Latest(Timestamps(raw, env.parse)) - WeekSeconds) != []
  {
    var latest := Latest(Timestamps(raw, env.parse));
    var i := TimestampSource(raw, env.parse, latest);
    assert Keep(raw[i], env, latest - WeekSeconds).Some?;
    KeptMember(raw, env, latest - WeekSeconds, i);
  }

  /** The values of `daily_message_count` add up to the number of kept messages
      with a truthy `from_id`. */
  lemma DailyCountSum(ms: seq<Message>)
    ensures SumValues(Histogram(SenderDays(ms))) == |WithSender(ms)|
  {
    HistogramSum(SenderDays(ms));
  }
}
