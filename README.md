# Chat and repository report core, in Dafny

This project models the deterministic core of three report scripts: a weekly
Telegram chat digest, built from an exported JSON file or from a live chat history,
and a weekly GitHub repository report. Each model is stated in the script's own
terms, and the project proves properties of those models.

- **Offline digest** (`offline_telegram_summary.py`):
  - `process_telegram_data`: two passes over the exported messages. The first
    collects the parseable instants. The second keeps the text messages of the
    week that ends at the latest instant, and counts the messages per day and the
    days of each sender.
  - `generate_summary`: reads the model's reply. It takes the `<thinking>`,
    `<detailed_analysis>`, `<weekly_focus>`, `<summary_points>`, `<decisions>` and
    `<topics_discussed>` blocks, and the `<topic>`/`<details>` pairs inside the
    last one.
  - `generate_html`: the HTML list fallbacks and the activity chart series.
- **Live digest** (`telegram_chat_summary.py`):
  - One pass over the chat history, newest first. It drops the messages older than
    seven days, counts every in-window message per day, and stores each day's
    distinct senders when the day changes. It collects the text messages.
  - The section classifier: it files the model's reply line by line into core
    themes, decisions and general summary.
  - The line formatter: it turns the filed lines into HTML, with placeholders for
    empty sections.
  - The chart series.
- **Repository report** (`fetch_github_data.py`):
  - The filter that drops pull requests from the issue list.
  - The `#123` issue references of a pull request's body, and the cell that links
    them.
  - The report folder name, the date-range label, and the colour of a user name.

Instants are whole seconds since the Unix epoch, taken in UTC. A `'%Y-%m-%d'` day
string is modelled as the day number `t / 86400` (`Counting.Day`). For years with
four digits, the day strings sort the way the day numbers do.

How the code, as written, behaves at its edges:

- **No parseable date in the export.** `offline_telegram_summary.py:85` reads
  `datetime.datetime.min`, but the module imported the class `datetime`, so that
  attribute lookup raises `AttributeError`. The run stops there.
  `OfflineProcess.ProcessTelegramData` models this as the failure `NoValidDates`,
  which reaches the caller.
- **Heading level of a bare `#` word.** The heading level of a markdown line is the
  length of its first word once the `#` characters are stripped from it. A line
  such as `## Topic` has the first word `##`, so it becomes `<h0>Topic</h0>`
  (`LiveSummary.HeadingLevelZero`).
- **Report folder.** The folder name follows `fetch_github_data.py:90`:
  `weekly_report/<start>_<end>`.

## Model

| member | source | states |
|---|---|---|
| OfflineProcess.CollectTimestamps | offline_telegram_summary.py:59-75 | the first loop's `timestamps` are the instants of the text messages whose timestamp or date converts, in input order |
| OfflineProcess.TimestampOf | offline_telegram_summary.py:59-71 | every text message with a parseable instant contributes that instant to the first pass |
| OfflineProcess.TimestampSource | offline_telegram_summary.py:59-71 | every collected instant comes from a text message of the input whose instant it is |
| OfflineProcess.TimestampsAppend | offline_telegram_summary.py:59-75 | the first pass works message by message: it distributes over concatenation |
| OfflineProcess.Latest | offline_telegram_summary.py:79 | `max(timestamps)` is one of the instants and no instant exceeds it |
| OfflineProcess.Keep | offline_telegram_summary.py:93-134 | a message is kept iff it has text and its instant, when its timestamp or date converts, is not before the window start; a kept message carries the text and `from_id`, and is stamped with its instant, or with `now` when the conversion fails |
| OfflineProcess.FilterAndCount | offline_telegram_summary.py:93-134 | the second loop's messages, participants, daily counter and participant days are those of the kept messages |
| OfflineProcess.ProcessTelegramData | offline_telegram_summary.py:42-152 | fails iff no instant parses (line 85); otherwise: the metadata defaults, window = [latest - 7 days, ...), messages = the kept ones, participants = their truthy senders, daily counts = histogram of their days, participant days per sender |
| OfflineProcess.ParticipantDays | offline_telegram_summary.py:116-121 | `participant_days` has exactly the participants as keys, each with at least one day |
| OfflineProcess.SenderHasDay | offline_telegram_summary.py:116-121 | every participant has a day on which they sent a message |
| OfflineProcess.DayOfSender | offline_telegram_summary.py:116-121 | a non-empty sender with a day is a participant |
| OfflineProcess.SendersSnoc | offline_telegram_summary.py:116-118 | one more kept message adds its truthy sender to the participants and nothing else |
| OfflineProcess.SenderDaysSnoc | offline_telegram_summary.py:116-120 | one more kept message with a truthy sender adds its day to the counted days |
| OfflineProcess.DaysOfSnoc | offline_telegram_summary.py:116-121 | one more message adds its day to the days of its own sender only |
| OfflineProcess.ParticipantDaysSnoc | offline_telegram_summary.py:116-121 | one more message with a truthy sender adds its day to that sender's set, and a message without one leaves the map alone |
| OfflineProcess.CollectionsSnoc | offline_telegram_summary.py:116-134 | the three collections after one more kept message |
| OfflineProcess.DailySnoc | offline_telegram_summary.py:119-120 | one more counted message bumps its day in `daily_message_count` |
| OfflineProcess.KeptSnoc | offline_telegram_summary.py:93-134 | the kept list grows by the next message exactly when that message is kept |
| OfflineProcess.KeptAppend | offline_telegram_summary.py:93-134 | keeping distributes over concatenation, so the messages stay in input order |
| OfflineProcess.TextlessIgnored | offline_telegram_summary.py:61-62 | a message with no text changes neither pass |
| OfflineProcess.WindowBounds | offline_telegram_summary.py:78-108 | a parseable text message is never after the latest instant, and it is kept iff it is at most seven days before it |
| OfflineProcess.KeptMember | offline_telegram_summary.py:128-134 | every kept message is in the `messages` list |
| OfflineProcess.KeptNonEmpty | offline_telegram_summary.py:78-134 | when some date parses, the latest message is kept, so `messages` is not empty |
| OfflineProcess.DailyCountSum | offline_telegram_summary.py:116-121 | the daily counts add up to the number of kept messages with a truthy `from_id` |
| OfflineSummary.FindBlock | offline_telegram_summary.py:259 | a `<tag>(.*?)</tag>` match lies after the search start, and its group is the text between the tags |
| OfflineSummary.FindBlockLeftmost | offline_telegram_summary.py:259 | the match is the leftmost `<tag>` that some `</tag>` closes, and it ends at the first `</tag>` after it; with no match, no `<tag>` is closed |
| OfflineSummary.Group | offline_telegram_summary.py:272 | `re.search(...).group(1)` exists iff some `<tag>` is followed by a `</tag>` |
| OfflineSummary.RemoveBlocks | offline_telegram_summary.py:263 | `re.sub` of the blocks never lengthens the text, and leaves it unchanged iff there is no block |
| OfflineSummary.BulletPoints | offline_telegram_summary.py:278-285 | the loop yields the bullet texts of the `- ` lines |
| OfflineSummary.BulletsPicked | offline_telegram_summary.py:280-285 | the bullets are, in order, the dash-less stripped texts of exactly the lines that start with `- ` once stripped |
| OfflineSummary.BulletsOneLine | offline_telegram_summary.py:280-285 | no bullet holds a line break |
| OfflineSummary.DecisionsMade | offline_telegram_summary.py:290-296 | the loop yields the decision lines of the block |
| OfflineSummary.DecisionLinesPicked | offline_telegram_summary.py:293-296 | the decisions are, in order, the stripped forms of exactly the lines that start with `- ` once stripped |
| OfflineSummary.DecisionsShape | offline_telegram_summary.py:294-296 | each decision starts with `- ` and is already stripped |
| OfflineSummary.NoDecisionsListed | offline_telegram_summary.py:292 | a block that says "No formal decisions" or "No decisions" lists no decision |
| OfflineSummary.DecisionsListed | offline_telegram_summary.py:292-296 | a block that says neither lists its decision lines |
| OfflineSummary.TopicsDiscussed | offline_telegram_summary.py:298-312 | the loop yields one topic per `finditer` match |
| OfflineSummary.GenerateSummary | offline_telegram_summary.py:159-167 | no messages gives the no-messages result; a failed call gives the error result (lines 323-332); otherwise the parse of the reply |
| OfflineSummary.FocusDefault | offline_telegram_summary.py:272-273 | the weekly focus is the stripped group when the body has a `<weekly_focus>` block, and the default sentence otherwise |
| OfflineSummary.Picks | offline_telegram_summary.py:280-296 | the increasing indices of exactly the lines a filter keeps |
| TopicScan.NextTopic | offline_telegram_summary.py:305 | a found match starts at or after the search start, and its four tags are in order inside the text |
| TopicScan.TopicMatches | offline_telegram_summary.py:305-306 | every match `finditer` yields has its tags in order |
| TopicRegex.TopicEndFirst | offline_telegram_summary.py:305 | the lazy `(.*?)</topic>\s*<details>` stops at the first `</topic>` that whitespace and `<details>` follow |
| TopicRegex.NextTopicLeftmost | offline_telegram_summary.py:305 | the next match is the leftmost one, with the shortest topic and details groups, and none starts before it |
| TopicRegex.TopicFromLeftmost | offline_telegram_summary.py:305 | from the first `<topic>`, the match is found or none exists |
| TopicRegex.DetailsFromLeftmost | offline_telegram_summary.py:305 | after the first closing, the details end at the first `</details>`, or no match exists |
| TopicRegex.Found | offline_telegram_summary.py:305 | the first `<topic>`, first closing and first `</details>` make the leftmost match |
| TopicRegex.NoOpening | offline_telegram_summary.py:305 | with no `<topic>` left there is no match |
| TopicRegex.NoClosingMatch | offline_telegram_summary.py:305 | with no `</topic>\s*<details>` after the first `<topic>` there is no match |
| TopicRegex.NoDetails | offline_telegram_summary.py:305 | with no `</details>` after the details there is no match |
| TopicRegex.LaterTopic | offline_telegram_summary.py:305 | any match starts at or after the first `<topic>` and closes where `\s*<details>` follows |
| TopicRegex.TopicAtCloses | offline_telegram_summary.py:305 | in a match, the details start right after the whitespace that follows `</topic>` |
| TopicRegex.TopicMatchesStep | offline_telegram_summary.py:305-306 | the matches are the next match, then the matches after its end |
| TopicRegex.TopicMatchesFinditer | offline_telegram_summary.py:305-306 | the computed matches are exactly the successive leftmost non-overlapping matches |
| TopicRegex.FinditerCons | offline_telegram_summary.py:305-306 | a leftmost match followed by the matches after it is a `finditer` sequence |
| TopicRegex.SkipStart | offline_telegram_summary.py:305 | a position without `<topic>` starts no match |
| TopicRegex.SkipSpaceAll | offline_telegram_summary.py:305 | `\s*` consumes only whitespace |
| TopicRegex.SkipSpaceStop | offline_telegram_summary.py:305 | `\s*` stops at the end or at a non-space |
| TopicRegex.SpaceBeforeDetails | offline_telegram_summary.py:305 | whitespace then `<details>` is exactly where `\s*` stops |
| OfflineHtml.WeeklyFocusHtml | offline_telegram_summary.py:345 | the placeholder iff the focus is empty; otherwise the focus inside the `weekly-focus` paragraph |
| OfflineHtml.ListHtml | offline_telegram_summary.py:347-359 | the placeholder when there are no texts; otherwise one item line per text, in order |
| OfflineHtml.ListRoundTrip | offline_telegram_summary.py:347-357 | splitting the list HTML into lines reads every text back, in order |
| OfflineHtml.ItemTextRoundTrip | offline_telegram_summary.py:350 | an item line reads back as its text |
| OfflineHtml.ItemText | offline_telegram_summary.py:350 | a line that reads back as a text is that text's item line |
| OfflineHtml.ItemsNotPlaceholder | offline_telegram_summary.py:347-359 | a non-empty list never equals either placeholder |
| OfflineHtml.LinesSplit | offline_telegram_summary.py:350 | lines joined with trailing line breaks split back into themselves and a final empty string |
| OfflineHtml.TopicsHtml | offline_telegram_summary.py:362-372 | the placeholder when there are no topics; otherwise the topic cards concatenated in order |
| OfflineHtml.TopicTitleShown | offline_telegram_summary.py:364-370 | the i-th topic's title appears right after the head of the i-th card, after all the earlier cards |
| OfflineHtml.CardShown | offline_telegram_summary.py:365-370 | a card shows its topic's title after the card head |
| OfflineChart.ParticipantCounts | offline_telegram_summary.py:399-402 | one count per day: the number of participants whose days include it |
| OfflineChart.ChartSeries | offline_telegram_summary.py:395-410 | equal-length series; one point per sorted day with its message and participant counts, or a single zero point for today when there are no days |
| OfflineChart.SendersOnBound | offline_telegram_summary.py:116-121 | a day has no more distinct participants than counted messages |
| OfflineChart.SendersOnSnoc | offline_telegram_summary.py:116-121 | one more message adds at most its own sender to a day's participants |
| OfflineChart.SendersOnNonEmpty | offline_telegram_summary.py:116-121 | a day with a counted message has a participant |
| OfflineChart.ParticipantsPerDay | offline_telegram_summary.py:395-402 | every charted day has between one participant and its message count |
| LiveWindow.ScanHistory | telegram_chat_summary.py:73-140 | the window starts seven days before `now`; `msg_counter` counts every message; `filtered_counter` counts those before the window and is at most `msg_counter`; the collected messages, participants, per-day counts and per-day participant counts are those of the in-window messages; both maps have the same days |
| LiveWindow.CountMessage | telegram_chat_summary.py:108-136 | one in-window message keeps every collection equal to its definition over the messages read so far |
| LiveWindow.NextDay | telegram_chat_summary.py:108-116 | on a day change the previous day's senders are stored and the day's set restarts, keeping the day register's invariant |
| LiveWindow.RegisterStep | telegram_chat_summary.py:108-125 | the day register after one more message, with and without a day change |
| LiveWindow.RegisterFlush | telegram_chat_summary.py:138-140 | storing the last day completes `participant_count_by_day` |
| LiveWindow.InWindowSnoc | telegram_chat_summary.py:104-106 | the window keeps the next message iff it is not before the start |
| LiveWindow.MessageSnoc | telegram_chat_summary.py:119-136 | one more message adds its record when it has text, its sender when it has one, and its day |
| LiveWindow.DaysInSnoc | telegram_chat_summary.py:109-119 | one more message adds its day to the counted days |
| LiveWindow.InWindowAppend | telegram_chat_summary.py:104-106 | the window filter distributes over concatenation, so it keeps the history's order |
| LiveWindow.InWindowBounds | telegram_chat_summary.py:104 | every kept message is from the history and not before the window start |
| LiveWindow.FilteredIgnored | telegram_chat_summary.py:104-106 | a message before the window changes nothing the loop builds |
| LiveWindow.DayCountsCoverMessages | telegram_chat_summary.py:119 | the day counts add up to the in-window messages, which are at least `total_messages` (line 143) |
| LiveWindow.ParticipantsAreSenders | telegram_chat_summary.py:122-124 | an id is a participant iff some in-window message has a `from_user` with that id |
| LiveWindow.LastRunContiguous | telegram_chat_summary.py:108-116 | when each day's messages come together, the last stored senders of a day are all its senders |
| LiveWindow.ParticipantCountContiguous | telegram_chat_summary.py:108-140 | for contiguous days, each day's participant count is its number of distinct senders |
| LiveWindow.RunTailAll | telegram_chat_summary.py:108-125 | for contiguous days, the current day's set holds all of that day's senders |
| LiveWindow.SendersOnAbsent | telegram_chat_summary.py:122-125 | a day without messages has no senders |
| LiveWindow.RunTailWithin | telegram_chat_summary.py:122-125 | the current day's set holds only senders of that day |
| LiveWindow.LastRunWithin | telegram_chat_summary.py:113 | a stored day count counts only senders of that day |
| LiveWindow.SendersOnBound | telegram_chat_summary.py:119-125 | a day has no more distinct senders than messages |
| LiveWindow.ParticipantsAtMostMessages | telegram_chat_summary.py:113-140 | every stored day is a counted day, and its participant count is at most its message count |
| LiveSummary.ClassifyLines | telegram_chat_summary.py:207-236 | each of the three lists holds, in order, the content lines filed under its section |
| LiveSummary.RoutedSnoc | telegram_chat_summary.py:212-236 | a header line switches the section and is not filed; another non-blank line is filed under the current section, or under general summary before any header |
| LiveSummary.Routed | telegram_chat_summary.py:226-236 | no filed line is blank |
| LiveSummary.HeaderPriority | telegram_chat_summary.py:216-224 | the header tests in order: "core theme" wins; then "decision" with "made" or "reached"; then "general summary"; a bare "summary" switches to general summary iff the section is core themes or decisions; a header line contains "core theme", "decision" or "summary" |
| LiveSummary.RedundantHeaderTests | telegram_chat_summary.py:216-222 | the "three core theme" test never decides anything by itself, and a "general summary" line also contains "summary" |
| LiveSummary.UnsetBeforeHeader | telegram_chat_summary.py:207 | before any header the section is unset |
| LiveSummary.NoHeaderAllGeneral | telegram_chat_summary.py:234-236 | with no header, every non-blank line goes to the general summary, and the other two lists stay empty |
| LiveSummary.RoutedPartition | telegram_chat_summary.py:226-236 | every content line is filed in exactly one list; headers and blank lines in none |
| LiveSummary.FormatLine | telegram_chat_summary.py:240-268 | a non-blank line always produces some HTML |
| LiveSummary.HeadingLine | telegram_chat_summary.py:240-244 | a line starting with `#` once stripped becomes `<hN>` with the remaining words joined by spaces and `</hN>`, N being the length of the first word without its `#` characters |
| LiveSummary.PlainLine | telegram_chat_summary.py:247-248 | a line that is not a heading, a numbered themes line or a bulleted decisions line becomes `<p>`, the whole line, `</p>` |
| LiveSummary.FormatSection | telegram_chat_summary.py:239-268 | the section loop produces the HTML of its non-blank lines, in order |
| LiveSummary.SectionHtmlEmpty | telegram_chat_summary.py:239-276 | a section's HTML is empty iff all its lines are blank |
| LiveSummary.HeadingLevelZero | telegram_chat_summary.py:241-244 | a first word made only of `#` gives heading level 0 and an `<h0>` tag |
| LiveSummary.ThemeItemIff | telegram_chat_summary.py:245-246 | a line becomes a `theme-item` paragraph iff it is a core-themes line that is not a `#` header and starts with `1.`, `2.` or `3.` once stripped |
| LiveSummary.DecisionItemIff | telegram_chat_summary.py:256-257 | a line becomes a `decision-item` paragraph iff it is a decisions line that is not a `#` header and starts with `•`, `-` or `*` once stripped |
| LiveSummary.PlaceholderWhenEmpty | telegram_chat_summary.py:270-276 | a section shows its placeholder exactly when no line was filed under it |
| LiveSummary.FormattedSummary | telegram_chat_summary.py:163-287 | no collected message gives the no-messages paragraph; otherwise a failed call or a `None` content abandons the report, and a reply gives the three formatted sections of the stripped reply's lines, each or its placeholder, concatenated |
| LiveChart.ChartSeries | telegram_chat_summary.py:280-292 | equal-length series; one point per sorted day with its message count and stored participant count (0 if none), or a single zero point for today when no text message was collected |
| LiveChart.WindowChartFacts | telegram_chat_summary.py:281-283 | collected text messages imply a charted day; every charted day has a stored participant count, at most its message count |
| GithubReport.WithoutPullRequests | fetch_github_data.py:40 | the filter never lengthens the list |
| GithubReport.WithoutPullRequestsMembers | fetch_github_data.py:40 | an entry is kept iff it is in the input and has no `pull_request` key |
| GithubReport.WithoutPullRequestsAppend | fetch_github_data.py:75 | the filter distributes over concatenation, so the kept entries keep their order |
| GithubReport.WithoutPullRequestsNone | fetch_github_data.py:75 | a list with no pull request comes through unchanged |
| GithubReport.ExtractIssues | fetch_github_data.py:55-59 | no description gives no reference; every reference is a non-empty run of digits |
| GithubReport.FindAll | fetch_github_data.py:59 | every `findall` group is a non-empty run of digits |
| GithubReport.DigitsEnd | fetch_github_data.py:59 | `\d+` takes the longest run of digits |
| GithubReport.FindAllEveryHash | fetch_github_data.py:59 | the non-overlapping left-to-right matches are exactly the digit runs after every `#` followed by a digit, in order |
| GithubReport.SkipDigits | fetch_github_data.py:59 | a run of digits holds no match start |
| GithubReport.NoReferenceIff | fetch_github_data.py:59 | there is no reference iff no `#` is followed by a digit |
| GithubReport.RelatedIssuesSplit | fetch_github_data.py:199 | cutting the cell at its commas gives one link per reference, in order |
| GithubReport.NoCommaInLink | fetch_github_data.py:199 | a link has no comma when the owner and repository names have none |
| GithubReport.JoinSplit | fetch_github_data.py:209 | pieces joined by `", "` split back at the commas |
| GithubReport.WeekFolder | fetch_github_data.py:90 | the folder name has a fixed length |
| GithubReport.WeekFolderParts | fetch_github_data.py:90 | the folder is `weekly_report/`, the start's `YYYYMMDD`, `_`, and the end's `YYYYMMDD` |
| GithubReport.CompactRoundTrip | fetch_github_data.py:90 | the `%Y%m%d` form reads back as the year, month and day |
| GithubReport.DateRangeCases | fetch_github_data.py:120-126 | the label's length (17, 21 or 27) is 17 iff same month and year, 21 iff same year and another month, 27 iff the years differ |
| GithubReport.DateRangeStart | fetch_github_data.py:120-126 | the label opens with the start's month and day, and with the whole start date followed by ` - ` when the years differ |
| GithubReport.DateRangeEnd | fetch_github_data.py:120-126 | the label closes with the end's zero-padded day, a comma and the end's year |
| GithubReport.DateRangeFullEnd | fetch_github_data.py:123-126 | the label closes with ` - ` and the whole end date when the months or the years differ |
| GithubReport.MonthAbbr | fetch_github_data.py:122 | `%b` is three letters |
| GithubReport.GenerateColor | fetch_github_data.py:111-114 | a `#` then the first six hex digits of the digest: seven characters, a CSS colour |
| Text.StripFacts | telegram_chat_summary.py:227 | `strip()` is empty iff the line is blank; otherwise it starts and ends with a non-space and is a slice of the line |
| Text.LStripFacts | telegram_chat_summary.py:241 | `lstrip()` drops exactly the leading whitespace |
| Text.RStripFacts | telegram_chat_summary.py:241 | `rstrip()` drops exactly the trailing whitespace |
| Text.StripIdempotent | offline_telegram_summary.py:281 | stripping twice is stripping once |
| Text.StripTrimmed | offline_telegram_summary.py:294 | a string with no outer whitespace is its own strip |
| Text.StripCharAll | telegram_chat_summary.py:242 | `strip('#')` of a word made of `#` is empty |
| Text.Lower | telegram_chat_summary.py:213 | `lower()` keeps the length, leaves no capital letter, turns each capital into the small letter at the same place in the alphabet and keeps every other character |
| Text.LowerIdempotent | telegram_chat_summary.py:213 | lowering an already lowered string changes nothing |
| Text.IndexOfFirst | offline_telegram_summary.py:292 | the search finds the first occurrence from the start position, or there is none |
| Text.ContainsIff | telegram_chat_summary.py:216 | `in` holds iff the pattern occurs somewhere |
| Text.Split | telegram_chat_summary.py:212 | `split('\n')` gives at least one piece and no piece holds the separator |
| Text.SplitJoin | offline_telegram_summary.py:280 | joining the split pieces with the separator gives the text back |
| Text.SplitLine | offline_telegram_summary.py:280 | a piece before the first separator is the first piece |
| Text.Words | telegram_chat_summary.py:242-243 | `split()` gives non-empty runs without whitespace, and nothing iff the line is blank |
| Text.WordsFirst | telegram_chat_summary.py:242-243 | the first word of a non-blank line is the longest whitespace-free prefix of the line without its leading whitespace, and the other words are the words of what follows it |
| Text.WordLength | telegram_chat_summary.py:242 | a word runs up to the first whitespace |
| Text.NatToStringRoundTrip | telegram_chat_summary.py:244 | the decimal form of the heading level reads back as that level |
| Text.PadRoundTrip | fetch_github_data.py:90 | a zero-padded field reads back as its number |
| Text.Pad | fetch_github_data.py:90 | a zero-padded field has its width and only digits |
| Text.ConcatPart | offline_telegram_summary.py:364-370 | the i-th part sits right after the parts before it |
| Counting.Histogram | telegram_chat_summary.py:119 | the counter's keys are exactly the counted values |
| Counting.HistogramSnoc | offline_telegram_summary.py:120 | one more value bumps its count |
| Counting.HistogramSum | telegram_chat_summary.py:119 | the counts add up to the number of counted values |
| Counting.OccurrencesPositive | telegram_chat_summary.py:119 | a value has a positive count iff it was counted |
| Counting.SortedSeq | telegram_chat_summary.py:281 | `sorted(keys)`: strictly increasing, the same elements, the same number |

## Left out

- The Telegram client, the Anthropic and OpenAI calls, the GitHub REST calls, file
  and environment access, argument parsing and all printing are not modelled. The
  model's reply is a parameter (`None` when the call raised), and so is the
  history the client yields.
- `MESSAGE_LIMIT` is enforced by the client inside `get_chat_history`. The model
  takes whatever history the client returns.
- Clocks and date formatting are parameters: `datetime.now()`, the
  `fromtimestamp` of the export's `timestamp` field, the `strptime` of its `date`
  field, and the `'%m/%d'` chart labels. Collected entries keep
  their instant, not the `'%Y-%m-%d %H:%M:%S'` string.
- Day strings are day numbers. This is exact for UTC instants of years 1000-9999.
  The live script takes `message.date` as already UTC, and so does the model.
- `LiveWindow.ScanHistory`: a `text` of `None` is modelled as the empty string,
  which the loop treats the same way. The `'Unknown'` sender id of an entry
  without a user is `None`.
- `OfflineProcess.MessageInstant`: every failed conversion is `None`, which the
  passes skip or stamp with `now`. In the source only `ValueError` is caught: a
  timestamp so large that `fromtimestamp` raises `OverflowError` or `OSError`
  instead, or a `"date": null` beside a falsy timestamp (`strptime(None)` raises
  `TypeError`), ends the run. The model reads a null date as `""`.
- `OfflineProcess.SenderName`: a `"first_name": null` is read as `'Unknown'`. In
  the source `msg.get` returns `None`, so the name is `None`, or line 126 raises
  `TypeError` when a username is present.
- `OfflineProcess.Keep`: `Env.now` is one instant. Line 113 calls `datetime.now`
  anew for each message whose date does not convert, so their stamps can differ
  by the time the loop takes.
- `Text.Lower`: ASCII letters only. Python's `lower()` also folds non-ASCII
  letters.
- `GithubReport.FindAll`: `\d` matches ASCII digits only. Python also matches the
  other Unicode decimal digits.
- The regular expressions are replaced by scanners whose match positions are proved
  to be those of `re.search`, `re.sub` and `re.finditer` for these patterns.
  `findall` is proved equal to a position-by-position definition.
- `GithubReport.GenerateColor`: the MD5 digest is a parameter. Its only assumed
  property is 32 lower-case hex digits, so colours are not tied to MD5 itself.
- `GithubReport.DateRange` and `GithubReport.WeekFolder`: years are limited to four
  digits. `%Y` pads differently by platform below year 1000.
- `GithubReport.RelatedIssuesSplit`: the round trip assumes owner and repository
  names without commas. GitHub names cannot hold one.
- The HTML page templates, CSS, the thinking and analysis boxes, and the frontend
  are string templating with no logic. They are not part of this model.
- The other scripts of the repository (multi-repository variants, index pages,
  retry wrappers) are not part of this model.
