# Dactilografía — a verified model of the typing-practice core

Dactilografía is a web application for typing practice. It is aimed at people
preparing for the typing tests of public-service exams. The user gets a
reference text and types it against a four-minute clock. While they type,
the page colours each reference word as correct, wrong, pending or current.
It also counts the correct words and the words per minute. A results dialog
grades the count against a goal. Custom practices and exam-specific
practices are chosen in a dialog.

Behind this sit a few supporting pieces:

- a script that cuts legal texts into practice texts of a few hundred words;
- a tracker that records each page visit with the device, browser and
  operating system read from the user agent;
- a gate that turns small handheld devices away and always lets crawlers in;
- an administration area that lists, counts and charts the recorded visits.

This project models that core in Dafny and proves what it does. There is one
module per source file, plus two shared modules:

| module | file | models |
|---|---|---|
| `Options`, `Numbers`, `Text` | text.dfy | optional values, `Math.round` on non-negative rationals, JavaScript's `\s`, `trim`, `split(/\s+/)`, `toLowerCase` on ASCII, `includes`, decimal digits and `padStart` |
| `Typing` | typing.dfy | the practice page: the word classifier, the metrics, the clock, and the session's start/cancel/finish/tick state machine (a class) |
| `MarkedText` | marked_text.dfy | the marked-text component's own classifier |
| `Results` | results.dfy | the results dialog: elapsed time, progress-bar colour, bar width, axis and verdict |
| `Collections`, `Api` | api.dfy | distinct elements of a sequence, the recorded page visit, and JavaScript truthiness of optional fields |
| `VisitsTab` | visits_tab.dfy | the visits table: time formatting, URL truncation, icons, summary cards, average time, and the pager (a class) |
| `VisitsCharts` | visits_charts.dfy | the statistics and the browser, device and top-five page charts |
| `Extract` | extract.dfy | the text extraction script: article splitting, the chunker that builds practice texts, cleaning and file names |
| `UserAgent` | user_agent.dfy | device type, browser and operating system of a user agent |
| `DeviceCheck` | device_check.dfy | the bot and handheld decision and the gate's render decision (a class) |
| `PracticeModal` | practice_modal.dfy | selecting an exam practice and validating a custom one (a class) |

Several pieces change state step by step, and they are classes with
`modifies` clauses. They are the practice session, the visits pager, the
device gate and the practice dialog. The two word classifiers are loops
pushing onto a list, and so are the chart tally (`VisitsCharts.Tally`) and
the extraction script's article, sentence and practice-text loops
(`Extract.SplitIntoArticles`, `Extract.ChunkSentences`,
`Extract.CreatePracticeTexts`). Each loop is a method proved equal to a
specification function, and the specification function carries the
properties. Everything else is pure functions and lemmas about them.

The practice page's classifier has branches meant to resynchronise after an
omitted or an extra word (src/app/page.tsx:114-134). The model keeps them.
The loop invariant `i == j || InputAt(inputWords, j) == ""` proves that those
branches are never taken, so the classifier is index-aligned.
`Typing.OmittedWordExample` and `Typing.ExtraWordExample` show the
consequence on concrete inputs: after an omitted or an extra word, every
later word is compared with its index-wise neighbour.

Points where the code and its documentation disagree are modelled as the code
is written:

- In the marked-text component, blank input splits to one empty word, so the
  second reference word is shown as current (`MarkedText.BlankInput`).
- The page computes no accuracy percentage. Only the correct-word count and
  the words per minute exist.
- The page's tablet test `/tablet|ipad/` can only succeed through "tablet".
  An iPad is always reported as mobile (`UserAgent.IpadIsMobile`).
- A user agent that mentions both Linux and Android is recorded as Linux
  (`UserAgent.AndroidRecordedAsLinux`).
- The "unique users" card of the visits table counts visits that carry a
  user id, not distinct users (`VisitsTab.UsersCardCountsVisits`).

## Model

| member | source | states |
|---|---|---|
| `Numbers.QuotientBounds` | src/app/page.tsx:145-146 | the quotient is the floor of the division: `q*b <= a < (q+1)*b` |
| `Numbers.RoundBounds` | src/app/page.tsx:146 | `Math.round(a/b)` is the integer nearest to `a/b`, with halves rounding up |
| `Text.TrailingSpaceRun` | src/app/page.tsx:91 | counts exactly the whitespace characters at the end of a string |
| `Text.Trim` | src/app/page.tsx:33 | `trim()` yields a contiguous piece of the input with no leading or trailing whitespace, and what it drops before and after that piece is all whitespace; it is empty exactly when the input is blank |
| `Text.TrimOfTrimmed` | src/app/page.tsx:33 | trimming a string that is already trimmed changes nothing |
| `Text.WordRun` | src/app/page.tsx:91 | the length of the leading non-whitespace run, stopping at the first whitespace |
| `Text.SpaceRun` | src/app/page.tsx:91 | the length of the leading whitespace run, stopping at the first non-whitespace |
| `Text.SplitWs` | src/app/page.tsx:91 | `split(/\s+/)` returns at least one piece, and its first piece is non-empty when the text starts with a non-whitespace character |
| `Text.SplitWsConcat` | src/app/page.tsx:91 | the pieces, put back together, are exactly the text with its whitespace removed |
| `Text.SplitWsEdges` | extract-pdf-text.js:87 | splitting an untrimmed non-blank text gives its trimmed words plus one empty piece for each end that is whitespace |
| `Text.SplitJoin` | extract-pdf-text.js:126 | splitting whitespace-free words joined by single spaces gives back those words |
| `Text.SplitTrimmedIsWords` | src/app/page.tsx:91-92 | splitting a non-blank trimmed string gives only non-empty words |
| `Text.Tokenize` | src/app/page.tsx:91-92 | `trim().split(/\s+/)` gives `[""]` exactly for blank text and otherwise only non-empty whitespace-free words; put back together, they are the text with its whitespace removed |
| `Text.JoinedWordsBack` | src/app/page.tsx:91-92 | tokenizing whitespace-free words joined by single spaces gives back those words |
| `Text.CollapseKeepsSplit` | extract-pdf-text.js:126 | `replace(/\s+/g, " ")` does not change what `split(/\s+/)` finds |
| `Text.CollapseAroundWords` | extract-pdf-text.js:126 | a collapsed non-blank text is its words joined by single spaces, with one space added at each end that was whitespace |
| `Text.TrimCollapse` | extract-pdf-text.js:126-127 | collapsing then trimming a non-blank text gives its words joined by single spaces |
| `Text.Lower` | src/app/components/PageVisitTracker.tsx:71 | lower-casing keeps the length and maps every character by itself |
| `Text.LowerIdempotent` | src/app/admin/components/VisitsTab.tsx:83 | lower-casing twice equals lower-casing once |
| `Text.ContainsAt` | src/app/components/PageVisitTracker.tsx:82 | an occurrence at any position makes `includes` true |
| `Text.ContainsInfix` | src/app/components/PageVisitTracker.tsx:72 | a string contains every substring of each string it contains |
| `Text.NatToString` | src/app/page.tsx:181 | `String(n)` is a digit string with no leading zero whose decimal value is `n` |
| `Text.NatToStringInjective` | src/app/page.tsx:181 | different numbers have different decimal strings |
| `Text.PadZeros` | src/app/page.tsx:181 | `padStart(w, "0")` reaches width `w` and keeps the decimal value |
| `Text.DigitChar` | src/app/page.tsx:181 | a digit below ten is written as the character of that value |
| `Typing.NoWordAfterGap` | src/app/page.tsx:97-101 | once the input has no word at an index, it has none at any later index |
| `Typing.StatusAt` | src/app/page.tsx:97-131 | a reference word is pending exactly when the input has no word at its index, correct exactly when the input word there equals it; current only at the last input word, error only before it |
| `Typing.Classify` | src/app/page.tsx:95-135 | one state per reference word, carrying the reference words in order |
| `Typing.AlignWords` | src/app/page.tsx:94-135 | the two-pointer loop, resynchronisation branches included, computes the index-aligned classification; those branches are unreachable |
| `Typing.GetWordStates` | src/app/page.tsx:90-137 | the page's classifier on two texts is the index-aligned classification of their tokens |
| `Typing.ClassifyShape` | src/app/page.tsx:98-113 | pending words form a suffix; every word after a current word is pending, so at most one word is current |
| `Typing.MatchingPrefix` | src/app/page.tsx:103-111 | typed words that match the start of the reference are all correct, and the rest are pending |
| `Typing.BlankInputAllPending` | src/app/page.tsx:97-101 | blank input leaves every reference word pending |
| `Typing.CountStatus` | src/app/page.tsx:143 | a status count never exceeds the number of states |
| `Typing.CountCorrectBound` | src/app/page.tsx:143 | if no state from index `m` on is correct, at most `m` are correct |
| `Typing.CorrectAtMostTyped` | src/app/page.tsx:143 | the correct-word count is at most the number of typed words, and 0 for blank input |
| `Typing.OmittedWordExample` | src/app/page.tsx:118-121 | "el perro corre" typed as "el corre" gives correct, current, pending: the omission is not resynchronised |
| `Typing.ExtraWordExample` | src/app/page.tsx:122-124 | "el perro corre" typed as "el muy perro corre" gives correct, error, error: the extra word is not skipped |
| `Typing.Wpm` | src/app/page.tsx:144-146 | words per minute are 0 before any time has elapsed; otherwise the model takes the integer nearest to the exact ratio `60*words/elapsed`, halves rounding up (the page's own double arithmetic is under Left out) |
| `Typing.WpmAfterOneMinute` | src/app/page.tsx:144-146 | after exactly one minute the rate equals the number of typed words |
| `Typing.WpmMonotone` | src/app/page.tsx:144-146 | for the same elapsed time, more typed words never give fewer words per minute |
| `Typing.Pad2` | src/app/page.tsx:181 | a number of two or more digits is printed as it is, and a single digit gets exactly one leading `0`; the value is kept |
| `Typing.FormatClock` | src/app/page.tsx:181 | the clock is two digit groups around a colon; the seconds are below 60, minutes*60+seconds gives back the time, and the minutes take exactly two digits below 10 minutes and their own digits otherwise |
| `Typing.CorrectWords` | src/app/page.tsx:142-143 | the correct-word metric is at most the number of typed words, and 0 for blank input |
| `Typing.ComputeMetrics` | src/app/page.tsx:142-146 | the metrics effect's body yields the classifier's correct count and the rounded words per minute over the elapsed time |
| `Typing.PracticeSession.constructor` | src/app/page.tsx:11-18 | the session starts unlocked and stopped, with empty texts, a full clock and zero metrics |
| `Typing.PracticeSession.CanStart` | src/app/page.tsx:278 | "Iniciar" is enabled exactly when the session is unlocked and the text is not blank |
| `Typing.PracticeSession.CanStop` | src/app/page.tsx:285-292 | "Cancelar" and "Finalizar" are never enabled together with "Iniciar" |
| `Typing.PracticeSession.CanType` | src/app/page.tsx:370 | the textarea is enabled only while the stop buttons are, and in every reachable state exactly then |
| `Typing.PracticeSession.CanLoadText` | src/app/page.tsx:299 | "Nuevo Texto" is never enabled together with the stop buttons |
| `Typing.PracticeSession.BeginLoad` | src/app/page.tsx:24-27 | a session locked when the request is made ignores it; otherwise the text starts loading and "Nuevo Texto" is disabled; nothing else changes |
| `Typing.PracticeSession.CompleteLoad` | src/app/page.tsx:28-41 | a fetched text replaces the practice text, trimmed, even if the session is locked by now; a failed fetch keeps it; loading ends, and "Nuevo Texto" is enabled again when unlocked |
| `Typing.StartWhileLoading` | src/app/page.tsx:24-41 | a practice started while the text is loading stays locked and ends up with the fetched text as its reference |
| `Typing.PracticeSession.StartPractice` | src/app/page.tsx:50-61 | blank text changes nothing; otherwise the session locks and runs, with input cleared, a full clock and zero metrics; when "Iniciar" was enabled, afterwards only the stop buttons and the textarea are |
| `Typing.PracticeSession.CancelPractice` | src/app/page.tsx:64-71 | every session field returns to its initial value, except the practice text; the stop buttons and the textarea are disabled and "Iniciar" is enabled exactly for a non-blank text |
| `Typing.PracticeSession.FinishPractice` | src/app/page.tsx:74-77 | only unlocks and stops; input, clock and metrics are kept, so a second call changes nothing; the stop buttons and the textarea are disabled and "Iniciar" is enabled exactly for a non-blank text |
| `Typing.PracticeSession.TypeText` | src/app/page.tsx:366-370 | typing changes the input only while the session is locked and running |
| `Typing.PracticeSession.Tick` | src/app/page.tsx:80-87 | while running, a tick takes exactly one second off the clock; at zero it finishes the session and disables the stop buttons and the textarea; the clock stays within the session's length |
| `Typing.PracticeSession.RefreshMetrics` | src/app/page.tsx:140-147 | while running, the metrics become the classifier's correct count and the rounded words per minute; once stopped they are frozen |
| `MarkedText.MarkedClassify` | src/app/components/MarkedText.tsx:95-119 | one state per reference word, carrying the reference words in order |
| `MarkedText.LoopStatusAt` | src/app/components/MarkedText.tsx:95-111 | the loop's status: current exactly at the index just past the input, correct exactly where the page's classifier says correct, and the page's status away from the last input word and the index after it |
| `MarkedText.MarkedStatusAt` | src/app/components/MarkedText.tsx:95-119 | the final status: current exactly just past the input, or at the last reference word when the input is longer; the loop's status whenever the input is no longer than the reference |
| `MarkedText.MarkWords` | src/app/components/MarkedText.tsx:95-119 | the loop and the in-place override of the last state compute the marked classification |
| `MarkedText.GetMarkedStates` | src/app/components/MarkedText.tsx:88-123 | the component's classifier on two texts is the marked classification of their tokens |
| `MarkedText.TypedWordStatus` | src/app/components/MarkedText.tsx:106-110 | a typed word is correct exactly when it equals the reference word at its index, and otherwise an error, never current |
| `MarkedText.WordsPastInput` | src/app/components/MarkedText.tsx:99-105 | the word just past the input is current and every later word is pending |
| `MarkedText.BlankInput` | src/app/components/MarkedText.tsx:89-105 | on blank input the second reference word is current and all others are pending |
| `MarkedText.OverlongInput` | src/app/components/MarkedText.tsx:114-119 | with more input words than reference words, the last reference word is current |
| `MarkedText.AtMostOneCurrent` | src/app/components/MarkedText.tsx:99-119 | no two words are current at once |
| `MarkedText.SameCorrectPositions` | src/app/components/MarkedText.tsx:121 | state lists that agree on which positions are correct have equal correct counts |
| `MarkedText.SameCorrectCountAsPage` | src/app/components/MarkedText.tsx:106-110 | while the input is no longer than the reference, the component and the page count the same correct words |
| `Results.FormatElapsed` | src/app/components/ResultsModal.tsx:25-29 | the elapsed time is unpadded minutes, a colon and two-digit seconds below 60; together they give back the time |
| `Results.ProgressPercent` | src/app/components/ResultsModal.tsx:35 | `correct/minimo*100` is an exact ratio for a positive goal; for a zero goal it is NaN for no words and Infinity otherwise |
| `Results.ProgressBarColor` | src/app/components/ResultsModal.tsx:32-67 | the bar is gray exactly when there is no test information |
| `Results.Exceeded` | src/app/components/ResultsModal.tsx:37-66 | the number of thresholds a percentage exceeds is at most the number of thresholds |
| `Results.ExceededSorted` | src/app/components/ResultsModal.tsx:37-66 | for sorted thresholds, a percentage above the first `i` thresholds and not above the next one exceeds exactly `i` of them |
| `Results.ColorByThresholds` | src/app/components/ResultsModal.tsx:37-66 | the colour is the bucket indexed by how many of 25, 50, 75, 100, 125, 150 and 200 percent are exceeded, so exactly one bucket applies |
| `Results.BarWidth` | src/app/components/ResultsModal.tsx:192 | for a positive goal the width lies between 0 and 100 percent, equals the progress up to the goal, and is full beyond it |
| `Results.AxisMax` | src/app/components/ResultsModal.tsx:184 | the axis maximum is the larger of the goal and the count |
| `Results.GoalOffset` | src/app/components/ResultsModal.tsx:199 | the goal marker never lies beyond 100 percent, and sits at 100 percent while the count has not passed the goal |
| `Results.Grade` | src/app/components/ResultsModal.tsx:206-219 | short exactly when the count is below the goal, and the shortfall shown is positive and fills the gap; excellent exactly when `correct >= 1.5*minimo`, which implies approved |
| `Collections.ElementsBound` | src/app/admin/components/VisitsCharts.tsx:57-58 | a set built from a list has at most as many members as the list, and is non-empty for a non-empty list |
| `VisitsTab.Parts` | src/app/admin/components/VisitsTab.tsx:58-68 | hours, minutes and seconds add back to the time, minutes and seconds are below 60, and the form depends on whether there are hours, then minutes |
| `VisitsTab.Render` | src/app/admin/components/VisitsTab.tsx:63-68 | the rendered time is empty exactly when there are no parts; otherwise it starts with a digit and ends with the last part's unit letter |
| `VisitsTab.FormatVisitTime` | src/app/admin/components/VisitsTab.tsx:55-69 | "N/A" exactly for a missing or zero time, otherwise the rendered parts |
| `VisitsTab.TruncateUrl` | src/app/admin/components/VisitsTab.tsx:91-95 | "N/A" for a missing or empty URL; a URL up to the limit is unchanged; a longer one is its first `max` characters plus "..." |
| `VisitsTab.TruncatedLength` | src/app/admin/components/VisitsTab.tsx:91-95 | a truncated present URL is at most three characters longer than the limit |
| `VisitsTab.DeviceIconFor` | src/app/admin/components/VisitsTab.tsx:71-80 | the mobile and tablet icons are chosen exactly for those device names in any case, and the desktop icon otherwise |
| `VisitsTab.BrowserIconFor` | src/app/admin/components/VisitsTab.tsx:82-89 | a case-insensitive ordered check: chrome, then firefox, safari, edge, and the globe otherwise |
| `VisitsTab.IconsIgnoreCase` | src/app/admin/components/VisitsTab.tsx:72-83 | both icon choices give the same result for a name and its lower-case form |
| `VisitsTab.TimedSeconds` | src/app/admin/components/VisitsTab.tsx:165 | the times averaged are positive; there are none exactly when no visit has a truthy time, and one per visit exactly when every visit has one |
| `VisitsTab.TimedSecondsAppend` | src/app/admin/components/VisitsTab.tsx:165 | one more visit appends its time when it has a truthy one and nothing otherwise, so the times follow the visits in order |
| `VisitsTab.AverageSeconds` | src/app/admin/components/VisitsTab.tsx:165-168 | there is no average exactly when no visit has a truthy time; otherwise it is the mean of the times, rounded half up |
| `VisitsTab.AverageWithinRange` | src/app/admin/components/VisitsTab.tsx:165-168 | the rounded average lies within any range that holds every timed visit's time |
| `VisitsTab.AverageTimeText` | src/app/admin/components/VisitsTab.tsx:164-170 | "N/A" exactly when no visit has a truthy time; otherwise the rounded average rendered as hours, minutes and seconds |
| `VisitsTab.UsersCard` | src/app/admin/components/VisitsTab.tsx:142 | the "unique users" card is 0 exactly when no visit has a user id, equals the number of visits exactly when every visit has one, and never exceeds it |
| `VisitsTab.UsersCardAppend` | src/app/admin/components/VisitsTab.tsx:142 | one more visit adds one to the card exactly when it carries a user id |
| `VisitsTab.UsersCardCountsVisits` | src/app/admin/components/VisitsTab.tsx:142 | the same visit listed twice with a user id counts as two users |
| `VisitsTab.PagesCard` | src/app/admin/components/VisitsTab.tsx:153 | the "unique pages" card counts distinct URLs, at most the visits and at least one when there are visits |
| `VisitsTab.ShownRange` | src/app/admin/components/VisitsTab.tsx:280-282 | the first ordinal is `(p-1)*n+1`; the last never exceeds the total; for a real page the range spans a full page or ends at the total |
| `VisitsTab.PageButtons` | src/app/admin/components/VisitsTab.tsx:297-312 | exactly `min(5, totalPages)` buttons, numbered from 1, each a real page |
| `VisitsTab.VisitsTable.constructor` | src/app/admin/components/VisitsTab.tsx:8-13 | the table starts loading on page 1 of 1, with no visits and no error |
| `VisitsTab.VisitsTable.ReceivePage` | src/app/admin/components/VisitsTab.tsx:16-33 | a response with visits replaces the rows and page counts and leaves the error; one without sets "Error al cargar las visitas"; a request that fails sets "Error de conexión con el servidor"; both failures keep the rows; loading ends in every case |
| `VisitsTab.VisitsTable.ShowsPager` | src/app/admin/components/VisitsTab.tsx:259 | the pager is hidden exactly when both arrows would be disabled |
| `VisitsTab.VisitsTable.PreviousDisabled` | src/app/admin/components/VisitsTab.tsx:264 | "Anterior" is disabled exactly on the first numbered page |
| `VisitsTab.VisitsTable.NextDisabled` | src/app/admin/components/VisitsTab.tsx:271 | with at most five pages, "Siguiente" is disabled exactly on the last numbered page |
| `VisitsTab.VisitsTable.Previous` | src/app/admin/components/VisitsTab.tsx:263 | one page back, never below page 1, keeping the current page a real page; the page stays put exactly when "Anterior" is disabled |
| `VisitsTab.VisitsTable.Next` | src/app/admin/components/VisitsTab.tsx:270 | one page forward, never past the last page, keeping the current page a real page; the page stays put exactly when "Siguiente" is disabled |
| `VisitsTab.VisitsTable.GoToPage` | src/app/admin/components/VisitsTab.tsx:302 | a numbered button moves to its own page, which is always a real page |
| `VisitsCharts.Distinct` | src/app/admin/components/VisitsCharts.tsx:138 | the chart labels are exactly the keys that occur, each once |
| `VisitsCharts.DistinctAppend` | src/app/admin/components/VisitsCharts.tsx:123-138 | a key seen for the first time is added at the end and a key seen before changes nothing, so the labels are in order of first appearance |
| `VisitsCharts.TallyMap` | src/app/admin/components/VisitsCharts.tsx:123-127 | the count of each key is the number of times it occurs |
| `VisitsCharts.Tally` | src/app/admin/components/VisitsCharts.tsx:123-127 | the counting loop computes the distinct labels and the occurrence counts |
| `VisitsCharts.SumCountsIncrement` | src/app/admin/components/VisitsCharts.tsx:125 | incrementing one listed key's count increases the total by one |
| `VisitsCharts.TallySumsToLength` | src/app/admin/components/VisitsCharts.tsx:123-127 | the counts add up to the number of visits |
| `VisitsCharts.Summarize` | src/app/admin/components/VisitsCharts.tsx:57-69 | total visits is the list length; unique users counts distinct session ids, a missing id being one value; unique pages counts distinct URLs; the average is 0 without timed visits |
| `VisitsCharts.BrowserKeys` | src/app/admin/components/VisitsCharts.tsx:124 | a missing browser is counted as "Desconocido" |
| `VisitsCharts.DeviceKeys` | src/app/admin/components/VisitsCharts.tsx:150 | a missing device type is counted as "Desconocido" |
| `VisitsCharts.PageKeys` | src/app/admin/components/VisitsCharts.tsx:177 | an empty page URL is counted as "N/A" |
| `VisitsCharts.Values` | src/app/admin/components/VisitsCharts.tsx:140 | the chart data is each label's count, in label order |
| `VisitsCharts.BrowserChart` | src/app/admin/components/VisitsCharts.tsx:122-146 | one slice per distinct browser, holding its number of visits, with `min(5, browsers)` colours |
| `VisitsCharts.DeviceChart` | src/app/admin/components/VisitsCharts.tsx:148-173 | one bar per distinct device type, holding its number of visits, with three colours |
| `VisitsCharts.ChartTotal` | src/app/admin/components/VisitsCharts.tsx:123-140 | a chart's data adds up to the number of visits |
| `VisitsCharts.InsertDesc` | src/app/admin/components/VisitsCharts.tsx:184 | inserting an entry into a list sorted by descending count keeps it sorted and adds exactly that entry |
| `VisitsCharts.SortDesc` | src/app/admin/components/VisitsCharts.tsx:183-184 | the sort yields entries ordered by non-increasing count, a permutation of its input |
| `VisitsCharts.TopFive` | src/app/admin/components/VisitsCharts.tsx:183-185 | keeps `min(5, n)` of the entries, drawn from them without repetition (all of them when there are at most five), in non-increasing count, and every entry left out counts no more than any kept one |
| `VisitsCharts.PageLabel` | src/app/admin/components/VisitsCharts.tsx:188 | a label up to 20 characters is unchanged; a longer one becomes its first 20 characters plus "..." |
| `VisitsCharts.PageLabelIsTruncatedUrl` | src/app/admin/components/VisitsCharts.tsx:188 | the chart's label truncation agrees with the table's URL truncation at 20 characters |
| `VisitsCharts.Entries` | src/app/admin/components/VisitsCharts.tsx:183 | the entries pair each label with its count, in label order |
| `VisitsCharts.TopPages` | src/app/admin/components/VisitsCharts.tsx:176-185 | `min(5, pages)` distinct pages in non-increasing count, each with its exact number of visits; every page left out has no more visits than any page shown |
| `VisitsCharts.PageChart` | src/app/admin/components/VisitsCharts.tsx:175-197 | at most five bars, one per top page, labelled by the truncated URL and holding its visit count, all in the one page colour `rgba(59, 130, 246, 0.8)` |
| `VisitsCharts.PageChartOf` | src/app/admin/components/VisitsCharts.tsx:187-196 | the labels are the truncated URLs and the data the counts of the given entries, in their order, and every bar has the one page colour |
| `Extract.ArticleEnd` | extract-pdf-text.js:47 | an article ends at the next match start or at the end of the text, never before its own start |
| `Extract.SegmentStep` | extract-pdf-text.js:45-52 | one more piece adds itself at the end when longer than 50 characters and nothing otherwise, so the articles keep the text's order |
| `Extract.Segments` | extract-pdf-text.js:45-49 | one trimmed piece per match, running from that match start to the next one |
| `Extract.LongArticles` | extract-pdf-text.js:50-52 | only pieces longer than 50 characters are kept, in order, so there are no more articles than matches |
| `Extract.ArticleKept` | extract-pdf-text.js:50-52 | a piece is kept exactly when it is longer than 50 characters |
| `Extract.ArticlesTrimmed` | extract-pdf-text.js:49-51 | every article is longer than 50 characters and has no surrounding whitespace |
| `Extract.SplitIntoArticles` | extract-pdf-text.js:38-56 | the article loop computes the long trimmed pieces between match starts |
| `Extract.ArticleText` | extract-pdf-text.js:46-49 | the text of article `i` is its trimmed piece |
| `Extract.ClauseRun` | extract-pdf-text.js:66 | the length of the leading run without sentence punctuation |
| `Extract.StopRun` | extract-pdf-text.js:66 | the length of the leading run of sentence punctuation |
| `Extract.SplitStops` | extract-pdf-text.js:66 | `split(/[.!?]+/)` gives at least one piece, no piece holds `.`, `!` or `?`, and put back together the pieces are the text with those characters removed |
| `Extract.SplitStopsAfterPiece` | extract-pdf-text.js:66 | a stop-free piece, any non-empty run of `.`, `!` and `?`, and a text not starting with a stop break into that piece followed by the text's pieces |
| `Extract.StopRunAppend` | extract-pdf-text.js:66 | the separator run at the front of a text is exactly its leading stops, up to the first character that is not one |
| `Extract.SplitStopsInterleave` | extract-pdf-text.js:66 | stop-free pieces, none empty inside, with any non-empty runs of `.`, `!` and `?` between them split back into exactly those pieces |
| `Extract.TwoPiecesAroundRun` | extract-pdf-text.js:66 | "a", any non-empty run of `.`, `!` and `?`, then "b" breaks into "a" and "b" |
| `Extract.SplitStopsOtherStops` | extract-pdf-text.js:66 | "a!b" and "a?!b" break into "a" and "b" |
| `Extract.SplitStopsJoin` | extract-pdf-text.js:66 | joining stop-free pieces, none empty inside, with `.` and splitting gives back exactly those pieces: the text breaks at the stops |
| `Extract.SplitStopsExample` | extract-pdf-text.js:66 | "a.b" breaks into "a" and "b" |
| `Extract.LongPieces` | extract-pdf-text.js:66 | keeps only pieces whose trimmed length exceeds 10, and every such piece is kept |
| `Extract.LongPiecesConcat` | extract-pdf-text.js:66 | the filter distributes over concatenation, so the kept pieces keep their order and multiplicity |
| `Extract.Sentences` | extract-pdf-text.js:66 | every sentence of a long article is longer than 10 characters once trimmed |
| `Extract.SentenceStep` | extract-pdf-text.js:69-79 | a sentence is appended while the chunk stays within 1500 characters; otherwise the chunk is flushed only if longer than 200 characters and a new chunk starts |
| `Extract.SentencesUpTo` | extract-pdf-text.js:69-79 | every flushed chunk is longer than 200 characters |
| `Extract.Finish` | extract-pdf-text.js:81-83 | the flushed chunks are kept in order, and the pending chunk is added after them exactly when it is longer than 200 characters |
| `Extract.LongBuffers` | extract-pdf-text.js:65-83 | every chunk of a long article is longer than 200 characters |
| `Extract.TrimAll` | extract-pdf-text.js:73 | each emitted text is its chunk trimmed |
| `Extract.TrimAllAppend` | extract-pdf-text.js:73-82 | trimming a list chunk by chunk distributes over concatenation |
| `Extract.ChunkLongArticle` | extract-pdf-text.js:65-84 | the long-article branch emits the trimmed long chunks of its sentences |
| `Extract.ChunkSentences` | extract-pdf-text.js:69-83 | the sentence loop and the final check emit exactly the trimmed long chunks |
| `Extract.PackSentence` | extract-pdf-text.js:70-78 | one sentence step of the loop matches the chunking step on buffers |
| `Extract.FlushBuffer` | extract-pdf-text.js:81-83 | the final flush matches the buffers' finish |
| `Extract.ArticleStep` | extract-pdf-text.js:63-95 | a long article adds its chunks without flushing the short-article buffer; a short one joins the buffer, which is flushed first when the joined word count exceeds 400 and the buffer is longer than 200 characters |
| `Extract.ArticlesStep` | extract-pdf-text.js:63-96 | every text flushed while walking the articles is longer than 200 characters |
| `Extract.WordCount` | extract-pdf-text.js:87 | `split(/\s+/).length`: 1 for the empty text, 2 for a blank one, otherwise the number of words plus one for each end that is whitespace |
| `Extract.Cap` | extract-pdf-text.js:103 | at most 40 texts are kept, the first ones in order |
| `Extract.PracticeBuffers` | extract-pdf-text.js:58-101 | every practice text before trimming is longer than 200 characters |
| `Extract.CreatePracticeTexts` | extract-pdf-text.js:58-104 | the article loop emits the first 40 trimmed practice texts |
| `Extract.PackArticle` | extract-pdf-text.js:65-95 | one article step of the loop matches the packing step on buffers |
| `Extract.SqueezeNewlines` | extract-pdf-text.js:125 | no two line feeds are adjacent afterwards; the characters other than line feeds are kept, in order; the first character is kept; a text without line feeds is unchanged |
| `Extract.SqueezeKeepsSplit` | extract-pdf-text.js:125-126 | squeezing line feeds does not change what `split(/\s+/)` finds |
| `Extract.Clean` | extract-pdf-text.js:124-127 | the saved text is the input's words joined by single spaces: trimmed, single-spaced, with the same words, and empty exactly for blank text |
| `Extract.CleanIdempotent` | extract-pdf-text.js:124-127 | cleaning a cleaned text changes nothing |
| `Extract.CollapseShape` | extract-pdf-text.js:126 | after `replace(/\s+/g, " ")` every whitespace character is a space and no two whitespace characters are adjacent; a text starting with a non-whitespace still does |
| `Extract.CollapseOfSingleSpaced` | extract-pdf-text.js:126 | collapsing a single-spaced text changes nothing |
| `Extract.TrimSingleSpaced` | extract-pdf-text.js:126-127 | trimming a single-spaced text keeps it single-spaced |
| `Extract.CollapseBlank` | extract-pdf-text.js:126 | collapsing whitespace keeps a text blank exactly when it was blank |
| `Extract.BlankCollapse` | extract-pdf-text.js:125-126 | both replacements together keep a text blank exactly when it was blank |
| `Extract.FileName` | extract-pdf-text.js:120 | text `i` is saved as "texto", the decimal `i+1`, and ".txt" |
| `Extract.FileNamesDistinct` | extract-pdf-text.js:119-121 | different texts get different file names |
| `UserAgent.ContainsAnyIff` | src/app/components/PageVisitTracker.tsx:72 | a pattern list matches exactly when one of its patterns occurs |
| `UserAgent.DeviceTypeOf` | src/app/components/PageVisitTracker.tsx:70-78 | mobile exactly when the lower-cased agent holds one of the mobile words; tablet exactly when it does not but holds "tablet"; desktop otherwise |
| `UserAgent.IpadIsMobile` | src/app/components/PageVisitTracker.tsx:72-76 | an agent mentioning an iPad is always recorded as mobile |
| `UserAgent.BrowserOf` | src/app/components/PageVisitTracker.tsx:80-87 | a case-sensitive ordered check: Chrome, Firefox, Safari, Edge, and "Unknown" when none occurs |
| `UserAgent.ChromeBeforeSafari` | src/app/components/PageVisitTracker.tsx:82-84 | an agent naming both Chrome and Safari is recorded as Chrome |
| `UserAgent.OsOf` | src/app/components/PageVisitTracker.tsx:89-97 | an ordered check: Windows, Mac, Linux, Android, iOS, and "Unknown" when none occurs |
| `UserAgent.AndroidRecordedAsLinux` | src/app/components/PageVisitTracker.tsx:93-94 | an agent naming both Linux and Android is recorded as Linux |
| `DeviceCheck.IsBot` | src/app/components/DeviceCheck.tsx:17 | an agent is a crawler exactly when its lower-cased form contains one of the sixteen crawler names |
| `DeviceCheck.BotIgnoresCase` | src/app/components/DeviceCheck.tsx:15-17 | the crawler test gives the same answer for an agent and its lower-cased form |
| `DeviceCheck.IsMobileDevice` | src/app/components/DeviceCheck.tsx:17-26 | a bot is never mobile; otherwise mobile exactly when the agent names a handheld or the window is narrower than 768 pixels |
| `DeviceCheck.DeviceGate.constructor` | src/app/components/DeviceCheck.tsx:6-8 | the gate starts unmounted, loading and not mobile |
| `DeviceCheck.DeviceGate.CheckDevice` | src/app/components/DeviceCheck.tsx:13-29 | without a window nothing changes; with one, loading ends and the mobile flag is the device decision |
| `DeviceCheck.DeviceGate.Mount` | src/app/components/DeviceCheck.tsx:10-31 | mounting marks the gate mounted and checks the device once |
| `DeviceCheck.DeviceGate.Render` | src/app/components/DeviceCheck.tsx:38-155 | the mobile notice exactly when mounted, loaded and mobile; the spinner exactly when mounted and loading; the page otherwise |
| `DeviceCheck.BotsSeeThePage` | src/app/components/DeviceCheck.tsx:17-23 | a checked crawler always gets the page, whatever its window width |
| `PracticeModal.FindById` | src/app/components/PracticeTypeModal.tsx:80 | a found practice is listed and has the id; nothing is found exactly when no listed practice has it |
| `PracticeModal.FindByIdIsFirst` | src/app/components/PracticeTypeModal.tsx:80 | the search returns the first listed practice with the id |
| `PracticeModal.PracticeDialog.constructor` | src/app/components/PracticeTypeModal.tsx:26-33 | the dialog starts with no practices or selections, empty text, a 30-word goal and one minute |
| `PracticeModal.PracticeDialog.InstitucionChange` | src/app/components/PracticeTypeModal.tsx:69-72 | choosing an institution selects it and clears the selected practice |
| `PracticeModal.PracticeDialog.PruebaChange` | src/app/components/PracticeTypeModal.tsx:74-76 | choosing a practice selects it and changes nothing else |
| `PracticeModal.PracticeDialog.SyncPruebas` | src/app/components/PracticeTypeModal.tsx:41-47 | with no institution chosen the practice list is emptied, so a disabled practice select is always empty; with one, a fetched list replaces it and a failed fetch keeps it |
| `PracticeModal.PracticeDialog.PruebaSelectDisabled` | src/app/components/PracticeTypeModal.tsx:195 | the practice select is disabled exactly when no institution, or institution 0, is chosen |
| `PracticeModal.PracticeDialog.SelectDisabled` | src/app/components/PracticeTypeModal.tsx:208 | the start button is disabled exactly when no practice, or practice 0, is chosen |
| `PracticeModal.PracticeDialog.SelectPractice` | src/app/components/PracticeTypeModal.tsx:78-86 | yields a listed practice with the selected id; yields nothing exactly when no practice is selected or none has that id |
| `PracticeModal.PracticeDialog.CustomPractice` | src/app/components/PracticeTypeModal.tsx:88-97 | a custom practice starts exactly when the trimmed text is non-empty and the goal and minutes are positive, and it carries the trimmed text |
| `PracticeModal.PracticeDialog.CanStartCustom` | src/app/components/PracticeTypeModal.tsx:89 | the handler starts exactly when the trimmed text is non-empty and the goal and minutes are positive |
| `PracticeModal.PracticeDialog.CustomDisabled` | src/app/components/PracticeTypeModal.tsx:260 | the custom button is disabled exactly when the handler would refuse to start |

## Left out

- Network and storage. The text fetch, the visits and practices requests, the visit beacon and `localStorage` are left out. Each result is a parameter. `CompleteLoad` and `SyncPruebas` take `None` for a failed request. `ReceivePage` takes a response that holds visits, one that does not, or `Unreachable` for a request that throws. Loading the list of institutions is not modelled.
- Randomness. The random text number and the random session id are left out.
- Real time. The one-second timeout is the `Tick` method, the metrics effect is `RefreshMetrics`, and the marked-text debounce is not modelled. React's batching and effect scheduling are not modelled either: each handler is one atomic method.
- DOM and rendering. Auto-scrolling, focus, markup, Chart.js, AdSense and the static pages are left out. Of the rendering, only the decisions (button guards, the gate's view, labels, colours and counts) are modelled.
- The regular-expression engine of the extraction script. The match starts of `ARTÍCULO\s+\d+` are an input, required to be increasing and within the text. PDF parsing and file writing are left out.
- Locale-dependent date formatting is left out (`formatDate` in the visits table, and the date series of the charts).
- Floating point. The charts' average time is kept as an exact numerator and denominator; its formatting is not modelled. `Number("")` and non-numeric select values are not modelled: a selection is an optional integer, where 0 counts as no selection.
- String lengths are counted in characters, not UTF-16 code units. `toLowerCase` is modelled on ASCII letters only.
- `Object.keys` order. JavaScript lists integer-like keys first in numeric order. The model keeps every key in order of first appearance.
- `VisitsCharts.SortDesc`: the sort's stability is not stated. Ties keep an order the model does not specify, so the top five is proved only up to ties.
- `Typing.PracticeSession.BeginLoad`, `Typing.PracticeSession.CompleteLoad`: the handler is cut at its `await` into two methods. Any other handler may run between them. The model does not record whether a fetch is pending, so `CompleteLoad` may be called without a preceding `BeginLoad`.
- `Typing.Wpm` (and so `Typing.ComputeMetrics` and `Typing.PracticeSession.RefreshMetrics`): the model rounds the exact ratio `60*words/elapsed`. The page divides twice in doubles, first the elapsed seconds by 60 and then the words by that quotient, and the result can fall just under a half. For 23 words after 184 seconds the double quotient is 7.499999999999999, which rounds to 7, while the model gives 8; 345 and 391 words at 184 seconds differ the same way.
- `DeviceCheck.DeviceGate.CheckDevice`: the window is an optional parameter standing for `typeof window`. Re-running on resize is a repeated call.
- `VisitsTab.VisitsTable.ReceivePage`: a response whose visits are present but whose pagination is missing throws after the rows are replaced. The model treats every throw as `Unreachable` and keeps the old rows.
- The visits table's 20 items per page are a constant, since the source never changes them.
