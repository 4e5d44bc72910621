# Ghost-proof monitoring dashboard: a verified model of its decision logic

The dashboard watches system metrics and keeps an **adaptive safe mode**. This is a two-state
machine, normal or safe mode, over one state cell `{isSafeMode, reason, activatedAt, canRecover}`:

- It enters safe mode when cpu rises strictly above a critical threshold or when health turns critical.
- It marks itself recoverable once strictly more than a cooldown has passed since entry.
- It leaves, on a later pass, only when it is recoverable, cpu is below a recovery threshold and health is healthy.
- Administrators can force it on or off.

Around the controller sit small deterministic rules, each in its own module:

- **`SystemStatus`**: the status provider's health classifier, its clamped metric tick, the
  threshold-crossing log rules and its 50-entry log buffer.
- **`PageFrame`**: the page's frame colour, which gives safe mode precedence over health, and the
  matching glow, animation, banner and footer label.
- **`MetricDisplay`** and **`SystemHeartbeat`**: the metric tile and heartbeat banding.
- **`LogDashboard`**: the log dashboard's 15-entry window.
- **`LogAggregator`**: the log aggregator script. It parses log lines, reads files, merges and
  sorts newest first with a limit of 100, computes stats and falls back to mock entries.
- **`CommentService`**: the comment service's validation, edit, soft delete and the two getters.
- **`Supabase`**: the ban decision and the credential checks of the Supabase client module.
- **`ProjectConstants`**: the ghost-URL blacklist and the category whitelist.
- **`MetricsCollector`**: the metrics collector's status banding and clamping.

Shared helpers:

- **`JsText`**: JavaScript's `trim`, ASCII case folding as an `i`-flag regular expression does it,
  substring search, and `length` in UTF-16 code units.
- **`Lists`**: `slice`, the prepend-then-cap update, `filter`, and map-then-drop-nulls.
- **`Ordering`**: a stable newest-first sort.
- **`Wrappers`**: `Option` and `Result`.

## How the model is shaped

The safe-mode hook is a class, `SafeMode.Controller`:

- It has a `config` fixed at construction and a mutable `state`.
- `Step` is one pass of the monitoring effect. Every condition of the pass reads the state as it
  was before the pass, and the writes take effect in source order, so the last write wins.
- `Step` is proved equal to the function `Pass`, which is written independently as "which write
  wins".
- React re-runs the effect after each state change. `Evaluate` models this as `Step` repeated
  until the state stops changing.

The status provider (`SystemStatus.StatusProvider`) and the log dashboard's window
(`LogDashboard.LogWindow`) are classes too, because the source updates their lists in place
through state setters.

The aggregator's `aggregateLogs` and `calculateStats` loop over their inputs. They are methods
with loop invariants, proved against the specification functions `AllEntries` and
`CountsBySource`. Everything else is pure and is modelled as functions and lemmas.

Inputs to the model:

- **I/O**: file contents, query results and database rows are parameters.
- **Randomness**: random draws are parameters.
- **Platform functions**: date parsing and formatting and `toFixed` rendering are function
  parameters.

Time is integer milliseconds. Metrics are exact reals.

### Where the code and its documentation disagree (the model follows the code)

- **Cooldown boundary.** The cooldown check is strict: `now - activatedAt > cooldownDuration`.
  At exactly the cooldown the state is not yet recoverable.
- **Reason when both checks fire.** When cpu is above the critical threshold and health is
  critical in the same pass, the reason is `ghost`, not `cpu`. Both writes see the pre-state, and
  the ghost write comes last. With the default threshold of 90, health is already critical at
  cpu 90, so every automatic activation ends as `ghost` (`SafeMode.DefaultActivationIsGhost`).
- **Recovery takes two passes.** `canRecover` set in one pass is not visible to that pass's exit
  check. The exit happens on the next re-run of the effect.
- **No threshold validation.** Nothing checks that the recovery threshold is below the critical
  threshold. With a negative cooldown and a recovery threshold above the critical one, the effect
  can re-run forever (`SafeMode.DegenerateConfigCycles`). The other configurations settle within
  three changing passes (`SafeMode.SettlesWithinThree`).
- **Edits skip the spam check.** `updateComment` checks only the length bounds.
  `CommentService.EditSkipsSpamCheck` shows that a text refused as spam on creation is accepted
  as an edit.
- **Message cleanup can remove the wrong tag.** The parser decides the level from the first level
  tag of the whole line. It then removes the first level tag of the line *with the timestamp
  already cut out*, so it can remove a different tag than the one that decided the level.
  `LogAggregator.MessageOf` models exactly that order. In `[[2026]ERROR] [INFO] x` the timestamp
  is `2026` and the level is info, decided by `[INFO]`; once `[2026]` is cut out, `[` and `ERROR]`
  close up into `[ERROR]`, which is the tag removed, so the message is `[INFO] x`
  (`LogAggregator.ShiftedTagExample`, and `LogAggregator.ShiftedTagParse` for every line of that
  shape).

## Model

| member | source | states |
|---|---|---|
| SafeMode.MergeConfigFields | src/hooks/useSafeMode.ts:21-29 | each missing field takes its default (90, 60, 5000), each supplied field wins, and no overrides give the default configuration |
| SafeMode.Controller.constructor | src/hooks/useSafeMode.ts:29-36 | the configuration is the merged one and the state starts all-clear: off, reason none, no entry time, not recoverable |
| SafeMode.Controller.Step | src/hooks/useSafeMode.ts:69-97 | one pass of the effect, with every check reading the pre-state and later writes winning, equals the reference transition `Pass` |
| SafeMode.PassKeepsConsistent | src/hooks/useSafeMode.ts:39-97 | a pass keeps the state consistent: off means all-clear, on means an entry time is known |
| SafeMode.ActivationFromAllClear | src/hooks/useSafeMode.ts:39-47 | from all-clear, a pass enters safe mode iff cpu > critical threshold or health is critical; critical health gives reason ghost even when cpu also fires; cpu alone gives reason cpu; cpu equal to the threshold does not fire |
| SafeMode.DefaultActivationIsGhost | src/hooks/useSafeMode.ts:71-78 | with the default thresholds and health classified from the same metrics, every automatic activation has reason ghost |
| SafeMode.RecoveryMark | src/hooks/useSafeMode.ts:81-87 | recoverability is only ever set in safe mode with elapsed time strictly above the cooldown, and once set it stays set while in safe mode |
| SafeMode.ExitExactly | src/hooks/useSafeMode.ts:90-97 | in safe mode a pass exits iff the pre-state was already recoverable, cpu < recovery threshold and health is healthy, and the exit yields all-clear |
| SafeMode.NoExitDuringCooldown | src/hooks/useSafeMode.ts:81-97 | any series of passes whose clock stays within the cooldown leaves the entered state unchanged |
| SafeMode.NoExitAboveRecovery | src/hooks/useSafeMode.ts:90-97 | no series of readings with cpu at or above the recovery threshold ever leaves safe mode |
| SafeMode.SafeRunShape | src/hooks/useSafeMode.ts:81-97 | while a run stays in safe mode its state is the entered state, possibly marked recoverable once some clock exceeded the cooldown |
| SafeMode.FirstExitNeedsEarlierCooldown | src/hooks/useSafeMode.ts:81-97 | the first exit needs an earlier pass whose clock was strictly beyond the cooldown, never the exiting pass itself |
| SafeMode.NeverMemory | src/hooks/useSafeMode.ts:16 | no automatic pass produces the reason memory |
| SafeMode.SettlesWithinThree | src/hooks/useSafeMode.ts:69-104 | with a non-negative cooldown or recovery at most critical, the state after three passes over one snapshot is a fixed point |
| SafeMode.DegenerateConfigCycles | src/hooks/useSafeMode.ts:69-104 | with critical 50, recovery 60 and cooldown -1, re-running over cpu 55 and healthy never reaches a fixed point: it cycles through all-clear, entered and recoverable forever |
| SafeMode.SettleFromIterates | src/hooks/useSafeMode.ts:69-104 | settling with fuel stops at the first fixed point of the passes, or after the fuel runs out |
| SafeMode.IterateShift | src/hooks/useSafeMode.ts:69-104 | k passes after one pass are k + 1 passes |
| SafeMode.IterateKeepsConsistent | src/hooks/useSafeMode.ts:69-104 | any number of passes keeps the state consistent |
| SafeMode.SettleIsFixedPoint | src/hooks/useSafeMode.ts:69-104 | a settled evaluation is consistent and one more pass changes nothing |
| SafeMode.Controller.Evaluate | src/hooks/useSafeMode.ts:69-104 | the evaluation of one snapshot ends in the settled state, a fixed point, after 1 to 4 passes |
| SafeMode.DefaultScenarios | src/hooks/useSafeMode.ts:21-97 | with the defaults: cpu 95 and critical health enter as ghost; 2 s later at cpu 30 it stays on; 6 s later it exits; critical health at cpu 50 enters as ghost |
| SafeMode.Controller.ForceActivate | src/hooks/useSafeMode.ts:39-51 | from either state, enter with reason manual, entry time now, not recoverable |
| SafeMode.Controller.ForceDeactivate | src/hooks/useSafeMode.ts:54-66 | from either state and whatever the elapsed time, return to all-clear |
| SafeMode.StylesSwitchTogether | src/hooks/useSafeMode.ts:129-151 | each of the four class choices (frame, text, glow, pulse) alone tells the safe-mode flag, so switching the flag changes every one of them |
| SystemStatus.ClassifyBands | src/context/SystemStatusContext.tsx:70-74 | critical iff cpu >= 90, memory >= 90 or error rate >= 10; degraded iff not critical and cpu >= 70, memory >= 75 or error rate >= 5; healthy otherwise |
| SystemStatus.ClassifyMonotone | src/context/SystemStatusContext.tsx:70-74 | raising cpu, memory or error rate never makes the health less severe |
| SystemStatus.DefaultMetricsHealthy | src/context/SystemStatusContext.tsx:32-38 | the default metrics are healthy and within the tick's ranges |
| SystemStatus.Clamp | src/context/SystemStatusContext.tsx:98-104 | the result lies in [lo, hi] and is the input when the input already does |
| SystemStatus.ClampInt | src/context/SystemStatusContext.tsx:101 | the same clamp for the whole-number connection count (Dafny orders `int` and `real` separately, so it is written once for each) |
| SystemStatus.NextMetrics | src/context/SystemStatusContext.tsx:98-104 | whatever the perturbation, the metrics after a tick lie in their ranges: cpu [5,95], memory [20,90], request rate [0,1000], connections [0,500], error rate [0,15] |
| SystemStatus.NextMetricsExactInsideRange | src/context/SystemStatusContext.tsx:98-104 | a tick whose changes stay inside the ranges applies them exactly |
| SystemStatus.TickEntriesExactly | src/context/SystemStatusContext.tsx:107-121 | a tick logs a warning iff cpu crosses from <= 80 to > 80, an error iff the error rate crosses from <= 5 to > 5, and nothing else |
| SystemStatus.StatusProvider.constructor | src/context/SystemStatusContext.tsx:32-67 | the provider starts healthy with the default metrics and exactly two log entries |
| SystemStatus.StatusProvider.AddLog | src/context/SystemStatusContext.tsx:78-85 | the new entry goes first, older entries follow in order, and the list never exceeds 50 |
| SystemStatus.StatusProvider.Tick | src/context/SystemStatusContext.tsx:89-124 | the metrics become the clamped update and the crossing entries are pushed in front, alert before warning, capped at 50 |
| Lists.Take | src/components/LogDashboard.tsx:39-41 | the first n elements, or all when there are fewer |
| Lists.PushFrontCappedShape | src/context/SystemStatusContext.tsx:78-85 | after a capped prepend: the new element first, older elements in order, at most cap elements, one dropped only when full |
| Lists.PushFrontCappedTwice | src/context/SystemStatusContext.tsx:107-121 | two capped prepends equal one capped prepend of both, newest first |
| Lists.Filter | scripts/log-aggregator.js:68 | every kept element passes the test, and the list never lengthens |
| Lists.FilterSpec | src/services/commentService.ts:35-37 | filtering keeps each passing element as often as it occurs and drops every other |
| Lists.FilterFrom | src/services/commentService.ts:156-159 | every element the filter keeps is an element of the list that passes the test |
| Lists.FilterMap | scripts/log-aggregator.js:70-72 | mapping and dropping nulls never lengthens the list |
| Lists.FilterMapAppend | scripts/log-aggregator.js:70-72 | map-and-drop distributes over concatenation, so file order is kept |
| Lists.FilterMapOrigin | scripts/log-aggregator.js:70-72 | every result comes from some input element |
| Lists.FilterMapSkipsFiltered | scripts/log-aggregator.js:68-72 | filtering out elements that map to null anyway changes nothing |
| PageFrame.FrameColorPrecedence | src/app/page.tsx:17-22 | ice-blue iff safe mode; otherwise red for critical, orange for degraded, metallic for healthy |
| PageFrame.GlowFollowsFrame | src/app/page.tsx:34-50 | the glow and animation follow the same precedence: safe mode first, then critical |
| PageFrame.FooterLabelOneToOne | src/app/page.tsx:744-746 | distinct frame colours get distinct footer labels |
| PageFrame.BannerIffIceBlue | src/app/page.tsx:54-64 | the banner is shown iff the frame is ice-blue, that is iff safe mode is on |
| MetricDisplay.ColorsAgreeOnBand | src/components/MetricDisplay.tsx:24-40 | both colour helpers pick the class of the value's band, and isInverted changes nothing |
| MetricDisplay.BandExactly | src/components/MetricDisplay.tsx:24-31 | red iff value >= threshold; yellow iff 0.7 threshold <= value < threshold; green otherwise |
| MetricDisplay.Percentage | src/components/MetricDisplay.tsx:43 | the percentage never exceeds 100 and is either 100 or value / threshold x 100 |
| MetricDisplay.ScalePreservesOrder | src/components/MetricDisplay.tsx:43 | multiplying by a positive threshold keeps the order of the comparisons |
| MetricDisplay.ProgressMatchesText | src/components/MetricDisplay.tsx:79-85 | for a positive threshold the progress bar's band equals the text band |
| MetricDisplay.OverlayIffRed | src/components/MetricDisplay.tsx:98-110 | the overlay is shown iff the band is red |
| SystemHeartbeat.PageHeartbeat | src/app/page.tsx:28 | the heartbeat the page draws for intensity cpu / 100 has the duration and colour of the cpu itself: 0.8 s iff cpu > 80, cyan iff cpu <= 50 |
| SystemHeartbeat.PulseSpeedsUp | src/components/SystemHeartbeat.tsx:13-14 | the pulse duration never increases as the load grows |
| SystemHeartbeat.DurationAndColorCoincide | src/components/SystemHeartbeat.tsx:14-21 | duration and glow colour agree with the same strict bands, 0.8 s iff load > 80 and 1.5 s iff 50 < load <= 80 |
| LogDashboard.SimulatedEntry | src/components/LogDashboard.tsx:48-50 | a simulated entry is a warning iff cpu > 80, otherwise info, and its source is monitoring |
| LogDashboard.LevelStylesDistinct | src/components/LogDashboard.tsx:59-75 | every level has its own colour and icon; info takes the default cyan and chart icon |
| LogDashboard.StatusCard | src/components/LogDashboard.tsx:119-120 | the card reads SECURED iff the error rate is below 5 |
| LogDashboard.CpuCardColor | src/components/LogDashboard.tsx:107 | the cpu card is red iff the simulated entry would be a warning |
| LogDashboard.LogWindow.constructor | src/components/LogDashboard.tsx:22 | the window starts as the handed-in logs, or empty |
| LogDashboard.LogWindow.Sync | src/components/LogDashboard.tsx:39-43 | non-empty handed-in logs are shown as their first 15 entries and the simulation is off; otherwise the list is unchanged and the simulation runs |
| LogDashboard.LogWindow.SimulateTick | src/components/LogDashboard.tsx:45-53 | the new entry is prepended, older entries keep their order, and the list is cut to 15 |
| LogAggregator.WeightsRankSeverity | scripts/log-aggregator.js:21-26 | weights 4, 3, 2, 1 rank error, warning, info, success, and no two levels share a weight |
| LogAggregator.StampRun | scripts/log-aggregator.js:33 | the greedy run of timestamp characters is maximal |
| LogAggregator.StampSegmentEnd | scripts/log-aggregator.js:33 | a timestamp match starting at a position can end only after the greedy run |
| LogAggregator.NoStampAt | scripts/log-aggregator.js:33 | without a bracket followed by a run and a closing bracket, no match starts there |
| LogAggregator.FindStamp | scripts/log-aggregator.js:33 | the search returns the leftmost timestamp match, or none when there is none |
| LogAggregator.OneTagAt | scripts/log-aggregator.js:34 | at most one level tag starts at a position, since the four names start with different letters |
| LogAggregator.TagAtSpec | scripts/log-aggregator.js:34 | the tag read at a position is exactly the level whose bracketed name is there in any case |
| LogAggregator.FindLevel | scripts/log-aggregator.js:34 | the search returns the leftmost level tag, or none when there is none |
| LogAggregator.ParseLogLineSpec | scripts/log-aggregator.js:36-41 | a line parses iff it has a bracketed timestamp and a bracketed level tag somewhere |
| LogAggregator.ParsedTimestamp | scripts/log-aggregator.js:33-43 | the parsed timestamp is the capture of a match with no match further left |
| LogAggregator.ParsedLevel | scripts/log-aggregator.js:34-44 | the parsed level is named by a tag with no tag further left |
| LogAggregator.ParsedEntryStyle | scripts/log-aggregator.js:50-56 | a parsed entry carries its source kind and its level's icon, colour and weight |
| LogAggregator.NoTagOverStamp | scripts/log-aggregator.js:33-34 | a level tag never starts where a timestamp character follows the bracket |
| LogAggregator.FindLevelFinds | scripts/log-aggregator.js:34 | when the leftmost level tag is at k the search finds it there |
| LogAggregator.ParsedFields | scripts/log-aggregator.js:43-56 | the two search results determine the whole entry: the capture, the level, the message cut as the source cuts it, the source kind and the level's style |
| LogAggregator.TypicalStamp | scripts/log-aggregator.js:33 | in a line `[ts] [TAG] msg` the timestamp match is the leading bracket |
| LogAggregator.TypicalLevel | scripts/log-aggregator.js:34 | in such a line the level tag is found right after the timestamp, in any case |
| LogAggregator.RemoveTypicalTag | scripts/log-aggregator.js:46 | once the timestamp is cut out of such a line, removing the first tag leaves the two spaces that surrounded it and the message |
| LogAggregator.TypicalMessage | scripts/log-aggregator.js:45-48 | in such a line the message is the trimmed text after the tag |
| LogAggregator.ParseTypicalLine | scripts/log-aggregator.js:31-57 | such a line parses to its timestamp, its level, its trimmed message, the source kind and the level's style |
| LogAggregator.TagNameHasNoBracket | scripts/log-aggregator.js:34 | no character of a level name, in any case, is an opening bracket |
| LogAggregator.ShiftedLineShape | scripts/log-aggregator.js:33-34 | in a line `[[ts]TAG1] [TAG2] msg` the only opening brackets before `[TAG2]` are the first two, and a timestamp character follows them |
| LogAggregator.ShiftedFirstTag | scripts/log-aggregator.js:34 | in a line opening with `[[` and a timestamp character, with no other opening bracket before a tag, that tag is the first |
| LogAggregator.TagShift | scripts/log-aggregator.js:34 | a tag at the start of a line's tail is a tag of the line at that offset |
| LogAggregator.NoTagBeforeShifted | scripts/log-aggregator.js:34 | in such a line no level tag starts at either opening bracket or at any other position before the shifted tag |
| LogAggregator.ShiftedStamp | scripts/log-aggregator.js:33 | in `[[ts]TAG1] [TAG2] msg` the timestamp match is `[ts]`, at 1, and its capture is ts |
| LogAggregator.ShiftedLevel | scripts/log-aggregator.js:34 | in such a line the first level tag is `[TAG2]` |
| LogAggregator.ShiftedCutShape | scripts/log-aggregator.js:46 | cutting the timestamp match out of `[[ts]TAG1] [TAG2] msg` leaves `[TAG1] [TAG2] msg` |
| LogAggregator.ShiftedCutFinds | scripts/log-aggregator.js:47 | in `[TAG1] rest` the first level tag is TAG1's, at position 0 |
| LogAggregator.ShiftedCutTail | scripts/log-aggregator.js:47 | what follows the tag `[TAG1]` in `[TAG1] rest` is ` rest` |
| LogAggregator.ShiftedCut | scripts/log-aggregator.js:47 | in `[TAG1] rest` the cleanup removes `[TAG1]` |
| LogAggregator.ShiftedCleanup | scripts/log-aggregator.js:45-48 | with the timestamp cut out, `[` and `TAG1]` close up into the first tag, so the message is the trimmed `[TAG2] msg` |
| LogAggregator.ShiftedTagParse | scripts/log-aggregator.js:31-57 | such a line parses with timestamp ts and the level of TAG2, while its message keeps `[TAG2]` and loses TAG1 |
| LogAggregator.ParsedAs | scripts/log-aggregator.js:43-56 | a line whose timestamp match is at 1 parses to that capture, the first tag's level and the given message |
| LogAggregator.ShiftedExampleLine | scripts/log-aggregator.js:31-57 | the instance is the line `[[2026]ERROR] [INFO] x` |
| LogAggregator.ShiftedExampleTags | scripts/log-aggregator.js:34 | `ERROR` and `INFO` fold to the level names error and info |
| LogAggregator.ShiftedExampleMessage | scripts/log-aggregator.js:48 | trimming `[INFO] x` changes nothing |
| LogAggregator.ShiftedTagExample | scripts/log-aggregator.js:31-57 | `[[2026]ERROR] [INFO] x` parses with timestamp 2026, level info and message `[INFO] x` |
| LogAggregator.IndexOfNewline | scripts/log-aggregator.js:67 | the position found holds the first line feed |
| LogAggregator.SplitLines | scripts/log-aggregator.js:67 | splitting gives at least one piece, and no piece holds a line feed |
| LogAggregator.SplitJoin | scripts/log-aggregator.js:67 | joining the pieces with line feeds gives the text back |
| LogAggregator.BlankFilterRedundant | scripts/log-aggregator.js:67-72 | dropping blank lines before parsing changes nothing, since blank lines never parse |
| LogAggregator.BlankNeverParses | scripts/log-aggregator.js:36-41 | a line that is blank after trimming does not parse |
| LogAggregator.ReadLogFileSpec | scripts/log-aggregator.js:60-81 | a missing file gives no entries; otherwise the entries are exactly the parsing lines in file order, each from some line and tagged with the file's kind |
| LogAggregator.AggregateLogs | scripts/log-aggregator.js:84-101 | the result is all files' entries, sorted newest first, cut to 100, with no entry that was not read |
| LogAggregator.TakeKeepsOrder | scripts/log-aggregator.js:95-98 | cutting a sorted list keeps it sorted, and what is kept is no older than what is dropped |
| Ordering.InsertAddsOne | scripts/log-aggregator.js:95 | inserting adds exactly the element, as a multiset |
| Ordering.InsertSorted | scripts/log-aggregator.js:95 | inserting into a newest-first list keeps it newest first |
| Ordering.SortDesc | scripts/log-aggregator.js:95 | the sort is a permutation and its result is newest first |
| LogAggregator.CountLevel | scripts/log-aggregator.js:107-112 | a level count never exceeds the number of entries |
| LogAggregator.CountSource | scripts/log-aggregator.js:118-123 | a source count never exceeds the number of entries |
| LogAggregator.LevelCountsSumToTotal | scripts/log-aggregator.js:106-112 | the four level counts add up to the number of entries |
| LogAggregator.SumValuesRemove | scripts/log-aggregator.js:118-123 | the sum of a map's values is one value plus the sum of the rest |
| LogAggregator.SumValuesBump | scripts/log-aggregator.js:118-123 | counting one more entry of a source adds one to the sum of the counts |
| LogAggregator.CountsBySourceKeys | scripts/log-aggregator.js:118-123 | the per-source map's keys are exactly the sources present |
| LogAggregator.CountsBySourceCounts | scripts/log-aggregator.js:118-123 | each key is mapped to its source's number of entries, which is positive |
| LogAggregator.CountsBySourceSum | scripts/log-aggregator.js:118-123 | the per-source counts add up to the number of entries |
| LogAggregator.CountsBySourceSpec | scripts/log-aggregator.js:118-123 | the per-source map's keys are exactly the sources present, each mapped to its positive count, and the counts sum to the number of entries |
| LogAggregator.CalculateStats | scripts/log-aggregator.js:104-126 | total is the number of entries, each level count is its filter count, the level counts sum to total, and bySource counts each present source and sums to total |
| LogAggregator.CountSourceAbsent | scripts/log-aggregator.js:118-123 | a source that never occurs has count 0 |
| LogAggregator.MockEntriesStyled | scripts/log-aggregator.js:164-207 | the fallback entries carry their level's icon, colour and weight, as parsed entries do |
| LogAggregator.LogSourceKinds | scripts/log-aggregator.js:10-15 | the four log sources are deployment, monitoring, security and ghost-buster |
| LogAggregator.MockEntriesSources | scripts/log-aggregator.js:164-207 | the fallback entries come one from each log source |
| LogAggregator.MockEntriesLevels | scripts/log-aggregator.js:164-207 | the fallback entries are two successes and two infos, with no errors or warnings |
| LogAggregator.Aggregate | scripts/log-aggregator.js:209-219 | the entries are the aggregated ones, or the fallback when none were found; there are 1 to 100; the stats written count exactly those entries: the total, each level's count and the per-source map, whose counts sum to the total |
| JsText.TrimStart | src/services/commentService.ts:88 | only leading white space is removed, and the result does not start with white space |
| JsText.TrimEnd | src/services/commentService.ts:88 | only trailing white space is removed, and the result does not end with white space |
| JsText.TrimIsMiddle | src/services/commentService.ts:88 | the trimmed text is a middle slice, with only white space cut off on both sides |
| JsText.TrimKeepsNoEdgeSpace | src/services/commentService.ts:88 | the trimmed text neither starts nor ends with white space |
| JsText.TrimEmptyIffBlank | src/services/commentService.ts:88-91 | the trimmed text is empty iff the text is all white space |
| JsText.TrimIdempotent | src/services/commentService.ts:88 | trimming twice is trimming once |
| JsText.TrimSkipsLeadingWhitespace | scripts/log-aggregator.js:47 | leading white space does not change the trimmed result |
| JsText.LowerAsciiString | scripts/log-aggregator.js:44 | the lower-cased string has the same length, each letter folded |
| JsText.UpperAsciiString | src/services/commentService.ts:97-104 | the upper-cased string has the same length, each letter folded |
| JsText.CaseFoldAgrees | src/services/commentService.ts:97-104 | folding is idempotent and lower-casing an upper-cased string equals lower-casing the original |
| JsText.ContainsIffOccurs | src/services/commentService.ts:104 | an unanchored match succeeds iff the pattern occurs at some position |
| JsText.ContainsInSuperstring | src/config/project-constants.ts:67-69 | an occurrence stays an occurrence in any text around it |
| JsText.LowerAsciiConcat | src/services/commentService.ts:104 | lower-casing distributes over concatenation |
| JsText.ContainsItself | src/config/project-constants.ts:36-42 | every pattern matches its own text |
| JsText.ContainsIgnoreCaseInSuperstring | src/config/project-constants.ts:67-69 | a case-insensitive match stays a match in any text around it |
| JsText.ContainsIgnoreCaseFolds | src/config/project-constants.ts:36-42 | changing the letter case of the subject never changes a case-insensitive match |
| JsText.Utf16Length | src/services/commentService.ts:92 | the length in UTF-16 code units is between the number of code points and twice that |
| CommentService.BannedFirst | src/services/commentService.ts:82-85 | a banned author is refused before any text check, whatever the text |
| CommentService.CreateCommentSpec | src/services/commentService.ts:88-113 | an unbanned author's comment is accepted iff the trimmed text is non-empty, at most 2000 code units and spam-free; the record is the input with the trimmed text; it is refused as empty iff the text is all white space |
| CommentService.AcceptedIsStable | src/services/commentService.ts:88-113 | an accepted record is accepted again unchanged |
| CommentService.LengthBoundInclusive | src/services/commentService.ts:92-94 | a spam-free trimmed text of exactly 2000 code units passes, and one of 2001 is refused as too long |
| CommentService.SpamIgnoresCase | src/services/commentService.ts:97-104 | changing letter case never changes the spam verdict |
| CommentService.SpamAnywhere | src/services/commentService.ts:97-106 | a text containing any spam pattern anywhere is spam |
| CommentService.UpdateCommentSpec | src/services/commentService.ts:141-166 | an edit succeeds iff the trimmed text is non-empty and at most 2000 code units and exactly one live row of this author has the id; an invalid text is refused as invalid, and a valid one with no or several targets as not found; the edited row is a live row of this author with this id, with the trimmed text and the edited flag set |
| CommentService.EditTargetsSpec | src/services/commentService.ts:157-159 | the rows the update selects are exactly the live rows of this author with this id, each as often as the table holds it |
| CommentService.EditSkipsSpamCheck | src/services/commentService.ts:141-151 | a text refused as spam on creation is accepted as an edit, with its trimmed text and the edited flag |
| CommentService.DeleteComment | src/services/commentService.ts:177-191 | exactly the rows with this id and author become deleted, stamped and replaced by the deletion text; all other rows are unchanged |
| CommentService.CommentsByUrlSpec | src/services/commentService.ts:21-45 | the URL's list is newest first and holds exactly its non-deleted comments, each as often as in the table |
| CommentService.CommentThreadSpec | src/services/commentService.ts:50-74 | the thread is oldest first and holds exactly the non-deleted replies, each as often as in the table |
| CommentService.DeletedRowsAreMarked | src/services/commentService.ts:177-191 | after its author deletes it, every row of the comment's id is marked deleted |
| CommentService.DeletedIsHidden | src/services/commentService.ts:177-191 | after deleting, the comment appears neither in its URL's list nor in any thread |
| CommentService.DeletedIsFrozen | src/services/commentService.ts:156-166 | a deleted comment can no longer be edited |
| Supabase.EnvOr | src/lib/supabase.ts:9-10 | a set, non-empty variable wins; otherwise the fallback is used |
| Supabase.FallbackUrlIsMock | src/lib/supabase.ts:9-14 | the fallback URL contains mock |
| Supabase.FallbacksAreMock | src/lib/supabase.ts:9-26 | with no URL configured the fallback credentials count as mock and draw no mismatch warning |
| Supabase.MismatchOnlyForRealCredentials | src/lib/supabase.ts:14-26 | mock credentials never warn; real ones warn iff the URL is not the official one |
| Supabase.FailsOpen | src/lib/supabase.ts:85 | a failed or empty lookup means not banned |
| Supabase.UnflaggedNeverBanned | src/lib/supabase.ts:90-98 | an unflagged user is never banned, whatever the end date |
| Supabase.NoEndDateIsPermanent | src/lib/supabase.ts:90-95 | a flagged user without an end date is banned at every instant |
| Supabase.EndDateIsExclusive | src/lib/supabase.ts:91-93 | with an end date the ban holds iff the end date is strictly later than now, so it is lifted at that instant |
| Supabase.BanOnlyLifts | src/lib/supabase.ts:78-99 | whoever is banned at some instant was banned at every earlier one |
| ProjectConstants.GhostInSuperstring | src/config/project-constants.ts:67-69 | a string containing a ghost URL is a ghost URL |
| ProjectConstants.PatternsAreGhosts | src/config/project-constants.ts:35-43 | each forbidden pattern's text is itself a ghost URL |
| ProjectConstants.GhostIgnoresCase | src/config/project-constants.ts:36-42 | changing letter case never changes the verdict |
| ProjectConstants.SameLengthOccursWhole | src/config/project-constants.ts:67-69 | a pattern as long as the URL matches only the whole URL |
| ProjectConstants.MissingCharNeverOccurs | src/config/project-constants.ts:67-69 | a pattern holding a character absent from the URL never matches it |
| ProjectConstants.MissingCharNoMatch | src/config/project-constants.ts:67-69 | a pattern holding a character that no character of the URL folds to never matches it, in any case |
| ProjectConstants.PatternMark | src/config/project-constants.ts:35-43 | every forbidden pattern holds a `d` (in some case), a `-` or a `_` |
| ProjectConstants.NoGhostWithoutMarks | src/config/project-constants.ts:67-69 | a URL with no `d`, `D`, `-` or `_` is never a ghost URL |
| ProjectConstants.OfficialUrlHasNoMarks | src/config/project-constants.ts:9 | the official Supabase URL holds none of those characters |
| ProjectConstants.OfficialUrlIsNotGhost | src/config/project-constants.ts:67-69 | the official Supabase URL is not a ghost URL |
| ProjectConstants.EscapedDotIsLiteral | src/config/project-constants.ts:36 | lovable.dev is a ghost, and an 11-character URL matching the first pattern has a literal dot where the pattern has one |
| ProjectConstants.CategoriesAreLowerWords | src/config/project-constants.ts:19-32 | all twelve allowed categories consist of lower-case ASCII letters only |
| ProjectConstants.AcceptedAreLowerWords | src/config/project-constants.ts:71-73 | every accepted category consists of lower-case letters only, so no text with an upper-case letter, white space or punctuation passes |
| ProjectConstants.LowerWordFixed | src/config/project-constants.ts:71-73 | lower-casing and trimming leave such a word unchanged |
| ProjectConstants.CategoryIsExact | src/config/project-constants.ts:71-73 | for every input: an accepted category is unchanged by lower-casing and trimming, and every other spelling of it that differs only in letter case is refused |
| MetricsCollector.RealStatusBands | src/lib/metrics-collector.ts:81-86 | stress iff cpu > 85 or memory > 90; busy iff not stress and cpu > 60 or memory > 75; nominal otherwise; never ghost |
| MetricsCollector.Percent | src/lib/metrics-collector.ts:88-92 | the result lies in [0, 100] and is the input when the input already does |
| MetricsCollector.CollectRealMetrics | src/lib/metrics-collector.ts:66-93 | cpu and memory lie in [0, 100], connections are at least 0, and the status is never ghost |
| MetricsCollector.ClampKeepsStatus | src/lib/metrics-collector.ts:81-92 | the status of the raw readings equals the status of the clamped values |
| MetricsCollector.MissingReadingsAreNominal | src/lib/metrics-collector.ts:31-40 | missing readings count as 0 and give nominal status |
| MetricsCollector.SimulatedRanges | src/lib/metrics-collector.ts:46-61 | simulated values are whole numbers, cpu in [10,69], connections in [2,11], memory in [30,79]; busy iff cpu > 50; never stress |
| MetricsCollector.FloorBelow | src/lib/metrics-collector.ts:47-49 | the floor of a draw in [0,1) times n lies in [0, n - 1] |

## Left out

- React scheduling. Effects, timers, callbacks and context plumbing are replaced by explicit state fields and step methods.
  - React compares state by identity, so the hook's functional updates always cause another render. The model stops re-running once the state fields are equal.
  - Strict-mode double invocation is not modelled.
- `useSafeModeStyles` calls `useSafeMode` again and so gets its own, independent state. The model keeps only the mapping from the flag to the classes.
- SafeMode.MergeConfigFields: a field passed explicitly as `undefined` overrides the default in the JavaScript spread. The model has only absent or present fields.
- SafeMode.Controller.Evaluate: requires a configuration that settles. The other configurations re-run forever, which `SafeMode.DegenerateConfigCycles` shows instead.
- Randomness: random perturbations, log ids and simulated draws are parameters. The simulated draws are taken from [0, 1).
- Platform formatting and parsing are function parameters:
  - `toFixed` renderings of the metrics in log messages;
  - `toISOString`;
  - `new Date(...)` parsing of timestamps.
- Floating point is not modelled; metrics are exact reals. The following are therefore out:
  - NaN from `parseFloat` in `queryPrometheus`;
  - an Invalid Date in the aggregator's sort comparator;
  - a returned value of "0" that is truthy as a string.
- Ordering of equal timestamps:
  - Postgres leaves the order of rows with equal `created_at` unspecified. The model uses a stable sort, but its contracts state only the order of keys and the multiset, not the order of equal keys.
  - `Array.prototype.sort` sorts in place. The model sorts a value.
- LogDashboard is handed the status context's entries, which have `severity` and `category`, but it reads `level` and `source`. Those entries therefore render with the default styles. The model treats the handed-in list as dashboard entries.
- Comment service database details:
  - The 15-minute edit window named in the error message is enforced by the database, not by this code. The model only has "no single matching row".
  - Other database errors become the generic failure message, which is not modelled.
  - `likeComment`, `unlikeComment`, `hasUserLikedComment`, `getCommentLikeCount`, `updateUrlMetadata` and `subscribeToComments` are database plumbing with no rule of their own.
- CommentService.DeletedIsHidden: assumes every row with this id belongs to the deleting author. A row of another author is left untouched by the delete and stays visible.
- Supabase's development-mode warnings are console output.
- The metrics collector's catch path that falls back to simulated metrics is not modelled. It cannot be reached, because `queryPrometheus` catches its own errors.
- The metrics push loop and the Prometheus HTTP queries are I/O. Their results are parameters.
- MetricDisplay.Percentage: requires a positive threshold, as every tile on the page has.
- ProjectConstants: `isGhostUrl` being stateless holds by construction, since Dafny functions are deterministic. No lemma states it.
- ProjectConstants.EscapedDotIsLiteral: stated for every 11-character URL against the first pattern, rather than for the literal `lovableXdev` against all seven patterns.
- `writeOutput` and `printStats` of the aggregator write files and the console.
- The ghost-buster script, the stress-test script, the layout, GlowCard, DancingText and the backup page are not part of this model:
  - the ghost-buster script is filesystem traversal with stateful global regular expressions;
  - the stress-test script is a load generator;
  - the layout, GlowCard and DancingText are presentation only;
  - the backup page duplicates `getFrameColor`.
