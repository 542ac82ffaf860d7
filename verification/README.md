# Screenshot sketch analyzer, modelled in Dafny

Timesketch's screenshot analyzer runs one pass over the timeline events that its
fixed screenshot query selects. For each event it reads three fields
(`data_type`, `source_short`, `message`) and applies four independent rules:

- **trash**: a `fs:stat` event whose message contains `Trash` is tagged `trash` and
  commented `Screenshot moved to trash.`;
- **EXECVE**: a `selinux:line` event whose message contains `EXECVE` is starred,
  labelled `Screenshot taken` (source `screenshot`) and counted;
- **camera**: the message contains `screenshot` in any letter case;
- **web history**: `source_short` is `WEBHIST`.

Each rule that fires queues its emoji (wastebasket, locomotive, camera, satellite, in
that order). A non-empty list is attached to the event, and every event is committed.
After the loop, the analyzer creates the saved view `Screenshot activity` if it
counted at least one screenshot. It returns
`Screenshot analyzer completed, N screenshots marked`.

The project has three modules:

- `Strings` (`strings.dfy`): Python's substring test, ASCII lower-casing, and decimal
  rendering of a natural number with its parser.
- `Screenshot` (`screenshot.dfy`): the analyzer itself.
  - `Host` is the host platform. Every mutation, commit and saved view the analyzer
    requests is appended to its `calls` log, in order.
  - `Run` is the loop. `AnalyzeEvent` is the loop body.
  - Both are proved to append exactly the calls that the specification functions
    `EventCalls`, `StreamCalls` and `RunCalls` list. `Run` is also proved to return
    `Summary(ScreenshotCount(events))`.
  - An event is named by its position in the stream.
- `ScreenshotProperties` (`properties.dfy`): what those calls do to the store, and what
  the analyzer promises about them. It replays the log into per-event `Annotations`
  and compares the result with the rule table (`Expected`). It also covers commits,
  emoji order, the counter, the saved view and the summary string.

The analyzer calls `add_tags`, `add_comment`, `add_human_readable` and `add_emojis`
at most once per event per run, and only when the corresponding rule fires
(`add_emojis` only for a non-empty list). What the host does with a value it already
holds is outside the analyzer. The model treats every such call as an append. Under
that choice, `RerunAppends` shows that a second run duplicates an event's tags,
comments, labels and emoji and doubles its commits. The star is a flag, so it stays
set.

## Model

| member | source | states |
|---|---|---|
| `Strings.Contains` | timesketch/lib/analyzers/screenshot.py:64 | Python's `pat in s`: true exactly when `pat` occurs at some position of `s` |
| `Strings.Lower` | timesketch/lib/analyzers/screenshot.py:76 | `message.lower()` on ASCII: same length, each character lower-cased, no upper-case letter left |
| `Strings.NatToString` | timesketch/lib/analyzers/screenshot.py:93-94 | `{0:d}` gives a non-empty string of digits without a leading zero |
| `Strings.ParseNatToString` | timesketch/lib/analyzers/screenshot.py:93-94 | reading the decimal rendering back gives the number |
| `Strings.NatToStringParse` | timesketch/lib/analyzers/screenshot.py:93-94 | every canonical decimal string is the rendering of its value |
| `Strings.NatToStringInjective` | timesketch/lib/analyzers/screenshot.py:93-94 | different counts render differently |
| `Screenshot.TrashRule` | timesketch/lib/analyzers/screenshot.py:64 | the trash rule: a `fs:stat` event whose message contains `Trash` (a definition; `TrashRuleIsCaseSensitive` states its case-sensitivity) |
| `Screenshot.ExecveRule` | timesketch/lib/analyzers/screenshot.py:69 | the EXECVE rule: a `selinux:line` event whose message contains `EXECVE` (a definition; `ExecveRuleIsCaseSensitive` states its case-sensitivity) |
| `Screenshot.CameraRule` | timesketch/lib/analyzers/screenshot.py:76 | the camera rule: the lower-cased message contains `screenshot` (a definition; `CameraRuleIgnoresCase` characterises it) |
| `Screenshot.WebhistRule` | timesketch/lib/analyzers/screenshot.py:79 | the web-history rule: `source_short` is `WEBHIST` (a definition) |
| `Screenshot.EmojisFor` | timesketch/lib/analyzers/screenshot.py:62-80 | the queued emoji list (a definition; `EmojisForCharacterised` and `EmojisAreFiredRulesInOrder` state that it holds one emoji per fired rule, in rule order) |
| `Screenshot.ScreenshotCount` | timesketch/lib/analyzers/screenshot.py:53-74 | the counter, the number of stream events the EXECVE rule marks, is at most the number of events |
| `Screenshot.Summary` | timesketch/lib/analyzers/screenshot.py:93-94 | the returned string starts with `Screenshot analyzer completed, ` and ends with ` screenshots marked`, with something in between |
| `Screenshot.AnalyzeEvent` | timesketch/lib/analyzers/screenshot.py:56-87 | the loop body makes exactly the calls `EventCalls` lists for the event, and reports whether the EXECVE rule fired |
| `Screenshot.Run` | timesketch/lib/analyzers/screenshot.py:26-94 | `run` appends exactly `RunCalls(events)` to the host's log and returns the summary of `ScreenshotCount(events)` |
| `ScreenshotProperties.EventCallsShape` | timesketch/lib/analyzers/screenshot.py:62-87 | every call made for an event acts on that event; the only commit is the last call |
| `ScreenshotProperties.StreamCallsTargets` | timesketch/lib/analyzers/screenshot.py:55-87 | the loop only touches events of the stream and creates no view |
| `ScreenshotProperties.EventAnnotations` | timesketch/lib/analyzers/screenshot.py:62-87 | one event's calls leave it with exactly the rule table's annotations |
| `ScreenshotProperties.StreamAnnotations` | timesketch/lib/analyzers/screenshot.py:55-87 | after the loop, each event carries its rule-table annotations, whatever the other events are |
| `ScreenshotProperties.RunAnnotations` | timesketch/lib/analyzers/screenshot.py:55-91 | after a run, each streamed event carries exactly the effects of the rules that fire, and one commit; other events are untouched |
| `ScreenshotProperties.ReplayFrom` | timesketch/lib/analyzers/screenshot.py:66-87 | store mutations append: replaying calls onto existing annotations adds to them |
| `ScreenshotProperties.RerunAppends` | timesketch/lib/analyzers/screenshot.py:64-87 | under the append model of the host, a second run over the same events duplicates tags, comments, labels and emoji, and commits again: the run is not idempotent |
| `ScreenshotProperties.EventCommits` | timesketch/lib/analyzers/screenshot.py:62-87 | the loop body commits its own event exactly once |
| `ScreenshotProperties.StreamCommits` | timesketch/lib/analyzers/screenshot.py:55-87 | the loop commits events 0, 1, …, n-1 in that order |
| `ScreenshotProperties.CommitsInStreamOrder` | timesketch/lib/analyzers/screenshot.py:55-91 | a run commits every event exactly once, in stream order |
| `ScreenshotProperties.StreamOrder` | timesketch/lib/analyzers/screenshot.py:55-87 | calls are made event by event, in stream order |
| `ScreenshotProperties.StreamCommitIsLast` | timesketch/lib/analyzers/screenshot.py:55-87 | within the loop, nothing acts on an event after its commit |
| `ScreenshotProperties.CommitIsLast` | timesketch/lib/analyzers/screenshot.py:55-91 | in a whole run, each event's commit follows all of its mutations |
| `ScreenshotProperties.EmojisForCharacterised` | timesketch/lib/analyzers/screenshot.py:62-80 | an emoji is in the list iff its rule fires; the list follows the rule order; it is empty iff no rule fires |
| `ScreenshotProperties.InRuleOrderUnique` | timesketch/lib/analyzers/screenshot.py:62-80 | two emoji lists in rule order with the same members are equal |
| `ScreenshotProperties.EmojisAreFiredRulesInOrder` | timesketch/lib/analyzers/screenshot.py:62-84 | the attached list is the only list in rule order whose members are the fired rules' emoji |
| `ScreenshotProperties.StreamEmojiListsNonEmpty` | timesketch/lib/analyzers/screenshot.py:55-87 | within the loop, every emoji list attached is non-empty |
| `ScreenshotProperties.NoEmptyEmojiList` | timesketch/lib/analyzers/screenshot.py:82-84 | `add_emojis` is never called with an empty list |
| `ScreenshotProperties.ScreenshotCountAppend` | timesketch/lib/analyzers/screenshot.py:53-74 | the counter over two stream pieces is the sum of the counters |
| `ScreenshotProperties.ScreenshotCountPositive` | timesketch/lib/analyzers/screenshot.py:69-74 | the counter is positive iff some event satisfies the EXECVE rule |
| `ScreenshotProperties.EventStars` | timesketch/lib/analyzers/screenshot.py:64-87 | the loop body stars its event once when the EXECVE rule fires, and otherwise not at all |
| `ScreenshotProperties.ScreenshotCountIsStars` | timesketch/lib/analyzers/screenshot.py:69-74 | the counter equals the number of star calls: only the EXECVE rule moves it, by one per event |
| `ScreenshotProperties.SavedView` | timesketch/lib/analyzers/screenshot.py:89-91 | the saved view (`Screenshot activity`, `screenshot`, the stream's query) is created iff the counter is positive, at most once, as the last call |
| `ScreenshotProperties.CameraRuleIgnoresCase` | timesketch/lib/analyzers/screenshot.py:76-77 | the camera rule fires iff `screenshot` occurs in the message when ASCII case is ignored |
| `ScreenshotProperties.TrashRuleIsCaseSensitive` | timesketch/lib/analyzers/screenshot.py:64 | a `fs:stat` message `Trash` fires the trash rule and `trash` does not |
| `ScreenshotProperties.ExecveRuleIsCaseSensitive` | timesketch/lib/analyzers/screenshot.py:69 | a `selinux:line` message `EXECVE` fires the EXECVE rule and `execve` does not |
| `ScreenshotProperties.UpperCaseScreenshotFiresCamera` | timesketch/lib/analyzers/screenshot.py:76 | a message containing `SCREENSHOT` fires the camera rule |
| `ScreenshotProperties.SummaryReportsCount` | timesketch/lib/analyzers/screenshot.py:93-94 | the summary is the fixed prefix, the counter in canonical decimal, and the fixed suffix |
| `ScreenshotProperties.SummaryInjective` | timesketch/lib/analyzers/screenshot.py:93-94 | different counters give different summaries |
| `ScreenshotProperties.EmptyStream` | timesketch/lib/analyzers/screenshot.py:53-94 | an empty stream makes no calls and reports `0 screenshots marked` |
| `ScreenshotProperties.OneScreenshotTaken` | timesketch/lib/analyzers/screenshot.py:69-94 | a single EXECVE event gives `1 screenshots marked` and ends the run with the saved view |

## Left out

- Evaluating the search query (screenshot.py:32-45) belongs to the datastore. `QUERY` is
  kept only as a constant. `Run` takes the already-filtered stream as a finite sequence.
  The stream's laziness and its single-pass nature are not modelled.
- The emoji lookup `emojis.get_emoji` (screenshot.py:48-51) is a foreign table. The four
  emoji are the distinct constructors of `Emoji`.
- Persisting tags, comments, stars, labels, emoji, commits and views is the host's job.
  `Host` only records the calls. `Annotations` gives their effect on an event as appends,
  a flag and a commit count. Append semantics is assumed, not taken from the host's code.
  A host that deduplicated repeated values would make a rerun idempotent for tags,
  labels and emoji.
- The constructor (screenshot.py:16-24) and the registration with the analysis manager
  (screenshot.py:96) are framework plumbing. The model keeps no per-instance state: the
  index name the constructor stores is not read by `run`, `NAME` is a constant, and the
  inherited sketch that receives the saved view is part of `Host`.
- A missing field is not modelled. `event.source.get` returns `None` for an absent field.
  A missing `message` then crashes the run: at line 64 (`'Trash' in None`) for a
  `fs:stat` event, at line 69 for a `selinux:line` event, and at line 76
  (`None.lower()`) for any other event. In the model, all three fields are always
  present, so the run never fails part-way.
- The identity of event objects is not modelled. An event is its position in the stream,
  so the same stored event yielded twice counts as two events.
- `Strings.Lower`: lowers ASCII letters only and leaves every other character as it is.
  Python's `str.lower()` also lowers non-ASCII letters, sometimes into two characters.
  The camera rule's verdict can differ from Python's only when a non-ASCII character
  lowers to one of the ASCII letters of `screenshot` under Unicode rules.
- `screenshot_test.py` is not part of this model. Its only test is an unfinished
  placeholder that asserts `True == False`, so it defines no behaviour.
