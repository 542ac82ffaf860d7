/**
 * The screenshot sketch analyzer: one pass over the events that the fixed
 * screenshot query selects, four independent classification rules per
 * event, one commit per event, and a saved view when at least one
 * screenshot was taken.
 *
 * The host platform (event store and sketch) is modelled by `Host`, which
 * records every call the analyzer makes to it, in order. An event is named
 * by its position in the stream.
 */
module Screenshot {
  import opened Strings

  /** The analyzer's registered name, also the source name of its human-readable label. */
  const NAME := "screenshot"

  /**
   * The query the event stream is drawn from, and the one the saved view
   * stores. Its evaluation belongs to the datastore; here it is only a value.
   */
  const QUERY := "(data_type:\"selinux:line\" AND audit_type:\"EXECVE\" AND body:\"screenshot\") "
    + "OR (url:\"screenshot\") "
    + "OR (data_type:\"fs:stat\" AND filename:\"screenshot\" "
    + "AND timestamp_desc:\"Creation Time\" AND file_entry_type:\"file\")"

  const TRASH_TAG := "trash"
  const TRASH_COMMENT := "Screenshot moved to trash."
  const TAKEN_LABEL := "Screenshot taken"
  const VIEW_NAME := "Screenshot activity"
  const VIEW_ID := "screenshot"
  const SUMMARY_PREFIX := "Screenshot analyzer completed, "
  const SUMMARY_SUFFIX := " screenshots marked"

  /** The three fields the analyzer asks the stream for. */
  datatype Event = Event(dataType: string, sourceShort: string, message: string)

  /**
   * The four emoji the analyzer attaches. The lookup table that turns their
   * names into code points is the host's; here they are distinct tokens.
   */
  datatype Emoji = Wastebasket | Locomotive | Camera | Satellite

  /** One call from the analyzer to the host, in the order it is made. */
  datatype Call =
    | AddTags(event: nat, tags: seq<string>)
    | AddComment(event: nat, comment: string)
    | AddStar(event: nat)
    | AddHumanReadable(event: nat, text: string, sourceName: string)
    | AddEmojis(event: nat, emojis: seq<Emoji>)
    | Commit(event: nat)
    | AddView(name: string, viewId: string, query: string)

  /** The call acts on the event at stream position `k`. */
  predicate Targets(c: Call, k: nat)
  {
    !c.AddView? && c.event == k
  }

  // The four rules. Each reads only its own fields; none depends on another.

  /** A file-system stat entry whose message mentions "Trash" (case-sensitive). */
  predicate TrashRule(e: Event)
  {
    e.dataType == "fs:stat" && Contains(e.message, "Trash")
  }

  /** An SELinux audit line whose message mentions "EXECVE" (case-sensitive). */
  predicate ExecveRule(e: Event)
  {
    e.dataType == "selinux:line" && Contains(e.message, "EXECVE")
  }

  /** The message mentions "screenshot" in any letter case. */
  predicate CameraRule(e: Event)
  {
    Contains(Lower(e.message), "screenshot")
  }

  /** The event comes from web history. */
  predicate WebhistRule(e: Event)
  {
    e.sourceShort == "WEBHIST"
  }

  /** The emoji each rule contributes, in the order the rules are tried. */
  function EmojisFor(e: Event): seq<Emoji>
  {
    (if TrashRule(e) then [Wastebasket] else [])
    + (if ExecveRule(e) then [Locomotive] else [])
    + (if CameraRule(e) then [Camera] else [])
    + (if WebhistRule(e) then [Satellite] else [])
  }

  /** The trash rule's calls for the event `e` at stream position `k`. */
  function TrashCalls(k: nat, e: Event): seq<Call>
  {
    if TrashRule(e) then [AddTags(k, [TRASH_TAG]), AddComment(k, TRASH_COMMENT)] else []
  }

  /** The EXECVE rule's calls for the event `e` at stream position `k`. */
  function ExecveCalls(k: nat, e: Event): seq<Call>
  {
    if ExecveRule(e) then [AddStar(k), AddHumanReadable(k, TAKEN_LABEL, NAME)] else []
  }

  /** The emoji list is attached only when some rule queued an emoji. */
  function EmojiCalls(k: nat, e: Event): seq<Call>
  {
    if EmojisFor(e) != [] then [AddEmojis(k, EmojisFor(e))] else []
  }

  /** The calls the loop body makes for the event `e` at stream position `k`, ending with its commit. */
  function EventCalls(k: nat, e: Event): seq<Call>
  {
    TrashCalls(k, e) + ExecveCalls(k, e) + EmojiCalls(k, e) + [Commit(k)]
  }

  /** The calls the loop makes over the whole stream, event after event. */
  function StreamCalls(events: seq<Event>): seq<Call>
  {
    if events == [] then []
    else
      var n := |events| - 1;
      StreamCalls(events[..n]) + EventCalls(n, events[n])
  }

  /** How many events of the stream the EXECVE rule marks as a screenshot taken. */
  function ScreenshotCount(events: seq<Event>): (r: nat)
    ensures r <= |events|
  {
    if events == [] then 0
    else
      var n := |events| - 1;
      ScreenshotCount(events[..n]) + (if ExecveRule(events[n]) then 1 else 0)
  }

  /** Every call of one run: the loop's calls, then the saved view if a screenshot was marked. */
  function RunCalls(events: seq<Event>): seq<Call>
  {
    StreamCalls(events)
    + (if ScreenshotCount(events) > 0 then [AddView(VIEW_NAME, VIEW_ID, QUERY)] else [])
  }

  lemma AppendAssociative<T>(a: seq<T>, b: seq<T>, c: seq<T>)
    ensures (a + b) + c == a + (b + c)
  {
  }

  /** Extending a stream prefix by one event extends its calls by that event's calls. */
  lemma StreamStep(events: seq<Event>, k: nat)
    requires k < |events|
    ensures StreamCalls(events[..k + 1]) == StreamCalls(events[..k]) + EventCalls(k, events[k])
    ensures ScreenshotCount(events[..k + 1])
         == ScreenshotCount(events[..k]) + (if ExecveRule(events[k]) then 1 else 0)
  {
    assert events[..k + 1][..k] == events[..k];
  }

  /** The string the analyzer returns. */
  function Summary(count: nat): (r: string)
    ensures |r| > |SUMMARY_PREFIX| + |SUMMARY_SUFFIX|
    ensures r[..|SUMMARY_PREFIX|] == SUMMARY_PREFIX
    ensures r[|r| - |SUMMARY_SUFFIX|..] == SUMMARY_SUFFIX
  {
    SUMMARY_PREFIX + NatToString(count) + SUMMARY_SUFFIX
  }

  /**
   * The host platform as the analyzer sees it: each mutation of an event,
   * each commit and each saved view is recorded, in order, in `calls`.
   */
  class Host {
    var calls: seq<Call>

    constructor ()
      ensures calls == []
    {
      calls := [];
    }

    method AddTags(k: nat, tags: seq<string>)
      modifies this
      ensures calls == old(calls) + [Call.AddTags(k, tags)]
    {
      calls := calls + [Call.AddTags(k, tags)];
    }

    method AddComment(k: nat, comment: string)
      modifies this
      ensures calls == old(calls) + [Call.AddComment(k, comment)]
    {
      calls := calls + [Call.AddComment(k, comment)];
    }

    method AddStar(k: nat)
      modifies this
      ensures calls == old(calls) + [Call.AddStar(k)]
    {
      calls := calls + [Call.AddStar(k)];
    }

    method AddHumanReadable(k: nat, text: string, sourceName: string)
      modifies this
      ensures calls == old(calls) + [Call.AddHumanReadable(k, text, sourceName)]
    {
      calls := calls + [Call.AddHumanReadable(k, text, sourceName)];
    }

    method AddEmojis(k: nat, emojis: seq<Emoji>)
      modifies this
      ensures calls == old(calls) + [Call.AddEmojis(k, emojis)]
    {
      calls := calls + [Call.AddEmojis(k, emojis)];
    }

    method Commit(k: nat)
      modifies this
      ensures calls == old(calls) + [Call.Commit(k)]
    {
      calls := calls + [Call.Commit(k)];
    }

    method AddView(name: string, viewId: string, query: string)
      modifies this
      ensures calls == old(calls) + [Call.AddView(name, viewId, query)]
    {
      calls := calls + [Call.AddView(name, viewId, query)];
    }
  }

  /**
   * The body of the analyzer's loop for the event `event` at stream
   * position `k`: the four rules, the emoji list, and the commit. Reports
   * whether the event counts as a screenshot taken.
   */
  method AnalyzeEvent(host: Host, k: nat, event: Event) returns (marked: bool)
    modifies host
    ensures host.calls == old(host.calls) + EventCalls(k, event)
    ensures marked == ExecveRule(event)
  {
    var dataType, sourceShort, message := event.dataType, event.sourceShort, event.message;
    var addEmojis: seq<Emoji> := [];
    marked := false;

    if dataType == "fs:stat" && Contains(message, "Trash") {
      addEmojis := addEmojis + [Wastebasket];
      host.AddTags(k, [TRASH_TAG]);
      host.AddComment(k, TRASH_COMMENT);
    }
    ghost var afterTrash := host.calls;
    assert afterTrash == old(host.calls) + TrashCalls(k, event);

    if dataType == "selinux:line" && Contains(message, "EXECVE") {
      host.AddStar(k);
      addEmojis := addEmojis + [Locomotive];
      host.AddHumanReadable(k, TAKEN_LABEL, NAME);
      marked := true;
    }
    ghost var afterExecve := host.calls;
    assert afterExecve == afterTrash + ExecveCalls(k, event);

    if Contains(Lower(message), "screenshot") {
      addEmojis := addEmojis + [Camera];
    }

    if sourceShort == "WEBHIST" {
      addEmojis := addEmojis + [Satellite];
    }

    assert addEmojis == EmojisFor(event);
    if addEmojis != [] {
      host.AddEmojis(k, addEmojis);
    }

    ghost var afterEmojis := host.calls;
    assert afterEmojis == afterExecve + EmojiCalls(k, event);

    host.Commit(k);
    AppendAssociative(old(host.calls), TrashCalls(k, event), ExecveCalls(k, event));
    AppendAssociative(old(host.calls), TrashCalls(k, event) + ExecveCalls(k, event), EmojiCalls(k, event));
    AppendAssociative(old(host.calls), TrashCalls(k, event) + ExecveCalls(k, event) + EmojiCalls(k, event), [Commit(k)]);
  }

  /**
   * The analyzer's entry point. `events` is the stream the host yields for
   * QUERY. Every call it makes is appended to `host.calls`, exactly as
   * RunCalls lists them, and the returned string reports ScreenshotCount.
   */
  method Run(host: Host, events: seq<Event>) returns (summary: string)
    modifies host
    ensures host.calls == old(host.calls) + RunCalls(events)
    ensures summary == Summary(ScreenshotCount(events))
  {
    ghost var start := host.calls;
    var screenshotCount := 0;
    var k := 0;
    while k < |events|
      invariant k <= |events|
      invariant host.calls == start + StreamCalls(events[..k])
      invariant screenshotCount == ScreenshotCount(events[..k])
    {
      ghost var done := StreamCalls(events[..k]);
      ghost var step := EventCalls(k, events[k]);
      StreamStep(events, k);
      var marked := AnalyzeEvent(host, k, events[k]);
      AppendAssociative(start, done, step);
      if marked {
        screenshotCount := screenshotCount + 1;
      }
      k := k + 1;
    }
    assert events[..k] == events;
    ghost var stream := host.calls;
    assert stream == start + StreamCalls(events);

    if screenshotCount > 0 {
      host.AddView(VIEW_NAME, VIEW_ID, QUERY);
    }
    assert host.calls == stream + (if screenshotCount > 0 then [AddView(VIEW_NAME, VIEW_ID, QUERY)] else []);

    summary := Summary(screenshotCount);
  }
}
