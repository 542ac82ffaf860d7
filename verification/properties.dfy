/**
 * What one run of the screenshot analyzer does, stated about the call log
 * RunCalls that `Screenshot.Run` is proved to produce:
 *  - each event of the stream ends up with exactly the annotations the rule
 *    table gives it, whatever the other events are;
 *  - every event is committed exactly once, in stream order, and nothing
 *    touches an event after its commit;
 *  - the emoji list is the fired rules' emoji in the fixed rule order, and
 *    it is attached only when non-empty;
 *  - the counter is the number of EXECVE screenshots, and the saved view is
 *    created, once and last, exactly when it is positive;
 *  - the summary string reports the counter in decimal.
 */
module ScreenshotProperties {
  import opened Strings
  import opened Screenshot

  // ---------------------------------------------------------------------
  // The annotations an event accumulates in the store
  // ---------------------------------------------------------------------

  datatype HumanReadable = HumanReadable(text: string, sourceName: string)

  /**
   * What the store holds for one event after a sequence of calls. The host
   * is modelled as appending on every mutation (tags, comments, labels,
   * emoji); a star is a flag, and `commits` counts the commits of that event.
   */
  datatype Annotations = Annotations(
    tags: seq<string>,
    comments: seq<string>,
    starred: bool,
    labels: seq<HumanReadable>,
    emojis: seq<Emoji>,
    commits: nat)

  const UNTOUCHED := Annotations([], [], false, [], [], 0)

  /** The effect of one call on the annotations of the event at position `k`. */
  function Apply(a: Annotations, c: Call, k: nat): Annotations
  {
    if !Targets(c, k) then a
    else
      match c
      case AddTags(_, tags) => a.(tags := a.tags + tags)
      case AddComment(_, comment) => a.(comments := a.comments + [comment])
      case AddStar(_) => a.(starred := true)
      case AddHumanReadable(_, text, sourceName) => a.(labels := a.labels + [HumanReadable(text, sourceName)])
      case AddEmojis(_, emojis) => a.(emojis := a.emojis + emojis)
      case Commit(_) => a.(commits := a.commits + 1)
      case AddView(_, _, _) => a
  }

  /** The annotations of event `k` after `calls` are applied, in order, to `a`. */
  function Replay(a: Annotations, calls: seq<Call>, k: nat): Annotations
    decreases |calls|
  {
    if calls == [] then a else Replay(Apply(a, calls[0], k), calls[1..], k)
  }

  /** The annotations of event `k` after `calls`, starting from an untouched event. */
  function AnnotationsOf(calls: seq<Call>, k: nat): Annotations
  {
    Replay(UNTOUCHED, calls, k)
  }

  /** `b` appended after `a`: what two batches of calls leave behind, one after the other. */
  function Combine(a: Annotations, b: Annotations): Annotations
  {
    Annotations(a.tags + b.tags, a.comments + b.comments, a.starred || b.starred,
                a.labels + b.labels, a.emojis + b.emojis, a.commits + b.commits)
  }

  /**
   * The rule table, read directly: what one event must carry after a run.
   * Each rule contributes its own effects, independently of the others.
   */
  function Expected(e: Event): Annotations
  {
    Annotations(
      if TrashRule(e) then [TRASH_TAG] else [],
      if TrashRule(e) then [TRASH_COMMENT] else [],
      ExecveRule(e),
      if ExecveRule(e) then [HumanReadable(TAKEN_LABEL, NAME)] else [],
      EmojisFor(e),
      1)
  }

  lemma {:induction false} ReplayAppend(a: Annotations, x: seq<Call>, y: seq<Call>, k: nat)
    ensures Replay(a, x + y, k) == Replay(Replay(a, x, k), y, k)
    decreases |x|
  {
    if x != [] {
      assert (x + y)[1..] == x[1..] + y;
      ReplayAppend(Apply(a, x[0], k), x[1..], y, k);
    } else {
      assert x + y == y;
    }
  }

  /** Replaying from any starting point appends to it what replaying from scratch gives. */
  lemma {:induction false} ReplayFrom(a: Annotations, calls: seq<Call>, k: nat)
    ensures Replay(a, calls, k) == Combine(a, AnnotationsOf(calls, k))
    decreases |calls|
  {
    if calls == [] {
      assert Combine(a, UNTOUCHED) == a;
    } else {
      var u := Apply(UNTOUCHED, calls[0], k);
      var rest := AnnotationsOf(calls[1..], k);
      ReplayFrom(Apply(a, calls[0], k), calls[1..], k);
      ReplayFrom(u, calls[1..], k);
      ApplyIsCombine(a, calls[0], k);
      CombineAssociative(a, u, rest);
    }
  }

  /** One call adds to the annotations what it would add to an untouched event. */
  lemma ApplyIsCombine(a: Annotations, c: Call, k: nat)
    ensures Apply(a, c, k) == Combine(a, Apply(UNTOUCHED, c, k))
  {
    if Targets(c, k) {
      match c
      case AddTags(_, tags) =>
        assert [] + tags == tags;
      case AddComment(_, comment) =>
      case AddStar(_) =>
      case AddHumanReadable(_, text, sourceName) =>
      case AddEmojis(_, emojis) =>
        assert [] + emojis == emojis;
      case Commit(_) =>
      case AddView(_, _, _) =>
    }
  }

  lemma CombineAssociative(a: Annotations, b: Annotations, c: Annotations)
    ensures Combine(Combine(a, b), c) == Combine(a, Combine(b, c))
  {
    AppendAssociative(a.tags, b.tags, c.tags);
    AppendAssociative(a.comments, b.comments, c.comments);
    AppendAssociative(a.labels, b.labels, c.labels);
    AppendAssociative(a.emojis, b.emojis, c.emojis);
  }

  /** Calls that act on other events leave event `k` as it was. */
  lemma {:induction false} ReplayUntargeted(a: Annotations, calls: seq<Call>, k: nat)
    requires forall i :: 0 <= i < |calls| ==> !Targets(calls[i], k)
    ensures Replay(a, calls, k) == a
    decreases |calls|
  {
    if calls != [] {
      assert !Targets(calls[0], k);
      ReplayUntargeted(a, calls[1..], k);
    }
  }

  lemma ReplaySingle(a: Annotations, c: Call, k: nat)
    ensures Replay(a, [c], k) == Apply(a, c, k)
  {
    assert [c][1..] == [];
  }

  lemma ReplayPair(a: Annotations, c: Call, d: Call, k: nat)
    ensures Replay(a, [c, d], k) == Apply(Apply(a, c, k), d, k)
  {
    ReplaySingle(a, c, k);
    assert [c, d][1..] == [d];
    assert Replay(a, [c, d], k) == Replay(Apply(a, c, k), [d], k);
    ReplaySingle(Apply(a, c, k), d, k);
  }

  /** Every call the loop makes for one event acts on that event, and only the last is its commit. */
  lemma EventCallsShape(k: nat, e: Event)
    ensures |EventCalls(k, e)| >= 1
    ensures forall i :: 0 <= i < |EventCalls(k, e)| ==> Targets(EventCalls(k, e)[i], k)
    ensures forall i :: 0 <= i < |EventCalls(k, e)| ==>
      (EventCalls(k, e)[i].Commit? <==> i == |EventCalls(k, e)| - 1)
  {
  }

  /** The calls of the loop act only on events of the stream, and none of them is a saved view. */
  lemma {:induction false} StreamCallsTargets(events: seq<Event>)
    ensures forall i :: 0 <= i < |StreamCalls(events)| ==>
      !StreamCalls(events)[i].AddView? && StreamCalls(events)[i].event < |events|
    decreases |events|
  {
    if events != [] {
      var n := |events| - 1;
      StreamCallsTargets(events[..n]);
      EventCallsShape(n, events[n]);
    }
  }

  /** The calls for one event leave it with exactly the annotations of the rule table. */
  lemma EventAnnotations(k: nat, e: Event)
    ensures AnnotationsOf(EventCalls(k, e), k) == Expected(e)
  {
    var trash, execve, attach := TrashCalls(k, e), ExecveCalls(k, e), EmojiCalls(k, e);
    ReplayAppend(UNTOUCHED, trash + execve + attach, [Commit(k)], k);
    ReplayAppend(UNTOUCHED, trash + execve, attach, k);
    ReplayAppend(UNTOUCHED, trash, execve, k);
    var a1 := Replay(UNTOUCHED, trash, k);
    ReplayPair(UNTOUCHED, AddTags(k, [TRASH_TAG]), AddComment(k, TRASH_COMMENT), k);
    assert a1 == UNTOUCHED.(tags := if TrashRule(e) then [TRASH_TAG] else [],
                            comments := if TrashRule(e) then [TRASH_COMMENT] else []);
    var a2 := Replay(a1, execve, k);
    ReplayPair(a1, AddStar(k), AddHumanReadable(k, TAKEN_LABEL, NAME), k);
    assert a2 == a1.(starred := ExecveRule(e),
                     labels := if ExecveRule(e) then [HumanReadable(TAKEN_LABEL, NAME)] else []);
    var a3 := Replay(a2, attach, k);
    ReplaySingle(a2, AddEmojis(k, EmojisFor(e)), k);
    assert a3 == a2.(emojis := EmojisFor(e));
    ReplaySingle(a3, Commit(k), k);
  }

  /** The loop leaves each event of the stream with exactly the annotations of the rule table. */
  lemma {:induction false} StreamAnnotations(events: seq<Event>, k: nat)
    requires k < |events|
    ensures AnnotationsOf(StreamCalls(events), k) == Expected(events[k])
    decreases |events|
  {
    var n := |events| - 1;
    var prefix := events[..n];
    var last := EventCalls(n, events[n]);
    ReplayAppend(UNTOUCHED, StreamCalls(prefix), last, k);
    EventCallsShape(n, events[n]);
    if k == n {
      StreamCallsTargets(prefix);
      ReplayUntargeted(UNTOUCHED, StreamCalls(prefix), k);
      EventAnnotations(n, events[n]);
    } else {
      StreamAnnotations(prefix, k);
      ReplayUntargeted(Expected(events[k]), last, k);
    }
  }

  /**
   * After a run, each event of the stream carries exactly the annotations
   * the rule table gives it (all rules that fire, none that do not, and one
   * commit), and no other event is touched.
   */
  lemma RunAnnotations(events: seq<Event>, k: nat)
    ensures k < |events| ==> AnnotationsOf(RunCalls(events), k) == Expected(events[k])
    ensures k >= |events| ==> AnnotationsOf(RunCalls(events), k) == UNTOUCHED
  {
    var view := if ScreenshotCount(events) > 0 then [AddView(VIEW_NAME, VIEW_ID, QUERY)] else [];
    ReplayAppend(UNTOUCHED, StreamCalls(events), view, k);
    ReplayUntargeted(AnnotationsOf(StreamCalls(events), k), view, k);
    if k < |events| {
      StreamAnnotations(events, k);
    } else {
      StreamCallsTargets(events);
      ReplayUntargeted(UNTOUCHED, StreamCalls(events), k);
    }
  }

  /**
   * Under the append model of the host (see `Apply`), running the analyzer
   * a second time over the same events appends the same annotations again:
   * tags, comments, labels and emoji are doubled and each event is
   * committed twice, so the run is not idempotent. A host that
   * deduplicated repeated values would behave differently.
   */
  lemma RerunAppends(events: seq<Event>, k: nat)
    requires k < |events|
    ensures AnnotationsOf(RunCalls(events) + RunCalls(events), k)
         == Combine(Expected(events[k]), Expected(events[k]))
  {
    ReplayAppend(UNTOUCHED, RunCalls(events), RunCalls(events), k);
    RunAnnotations(events, k);
    ReplayFrom(Expected(events[k]), RunCalls(events), k);
  }

  // ---------------------------------------------------------------------
  // Commits
  // ---------------------------------------------------------------------

  /** The events committed by `calls`, in commit order. */
  function CommittedEvents(calls: seq<Call>): seq<nat>
  {
    if calls == [] then []
    else (if calls[0].Commit? then [calls[0].event] else []) + CommittedEvents(calls[1..])
  }

  lemma {:induction false} CommittedEventsAppend(x: seq<Call>, y: seq<Call>)
    ensures CommittedEvents(x + y) == CommittedEvents(x) + CommittedEvents(y)
    decreases |x|
  {
    if x == [] {
      assert x + y == y;
    } else {
      var head := if x[0].Commit? then [x[0].event] else [];
      assert (x + y)[0] == x[0];
      assert (x + y)[1..] == x[1..] + y;
      assert CommittedEvents(x + y) == head + CommittedEvents(x[1..] + y);
      CommittedEventsAppend(x[1..], y);
      assert CommittedEvents(x) == head + CommittedEvents(x[1..]);
      assert head + (CommittedEvents(x[1..]) + CommittedEvents(y))
          == (head + CommittedEvents(x[1..])) + CommittedEvents(y);
    }
  }

  /** The stream positions 0, 1, ..., n - 1 in order. */
  function Positions(n: nat): (r: seq<nat>)
    ensures |r| == n && forall i :: 0 <= i < n ==> r[i] == i
  {
    if n == 0 then [] else Positions(n - 1) + [n - 1]
  }

  lemma {:induction false} NoCommits(calls: seq<Call>)
    requires forall i :: 0 <= i < |calls| ==> !calls[i].Commit?
    ensures CommittedEvents(calls) == []
    decreases |calls|
  {
    if calls != [] {
      NoCommits(calls[1..]);
    }
  }

  /** The loop body commits its event once, and nothing else. */
  lemma EventCommits(k: nat, e: Event)
    ensures CommittedEvents(EventCalls(k, e)) == [k]
  {
    var trash, execve, attach := TrashCalls(k, e), ExecveCalls(k, e), EmojiCalls(k, e);
    CommittedEventsAppend(trash + execve + attach, [Commit(k)]);
    CommittedEventsAppend(trash + execve, attach);
    CommittedEventsAppend(trash, execve);
    NoCommits(trash);
    NoCommits(execve);
    NoCommits(attach);
    assert [Commit(k)][1..] == [];
  }

  lemma {:induction false} StreamCommits(events: seq<Event>)
    ensures CommittedEvents(StreamCalls(events)) == Positions(|events|)
    decreases |events|
  {
    if events != [] {
      var n := |events| - 1;
      var e := events[n];
      assert StreamCalls(events) == StreamCalls(events[..n]) + EventCalls(n, e);
      StreamCommits(events[..n]);
      CommittedEventsAppend(StreamCalls(events[..n]), EventCalls(n, e));
      EventCommits(n, e);
    }
  }

  /** The saved view, if any, adds no commit. */
  lemma CommitsWithView(stream: seq<Call>, hasView: bool)
    ensures CommittedEvents(stream + (if hasView then [AddView(VIEW_NAME, VIEW_ID, QUERY)] else []))
         == CommittedEvents(stream)
  {
    var view := if hasView then [AddView(VIEW_NAME, VIEW_ID, QUERY)] else [];
    CommittedEventsAppend(stream, view);
    NoCommits(view);
    assert CommittedEvents(stream) + [] == CommittedEvents(stream);
  }

  /** A run commits every event of the stream exactly once, in stream order, and nothing else. */
  lemma CommitsInStreamOrder(events: seq<Event>)
    ensures CommittedEvents(RunCalls(events)) == Positions(|events|)
  {
    CommitsWithView(StreamCalls(events), ScreenshotCount(events) > 0);
    StreamCommits(events);
  }

  /** A call for a later event never precedes a call for an earlier one. */
  predicate InStreamOrder(calls: seq<Call>)
  {
    forall i, j :: 0 <= i < j < |calls| && !calls[i].AddView? && !calls[j].AddView? ==>
      calls[i].event <= calls[j].event
  }

  /** No call acts on an event after that event's commit. */
  predicate NothingAfterCommit(calls: seq<Call>)
  {
    forall i, j :: 0 <= i < j < |calls| && calls[i].Commit? ==> !Targets(calls[j], calls[i].event)
  }

  /** Calls are made event by event: a call for a later event never precedes one for an earlier event. */
  lemma {:induction false} StreamOrder(events: seq<Event>)
    ensures InStreamOrder(StreamCalls(events))
    decreases |events|
  {
    if events != [] {
      var n := |events| - 1;
      var prefix := StreamCalls(events[..n]);
      var last := EventCalls(n, events[n]);
      var calls := prefix + last;
      assert StreamCalls(events) == calls;
      StreamOrder(events[..n]);
      StreamCallsTargets(events[..n]);
      EventCallsShape(n, events[n]);
      forall i, j | 0 <= i < j < |calls| && !calls[i].AddView? && !calls[j].AddView?
        ensures calls[i].event <= calls[j].event
      {
        if j < |prefix| {
          assert calls[i] == prefix[i] && calls[j] == prefix[j];
        } else if i < |prefix| {
          assert calls[i] == prefix[i] && calls[j] == last[j - |prefix|];
          assert prefix[i].event < n;
          assert Targets(last[j - |prefix|], n);
        } else {
          assert calls[i] == last[i - |prefix|] && calls[j] == last[j - |prefix|];
          assert Targets(last[i - |prefix|], n) && Targets(last[j - |prefix|], n);
        }
      }
    }
  }

  /** Once an event is committed, no later call of the loop acts on it. */
  lemma {:induction false} StreamCommitIsLast(events: seq<Event>)
    ensures NothingAfterCommit(StreamCalls(events))
    decreases |events|
  {
    if events != [] {
      var n := |events| - 1;
      var prefix := StreamCalls(events[..n]);
      var last := EventCalls(n, events[n]);
      var calls := prefix + last;
      assert StreamCalls(events) == calls;
      StreamCommitIsLast(events[..n]);
      StreamCallsTargets(events[..n]);
      EventCallsShape(n, events[n]);
      forall i, j | 0 <= i < j < |calls| && calls[i].Commit?
        ensures !Targets(calls[j], calls[i].event)
      {
        if j < |prefix| {
          assert calls[i] == prefix[i] && calls[j] == prefix[j];
        } else if i < |prefix| {
          assert calls[i] == prefix[i] && calls[j] == last[j - |prefix|];
          assert prefix[i].event < n;
          assert Targets(last[j - |prefix|], n);
        } else {
          assert false;
        }
      }
    }
  }

  /**
   * In a whole run, each event's commit comes after all of its mutations:
   * no call made after a commit acts on the committed event.
   */
  lemma CommitIsLast(events: seq<Event>)
    ensures NothingAfterCommit(RunCalls(events))
  {
    var stream := StreamCalls(events);
    var calls := RunCalls(events);
    var view := if ScreenshotCount(events) > 0 then [AddView(VIEW_NAME, VIEW_ID, QUERY)] else [];
    assert calls == stream + view;
    StreamCommitIsLast(events);
    forall i, j | 0 <= i < j < |calls| && calls[i].Commit?
      ensures !Targets(calls[j], calls[i].event)
    {
      if j < |stream| {
        assert calls[i] == stream[i] && calls[j] == stream[j];
      } else {
        assert calls[j] == view[j - |stream|];
      }
    }
  }

  // ---------------------------------------------------------------------
  // Emoji
  // ---------------------------------------------------------------------

  /** The emoji's place in the fixed order: wastebasket, locomotive, camera, satellite. */
  function Rank(x: Emoji): nat
  {
    match x
    case Wastebasket => 0
    case Locomotive => 1
    case Camera => 2
    case Satellite => 3
  }

  /** The rule that contributes emoji `x` fires for `e`. */
  predicate Fires(x: Emoji, e: Event)
  {
    match x
    case Wastebasket => TrashRule(e)
    case Locomotive => ExecveRule(e)
    case Camera => CameraRule(e)
    case Satellite => WebhistRule(e)
  }

  /** Strictly increasing in the fixed emoji order (so also free of repeats). */
  predicate InRuleOrder(s: seq<Emoji>)
  {
    forall i, j :: 0 <= i < j < |s| ==> Rank(s[i]) < Rank(s[j])
  }

  /**
   * The emoji list holds one emoji for each rule that fires and none for
   * the others, in the fixed rule order; it is empty exactly when no rule
   * fires.
   */
  lemma EmojisForCharacterised(e: Event)
    ensures forall x :: x in EmojisFor(e) <==> Fires(x, e)
    ensures InRuleOrder(EmojisFor(e))
    ensures EmojisFor(e) == [] <==> !(TrashRule(e) || ExecveRule(e) || CameraRule(e) || WebhistRule(e))
  {
  }

  /** In a list in rule order, the head comes before every other member. */
  lemma InRuleOrderHead(s: seq<Emoji>, x: Emoji)
    requires InRuleOrder(s) && x in s
    ensures x == s[0] || Rank(s[0]) < Rank(x)
  {
    var i :| 0 <= i < |s| && s[i] == x;
    if i > 0 {
      assert Rank(s[0]) < Rank(s[i]);
    }
  }

  /** The tail of a list in rule order is in rule order and holds every member but the head. */
  lemma InRuleOrderTail(s: seq<Emoji>)
    requires InRuleOrder(s) && s != []
    ensures InRuleOrder(s[1..])
    ensures forall x :: x in s[1..] <==> x in s && x != s[0]
  {
    forall x
      ensures x in s[1..] <==> x in s && x != s[0]
    {
      if x in s[1..] {
        var i :| 0 <= i < |s| - 1 && s[1..][i] == x;
        assert Rank(s[0]) < Rank(s[i + 1]);
      }
      if x in s && x != s[0] {
        var i :| 0 <= i < |s| && s[i] == x;
        assert s[1..][i - 1] == x;
      }
    }
  }

  /** Two lists in rule order with the same members are equal. */
  lemma {:induction false} InRuleOrderUnique(s: seq<Emoji>, t: seq<Emoji>)
    requires InRuleOrder(s) && InRuleOrder(t)
    requires forall x :: x in s <==> x in t
    ensures s == t
    decreases |s|
  {
    assert s != [] ==> s[0] in t;
    assert t != [] ==> t[0] in s;
    if s != [] && t != [] {
      InRuleOrderHead(t, s[0]);
      InRuleOrderHead(s, t[0]);
      InRuleOrderTail(s);
      InRuleOrderTail(t);
      InRuleOrderUnique(s[1..], t[1..]);
      assert s == [s[0]] + s[1..] && t == [t[0]] + t[1..];
    }
  }

  /**
   * The emoji list attached to an event is the only list, in the fixed rule
   * order, whose members are the emoji of the rules that fire.
   */
  lemma EmojisAreFiredRulesInOrder(e: Event, s: seq<Emoji>)
    requires InRuleOrder(s)
    requires forall x :: x in s <==> Fires(x, e)
    ensures s == EmojisFor(e)
  {
    EmojisForCharacterised(e);
    InRuleOrderUnique(s, EmojisFor(e));
  }

  /** Every emoji list attached by `calls` is non-empty. */
  predicate EmojiListsNonEmpty(calls: seq<Call>)
  {
    forall i :: 0 <= i < |calls| && calls[i].AddEmojis? ==> calls[i].emojis != []
  }

  /** The loop never attaches an empty emoji list. */
  lemma {:induction false} StreamEmojiListsNonEmpty(events: seq<Event>)
    ensures EmojiListsNonEmpty(StreamCalls(events))
    decreases |events|
  {
    if events != [] {
      var n := |events| - 1;
      var prefix := StreamCalls(events[..n]);
      var last := EventCalls(n, events[n]);
      var calls := prefix + last;
      assert StreamCalls(events) == calls;
      StreamEmojiListsNonEmpty(events[..n]);
      forall i | 0 <= i < |calls| && calls[i].AddEmojis?
        ensures calls[i].emojis != []
      {
        if i < |prefix| {
          assert calls[i] == prefix[i];
        } else {
          assert calls[i] == last[i - |prefix|];
          assert calls[i] == AddEmojis(n, EmojisFor(events[n]));
        }
      }
    }
  }

  /** A run never attaches an empty emoji list. */
  lemma NoEmptyEmojiList(events: seq<Event>)
    ensures EmojiListsNonEmpty(RunCalls(events))
  {
    var stream := StreamCalls(events);
    var calls := RunCalls(events);
    var view := if ScreenshotCount(events) > 0 then [AddView(VIEW_NAME, VIEW_ID, QUERY)] else [];
    assert calls == stream + view;
    StreamEmojiListsNonEmpty(events);
    forall i | 0 <= i < |calls| && calls[i].AddEmojis?
      ensures calls[i].emojis != []
    {
      assert calls[i] == stream[i];
    }
  }

  // ---------------------------------------------------------------------
  // The counter and the saved view
  // ---------------------------------------------------------------------

  lemma {:induction false} ScreenshotCountAppend(x: seq<Event>, y: seq<Event>)
    ensures ScreenshotCount(x + y) == ScreenshotCount(x) + ScreenshotCount(y)
    decreases |y|
  {
    if y == [] {
      assert x + y == x;
    } else {
      var m := |y| - 1;
      assert (x + y)[..|x| + m] == x + y[..m];
      ScreenshotCountAppend(x, y[..m]);
    }
  }

  /** The counter is positive exactly when some event of the stream satisfies the EXECVE rule. */
  lemma {:induction false} ScreenshotCountPositive(events: seq<Event>)
    ensures ScreenshotCount(events) > 0 <==> exists k :: 0 <= k < |events| && ExecveRule(events[k])
    decreases |events|
  {
    if events != [] {
      var n := |events| - 1;
      ScreenshotCountPositive(events[..n]);
      if exists k :: 0 <= k < n && ExecveRule(events[..n][k]) {
        var k :| 0 <= k < n && ExecveRule(events[..n][k]);
        assert events[k] == events[..n][k];
      }
      if exists k :: 0 <= k < |events| && ExecveRule(events[k]) {
        var k :| 0 <= k < |events| && ExecveRule(events[k]);
        if k < n {
          assert events[..n][k] == events[k];
        }
      }
    }
  }

  /** How many calls in `calls` star an event. */
  function Stars(calls: seq<Call>): nat
  {
    if calls == [] then 0 else (if calls[0].AddStar? then 1 else 0) + Stars(calls[1..])
  }

  lemma {:induction false} StarsAppend(x: seq<Call>, y: seq<Call>)
    ensures Stars(x + y) == Stars(x) + Stars(y)
    decreases |x|
  {
    if x == [] {
      assert x + y == y;
    } else {
      assert (x + y)[1..] == x[1..] + y;
      StarsAppend(x[1..], y);
    }
  }

  lemma {:induction false} NoStars(calls: seq<Call>)
    requires forall i :: 0 <= i < |calls| ==> !calls[i].AddStar?
    ensures Stars(calls) == 0
    decreases |calls|
  {
    if calls != [] {
      NoStars(calls[1..]);
    }
  }

  /** The loop body stars its event once if the EXECVE rule fires, and never otherwise. */
  lemma EventStars(k: nat, e: Event)
    ensures Stars(EventCalls(k, e)) == if ExecveRule(e) then 1 else 0
  {
    var trash, execve, attach := TrashCalls(k, e), ExecveCalls(k, e), EmojiCalls(k, e);
    StarsAppend(trash + execve + attach, [Commit(k)]);
    StarsAppend(trash + execve, attach);
    StarsAppend(trash, execve);
    NoStars(trash);
    NoStars(attach);
    NoStars([Commit(k)]);
    if ExecveRule(e) {
      StarsAppend([AddStar(k)], [AddHumanReadable(k, TAKEN_LABEL, NAME)]);
      assert [AddStar(k)] + [AddHumanReadable(k, TAKEN_LABEL, NAME)] == execve;
      NoStars([AddHumanReadable(k, TAKEN_LABEL, NAME)]);
      assert [AddStar(k)][1..] == [];
    }
  }

  /** The counter moves together with the stars: it equals the number of star calls of the run. */
  lemma {:induction false} ScreenshotCountIsStars(events: seq<Event>)
    ensures Stars(RunCalls(events)) == ScreenshotCount(events)
    decreases |events|
  {
    var view := if ScreenshotCount(events) > 0 then [AddView(VIEW_NAME, VIEW_ID, QUERY)] else [];
    StarsAppend(StreamCalls(events), view);
    if events != [] {
      var n := |events| - 1;
      var e := events[n];
      ScreenshotCountIsStars(events[..n]);
      var viewBefore := if ScreenshotCount(events[..n]) > 0 then [AddView(VIEW_NAME, VIEW_ID, QUERY)] else [];
      StarsAppend(StreamCalls(events[..n]), viewBefore);
      StarsAppend(StreamCalls(events[..n]), EventCalls(n, e));
      EventStars(n, e);
    }
  }

  /** The saved views among `calls`. */
  function Views(calls: seq<Call>): seq<Call>
  {
    if calls == [] then [] else (if calls[0].AddView? then [calls[0]] else []) + Views(calls[1..])
  }

  lemma {:induction false} ViewsAppend(x: seq<Call>, y: seq<Call>)
    ensures Views(x + y) == Views(x) + Views(y)
    decreases |x|
  {
    if x == [] {
      assert x + y == y;
    } else {
      var head := if x[0].AddView? then [x[0]] else [];
      assert (x + y)[0] == x[0];
      assert (x + y)[1..] == x[1..] + y;
      ViewsAppend(x[1..], y);
      AppendAssociative(head, Views(x[1..]), Views(y));
    }
  }

  lemma {:induction false} NoViews(calls: seq<Call>)
    requires forall i :: 0 <= i < |calls| ==> !calls[i].AddView?
    ensures Views(calls) == []
    decreases |calls|
  {
    if calls != [] {
      NoViews(calls[1..]);
    }
  }

  /**
   * A run creates the saved view "Screenshot activity" (id "screenshot",
   * the stream's own query) exactly when the counter is positive; it
   * creates it at most once, and as its very last call.
   */
  lemma SavedView(events: seq<Event>)
    ensures Views(RunCalls(events))
         == if ScreenshotCount(events) > 0 then [AddView(VIEW_NAME, VIEW_ID, QUERY)] else []
    ensures ScreenshotCount(events) > 0 ==>
      RunCalls(events)[|RunCalls(events)| - 1] == AddView(VIEW_NAME, VIEW_ID, QUERY)
  {
    var view := if ScreenshotCount(events) > 0 then [AddView(VIEW_NAME, VIEW_ID, QUERY)] else [];
    StreamCallsTargets(events);
    NoViews(StreamCalls(events));
    ViewsAppend(StreamCalls(events), view);
  }

  // ---------------------------------------------------------------------
  // Rule details
  // ---------------------------------------------------------------------

  /** The message holds "screenshot" at `i` when ASCII letter case is ignored. */
  ghost predicate ScreenshotAtIgnoringCase(message: string, i: int)
  {
    0 <= i && i + 10 <= |message|
    && forall j :: 0 <= j < 10 ==> LowerChar(message[i + j]) == "screenshot"[j]
  }

  /** The camera rule fires exactly when "screenshot" occurs in the message in any letter case. */
  lemma CameraRuleIgnoresCase(e: Event)
    ensures CameraRule(e) <==> exists i :: ScreenshotAtIgnoringCase(e.message, i)
  {
    var low := Lower(e.message);
    forall i
      ensures OccursAt(low, "screenshot", i) <==> ScreenshotAtIgnoringCase(e.message, i)
    {
      if 0 <= i && i + 10 <= |e.message| {
        if OccursAt(low, "screenshot", i) {
          forall j | 0 <= j < 10
            ensures LowerChar(e.message[i + j]) == "screenshot"[j]
          {
            assert low[i..i + 10][j] == low[i + j];
          }
        }
        if ScreenshotAtIgnoringCase(e.message, i) {
          assert low[i..i + 10] == "screenshot";
        }
      }
    }
  }

  /** The trash rule compares case-sensitively: "Trash" fires it, "trash" does not. */
  lemma TrashRuleIsCaseSensitive()
    ensures TrashRule(Event("fs:stat", "", "Trash"))
    ensures !TrashRule(Event("fs:stat", "", "trash"))
  {
    assert OccursAt("Trash", "Trash", 0);
    forall i
      ensures !OccursAt("trash", "Trash", i)
    {
      if 0 <= i && i + 5 <= 5 {
        assert i == 0 && "trash"[0..5][0] != "Trash"[0];
      }
    }
  }

  /** The EXECVE rule compares case-sensitively: "EXECVE" fires it, "execve" does not. */
  lemma ExecveRuleIsCaseSensitive()
    ensures ExecveRule(Event("selinux:line", "", "EXECVE"))
    ensures !ExecveRule(Event("selinux:line", "", "execve"))
  {
    assert OccursAt("EXECVE", "EXECVE", 0);
    forall i
      ensures !OccursAt("execve", "EXECVE", i)
    {
      if 0 <= i && i + 6 <= 6 {
        assert i == 0 && "execve"[0..6][0] != "EXECVE"[0];
      }
    }
  }

  /** Unlike the other two, the camera rule ignores case: a message containing "SCREENSHOT" fires it. */
  lemma UpperCaseScreenshotFiresCamera(e: Event, i: int)
    requires OccursAt(e.message, "SCREENSHOT", i)
    ensures CameraRule(e)
  {
    var lowered := Lower(e.message);
    forall j | 0 <= j < 10
      ensures lowered[i + j] == "screenshot"[j]
    {
      assert e.message[i + j] == e.message[i..i + 10][j] == "SCREENSHOT"[j];
    }
    assert lowered[i..i + 10] == "screenshot";
    assert OccursAt(lowered, "screenshot", i);
  }

  // ---------------------------------------------------------------------
  // The summary string
  // ---------------------------------------------------------------------

  /** The summary is the fixed prefix, the counter in decimal, and the fixed suffix; its middle reads back as the counter. */
  lemma SummaryReportsCount(count: nat)
    ensures var s := Summary(count);
      |s| > |SUMMARY_PREFIX| + |SUMMARY_SUFFIX|
      && s[..|SUMMARY_PREFIX|] == SUMMARY_PREFIX
      && s[|s| - |SUMMARY_SUFFIX|..] == SUMMARY_SUFFIX
      && IsCanonicalDecimal(s[|SUMMARY_PREFIX|..|s| - |SUMMARY_SUFFIX|])
      && ParseNat(s[|SUMMARY_PREFIX|..|s| - |SUMMARY_SUFFIX|]) == count
  {
    var s := Summary(count);
    var digits := NatToString(count);
    assert s[|SUMMARY_PREFIX|..|s| - |SUMMARY_SUFFIX|] == digits;
    ParseNatToString(count);
  }

  /** Different counters give different summaries. */
  lemma SummaryInjective(m: nat, n: nat)
    requires Summary(m) == Summary(n)
    ensures m == n
  {
    SummaryReportsCount(m);
    SummaryReportsCount(n);
  }

  /** An empty stream: no calls at all, and the summary reports 0 screenshots. */
  lemma EmptyStream()
    ensures RunCalls([]) == []
    ensures Summary(ScreenshotCount([])) == "Screenshot analyzer completed, 0 screenshots marked"
  {
  }

  /**
   * A stream of one event that satisfies the EXECVE rule: the summary
   * reports 1 screenshot and the run ends by creating the saved view.
   */
  lemma OneScreenshotTaken(e: Event)
    requires ExecveRule(e)
    ensures Summary(ScreenshotCount([e])) == "Screenshot analyzer completed, 1 screenshots marked"
    ensures RunCalls([e])[|RunCalls([e])| - 1] == AddView("Screenshot activity", "screenshot", QUERY)
  {
    assert ScreenshotCount([e]) == 1 by {
      assert [e][..0] == [];
    }
    assert Summary(1) == "Screenshot analyzer completed, 1 screenshots marked" by {
      assert NatToString(1) == "1";
    }
    SavedView([e]);
  }
}
