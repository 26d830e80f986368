/** The streaming-response aggregator that both bots share: it drains a stream of
    completion events, posts one activity as soon as the joined fragments are non-empty,
    edits it whenever the fragment count reaches a multiple of the batch interval, and
    always ends with one edit carrying the full joined text. */
module Aggregator {
  import opened Wrappers
  import opened JsJoin
  import opened Channel

  /** One completion event: the optional `delta.content` of each of its choices, in order. */
  type Event = seq<Option<string>>

  /** The choices of all events in arrival order, one entry per choice: none for an empty
      stream, and the event's own choices, in order, for a stream of one event. */
  function Choices(events: seq<Event>): (cs: seq<Option<string>>)
    ensures |events| == 0 ==> cs == []
    ensures |events| == 1 ==> cs == events[0]
  {
    if |events| == 0 then [] else Choices(events[..|events| - 1]) + events[|events| - 1]
  }

  /** Splitting the stream anywhere splits its choices at the same place: the outer loop
      may be read as running over any two consecutive parts of the stream. */
  lemma {:induction false} ChoicesOfAppend(a: seq<Event>, b: seq<Event>)
    ensures Choices(a + b) == Choices(a) + Choices(b)
    decreases |b|
  {
    if b == [] {
      assert a + b == a;
    } else {
      var init := b[..|b| - 1];
      assert (a + b)[..|a + b| - 1] == a + init;
      ChoicesOfAppend(a, init);
    }
  }

  /** The state of one run: the fragment array, the flag that no activity was posted yet,
      the id of the posted activity, and the operations sent so far. */
  datatype Run = Run(resArray: seq<Option<string>>, isFirstActivity: bool, oldActivityId: string, sent: seq<Op>)

  const Start: Run := Run([], true, "", [])

  /** What the loop body does with one choice whose content is `content`; `assignedId`
      is the id the channel gives the posted activity. */
  function Step(r: Run, content: Option<string>, assignedId: string): (r': Run)
    ensures r'.resArray == r.resArray + [content]
    ensures r'.isFirstActivity == (r.isFirstActivity && Join(r'.resArray) == "")
    ensures r.isFirstActivity && !r'.isFirstActivity ==>
              r'.sent == r.sent + [Send(Join(r'.resArray))] && r'.oldActivityId == assignedId
    ensures r.isFirstActivity && r'.isFirstActivity ==> r'.sent == r.sent && r'.oldActivityId == r.oldActivityId
    ensures !r.isFirstActivity ==>
              r'.oldActivityId == r.oldActivityId &&
              r'.sent == r.sent + (if |r'.resArray| % 7 == 0 then [Update(r.oldActivityId, Join(r'.resArray))] else [])
  {
    var resArray := r.resArray + [content];
    if r.isFirstActivity then
      var activityText := Join(resArray);
      if activityText != "" then Run(resArray, false, assignedId, r.sent + [Send(activityText)])
      else r.(resArray := resArray)
    else if |resArray| % 7 == 0 then
      r.(resArray := resArray, sent := r.sent + [Update(r.oldActivityId, Join(resArray))])
    else
      r.(resArray := resArray)
  }

  /** The state after the loop has processed the choices `cs`, starting fresh: every
      fragment is in the array, and the flag is still set exactly when they join to the
      empty text, in which case nothing was sent and no id was recorded. */
  function Feed(cs: seq<Option<string>>, assignedId: string): (r: Run)
    ensures r.resArray == cs
    ensures r.isFirstActivity ==> r.sent == [] && r.oldActivityId == ""
  {
    if |cs| == 0 then Start else Step(Feed(cs[..|cs| - 1], assignedId), cs[|cs| - 1], assignedId)
  }

  lemma AppendAssociates<T>(a: seq<T>, b: seq<T>, c: seq<T>)
    ensures a + b + c == a + (b + c)
  {
  }

  lemma EmptyPrefix<T>(b: seq<T>)
    ensures [] + b == b
  {
  }

  lemma NoneTaken<T>(a: seq<T>, b: seq<T>)
    ensures a + b[..0] == a
  {
    assert b[..0] == [];
  }

  lemma AllTaken<T>(a: seq<T>)
    ensures a[..|a|] == a
  {
  }

  /** The choices of one more event are the earlier choices followed by that event's. */
  lemma ChoicesOfPrefixes(events: seq<Event>, i: nat)
    requires i < |events|
    ensures Choices(events[..i + 1]) == Choices(events[..i]) + events[i]
  {
    assert events[..i + 1][..i] == events[..i];
  }

  lemma ExtendTake(a: seq<Option<string>>, b: seq<Option<string>>, j: nat)
    requires j < |b|
    ensures a + b[..j + 1] == (a + b[..j]) + [b[j]]
  {
    assert b[..j + 1] == b[..j] + [b[j]];
  }

  lemma Regroup<T>(sent: seq<T>, first: seq<T>, marks: seq<T>, x: seq<T>, marks': seq<T>)
    requires sent == first + marks && marks' == marks + x
    ensures sent + x == first + marks'
  {
    AppendAssociates(first, marks, x);
  }

  /** Taking at most |cs| elements of `cs + [c]` is taking them of `cs`. */
  lemma TakeOfSnoc(cs: seq<Option<string>>, c: Option<string>, n: nat)
    requires n <= |cs|
    ensures (cs + [c])[..n] == cs[..n]
  {
  }

  lemma FeedSnoc(cs: seq<Option<string>>, c: Option<string>, assignedId: string)
    ensures Feed(cs + [c], assignedId) == Step(Feed(cs, assignedId), c, assignedId)
  {
    assert (cs + [c])[..|cs|] == cs;
  }

  /** Everything one run sends: the operations of the loop, then the final edit. */
  function Trace(events: seq<Event>, assignedId: string): (t: seq<Op>)
    ensures |t| >= 1 && t[|t| - 1].Update?
  {
    var r := Feed(Choices(events), assignedId);
    r.sent + [Update(r.oldActivityId, Join(r.resArray))]
  }

  // ---------------------------------------------------------------------------------
  // The schedule in closed form, without the loop's state

  /** The choice at which the joined text first becomes non-empty: the first one if its
      content is non-empty, otherwise the second, since two elements always join to at
      least the separator. */
  function CreateIndex(cs: seq<Option<string>>): (k: nat)
    requires Join(cs) != ""
    ensures k < |cs| && Join(cs[..k]) == "" && Join(cs[..k + 1]) != ""
  {
    if TextOf(cs[0]) != "" then 0 else 1
  }

  /** Before the create, the joined text of every prefix is empty: `CreateIndex` is the
      first choice at which the loop could have posted, not just one at which it could. */
  lemma NothingShownBeforeCreate(cs: seq<Option<string>>, j: nat)
    requires Join(cs) != "" && j <= CreateIndex(cs)
    ensures Join(cs[..j]) == ""
  {
    JoinPrefixesGrow(cs, j, CreateIndex(cs));
  }

  /** The periodic edits up to the `n`-th: one at each total fragment count 7, 14, ..., 7 * n,
      each carrying the joined text of exactly that many fragments. */
  function Checkpoints(cs: seq<Option<string>>, id: string, n: nat): (u: seq<Op>)
    requires 7 * n <= |cs|
    ensures |u| == n
  {
    if n == 0 then [] else Checkpoints(cs, id, n - 1) + [Update(id, Join(cs[..7 * n]))]
  }

  /** Everything a run over the choices `cs` sends, stated outright. */
  function Expected(cs: seq<Option<string>>, id: string): seq<Op> {
    if Join(cs) == "" then [Update("", "")]
    else [Send(Join(cs[..CreateIndex(cs) + 1]))] + Checkpoints(cs, id, |cs| / 7) + [Update(id, Join(cs))]
  }

  lemma {:induction false} CheckpointAt(cs: seq<Option<string>>, id: string, n: nat, m: nat)
    requires 7 * n <= |cs| && m < n
    ensures Checkpoints(cs, id, n)[m] == Update(id, Join(cs[..7 * (m + 1)]))
    decreases n
  {
    if m < n - 1 {
      CheckpointAt(cs, id, n - 1, m);
    }
  }

  /** A later fragment does not change the checkpoints already reached. */
  lemma {:induction false} CheckpointsStable(cs: seq<Option<string>>, c: Option<string>, id: string, n: nat)
    requires 7 * n <= |cs|
    ensures Checkpoints(cs + [c], id, n) == Checkpoints(cs, id, n)
    decreases n
  {
    if n > 0 {
      CheckpointsStable(cs, c, id, n - 1);
      TakeOfSnoc(cs, c, 7 * n);
    }
  }

  lemma CheckpointsSnoc(cs: seq<Option<string>>, c: Option<string>, id: string)
    ensures Checkpoints(cs + [c], id, |cs + [c]| / 7) ==
            Checkpoints(cs, id, |cs| / 7) + (if |cs + [c]| % 7 == 0 then [Update(id, Join(cs + [c]))] else [])
  {
    var n := |cs| / 7;
    CheckpointsStable(cs, c, id, n);
    if (|cs| + 1) % 7 == 0 {
      assert (|cs| + 1) / 7 == n + 1;
      assert (cs + [c])[..7 * (n + 1)] == cs + [c];
    } else {
      assert (|cs| + 1) / 7 == n;
    }
  }

  /** The loop's state after the choices `cs`, stated outright: the array holds exactly those
      choices in order; the flag is set exactly while their joined text is empty; the id is
      the channel's once an activity was posted and "" before; and what was sent is nothing
      while the joined text is empty, then the create followed by the checkpoints so far. */
  ghost predicate Reached(cs: seq<Option<string>>, id: string, r: Run) {
    && r.resArray == cs
    && r.isFirstActivity == (Join(cs) == "")
    && r.oldActivityId == (if Join(cs) == "" then "" else id)
    && r.sent == if Join(cs) == "" then [] else [Send(Join(cs[..CreateIndex(cs) + 1]))] + Checkpoints(cs, id, |cs| / 7)
  }

  /** While nothing is shown, the step that makes the joined text non-empty posts exactly
      that text; it is the first or the second choice, so no checkpoint is due yet. */
  lemma StepWhileEmpty(p: seq<Option<string>>, c: Option<string>, id: string, r: Run)
    requires Join(p) == "" && Reached(p, id, r)
    ensures Reached(p + [c], id, Step(r, c, id))
  {
    var cs := p + [c];
    if Join(cs) != "" {
      assert CreateIndex(cs) == |p|;
      assert cs[..|p| + 1] == cs;
      assert |cs| / 7 == 0;
    }
  }

  /** Once shown, a step adds an edit exactly when it completes a batch of 7 fragments. */
  lemma StepOnceShown(p: seq<Option<string>>, c: Option<string>, id: string, r: Run)
    requires Join(p) != "" && Reached(p, id, r)
    ensures Reached(p + [c], id, Step(r, c, id))
  {
    var cs, r' := p + [c], Step(r, c, id);
    JoinIsPrefix(p, [c]);
    assert Join(cs) != "";
    var x := if |cs| % 7 == 0 then [Update(id, Join(cs))] else [];
    assert r'.sent == r.sent + x;
    var k := CreateIndex(p);
    assert CreateIndex(cs) == k;
    TakeOfSnoc(p, c, k + 1);
    var first, marks := [Send(Join(cs[..k + 1]))], Checkpoints(p, id, |p| / 7);
    assert r.sent == first + marks;
    CheckpointsSnoc(p, c, id);
    Regroup(r.sent, first, marks, x, Checkpoints(cs, id, |cs| / 7));
    assert !r'.isFirstActivity && r'.oldActivityId == id;
    assert r'.sent == first + Checkpoints(cs, id, |cs| / 7);
  }

  /** The loop's state after any prefix of choices is the one `Reached` states. */
  lemma {:induction false} FeedReaches(cs: seq<Option<string>>, id: string)
    ensures Reached(cs, id, Feed(cs, id))
    decreases |cs|
  {
    if |cs| > 0 {
      var p, c := cs[..|cs| - 1], cs[|cs| - 1];
      assert cs == p + [c];
      FeedReaches(p, id);
      if Join(p) == "" {
        StepWhileEmpty(p, c, id, Feed(p, id));
      } else {
        StepOnceShown(p, c, id, Feed(p, id));
      }
    }
  }

  /** A whole run sends exactly the schedule stated by `Expected`. */
  lemma TraceIsExpected(events: seq<Event>, id: string)
    ensures Trace(events, id) == Expected(Choices(events), id)
  {
    FeedReaches(Choices(events), id);
  }

  // ---------------------------------------------------------------------------------
  // Properties of the schedule

  /** The length of the fragment prefix whose joined text the `i`-th operation carries. */
  function CutOf(cs: seq<Option<string>>, i: nat): (n: nat)
    requires Join(cs) != ""
    ensures n <= |cs|
  {
    if i == 0 then CreateIndex(cs) + 1
    else if i <= |cs| / 7 then 7 * i
    else |cs|
  }

  /** The `i`-th operation of the schedule, one position at a time. */
  lemma ExpectedAt(cs: seq<Option<string>>, id: string, i: nat)
    requires Join(cs) != "" && i < |cs| / 7 + 2
    ensures |Expected(cs, id)| == |cs| / 7 + 2
    ensures Expected(cs, id)[i] ==
            if i == 0 then Send(Join(cs[..CutOf(cs, 0)])) else Update(id, Join(cs[..CutOf(cs, i)]))
  {
    var n := |cs| / 7;
    var first, marks, last := [Send(Join(cs[..CreateIndex(cs) + 1]))], Checkpoints(cs, id, n), [Update(id, Join(cs))];
    assert Expected(cs, id) == first + marks + last;
    if 0 < i <= n {
      CheckpointAt(cs, id, n, i - 1);
      assert (first + marks + last)[i] == marks[i - 1];
    } else if i > n {
      assert (first + marks + last)[i] == last[0];
      assert cs[..|cs|] == cs;
    }
  }

  /** The shape of the closed form, one position at a time. */
  lemma ExpectedShape(cs: seq<Option<string>>, id: string)
    ensures var t := Expected(cs, id);
      && |t| >= 1
      && t[|t| - 1] == Update(if Join(cs) == "" then "" else id, Join(cs))
      && (t[0].Send? <==> Join(cs) != "")
      && (forall k :: 0 < k < |t| ==> t[k].Update? && t[k].id == if Join(cs) == "" then "" else id)
  {
    var t := Expected(cs, id);
    if Join(cs) != "" {
      ExpectedAt(cs, id, 0);
      ExpectedAt(cs, id, |t| - 1);
      AllTaken(cs);
      forall k | 0 < k < |t| ensures t[k].Update? && t[k].id == id {
        ExpectedAt(cs, id, k);
      }
    }
  }

  /** At most one activity is posted, it is the first operation, and it is posted exactly
      when some content made the joined text non-empty; every other operation is an edit
      of that activity (of id "" when none was posted), and the last one carries the full
      joined text, whether or not anything was posted. */
  lemma TraceShape(events: seq<Event>, id: string)
    ensures var t, cs := Trace(events, id), Choices(events);
      && |t| >= 1
      && t[|t| - 1] == Update(if Join(cs) == "" then "" else id, Join(cs))
      && (t[0].Send? <==> Join(cs) != "")
      && (forall k :: 0 < k < |t| ==> t[k].Update? && t[k].id == if Join(cs) == "" then "" else id)
  {
    TraceIsExpected(events, id);
    ExpectedShape(Choices(events), id);
  }

  /** The closed form's first operation posts the first choice's text when it is non-empty,
      and otherwise a space followed by the second choice's text. */
  lemma ExpectedCreate(cs: seq<Option<string>>, id: string)
    ensures |cs| > 0 && TextOf(cs[0]) != "" ==> Expected(cs, id)[0] == Send(TextOf(cs[0]))
    ensures |cs| > 1 && TextOf(cs[0]) == "" ==> Expected(cs, id)[0] == Send(" " + TextOf(cs[1]))
  {
    if |cs| > 0 && TextOf(cs[0]) != "" {
      assert Join(cs) != "";
      ExpectedAt(cs, id, 0);
      assert cs[..1] == [cs[0]];
    } else if |cs| > 1 && TextOf(cs[0]) == "" {
      assert Join(cs) != "";
      ExpectedAt(cs, id, 0);
      JoinSnoc(cs[..1], cs[1]);
      assert cs[..1] + [cs[1]] == cs[..2];
    }
  }

  /** The posted text is that of the first choice when its content is non-empty, and
      otherwise a space followed by the second choice's content. */
  lemma CreateIsFirstOrSecondChoice(events: seq<Event>, id: string)
    ensures var t, cs := Trace(events, id), Choices(events);
      && (|cs| > 0 && TextOf(cs[0]) != "" ==> t[0] == Send(TextOf(cs[0])))
      && (|cs| > 1 && TextOf(cs[0]) == "" ==> t[0] == Send(" " + TextOf(cs[1])))
  {
    TraceIsExpected(events, id);
    ExpectedCreate(Choices(events), id);
  }

  /** The number of operations: with something to show, one create, one edit per full
      batch of 7 fragments and the final edit; otherwise the final edit alone. */
  lemma TraceLength(events: seq<Event>, id: string)
    ensures var t, cs := Trace(events, id), Choices(events);
      |t| == if Join(cs) == "" then 1 else |cs| / 7 + 2
  {
    TraceIsExpected(events, id);
  }

  /** In the closed form, every text is a prefix of every text after it. */
  lemma ExpectedNeverRegresses(cs: seq<Option<string>>, id: string)
    ensures var t := Expected(cs, id);
      forall i, j :: 0 <= i <= j < |t| ==> !t[i].SendCard? && !t[j].SendCard? && t[i].text <= t[j].text
  {
    var t := Expected(cs, id);
    if Join(cs) != "" {
      forall i, j | 0 <= i <= j < |t|
        ensures !t[i].SendCard? && !t[j].SendCard? && t[i].text <= t[j].text
      {
        ExpectedAt(cs, id, i);
        ExpectedAt(cs, id, j);
        JoinPrefixesGrow(cs, CutOf(cs, i), CutOf(cs, j));
      }
    }
  }

  /** Every operation is a text post or edit, and each one's text is a prefix of every
      later one's: the shown reply only ever grows. */
  lemma TraceNeverRegresses(events: seq<Event>, id: string)
    ensures var t := Trace(events, id);
      forall i, j :: 0 <= i <= j < |t| ==> !t[i].SendCard? && !t[j].SendCard? && t[i].text <= t[j].text
  {
    TraceIsExpected(events, id);
    ExpectedNeverRegresses(Choices(events), id);
  }

  /** The closed form of twenty present, non-empty fragments. */
  lemma ExpectedOfTwenty(cs: seq<Option<string>>, id: string)
    requires |cs| == 20 && TextOf(cs[0]) != ""
    ensures Expected(cs, id) == [Send(TextOf(cs[0])), Update(id, Join(cs[..7])), Update(id, Join(cs[..14])), Update(id, Join(cs))]
  {
    assert Join(cs) != "";
    assert cs[..1] == [cs[0]];
    assert Checkpoints(cs, id, 20 / 7) == [Update(id, Join(cs[..7])), Update(id, Join(cs[..14]))];
  }

  /** Twenty present, non-empty fragments: a create at the first, edits at counts 7 and 14,
      and the final edit, so three edits in all. */
  lemma TwentyFragments(events: seq<Event>, id: string)
    requires |Choices(events)| == 20
    requires forall i :: 0 <= i < 20 ==> TextOf(Choices(events)[i]) != ""
    ensures var cs := Choices(events);
      Trace(events, id) == [Send(TextOf(cs[0])), Update(id, Join(cs[..7])), Update(id, Join(cs[..14])), Update(id, Join(cs))]
  {
    TraceIsExpected(events, id);
    ExpectedOfTwenty(Choices(events), id);
  }

  /** "Hello", "" and " world": one create with "Hello", then only the final edit. */
  lemma HelloWorld(id: string)
    ensures Trace([[Some("Hello")], [Some("")], [Some(" world")]], id) ==
            [Send("Hello"), Update(id, "Hello   world")]
  {
    var events: seq<Event> := [[Some("Hello")], [Some("")], [Some(" world")]];
    var cs := [Some("Hello"), Some(""), Some(" world")];
    assert events[..2][..1] == [[Some("Hello")]];
    assert events[..2] == [[Some("Hello")], [Some("")]];
    assert Choices(events[..1]) == [Some("Hello")];
    assert Choices(events) == cs;
    JoinKeepsSeparatorsAroundEmpty();
    TraceIsExpected(events, id);
    assert cs[..1] == [Some("Hello")];
  }

  /** Two absent contents: their join " " is truthy, so an activity " " is posted. */
  lemma TwoAbsentContents(id: string)
    ensures Trace([[None, None]], id) == [Send(" "), Update(id, " ")]
  {
    var events: seq<Event> := [[None, None]];
    assert events[..0] == [];
    assert Choices(events) == [None, None];
    JoinOfTwoAbsent();
    TraceIsExpected(events, id);
    assert Choices(events)[..2] == [None, None];
  }

  /** An empty stream still sends the final edit, with id "" and empty text. */
  lemma EmptyStream(id: string)
    ensures Trace([], id) == [Update("", "")]
  {
  }

  // ---------------------------------------------------------------------------------
  // The loop itself

  /** `streamUpdates`: edit activity `oldActivityId` to show the joined fragments. */
  method StreamUpdates(resArray: seq<Option<string>>, oldActivityId: string, context: TurnContext)
    modifies context
    ensures context.sent == old(context.sent) + [Update(oldActivityId, Join(resArray))]
  {
    var newActivityText := Join(resArray);
    context.UpdateActivity(oldActivityId, newActivityText);
  }

  /** The nested loop over events and their choices, and the final edit. */
  method StreamResponse(events: seq<Event>, context: TurnContext)
    modifies context
    ensures context.sent == old(context.sent) + Trace(events, context.assignedId)
  {
    var resArray: seq<Option<string>> := [];
    var isFirstActivity := true;
    var oldActivityId := "";
    ghost var before := context.sent;
    ghost var run := Start;
    for i := 0 to |events|
      invariant run == Feed(Choices(events[..i]), context.assignedId)
      invariant run.resArray == resArray && run.isFirstActivity == isFirstActivity
      invariant run.oldActivityId == oldActivityId && context.sent == before + run.sent
    {
      var choices := events[i];
      ghost var seen := Choices(events[..i]);
      ChoicesOfPrefixes(events, i);
      NoneTaken(seen, choices);
      for j := 0 to |choices|
        invariant run == Feed(seen + choices[..j], context.assignedId)
        invariant run.resArray == resArray && run.isFirstActivity == isFirstActivity
        invariant run.oldActivityId == oldActivityId && context.sent == before + run.sent
      {
        FeedSnoc(seen + choices[..j], choices[j], context.assignedId);
        ExtendTake(seen, choices, j);
        ghost var sentBefore := run.sent;
        run := Step(run, choices[j], context.assignedId);
        resArray := resArray + [choices[j]];
        if isFirstActivity {
          var activityText := Join(resArray);
          if activityText != "" {
            var id := context.SendActivity(activityText);
            AppendAssociates(before, sentBefore, [Send(activityText)]);
            oldActivityId := id;
            isFirstActivity := false;
          }
        } else if |resArray| % 7 == 0 {
          StreamUpdates(resArray, oldActivityId, context);
          AppendAssociates(before, sentBefore, [Update(oldActivityId, Join(resArray))]);
        }
      }
      AllTaken(choices);
    }
    AllTaken(events);
    StreamUpdates(resArray, oldActivityId, context);
    AppendAssociates(before, run.sent, [Update(oldActivityId, Join(resArray))]);
  }

  /** A run against a fresh channel sends exactly the stated schedule, so replaying the same
      stream against another fresh channel sends the same operations again. */
  method RunAgainstFreshChannel(events: seq<Event>, assignedId: string) returns (ops: seq<Op>)
    ensures ops == Expected(Choices(events), assignedId)
  {
    var context := new TurnContext(assignedId);
    StreamResponse(events, context);
    ops := context.sent;
    EmptyPrefix(Trace(events, assignedId));
    TraceIsExpected(events, assignedId);
  }
}
