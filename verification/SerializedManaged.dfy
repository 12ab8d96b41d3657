/**
 A managed session with a serializer: two wrappers around one session. The outer one is the managed session
 without a gate, the inner one its serializer, with the gate and an activity group of its own. A job of the inner
 wrapper carries the name of the outer job it runs for, a closer that of the outer closer it works for. The two
 machines are those of `SessionWrapper`; what is added is which step of one has to wait for the other.
 */
module SerializedManaged {
  import opened Text
  import opened Counting
  import A = ActivityGroup
  import W = SessionWrapper

  datatype State = State(outer: W.State, inner: W.State)

  datatype Event = Outer(e: W.Event) | Inner(e: W.Event)

  const INIT := State(W.Initial(false), W.Initial(true))

  predicate InnerIsOver(s: State, j: W.JobId) {
    j in s.inner.jobs ==> s.inner.jobs[j].place == W.Gone
  }

  /** The serializer returned a stream: it exists and its registration was not refused, whatever became of it since. */
  predicate StreamReturned(s: State, j: W.JobId) {
    j in s.inner.jobs && s.inner.jobs[j].created && s.inner.jobs[j].place != W.Opened
  }

  /** What an outer step waits for. */
  predicate OuterMay(s: State, e: W.Event) {
    match e
    case Open(j) => StreamReturned(s, j)
    case Finish(j) => InnerIsOver(s, j)                       // the stream inside is closed first
    case End(j) => InnerIsOver(s, j)                          // the serializer's call has returned
    case Arrive(c) => c !in s.inner.closers
    case Stopped(c) => W.CloserAt(s.inner, c, W.Waiting)      // closeLocal has returned
    case SeeIdle(c) => W.CloserAt(s.inner, c, W.Deciding)     // waitIdle as well
    case _ => true
  }

  /** What an inner step waits for; the serializer never sends a DELETE of its own. */
  predicate InnerMay(s: State, e: W.Event) {
    match e
    case Start(j, stream) => W.IsAt(s.outer, j, W.Begun) && s.outer.jobs[j].stream == stream
    case Arrive(c) => c in s.outer.closers && (s.outer.closers[c] == W.Stopping || s.outer.closers[c].Watching?)
    case GrabIdle(c) =>
      && c in s.outer.closers && s.outer.closers[c].Watching?
      && s.outer.closers[c].idle in s.outer.group.idleClosed
    case Decide(_) => false
    case _ => true
  }

  predicate Enabled(s: State, e: Event) {
    match e
    case Outer(o) => W.Enabled(s.outer, o) && OuterMay(s, o)
    case Inner(i) => W.Enabled(s.inner, i) && InnerMay(s, i)
  }

  function Do(s: State, e: Event): State
    requires Enabled(s, e)
  {
    match e
    case Outer(o) => s.(outer := W.Do(s.outer, o))
    case Inner(i) => s.(inner := W.Do(s.inner, i))
  }

  // ---- what ties the two together ----

  ghost predicate Nested(s: State) {
    && !s.outer.gated && s.inner.gated
    && (forall j :: j in s.inner.jobs && s.inner.jobs[j].place != W.Gone ==>
          j in s.outer.jobs && W.Active(s.outer.jobs[j]))
    && (forall j :: W.IsAt(s.outer, j, W.Closing) || W.IsAt(s.outer, j, W.Unlisted) ==> InnerIsOver(s, j))
    && (s.outer.stopOnce == W.Ran ==> s.inner.group.closed)
  }

  /** No DELETE of the serializer's own. */
  ghost predicate NoInnerDelete(s: State) {
    && s.inner.sent == 0 && !s.inner.closeComplete && s.inner.closeCall == None
    && forall c :: c in s.inner.closers ==> s.inner.closers[c] !in {W.Calling, W.Sent, W.Joining}
  }

  ghost predicate Inv(s: State) {
    W.Inv(s.outer) && W.Inv(s.inner) && Nested(s) && NoInnerDelete(s)
  }

  lemma GatedForGood(s: W.State, e: W.Event)
    requires W.Enabled(s, e)
    ensures W.Do(s, e).gated == s.gated && (s.group.closed ==> W.Do(s, e).group.closed)
  {
  }

  lemma GoneIsForGood(s: W.State, e: W.Event, j: W.JobId)
    requires W.Inv(s) && W.Enabled(s, e) && W.IsAt(s, j, W.Gone)
    ensures W.IsAt(W.Do(s, e), j, W.Gone)
  {
    assert W.JobOk(s.gated, s.jobs[j]);
    W.OnlyItsJob(s, e);
  }

  /** A job that is active stays so until its End, which waits for the inner job. */
  lemma OuterKeepsJobs(s: State, e: W.Event, j: W.JobId)
    requires Inv(s) && Enabled(s, Outer(e)) && j in s.outer.jobs
    ensures W.Active(s.outer.jobs[j]) ==>
            j in W.Do(s.outer, e).jobs && (W.Active(W.Do(s.outer, e).jobs[j]) || e == W.End(j))
    ensures W.IsAt(W.Do(s.outer, e), j, W.Closing) || W.IsAt(W.Do(s.outer, e), j, W.Unlisted) ==> InnerIsOver(s, j)
  {
    assert W.JobOk(s.outer.gated, s.outer.jobs[j]);
    W.OnlyItsJob(s.outer, e);
  }

  lemma OuterKeepsNested(s: State, e: W.Event)
    requires Inv(s) && Enabled(s, Outer(e))
    ensures Nested(Do(s, Outer(e)))
  {
    var d := Do(s, Outer(e));
    GatedForGood(s.outer, e);
    forall j | j in s.inner.jobs && s.inner.jobs[j].place != W.Gone
      ensures j in d.outer.jobs && W.Active(d.outer.jobs[j])
    {
      OuterKeepsJobs(s, e, j);
    }
    OuterFinishesAfterInner(s, e);
    if d.outer.stopOnce == W.Ran {
      StoppedMeansBothClosed(s, e);
    }
  }

  lemma OuterFinishesAfterInner(s: State, e: W.Event)
    requires Inv(s) && Enabled(s, Outer(e))
    ensures forall j :: W.IsAt(W.Do(s.outer, e), j, W.Closing) || W.IsAt(W.Do(s.outer, e), j, W.Unlisted) ==>
            InnerIsOver(s, j)
  {
    var d := W.Do(s.outer, e);
    forall j | W.IsAt(d, j, W.Closing) || W.IsAt(d, j, W.Unlisted) ensures InnerIsOver(s, j) {
      if j in s.outer.jobs {
        OuterKeepsJobs(s, e, j);
      }
    }
  }

  lemma StoppedMeansBothClosed(s: State, e: W.Event)
    requires Inv(s) && Enabled(s, Outer(e)) && W.Do(s.outer, e).stopOnce == W.Ran
    ensures s.inner.group.closed
  {
    if e.Stopped? {
      assert W.StopOk(s.inner) && s.inner.closers[e.c] == W.Waiting;
    } else {
      assert s.outer.stopOnce == W.Ran;
    }
  }

  lemma InnerKeepsNested(s: State, e: W.Event)
    requires Inv(s) && Enabled(s, Inner(e))
    ensures Nested(Do(s, Inner(e)))
  {
    var d := Do(s, Inner(e));
    GatedForGood(s.inner, e);
    W.OnlyItsJob(s.inner, e);
    forall j | j in d.inner.jobs && d.inner.jobs[j].place != W.Gone
      ensures j in d.outer.jobs && W.Active(d.outer.jobs[j])
    {
      if j in s.inner.jobs && s.inner.jobs[j].place == W.Gone {
        GoneIsForGood(s.inner, e, j);
      }
    }
    forall j | W.IsAt(d.outer, j, W.Closing) || W.IsAt(d.outer, j, W.Unlisted) ensures InnerIsOver(d, j) {
      assert InnerIsOver(s, j);
      if j in s.inner.jobs {
        GoneIsForGood(s.inner, e, j);
      }
    }
  }

  lemma InnerSendsNoDelete(s: State, e: W.Event)
    requires NoInnerDelete(s) && Enabled(s, Inner(e))
    ensures NoInnerDelete(Do(s, Inner(e)))
  {
  }

  lemma StepKeepsInv(s: State, e: Event)
    requires Inv(s) && Enabled(s, e)
    ensures Inv(Do(s, e))
  {
    match e {
      case Outer(o) =>
        W.StepKeepsInv(s.outer, o);
        OuterKeepsNested(s, o);
      case Inner(i) =>
        W.StepKeepsInv(s.inner, i);
        InnerKeepsNested(s, i);
        InnerSendsNoDelete(s, i);
    }
  }

  // ---- whole runs ----

  ghost predicate Possible(s: State, events: seq<Event>)
    decreases |events|
  {
    events == [] || (Enabled(s, events[0]) && Possible(Do(s, events[0]), events[1..]))
  }

  function Run(s: State, events: seq<Event>): State
    requires Possible(s, events)
    decreases |events|
  {
    if events == [] then s else Run(Do(s, events[0]), events[1..])
  }

  lemma {:induction false} RunKeepsInv(s: State, events: seq<Event>)
    requires Inv(s) && Possible(s, events)
    ensures Inv(Run(s, events))
    decreases |events|
  {
    if events != [] {
      StepKeepsInv(s, events[0]);
      RunKeepsInv(Do(s, events[0]), events[1..]);
    }
  }

  lemma ReachedIsOk(events: seq<Event>)
    requires Possible(INIT, events)
    ensures Inv(Run(INIT, events))
  {
    W.InitialIsOk(false);
    W.InitialIsOk(true);
    RunKeepsInv(INIT, events);
  }

  function Project(events: seq<Event>, outer: bool): seq<W.Event> {
    if events == [] then []
    else (if events[0].Outer? == outer then [events[0].e] else []) + Project(events[1..], outer)
  }

  lemma {:induction false} LayersRun(s: State, events: seq<Event>, outer: bool)
    requires Possible(s, events)
    ensures var layer := if outer then s.outer else s.inner;
            var end := if outer then Run(s, events).outer else Run(s, events).inner;
            W.Possible(layer, Project(events, outer)) && W.Run(layer, Project(events, outer)) == end
    decreases |events|
  {
    if events != [] {
      LayersRun(Do(s, events[0]), events[1..], outer);
      var rest := Project(events[1..], outer);
      assert ([events[0].e] + rest)[1..] == rest;
      assert [] + rest == rest;
    }
  }

  /** Each layer by itself runs as a session wrapper does, so all that `SessionWrapper` proves holds of both. */
  lemma LayersAreWrappers(events: seq<Event>)
    requires Possible(INIT, events)
    ensures W.Reachable(false, Run(INIT, events).outer) && W.Reachable(true, Run(INIT, events).inner)
  {
    LayersRun(INIT, events, true);
    LayersRun(INIT, events, false);
  }

  /** Whenever the managed session is idle so is its serializer, with its gate's token back in place. */
  lemma InnerIsIdleWithOuter(events: seq<Event>)
    requires Possible(INIT, events) && Run(INIT, events).outer.group.active == 0
    ensures var s := Run(INIT, events);
            && s.inner.group.active == 0 && s.inner.token == 1
            && forall j :: j in s.inner.jobs ==> s.inner.jobs[j].place == W.Gone
  {
    ReachedIsOk(events);
    IdleTogether(Run(INIT, events));
  }

  lemma IdleTogether(s: State)
    requires Inv(s) && s.outer.group.active == 0
    ensures s.inner.group.active == 0 && s.inner.token == 1
    ensures forall j :: j in s.inner.jobs ==> s.inner.jobs[j].place == W.Gone
  {
    CountNone(s.outer.jobs, W.Active);
    CountNone(s.inner.jobs, W.Active);
    CountNone(s.inner.jobs, W.HasGate);
  }

  /** Both wrappers are closed and nothing begun through either is running. */
  ghost predicate AllQuiet(s: State) {
    W.Quiet(s.outer) && W.Quiet(s.inner)
  }

  /** Whoever may send the DELETE finds both layers quiet, and it is the managed session that sends it. */
  lemma DeleteOnlyWhenAllQuiet(events: seq<Event>, c: W.Closer)
    requires Possible(INIT, events) && c in Run(INIT, events).outer.closers
             && W.Owns(Run(INIT, events).outer.closers[c])
    ensures AllQuiet(Run(INIT, events)) && Run(INIT, events).inner.sent == 0
  {
    ReachedIsOk(events);
    var s := Run(INIT, events);
    assert W.CloseOk(s.outer) && W.StopOk(s.outer);
    CountNone(s.outer.jobs, W.Active);
    IdleTogether(s);
  }

  predicate Begins(e: Event) {
    e.e.Begin?
  }

  /** From then on nothing begins in either layer. */
  lemma {:induction false} AllQuietIsForGood(s: State, events: seq<Event>)
    requires Inv(s) && AllQuiet(s) && Possible(s, events)
    ensures AllQuiet(Run(s, events)) && forall e :: e in events ==> !Begins(e)
    decreases |events|
  {
    if events != [] {
      StepKeepsInv(s, events[0]);
      match events[0] {
        case Outer(o) => W.StepKeepsQuiet(s.outer, o);
        case Inner(i) => W.StepKeepsQuiet(s.inner, i);
      }
      AllQuietIsForGood(Do(s, events[0]), events[1..]);
    }
  }

  /** And a DELETE that succeeded is the last one. */
  lemma {:induction false} NoDeleteAfterSuccess(s: State, events: seq<Event>)
    requires Inv(s) && s.outer.closeComplete && Possible(s, events)
    ensures var d := Run(s, events); d.outer.closeComplete && d.outer.sent == s.outer.sent && d.inner.sent == 0
    decreases |events|
  {
    if events != [] {
      StepKeepsInv(s, events[0]);
      if events[0].Outer? {
        W.StepSendsNothing(s.outer, events[0].e);
      }
      NoDeleteAfterSuccess(Do(s, events[0]), events[1..]);
    }
  }

  lemma {:induction false} RunUpTo(s: State, events: seq<Event>, n: nat)
    requires Possible(s, events) && n < |events|
    ensures Possible(s, events[..n]) && Enabled(Run(s, events[..n]), events[n])
    ensures Possible(s, events[..n + 1]) && Run(s, events[..n + 1]) == Do(Run(s, events[..n]), events[n])
    decreases n
  {
    var front, more := events[..n], events[..n + 1];
    if n == 0 {
      assert more[1..] == [];
    } else {
      RunUpTo(Do(s, events[0]), events[1..], n - 1);
      assert front[1..] == events[1..][..n - 1] && more[1..] == events[1..][..n];
    }
  }

  lemma {:induction false} OuterSteps(events: seq<Event>, e: W.Event)
    ensures e in Project(events, true) <==> Outer(e) in events
  {
    if events != [] {
      OuterSteps(events[1..], e);
      assert forall x :: x in events <==> x == events[0] || x in events[1..];
    }
  }

  lemma SuccessIsRecorded(events: seq<Event>, e: W.Event)
    requires Possible(INIT, events) && Outer(e) in events && e.Answer? && e.ok
    ensures Run(INIT, events).outer.closeComplete
  {
    var steps := Project(events, true);
    LayersRun(INIT, events, true);
    OuterSteps(events, e);
    var k :| 0 <= k < |steps| && steps[k] == e;
    W.SuccessIsRecorded(false, steps, |steps|);
    assert steps[..|steps|] == steps;
  }

  lemma ClosedSendsNothing(s: State, e: Event)
    requires W.CloseOk(s.outer) && NoInnerDelete(s) && s.outer.closeComplete && Enabled(s, e)
    ensures !e.e.Send?
    ensures e.Outer? && e.e.Decide? ==> e.e.c !in Do(s, e).outer.closers
  {
  }

  /**
   After the managed session's close was answered with success neither layer sends a DELETE in that run, and later
   closers of the managed session go home.
   */
  lemma NoSendAfterSuccess(events: seq<Event>, i: nat, j: nat)
    requires Possible(INIT, events) && i < j < |events|
    requires events[i].Outer? && events[i].e.Answer? && events[i].e.ok
    ensures !events[j].e.Send?
    ensures Possible(INIT, events[..j + 1])
    ensures events[j].Outer? && events[j].e.Decide? ==> events[j].e.c !in Run(INIT, events[..j + 1]).outer.closers
  {
    RunUpTo(INIT, events, j);
    ReachedIsOk(events[..j]);
    assert events[..j][i] == Outer(events[i].e);
    SuccessIsRecorded(events[..j], events[i].e);
    ClosedSendsNothing(Run(INIT, events[..j]), events[j]);
  }

  // ---- nobody waits in vain ----

  predicate BeforeIdle(stage: W.Stage) {
    stage in {W.Arriving, W.Stopping, W.Waiting}
  }

  /** The serializer's wait for idleness begins only when the managed session's is on. */
  ghost predicate ClosersNested(s: State) {
    forall c :: c in s.inner.closers && c in s.outer.closers && BeforeIdle(s.outer.closers[c]) ==>
      BeforeIdle(s.inner.closers[c])
  }

  /** A closer arrives before the wait for idleness and gets past it by one step only. */
  lemma StagesMove(s: W.State, e: W.Event, c: W.Closer)
    requires W.Enabled(s, e) && c in W.Do(s, e).closers
    ensures c !in s.closers ==> e == W.Arrive(c) && W.Do(s, e).closers[c] == W.Arriving
    ensures c in s.closers && BeforeIdle(W.Do(s, e).closers[c]) ==> BeforeIdle(s.closers[c])
    ensures c in s.closers && BeforeIdle(s.closers[c]) && !BeforeIdle(W.Do(s, e).closers[c]) ==> e == W.GrabIdle(c)
  {
  }

  lemma StepKeepsClosersNested(s: State, e: Event)
    requires ClosersNested(s) && Enabled(s, e)
    ensures ClosersNested(Do(s, e))
  {
    var d := Do(s, e);
    forall c | c in d.inner.closers && c in d.outer.closers && BeforeIdle(d.outer.closers[c])
      ensures BeforeIdle(d.inner.closers[c])
    {
      match e {
        case Outer(o) => StagesMove(s.outer, o, c);
        case Inner(i) => StagesMove(s.inner, i, c);
      }
    }
  }

  lemma {:induction false} RunKeepsClosersNested(s: State, events: seq<Event>)
    requires ClosersNested(s) && Possible(s, events)
    ensures ClosersNested(Run(s, events))
    decreases |events|
  {
    if events != [] {
      StepKeepsClosersNested(s, events[0]);
      RunKeepsClosersNested(Do(s, events[0]), events[1..]);
    }
  }

  /** As in each layer; that the serializer begins to close is part of what a closer of the managed session does. */
  predicate BringsOn(s: State, e: Event) {
    match e
    case Outer(o) => W.BringsOn(s.outer, o)
    case Inner(i) => i.Arrive? || W.BringsOn(s.inner, i)
  }

  /** A job of the managed session can go on, or it waits for the serializer and there someone can. */
  lemma ManagedJobGoesOn(s: State, j: W.JobId) returns (e: Event)
    requires Inv(s) && j in s.outer.jobs && s.outer.jobs[j].place != W.Gone
    ensures Enabled(s, e) && BringsOn(s, e)
  {
    if InnerIsOver(s, j) {
      var o := W.JobGoesOn(s.outer, j);
      e := Outer(W.NextOfJob(s.outer, j));
    } else {
      var o := W.JobGoesOn(s.inner, j);
      e := Inner(W.NextOfJob(s.inner, o));
    }
  }

  /** The serializer's part of a close, up to where it waits for idleness. */
  lemma InnerStopGoesOn(s: State, c: W.Closer) returns (e: Event)
    requires Inv(s) && W.TodoOk(s.inner) && c in s.inner.closers
             && (s.inner.closers[c] == W.Arriving || s.inner.closers[c] == W.Stopping)
    ensures Enabled(s, e) && BringsOn(s, e)
  {
    var i := W.CloserGoesOn(s.inner, c);
    e := Inner(i);
  }

  lemma ManagedStopperGoesOn(s: State, c: W.Closer) returns (e: Event)
    requires Inv(s) && ClosersNested(s) && W.TodoOk(s.outer) && W.TodoOk(s.inner)
    requires W.CloserAt(s.outer, c, W.Stopping)
    ensures Enabled(s, e) && BringsOn(s, e)
  {
    if s.outer.todo != {} {
      var j :| j in s.outer.todo;
      if W.IsAt(s.outer, j, W.Gone) {
        e := Outer(W.StreamClosed(c, j));
      } else {
        e := ManagedJobGoesOn(s, j);
      }
    } else if c !in s.inner.closers {
      e := Inner(W.Arrive(c));
    } else if s.inner.closers[c] == W.Waiting {
      e := Outer(W.Stopped(c));
    } else {
      e := InnerStopGoesOn(s, c);
    }
  }

  lemma ManagedWatcherGoesOn(s: State, c: W.Closer) returns (e: Event)
    requires Inv(s) && W.TodoOk(s.inner) && c in s.outer.closers && s.outer.closers[c].Watching?
    ensures Enabled(s, e) && BringsOn(s, e)
  {
    if s.outer.group.active > 0 {
      CountNone(s.outer.jobs, W.Active);
      var j :| j in s.outer.jobs && W.Active(s.outer.jobs[j]);
      e := ManagedJobGoesOn(s, j);
    } else {
      e := IdleWatcherGoesOn(s, c);
    }
  }

  lemma IdleWatcherGoesOn(s: State, c: W.Closer) returns (e: Event)
    requires Inv(s) && W.TodoOk(s.inner) && c in s.outer.closers && s.outer.closers[c].Watching?
    requires s.outer.group.active == 0
    ensures Enabled(s, e) && BringsOn(s, e)
  {
    IdleTogether(s);
    if c !in s.inner.closers {
      e := Inner(W.Arrive(c));
    } else {
      match s.inner.closers[c]
      case Waiting => e := Inner(W.GrabIdle(c));
      case Watching(_) => e := Inner(W.SeeIdle(c));
      case Deciding => e := Outer(W.SeeIdle(c));
      case _ => e := InnerStopGoesOn(s, c);
    }
  }

  lemma ManagedCloserGoesOn(s: State, c: W.Closer) returns (e: Event)
    requires Inv(s) && ClosersNested(s) && W.TodoOk(s.outer) && W.TodoOk(s.inner) && c in s.outer.closers
    ensures Enabled(s, e) && BringsOn(s, e)
  {
    match s.outer.closers[c]
    case Arriving =>
      if s.outer.stopOnce.Running? {
        e := ManagedStopperGoesOn(s, s.outer.stopOnce.stopper);
      } else {
        e := Outer(if s.outer.stopOnce == W.NotRun then W.Stop(c) else W.PassOnce(c));
      }
    case Stopping => e := ManagedStopperGoesOn(s, c);
    case Waiting => e := Outer(W.GrabIdle(c));
    case Watching(_) => e := ManagedWatcherGoesOn(s, c);
    case Deciding => e := Outer(W.Decide(c));
    case Calling => e := Outer(W.Send(c));
    case Sent => e := Outer(W.Answer(c, true));
    case Joining => e := Outer(W.Return(c));
  }

  /**
   The two layers never wait for each other: while a job of the managed session is not gone or a closer has not come
   back, someone can go on without anyone being cancelled.
   */
  lemma NoDeadlock(events: seq<Event>) returns (e: Event)
    requires Possible(INIT, events)
    requires var s := Run(INIT, events).outer;
             s.closers != map[] || exists j :: j in s.jobs && s.jobs[j].place != W.Gone
    ensures Enabled(Run(INIT, events), e) && BringsOn(Run(INIT, events), e)
  {
    var s := Run(INIT, events);
    ReachedIsOk(events);
    LayersAreWrappers(events);
    W.ReachableTodo(false, s.outer);
    W.ReachableTodo(true, s.inner);
    RunKeepsClosersNested(INIT, events);
    if s.outer.closers != map[] {
      var c :| c in s.outer.closers;
      e := ManagedCloserGoesOn(s, c);
    } else {
      var j :| j in s.outer.jobs && s.outer.jobs[j].place != W.Gone;
      e := ManagedJobGoesOn(s, j);
    }
  }
}
