/**
 A managed session's heartbeat: the runner that publishes into a one-slot channel and never blocks, the
 monitor that turns events into health, and Close. A step is one channel operation, one look at the health
 or one change of it.
 */
module Heartbeat {
  import opened Text

  datatype Health = Healthy | Degraded | Expired | Closed

  /** One heartbeat's outcome as published; index is its place among all published ones, from 1. */
  datatype Beat = Beat(ok: bool, expired: bool, consecutiveFailures: nat, index: nat)

  /** The three selects of publishHeartbeatEvent. */
  datatype Runner = Idle | Offering(beat: Beat) | Draining(beat: Beat) | Replacing(beat: Beat) | Exited

  datatype Monitor = Receiving | Handling(beat: Beat) | Recovering | Done

  datatype Closer = NotClosing | StoppingRunner | AwaitingMonitor | Finished

  datatype State = State(
    threshold: nat,
    runner: Runner,
    consecutiveFailures: nat,
    buffer: Option<Beat>,
    monitor: Monitor,
    health: Health,
    closer: Closer,
    ended: bool,          // the runner's context
    results: seq<bool>,   // the outcomes published so far
    newest: Option<Beat>, // the last of them, as an event
    handled: Option<Beat>, // the last event the monitor took
    taken: seq<Beat>,      // all events the monitor took
    dropped: set<nat>)     // the indices of those that a publish threw out of the channel

  function Initial(threshold: nat): State {
    State(threshold, Idle, 0, None, Receiving, Healthy, NotClosing, false, [], None, None, [], {})
  }

  datatype Event =
    | EndContext
    | Succeed                // a heartbeat was answered
    | Fail(expired: bool)    // it was not, and the context is alive
    | Exit                   // the context ended before or during a heartbeat
    | Offer | Drain | Replace
    | Receive
    | ChannelClosed
    | Handle | Recover
    | StartClose | RunnerStopped | MonitorStopped

  predicate Enabled(s: State, e: Event) {
    match e
    case EndContext => true
    case Succeed => s.runner == Idle
    case Fail(_) => s.runner == Idle && !s.ended
    case Exit => s.runner == Idle && s.ended
    case Offer => s.runner.Offering?
    case Drain => s.runner.Draining?
    case Replace => s.runner.Replacing?
    case Receive => s.monitor == Receiving && s.buffer.Some?
    case ChannelClosed => s.monitor == Receiving && s.buffer.None? && s.runner == Exited
    case Handle => s.monitor.Handling?
    case Recover => s.monitor == Recovering
    case StartClose => s.closer == NotClosing
    case RunnerStopped => s.closer == StoppingRunner && s.runner == Exited
    case MonitorStopped => s.closer == AwaitingMonitor && s.monitor == Done
  }

  function AfterPublish(beat: Beat): Runner {
    if beat.expired then Exited else Idle
  }

  /** setHealth: a closed session keeps its health. */
  function Set(health: Health, next: Health): Health {
    if health == Closed then health else next
  }

  function Publish(s: State, ok: bool, expired: bool, failures: nat): State {
    var beat := Beat(ok, expired, failures, |s.results| + 1);
    s.(runner := Offering(beat), consecutiveFailures := failures, results := s.results + [ok], newest := Some(beat))
  }

  function Do(s: State, e: Event): State
    requires Enabled(s, e)
  {
    match e
    case EndContext => s.(ended := true)
    case Succeed => Publish(s, true, false, 0)
    case Fail(expired) => Publish(s, false, expired, s.consecutiveFailures + 1)
    case Exit => s.(runner := Exited)
    case Offer =>
      if s.buffer.None? then s.(buffer := Some(s.runner.beat), runner := AfterPublish(s.runner.beat))
      else s.(runner := Draining(s.runner.beat))
    case Drain =>
      s.(buffer := None, runner := Replacing(s.runner.beat),
         dropped := if s.buffer.Some? then s.dropped + {s.buffer.value.index} else s.dropped)
    case Replace =>
      s.(buffer := if s.buffer.None? then Some(s.runner.beat) else s.buffer, runner := AfterPublish(s.runner.beat))
    case Receive =>
      s.(monitor := Handling(s.buffer.value), handled := s.buffer, taken := s.taken + [s.buffer.value], buffer := None)
    case ChannelClosed => s.(monitor := Done)
    case Handle =>
      var beat := s.monitor.beat;
      if beat.ok then s.(monitor := if s.health == Degraded then Recovering else Receiving)
      else if beat.expired then s.(health := Set(s.health, Expired), monitor := Receiving)
      else if beat.consecutiveFailures >= s.threshold then s.(health := Set(s.health, Degraded), monitor := Receiving)
      else s.(monitor := Receiving)
    case Recover => s.(health := Set(s.health, Healthy), monitor := Receiving)
    case StartClose => s.(closer := StoppingRunner, ended := true)
    case RunnerStopped => s.(closer := AwaitingMonitor)
    case MonitorStopped => s.(closer := Finished, health := Closed)
  }

  /** The beat tells the truth about the results: so many failures directly in front of it, and no more. */
  ghost predicate Truthful(results: seq<bool>, beat: Beat) {
    && 1 <= beat.index <= |results| && beat.consecutiveFailures <= beat.index
    && results[beat.index - 1] == beat.ok
    && (beat.ok <==> beat.consecutiveFailures == 0) && (beat.ok ==> !beat.expired)
    && (forall i :: beat.index - beat.consecutiveFailures <= i < beat.index ==> !results[i])
    && (beat.consecutiveFailures < beat.index ==> results[beat.index - beat.consecutiveFailures - 1])
  }

  predicate MidPublish(s: State) {
    s.runner.Offering? || s.runner.Draining? || s.runner.Replacing?
  }

  /** Nothing before the newest beat had expired, and the runner stops at one that has. */
  ghost predicate RunnerOk(s: State) {
    && (s.newest.None? <==> s.results == [])
    && (s.newest.None? ==> s.consecutiveFailures == 0)
    && (s.newest.Some? ==> Truthful(s.results, s.newest.value) && s.newest.value.index == |s.results|
                           && s.newest.value.consecutiveFailures == s.consecutiveFailures)
    && (MidPublish(s) ==> s.newest == Some(s.runner.beat))
    && (s.newest.Some? && s.newest.value.expired ==> s.runner != Idle)
    && (s.runner.Replacing? ==> s.buffer.None?)
  }

  /** Where the newest beat is when it is not being published: waiting in the channel or with the monitor. */
  ghost predicate DeliveryOk(s: State) {
    && (!MidPublish(s) && s.buffer.Some? ==> s.buffer == s.newest)
    && (!MidPublish(s) && s.buffer.None? ==> s.handled == s.newest)
    && (s.buffer.Some? ==>
          && Truthful(s.results, s.buffer.value)
          && (MidPublish(s) ==> s.buffer.value.index < |s.results|))
    && (s.handled.Some? ==>
          && Truthful(s.results, s.handled.value)
          && (MidPublish(s) ==> s.handled.value.index < |s.results|))
    && (s.handled.Some? && s.buffer.Some? ==> s.handled.value.index < s.buffer.value.index)
    && (s.handled.Some? && s.handled.value.expired ==> s.handled == s.newest && s.buffer.None?)
    && (s.buffer.Some? && s.buffer.value.expired ==> s.buffer == s.newest && !MidPublish(s))
    && (s.monitor.Handling? ==> s.handled == Some(s.monitor.beat))
    && (s.monitor == Recovering ==> s.handled.Some? && s.handled.value.ok)
  }

  /** What the last event the monitor is done with makes of the health. */
  ghost predicate HealthOk(s: State) {
    && (s.health == Closed <==> s.closer == Finished)
    && (s.closer == AwaitingMonitor || s.closer == Finished ==> s.runner == Exited)
    && (s.closer == Finished ==> s.monitor == Done)
    && (s.monitor == Done ==> s.runner == Exited && s.buffer.None?)
    && (s.health == Expired ==> s.handled.Some? && s.handled.value.expired)
    && (s.monitor == Recovering ==> s.health == Degraded)
    && (s.health != Closed && (s.monitor == Receiving || s.monitor == Done) && s.handled.Some? ==>
          && (s.handled.value.ok ==> s.health == Healthy)
          && (s.handled.value.expired ==> s.health == Expired)
          && (!s.handled.value.ok && s.handled.value.consecutiveFailures >= s.threshold && !s.handled.value.expired ==>
                s.health == Degraded))
    && (s.handled.None? ==> s.health == Healthy || s.health == Closed)
  }

  ghost predicate Inv(s: State) {
    s.threshold > 0 && RunnerOk(s) && DeliveryOk(s) && HealthOk(s)
  }

  lemma TruthGrows(results: seq<bool>, beat: Beat, ok: bool)
    requires Truthful(results, beat)
    ensures Truthful(results + [ok], beat)
  {
  }

  lemma PublishIsTruthful(s: State, ok: bool, expired: bool)
    requires RunnerOk(s) && s.runner == Idle && (ok ==> !expired)
    ensures var failures := if ok then 0 else s.consecutiveFailures + 1;
            Truthful(s.results + [ok], Beat(ok, expired, failures, |s.results| + 1))
  {
  }

  lemma OlderStayTrue(s: State, e: Event)
    requires Inv(s) && Enabled(s, e) && (e.Succeed? || e.Fail?)
    ensures var d := Do(s, e);
            && (d.buffer.Some? ==> Truthful(d.results, d.buffer.value) && d.buffer.value.index < |d.results|)
            && (d.handled.Some? ==> Truthful(d.results, d.handled.value) && d.handled.value.index < |d.results|)
  {
    if s.buffer.Some? {
      TruthGrows(s.results, s.buffer.value, e.Succeed?);
    }
    if s.handled.Some? {
      TruthGrows(s.results, s.handled.value, e.Succeed?);
    }
  }

  lemma BeatKeepsInv(s: State, e: Event)
    requires Inv(s) && Enabled(s, e) && (e.Succeed? || e.Fail?)
    ensures Inv(Do(s, e))
  {
    PublishIsTruthful(s, e.Succeed?, e.Fail? && e.expired);
    OlderStayTrue(s, e);
  }

  predicate Publishing(e: Event) {
    e.Offer? || e.Drain? || e.Replace?
  }

  predicate Monitoring(e: Event) {
    e.Receive? || e.Recover?
  }

  lemma PublishingKeepsInv(s: State, e: Event)
    requires Inv(s) && Enabled(s, e) && Publishing(e)
    ensures Inv(Do(s, e))
  {
  }

  lemma MonitoringKeepsInv(s: State, e: Event)
    requires Inv(s) && Enabled(s, e) && Monitoring(e)
    ensures Inv(Do(s, e))
  {
  }

  lemma HandleKeepsInv(s: State)
    requires Inv(s) && Enabled(s, Handle)
    ensures Inv(Do(s, Handle))
  {
    var beat := s.monitor.beat;
    assert s.handled == Some(beat) && Truthful(s.results, beat) && s.health != Closed;
  }

  predicate Closes(e: Event) {
    e.StartClose? || e.RunnerStopped? || e.MonitorStopped?
  }

  predicate Ends(e: Event) {
    e.EndContext? || e.Exit? || e.ChannelClosed?
  }

  lemma EndingKeepsInv(s: State, e: Event)
    requires Inv(s) && Enabled(s, e) && Ends(e)
    ensures Inv(Do(s, e))
  {
  }

  lemma ClosingKeepsInv(s: State, e: Event)
    requires Inv(s) && Enabled(s, e) && Closes(e)
    ensures Inv(Do(s, e))
  {
    SameDelivery(s, Do(s, e));
  }

  /** The close changes neither what is published nor where it is. */
  lemma SameDelivery(s: State, d: State)
    requires RunnerOk(s) && DeliveryOk(s)
    requires d.runner == s.runner && d.consecutiveFailures == s.consecutiveFailures && d.buffer == s.buffer
             && d.monitor == s.monitor
    requires d.results == s.results && d.newest == s.newest && d.handled == s.handled
    ensures RunnerOk(d) && DeliveryOk(d)
  {
  }

  lemma StepKeepsInv(s: State, e: Event)
    requires Inv(s) && Enabled(s, e)
    ensures Inv(Do(s, e))
  {
    if e.Succeed? || e.Fail? {
      BeatKeepsInv(s, e);
    } else if Publishing(e) {
      PublishingKeepsInv(s, e);
    } else if e.Handle? {
      HandleKeepsInv(s);
    } else if Monitoring(e) {
      MonitoringKeepsInv(s, e);
    } else if Closes(e) {
      ClosingKeepsInv(s, e);
    } else {
      EndingKeepsInv(s, e);
    }
  }

  // ---- what became of every event ----

  /** A failure that makes a session DEGRADED. */
  predicate IsAlarm(threshold: nat, beat: Beat) {
    !beat.ok && !beat.expired && beat.consecutiveFailures >= threshold
  }

  /** What the events taken say, the latest decisive one deciding: a success or an alarm. */
  function Verdict(threshold: nat, taken: seq<Beat>): Health {
    if taken == [] then Healthy
    else
      var last := taken[|taken| - 1];
      if last.ok then Healthy
      else if IsAlarm(threshold, last) then Degraded
      else Verdict(threshold, taken[..|taken| - 1])
  }

  /** The events taken are true and in order, and the last of them is the one handled last. */
  ghost predicate TakenOk(s: State) {
    && (forall i :: 0 <= i < |s.taken| ==> Truthful(s.results, s.taken[i]))
    && (forall i, j :: 0 <= i < j < |s.taken| ==> s.taken[i].index < s.taken[j].index)
    && s.handled == if s.taken == [] then None else Some(s.taken[|s.taken| - 1])
  }

  predicate WasTaken(taken: seq<Beat>, k: nat) {
    exists i :: 0 <= i < |taken| && taken[i].index == k
  }

  /** In the channel or on its way there. */
  predicate UnderWay(s: State, k: nat) {
    (s.buffer.Some? && s.buffer.value.index == k) || (MidPublish(s) && k == |s.results|)
  }

  /** Every event published is in exactly one place. */
  ghost predicate Accounted(s: State) {
    && (forall k :: 1 <= k <= |s.results| ==> UnderWay(s, k) || WasTaken(s.taken, k) || k in s.dropped)
    && (forall k :: k in s.dropped ==> 1 <= k <= |s.results| && !WasTaken(s.taken, k) && !UnderWay(s, k))
  }

  /** Until it is EXPIRED or CLOSED the health is the verdict on the events done with. */
  ghost predicate VerdictOk(s: State) {
    s.health == Healthy || s.health == Degraded ==>
      if s.monitor.Handling? then s.taken != [] && s.health == Verdict(s.threshold, s.taken[..|s.taken| - 1])
      else if s.monitor == Recovering then s.taken != [] && s.taken[|s.taken| - 1].ok
      else s.health == Verdict(s.threshold, s.taken)
  }

  ghost predicate LogOk(s: State) {
    TakenOk(s) && Accounted(s) && VerdictOk(s)
  }

  lemma BeatKeepsLog(s: State, e: Event)
    requires Inv(s) && LogOk(s) && Enabled(s, e) && (e.Succeed? || e.Fail?)
    ensures LogOk(Do(s, e))
  {
    var d := Do(s, e);
    forall i | 0 <= i < |s.taken| ensures Truthful(d.results, s.taken[i]) {
      TruthGrows(s.results, s.taken[i], e.Succeed?);
    }
    forall k | 1 <= k <= |d.results| ensures UnderWay(d, k) || WasTaken(d.taken, k) || k in d.dropped {
      if k <= |s.results| {
        assert UnderWay(s, k) || WasTaken(s.taken, k) || k in s.dropped;
      }
    }
    forall k | k in d.dropped ensures 1 <= k <= |d.results| && !WasTaken(d.taken, k) && !UnderWay(d, k) {
      assert !UnderWay(s, k);
    }
  }

  lemma PublishingKeepsLog(s: State, e: Event)
    requires Inv(s) && LogOk(s) && Enabled(s, e) && Publishing(e)
    ensures LogOk(Do(s, e))
  {
    PublishingKeepsAccounts(s, e);
    PublishingKeepsTaken(s, e);
  }

  lemma PublishingKeepsTaken(s: State, e: Event)
    requires TakenOk(s) && VerdictOk(s) && Enabled(s, e) && Publishing(e)
    ensures TakenOk(Do(s, e)) && VerdictOk(Do(s, e))
  {
    assert Do(s, e).taken == s.taken && Do(s, e).handled == s.handled && Do(s, e).monitor == s.monitor;
  }

  lemma PublishingKeepsAccounts(s: State, e: Event)
    requires RunnerOk(s) && DeliveryOk(s) && TakenOk(s) && Accounted(s) && Enabled(s, e) && Publishing(e)
    ensures Accounted(Do(s, e))
  {
    var d := Do(s, e);
    assert s.runner.beat.index == |s.results|;
    forall k | 1 <= k <= |d.results| ensures UnderWay(d, k) || WasTaken(d.taken, k) || k in d.dropped {
      assert UnderWay(s, k) || WasTaken(s.taken, k) || k in s.dropped;
    }
    if s.buffer.Some? {
      BufferedIsUntaken(s);
    }
    forall k | k in d.dropped ensures 1 <= k <= |d.results| && !WasTaken(d.taken, k) && !UnderWay(d, k) {
      assert k in s.dropped ==> !UnderWay(s, k);
    }
  }

  /** The event in the channel comes after all that were taken. */
  lemma BufferedIsUntaken(s: State)
    requires DeliveryOk(s) && TakenOk(s) && s.buffer.Some?
    ensures !WasTaken(s.taken, s.buffer.value.index)
    ensures forall i :: 0 <= i < |s.taken| ==> s.taken[i].index < s.buffer.value.index
  {
    forall i | 0 <= i < |s.taken| ensures s.taken[i].index < s.buffer.value.index {
      assert s.taken[i].index <= s.taken[|s.taken| - 1].index;
    }
  }

  lemma ReceiveKeepsLog(s: State)
    requires Inv(s) && LogOk(s) && Enabled(s, Receive)
    ensures LogOk(Do(s, Receive))
  {
    ReceiveKeepsTaken(s);
    ReceiveKeepsAccounts(s);
    assert (s.taken + [s.buffer.value])[..|s.taken|] == s.taken;
  }

  lemma ReceiveKeepsTaken(s: State)
    requires DeliveryOk(s) && TakenOk(s) && Enabled(s, Receive)
    ensures TakenOk(Do(s, Receive))
  {
    BufferedIsUntaken(s);
    assert Do(s, Receive).taken[|s.taken|] == s.buffer.value;
  }

  lemma ReceiveKeepsAccounts(s: State)
    requires DeliveryOk(s) && TakenOk(s) && Accounted(s) && Enabled(s, Receive)
    ensures Accounted(Do(s, Receive))
  {
    var d := Do(s, Receive);
    forall k | 1 <= k <= |d.results| ensures UnderWay(d, k) || WasTaken(d.taken, k) || k in d.dropped {
      assert UnderWay(s, k) || WasTaken(s.taken, k) || k in s.dropped;
      TakenGrows(s.taken, s.buffer.value, k);
    }
    forall k | k in d.dropped ensures 1 <= k <= |d.results| && !WasTaken(d.taken, k) && !UnderWay(d, k) {
      assert !UnderWay(s, k) && !WasTaken(s.taken, k);
      TakenGrows(s.taken, s.buffer.value, k);
    }
  }

  lemma TakenGrows(taken: seq<Beat>, beat: Beat, k: nat)
    ensures WasTaken(taken + [beat], k) <==> WasTaken(taken, k) || beat.index == k
  {
    var more := taken + [beat];
    assert more[|taken|] == beat;
    if WasTaken(taken, k) {
      var i :| 0 <= i < |taken| && taken[i].index == k;
      assert more[i].index == k;
    }
  }

  lemma MonitorKeepsLog(s: State, e: Event)
    requires Inv(s) && LogOk(s) && Enabled(s, e) && (e.Handle? || e.Recover?)
    ensures LogOk(Do(s, e))
  {
    SamePlaces(s, Do(s, e));
    if e.Handle? {
      HandleKeepsVerdict(s);
    } else {
      RecoverKeepsVerdict(s);
    }
  }

  lemma LastTaken(s: State)
    requires s.taken != []
    ensures var front, last := s.taken[..|s.taken| - 1], s.taken[|s.taken| - 1];
            Verdict(s.threshold, s.taken) ==
            if last.ok then Healthy else if IsAlarm(s.threshold, last) then Degraded else Verdict(s.threshold, front)
  {
  }

  lemma HandleKeepsVerdict(s: State)
    requires TakenOk(s) && VerdictOk(s) && DeliveryOk(s) && Enabled(s, Handle)
    ensures VerdictOk(Do(s, Handle))
  {
    assert s.handled == Some(s.monitor.beat);
    LastTaken(s);
  }

  lemma RecoverKeepsVerdict(s: State)
    requires TakenOk(s) && VerdictOk(s) && DeliveryOk(s) && HealthOk(s) && Enabled(s, Recover)
    ensures VerdictOk(Do(s, Recover))
  {
    LastTaken(s);
  }

  lemma SamePlaces(s: State, d: State)
    requires TakenOk(s) && Accounted(s) && d.results == s.results && d.buffer == s.buffer
             && MidPublish(d) == MidPublish(s)
    requires d.taken == s.taken && d.dropped == s.dropped && d.handled == s.handled
    ensures TakenOk(d) && Accounted(d)
  {
    forall k ensures UnderWay(d, k) == UnderWay(s, k) {
    }
  }

  lemma StepKeepsLog(s: State, e: Event)
    requires Inv(s) && LogOk(s) && Enabled(s, e)
    ensures LogOk(Do(s, e))
  {
    if e.Succeed? || e.Fail? {
      BeatKeepsLog(s, e);
    } else if Publishing(e) {
      PublishingKeepsLog(s, e);
    } else if e.Receive? {
      ReceiveKeepsLog(s);
    } else if e.Handle? || e.Recover? {
      MonitorKeepsLog(s, e);
    } else {
      SamePlaces(s, Do(s, e));
    }
  }

  // ---- whole runs ----

  ghost predicate Possible(s: State, events: seq<Event>)
    decreases |events|
  {
    events == [] || (Enabled(s, events[0]) && Possible(Do(s, events[0]), events[1..]))
  }

  function Run(s: State, events: seq<Event>): State
    requires Possible(s, events)
    decreases |events|
  {
    if events == [] then s else Run(Do(s, events[0]), events[1..])
  }

  lemma {:induction false} RunKeepsInv(s: State, events: seq<Event>)
    requires Inv(s) && LogOk(s) && Possible(s, events)
    ensures Inv(Run(s, events)) && LogOk(Run(s, events))
    decreases |events|
  {
    if events != [] {
      StepKeepsInv(s, events[0]);
      StepKeepsLog(s, events[0]);
      RunKeepsInv(Do(s, events[0]), events[1..]);
    }
  }

  ghost predicate Reachable(threshold: nat, s: State) {
    exists events :: Possible(Initial(threshold), events) && Run(Initial(threshold), events) == s
  }

  lemma ReachableIsOk(threshold: nat, s: State)
    requires threshold > 0 && Reachable(threshold, s)
    ensures Inv(s) && LogOk(s)
  {
    var events :| Possible(Initial(threshold), events) && Run(Initial(threshold), events) == s;
    RunKeepsInv(Initial(threshold), events);
  }

  /**
   The newest event is never lost: outside of a publish it is in the channel or the monitor has it, and when
   the monitor stops it has seen the newest event of all.
   */
  lemma NewestIsDelivered(threshold: nat, s: State)
    requires threshold > 0 && Reachable(threshold, s) && s.results != []
    ensures s.newest.Some? && s.newest.value.index == |s.results|
    ensures !MidPublish(s) ==> s.buffer == s.newest || s.handled == s.newest
    ensures s.monitor == Done ==> s.handled == s.newest
  {
    ReachableIsOk(threshold, s);
  }

  /** A publish always ends with its own event in the channel: the last select never finds it full. */
  lemma PublishNeverDrops(threshold: nat, s: State)
    requires threshold > 0 && Reachable(threshold, s) && Enabled(s, Replace)
    ensures Do(s, Replace).buffer == Some(s.runner.beat)
  {
    ReachableIsOk(threshold, s);
  }

  /** Events reach the monitor in order. */
  lemma EventsInOrder(threshold: nat, s: State)
    requires threshold > 0 && Reachable(threshold, s) && Enabled(s, Receive) && s.handled.Some?
    ensures s.handled.value.index < Do(s, Receive).handled.value.index
  {
    ReachableIsOk(threshold, s);
  }

  predicate MayBecome(from: Health, to: Health) {
    from == to || (from, to) in {(Healthy, Degraded), (Degraded, Healthy), (Healthy, Expired), (Degraded, Expired),
                                 (Healthy, Closed), (Degraded, Closed), (Expired, Closed)}
  }

  /** Health moves between HEALTHY and DEGRADED until EXPIRED, EXPIRED only becomes CLOSED, CLOSED is final. */
  lemma HealthMoves(threshold: nat, s: State, e: Event)
    requires threshold > 0 && Reachable(threshold, s) && Enabled(s, e)
    ensures MayBecome(s.health, Do(s, e).health)
  {
    ReachableIsOk(threshold, s);
  }

  /** The n results up to place last are failures. */
  predicate FailedInARow(results: seq<bool>, last: nat, n: nat) {
    n <= last <= |results| && forall i :: last - n <= i < last ==> !results[i]
  }

  /** DEGRADED is entered only on an event that ends a row of at least threshold failed heartbeats. */
  lemma DegradedHasCause(threshold: nat, s: State, e: Event)
    requires threshold > 0 && Reachable(threshold, s) && Enabled(s, e)
    requires s.health != Degraded && Do(s, e).health == Degraded
    ensures s.handled.Some? && FailedInARow(s.results, s.handled.value.index, threshold)
  {
    ReachableIsOk(threshold, s);
    ThresholdStays(threshold, s);
  }

  lemma {:induction false} RunKeepsThreshold(s: State, events: seq<Event>)
    requires Possible(s, events)
    ensures Run(s, events).threshold == s.threshold
    decreases |events|
  {
    if events != [] {
      RunKeepsThreshold(Do(s, events[0]), events[1..]);
    }
  }

  lemma ThresholdStays(threshold: nat, s: State)
    requires Reachable(threshold, s)
    ensures s.threshold == threshold
  {
    var events :| Possible(Initial(threshold), events) && Run(Initial(threshold), events) == s;
    RunKeepsThreshold(Initial(threshold), events);
  }

  /** Alarm i has been taken and no success after it. */
  predicate StandingAlarm(threshold: nat, taken: seq<Beat>, i: int) {
    0 <= i < |taken| && IsAlarm(threshold, taken[i]) && forall j :: i < j < |taken| ==> !taken[j].ok
  }

  /** Between events the session is DEGRADED exactly when an alarm was taken and no success after it. */
  lemma HealthIsTheVerdict(threshold: nat, s: State)
    requires threshold > 0 && Reachable(threshold, s) && (s.monitor == Receiving || s.monitor == Done)
    requires s.health == Healthy || s.health == Degraded
    ensures s.health == Degraded <==> exists i :: StandingAlarm(threshold, s.taken, i)
  {
    ReachableIsOk(threshold, s);
    ThresholdStays(threshold, s);
    VerdictMeans(threshold, s.taken);
  }

  lemma {:induction false} VerdictMeans(threshold: nat, taken: seq<Beat>)
    ensures Verdict(threshold, taken) == Degraded <==> exists i :: StandingAlarm(threshold, taken, i)
    ensures Verdict(threshold, taken) != Degraded ==> Verdict(threshold, taken) == Healthy
  {
    if taken != [] {
      var front, last := taken[..|taken| - 1], taken[|taken| - 1];
      VerdictMeans(threshold, front);
      if IsAlarm(threshold, last) {
        assert StandingAlarm(threshold, taken, |taken| - 1);
      } else if !last.ok {
        forall i ensures StandingAlarm(threshold, front, i) <==> StandingAlarm(threshold, taken, i) {
        }
      }
    }
  }

  predicate AtRest(s: State) {
    !MidPublish(s) && s.buffer.None? && (s.monitor == Receiving || s.monitor == Done)
  }

  /**
   When runner and monitor are at rest: after a success healthy, after the threshold degraded, after an expiry
   expired.
   */
  lemma HealthAtRest(threshold: nat, s: State)
    requires threshold > 0 && Reachable(threshold, s) && s.results != [] && AtRest(s) && s.health != Closed
    ensures s.results[|s.results| - 1] ==> s.health == Healthy
    ensures s.newest.Some? && (s.newest.value.expired <==> s.health == Expired)
    ensures FailedInARow(s.results, |s.results|, threshold) && s.health != Expired ==> s.health == Degraded
    ensures s.health != Expired ==> (s.health == Degraded <==> exists i :: StandingAlarm(threshold, s.taken, i))
  {
    if s.health != Expired {
      HealthIsTheVerdict(threshold, s);
    }
    ReachableIsOk(threshold, s);
    ThresholdStays(threshold, s);
    var beat := s.newest.value;
    if beat.consecutiveFailures < threshold && threshold <= |s.results| && beat.consecutiveFailures < beat.index {
      assert s.results[beat.index - beat.consecutiveFailures - 1];
    }
  }

  // ---- closing ----

  lemma {:induction false} EndedStays(s: State, events: seq<Event>)
    requires s.ended && Possible(s, events)
    ensures Run(s, events).ended && forall e :: e in events ==> !e.Fail?
    decreases |events|
  {
    if events != [] {
      EndedStays(Do(s, events[0]), events[1..]);
      assert forall e :: e in events <==> e == events[0] || e in events[1..];
    }
  }

  /** From the start of Close on no failed heartbeat is counted: the runner's context has ended. */
  lemma {:induction false} NoFailureAfterClose(s: State, events: seq<Event>, i: nat, j: nat)
    requires Possible(s, events) && i < j < |events| && events[i] == StartClose
    ensures !events[j].Fail?
    decreases i
  {
    if i == 0 {
      EndedStays(Do(s, events[0]), events[1..]);
      assert events[j] in events[1..];
    } else {
      NoFailureAfterClose(Do(s, events[0]), events[1..], i - 1, j - 1);
    }
  }

  lemma {:induction false} ClosingHasEnded(s: State, events: seq<Event>)
    requires Possible(s, events) && (s.closer != NotClosing ==> s.ended)
    ensures Run(s, events).closer != NotClosing ==> Run(s, events).ended
    decreases |events|
  {
    if events != [] {
      ClosingHasEnded(Do(s, events[0]), events[1..]);
    }
  }

  /** What brings Close on: the runner's way out first, then the monitor's, then Close itself. */
  function NextForClose(s: State): Event {
    match s.runner
    case Idle => Exit
    case Offering(_) => Offer
    case Draining(_) => Drain
    case Replacing(_) => Replace
    case Exited =>
      if s.closer == StoppingRunner then RunnerStopped
      else
        match s.monitor
        case Receiving => if s.buffer.Some? then Receive else ChannelClosed
        case Handling(_) => Handle
        case Recovering => Recover
        case Done => MonitorStopped
  }

  /** A Close that has begun and is not over can always go on. */
  lemma CloseGoesOn(threshold: nat, s: State)
    requires threshold > 0 && Reachable(threshold, s) && s.closer != NotClosing && s.closer != Finished
    ensures s.ended && Enabled(s, NextForClose(s))
  {
    ReachableIsOk(threshold, s);
    var events :| Possible(Initial(threshold), events) && Run(Initial(threshold), events) == s;
    ClosingHasEnded(Initial(threshold), events);
  }

  // ---- when exactly a session is degraded ----

  /** a is the latest of the alarms taken. */
  ghost predicate LatestAlarm(threshold: nat, taken: seq<Beat>, a: Beat) {
    a in taken && IsAlarm(threshold, a) && forall b :: b in taken && IsAlarm(threshold, b) ==> b.index <= a.index
  }

  predicate SucceededAfter(results: seq<bool>, index: nat, k: nat) {
    index < k <= |results| && results[k - 1]
  }

  ghost predicate AllDroppedAfter(s: State, index: nat) {
    forall k :: SucceededAfter(s.results, index, k) ==> k in s.dropped
  }

  /** The latest alarm taken was followed by successes, and publishes threw every one of them out of the channel. */
  ghost predicate RecoveryLost(threshold: nat, s: State) {
    exists a ::
      && LatestAlarm(threshold, s.taken, a) && AllDroppedAfter(s, a.index)
      && exists k :: SucceededAfter(s.results, a.index, k)
  }

  lemma {:induction false} SomeAlarmIsLatest(threshold: nat, taken: seq<Beat>, i: int) returns (a: Beat)
    requires 0 <= i < |taken| && IsAlarm(threshold, taken[i])
    requires forall i, j :: 0 <= i < j < |taken| ==> taken[i].index < taken[j].index
    ensures LatestAlarm(threshold, taken, a)
  {
    var front, last := taken[..|taken| - 1], taken[|taken| - 1];
    assert forall b :: b in taken <==> b in front || b == last;
    if IsAlarm(threshold, last) {
      a := last;
    } else {
      a := SomeAlarmIsLatest(threshold, front, i);
    }
  }

  /** With a latest alarm, the verdict is DEGRADED exactly when no success was taken after it. */
  lemma VerdictByLatest(threshold: nat, taken: seq<Beat>, a: Beat)
    requires LatestAlarm(threshold, taken, a)
    requires forall i, j :: 0 <= i < j < |taken| ==> taken[i].index < taken[j].index
    ensures Verdict(threshold, taken) == Degraded <==> forall b :: b in taken && b.index > a.index ==> !b.ok
  {
    VerdictMeans(threshold, taken);
    var p :| 0 <= p < |taken| && taken[p] == a;
    if forall b :: b in taken && b.index > a.index ==> !b.ok {
      assert StandingAlarm(threshold, taken, p);
    }
    if i :| StandingAlarm(threshold, taken, i) {
      assert taken[i].index <= a.index;
      forall b | b in taken && b.index > a.index ensures !b.ok {
        var j :| 0 <= j < |taken| && taken[j] == b;
        assert i < j;
      }
    }
  }

  /** At rest what was not dropped was taken, so a success taken after a is one that was not dropped. */
  lemma TakenOrDropped(s: State, index: nat)
    requires TakenOk(s) && Accounted(s) && AtRest(s)
    ensures (forall b :: b in s.taken && b.index > index ==> !b.ok) <==> AllDroppedAfter(s, index)
  {
    if forall b :: b in s.taken && b.index > index ==> !b.ok {
      forall k | SucceededAfter(s.results, index, k) ensures k in s.dropped {
        assert !UnderWay(s, k);
        forall i | 0 <= i < |s.taken| ensures s.taken[i].index != k {
          assert Truthful(s.results, s.taken[i]);
          assert s.taken[i] in s.taken;
        }
      }
    }
    if AllDroppedAfter(s, index) {
      forall b | b in s.taken && b.index > index ensures !b.ok {
        var i :| 0 <= i < |s.taken| && s.taken[i] == b;
        assert Truthful(s.results, b) && WasTaken(s.taken, b.index);
        assert b.ok ==> SucceededAfter(s.results, index, b.index);
      }
    }
  }

  /** A row of failures up to the end that began with an alarm is long enough. */
  lemma AlarmStands(threshold: nat, s: State, a: Beat)
    requires TakenOk(s) && LatestAlarm(threshold, s.taken, a) && forall k :: !SucceededAfter(s.results, a.index, k)
    ensures FailedInARow(s.results, |s.results|, threshold)
  {
    assert Truthful(s.results, a);
    forall i | |s.results| - threshold <= i < |s.results| ensures !s.results[i] {
      assert !SucceededAfter(s.results, a.index, i + 1);
    }
  }

  /** At rest, a row of threshold failures up to the end makes the newest event an alarm, and it was taken. */
  lemma RowEndsInAlarm(threshold: nat, s: State)
    requires threshold > 0 && Inv(s) && LogOk(s) && s.threshold == threshold && AtRest(s)
             && (s.health == Healthy || s.health == Degraded)
    requires FailedInARow(s.results, |s.results|, threshold)
    ensures s.newest.Some? && LatestAlarm(threshold, s.taken, s.newest.value) && s.newest.value.index == |s.results|
  {
    var beat := s.newest.value;
    assert s.handled == Some(beat) && s.taken[|s.taken| - 1] == beat && !beat.expired;
    if beat.consecutiveFailures < beat.index {
      assert s.results[beat.index - beat.consecutiveFailures - 1];
    }
    forall b | b in s.taken ensures b.index <= beat.index {
      assert Truthful(s.results, b);
    }
  }

  /**
   When exactly the promise holds: at rest a session that is neither EXPIRED nor CLOSED is DEGRADED if and only if
   the latest heartbeats failed, threshold of them in a row - unless, and only unless, a recovery was lost.
   */
  lemma DegradedAsPromised(threshold: nat, s: State)
    requires threshold > 0 && Reachable(threshold, s) && AtRest(s) && (s.health == Healthy || s.health == Degraded)
    ensures (s.health == Degraded <==> FailedInARow(s.results, |s.results|, threshold)) <==> !RecoveryLost(threshold, s)
  {
    ReachableIsOk(threshold, s);
    ThresholdStays(threshold, s);
    HealthIsTheVerdict(threshold, s);
    if i :| 0 <= i < |s.taken| && IsAlarm(threshold, s.taken[i]) {
      var a := SomeAlarmIsLatest(threshold, s.taken, i);
      AfterTheLatestAlarm(threshold, s, a);
      forall b | LatestAlarm(threshold, s.taken, b) ensures b.index == a.index {
      }
    } else {
      assert forall i :: !StandingAlarm(threshold, s.taken, i);
      if FailedInARow(s.results, |s.results|, threshold) {
        RowEndsInAlarm(threshold, s);
      }
    }
  }

  lemma AfterTheLatestAlarm(threshold: nat, s: State, a: Beat)
    requires threshold > 0 && Inv(s) && LogOk(s) && s.threshold == threshold && AtRest(s)
             && (s.health == Healthy || s.health == Degraded)
    requires LatestAlarm(threshold, s.taken, a)
    ensures s.health == Degraded <==> AllDroppedAfter(s, a.index)
    ensures FailedInARow(s.results, |s.results|, threshold) <==> forall k :: !SucceededAfter(s.results, a.index, k)
  {
    VerdictByLatest(threshold, s.taken, a);
    VerdictMeans(threshold, s.taken);
    TakenOrDropped(s, a.index);
    if FailedInARow(s.results, |s.results|, threshold) {
      RowEndsInAlarm(threshold, s);
    }
    if forall k :: !SucceededAfter(s.results, a.index, k) {
      AlarmStands(threshold, s, a);
    }
  }

  /** In a run in which no publish threw a success out of the channel the promise holds as it is written. */
  lemma NoSuccessDropped(threshold: nat, s: State)
    requires threshold > 0 && Reachable(threshold, s) && AtRest(s) && (s.health == Healthy || s.health == Degraded)
    requires forall k :: k in s.dropped && 1 <= k <= |s.results| ==> !s.results[k - 1]
    ensures s.health == Degraded <==> FailedInARow(s.results, |s.results|, threshold)
  {
    DegradedAsPromised(threshold, s);
    assert forall index, k :: AllDroppedAfter(s, index) ==> !SucceededAfter(s.results, index, k);
  }

  lemma ReachStart(threshold: nat)
    ensures Reachable(threshold, Initial(threshold))
  {
    assert Possible(Initial(threshold), []) && Run(Initial(threshold), []) == Initial(threshold);
  }

  lemma {:induction false} RunExtends(s: State, events: seq<Event>, e: Event)
    requires Possible(s, events) && Enabled(Run(s, events), e)
    ensures Possible(s, events + [e]) && Run(s, events + [e]) == Do(Run(s, events), e)
    decreases |events|
  {
    if events == [] {
      assert ([] + [e])[1..] == [];
    } else {
      assert (events + [e])[1..] == events[1..] + [e];
      RunExtends(Do(s, events[0]), events[1..], e);
    }
  }

  lemma ReachStep(threshold: nat, s: State, e: Event)
    requires Reachable(threshold, s) && Enabled(s, e)
    ensures Reachable(threshold, Do(s, e))
  {
    var events :| Possible(Initial(threshold), events) && Run(Initial(threshold), events) == s;
    RunExtends(Initial(threshold), events, e);
  }

  lemma AfterOne() returns (s: State)
    ensures Reachable(2, s)
    ensures var b := Some(Beat(false, false, 1, 1));
            s == State(2, Idle, 1, None, Receiving, Healthy, NotClosing, false, [false], b, b, [b.value], {})
  {
    s := Initial(2);
    ReachStart(2);
    ReachStep(2, s, Fail(false)); s := Do(s, Fail(false));
    ReachStep(2, s, Offer); s := Do(s, Offer);
    ReachStep(2, s, Receive); s := Do(s, Receive);
    ReachStep(2, s, Handle); s := Do(s, Handle);
  }

  /** Two failures, the second read in time. */
  lemma DegradedAfterTwo() returns (s: State)
    ensures Reachable(2, s)
    ensures var b := Some(Beat(false, false, 2, 2));
            s == State(2, Idle, 2, None, Receiving, Degraded, NotClosing, false, [false, false], b, b,
                       [Beat(false, false, 1, 1), b.value], {})
  {
    s := AfterOne();
    ReachStep(2, s, Fail(false)); s := Do(s, Fail(false));
    ReachStep(2, s, Offer); s := Do(s, Offer);
    ReachStep(2, s, Receive); s := Do(s, Receive);
    ReachStep(2, s, Handle); s := Do(s, Handle);
    assert s.results == [false, false];
  }

  /** Then a success that the monitor is slow to take. */
  lemma SuccessWaiting() returns (s: State)
    ensures Reachable(2, s)
    ensures var alarm, success := Beat(false, false, 2, 2), Some(Beat(true, false, 0, 3));
            s == State(2, Idle, 0, success, Receiving, Degraded, NotClosing, false, [false, false, true], success,
                       Some(alarm), [Beat(false, false, 1, 1), alarm], {})
  {
    s := DegradedAfterTwo();
    ReachStep(2, s, Succeed); s := Do(s, Succeed);
    ReachStep(2, s, Offer); s := Do(s, Offer);
    assert s.results == [false, false, true];
  }

  /** And a failure that replaces it in the channel. */
  lemma SuccessReplaced() returns (s: State)
    ensures Reachable(2, s)
    ensures var alarm, failure := Beat(false, false, 2, 2), Some(Beat(false, false, 1, 4));
            s == State(2, Idle, 1, failure, Receiving, Degraded, NotClosing, false, [false, false, true, false],
                       failure, Some(alarm), [Beat(false, false, 1, 1), alarm], {3})
  {
    s := SuccessWaiting();
    ReachStep(2, s, Fail(false)); s := Do(s, Fail(false));
    ReachStep(2, s, Offer); s := Do(s, Offer);
    ReachStep(2, s, Drain); s := Do(s, Drain);
    ReachStep(2, s, Replace); s := Do(s, Replace);
    assert s.results == [false, false, true, false];
  }

  /**
   Replacing older events can lose a recovery: after two failures, a success and one failure more, the monitor
   still says DEGRADED, though the threshold of 2 has not been met again.
   */
  lemma RecoveryCanBeMissed() returns (s: State)
    ensures Reachable(2, s) && s.health == Degraded && s.results == [false, false, true, false]
    ensures AtRest(s) && RecoveryLost(2, s)
  {
    s := SuccessReplaced();
    ReachStep(2, s, Receive); s := Do(s, Receive);
    ReachStep(2, s, Handle); s := Do(s, Handle);
    DegradedAsPromised(2, s);
    assert s.results[2];
  }
}
