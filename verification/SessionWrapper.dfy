/**
 A session wrapper while it is used and closed from many threads: SerializedSession (gated) and a managed
 session without a serializer (not gated). One step is one mutex section, channel operation or server
 answer; any number of executions, streams and closers take steps in any order, and every wait may be
 cancelled instead.
 */
module SessionWrapper {
  import opened Text
  import opened Counting
  import A = ActivityGroup

  type JobId = nat
  type Closer = nat

  /**
   Where an execution or stream begun through the wrapper is. Begun to Unlisted are counted by the activity
   group; with a gate, Held to Ended have its token.
   */
  datatype Place = Acquiring | Held | Begun | Opened | Live | Closing | Unlisted | Ended | Gone

  /**
   took, begun, created: the gate's token was taken, activity.begin succeeded, a stream object exists.
   once is the sync.Once around the stream's onClose; ends and releases count its two effects.
   */
  datatype Job = Job(place: Place, stream: bool, took: bool, begun: bool, created: bool, once: bool, ends: nat,
      releases: nat)

  datatype Stage = Arriving | Stopping | Waiting | Watching(idle: A.Channel) | Deciding | Calling | Sent | Joining

  datatype StopOnce = NotRun | Running(stopper: Closer) | Ran

  datatype State = State(
    gated: bool,
    token: nat,                   // in the gate's channel of capacity 1
    group: A.Group,
    jobs: map<JobId, Job>,
    stopOnce: StopOnce,           // closeOnce or shutdownOnce
    todo: set<JobId>,             // streams of the stop snapshot still to be closed
    closers: map<Closer, Stage>,
    closeCall: Option<Closer>,    // who owns the close in flight
    closeComplete: bool,
    sent: nat,                    // DELETEs sent, and those that were answered with success
    confirmed: nat)

  function Initial(gated: bool): State {
    State(gated, if gated then 1 else 0, A.NEW, map[], NotRun, {}, map[], None, false, 0, 0)
  }

  datatype Event =
    | Start(j: JobId, stream: bool)     // with a gate: validate saw the group open; without: the health allowed it
    | GiveUp(j: JobId)                  // cancelled before anything was taken, or begin refused without a gate
    | TakeGate(j: JobId)
    | FindClosed(j: JobId)              // the gate is held but the wrapper is closed: hand it back
    | Begin(j: JobId)
    | Open(j: JobId)                    // the server has an operation for the stream
    | Register(j: JobId)
    | Finish(j: JobId)                  // anyone: Next at its end, Close, the closer, or a creator refused registration
    | Unregister(j: JobId)
    | End(j: JobId)                     // activity.end
    | ReleaseGate(j: JobId)
    | Arrive(c: Closer)
    | Stop(c: Closer)                   // first inside the once: the group is closed, its streams are snapshot
    | StreamClosed(c: Closer, j: JobId) // the stopper's close of one of them has returned
    | Stopped(c: Closer)
    | PassOnce(c: Closer)
    | GrabIdle(c: Closer)
    | SeeIdle(c: Closer)
    | Decide(c: Closer)                 // the closeMu section
    | Send(c: Closer)
    | Answer(c: Closer, ok: bool)       // without a DELETE it may be an error, or the handle is remembered as closed
    | Return(c: Closer)                 // a join is over, or a wait was cancelled

  predicate Active(job: Job) {
    job.place in {Begun, Opened, Live, Closing, Unlisted}
  }

  predicate HasGate(job: Job) {
    job.place == Held || Active(job) || job.place == Ended
  }

  predicate IsAt(s: State, j: JobId, place: Place) {
    j in s.jobs && s.jobs[j].place == place
  }

  predicate CloserAt(s: State, c: Closer, at: Stage) {
    c in s.closers && s.closers[c] == at
  }

  predicate Enabled(s: State, e: Event) {
    match e
    case Start(j, _) => j !in s.jobs && (s.gated ==> !s.group.closed)
    case GiveUp(j) => IsAt(s, j, Acquiring)
    case TakeGate(j) => s.gated && IsAt(s, j, Acquiring) && s.token > 0
    case FindClosed(j) => IsAt(s, j, Held) && s.group.closed
    case Begin(j) => IsAt(s, j, if s.gated then Held else Acquiring) && !s.group.closed
    case Open(j) => IsAt(s, j, Begun) && s.jobs[j].stream
    case Register(j) => IsAt(s, j, Opened) && !s.group.closed
    case Finish(j) => j in s.jobs && s.jobs[j].created && (IsAt(s, j, Opened) ==> s.group.closed)
    case Unregister(j) => IsAt(s, j, Closing)
    case End(j) => IsAt(s, j, Unlisted) || IsAt(s, j, Begun)
    case ReleaseGate(j) => IsAt(s, j, Ended) && (s.gated ==> s.token < 1)
    case Arrive(c) => c !in s.closers
    case Stop(c) => CloserAt(s, c, Arriving) && s.stopOnce == NotRun
    case StreamClosed(c, j) => CloserAt(s, c, Stopping) && j in s.todo && IsAt(s, j, Gone)
    case Stopped(c) => CloserAt(s, c, Stopping) && s.todo == {}
    case PassOnce(c) => CloserAt(s, c, Arriving) && s.stopOnce == Ran
    case GrabIdle(c) => CloserAt(s, c, Waiting)
    case SeeIdle(c) => c in s.closers && s.closers[c].Watching? && s.closers[c].idle in s.group.idleClosed
    case Decide(c) => CloserAt(s, c, Deciding)
    case Send(c) => CloserAt(s, c, Calling)
    case Answer(c, _) => CloserAt(s, c, Sent) || CloserAt(s, c, Calling)
    case Return(c) => c in s.closers && (s.closers[c].Watching? || s.closers[c] == Joining)
  }

  function Put(s: State, j: JobId, job: Job): State {
    s.(jobs := s.jobs[j := job])
  }

  function Move(s: State, c: Closer, to: Stage): State {
    s.(closers := s.closers[c := to])
  }

  /** What a step about a job makes of it; a second Finish finds the once used up. */
  function JobAfter(gated: bool, job: Job, e: Event): Job {
    match e
    case GiveUp(_) => job.(place := Gone)
    case TakeGate(_) => job.(place := Held, took := true)
    case FindClosed(_) => job.(place := Ended)
    case Begin(_) => job.(place := Begun, begun := true)
    case Open(_) => job.(place := Opened, created := true)
    case Register(_) => job.(place := Live)
    case Finish(_) => if job.once then job else job.(once := true, place := Closing)
    case Unregister(_) => job.(place := Unlisted)
    case End(_) => job.(place := Ended, ends := job.ends + 1)
    case ReleaseGate(_) => job.(place := Gone, releases := job.releases + One(gated))
    case _ => job
  }

  function Do(s: State, e: Event): State
    requires Enabled(s, e)
  {
    match e
    case Start(j, stream) => Put(s, j, Job(Acquiring, stream, false, false, false, false, 0, 0))
    case GiveUp(j) => Put(s, j, JobAfter(s.gated, s.jobs[j], e))
    case TakeGate(j) => Put(s, j, JobAfter(s.gated, s.jobs[j], e)).(token := s.token - 1)
    case FindClosed(j) => Put(s, j, JobAfter(s.gated, s.jobs[j], e))
    case Begin(j) =>
      Put(s, j, JobAfter(s.gated, s.jobs[j], e)).(group := A.Begin(s.group))
    case Open(j) => Put(s, j, JobAfter(s.gated, s.jobs[j], e))
    case Register(j) => Put(s, j, JobAfter(s.gated, s.jobs[j], e)).(group := A.Register(s.group, j))
    case Finish(j) => Put(s, j, JobAfter(s.gated, s.jobs[j], e))
    case Unregister(j) => Put(s, j, JobAfter(s.gated, s.jobs[j], e)).(group := A.Unregister(s.group, j))
    case End(j) => Put(s, j, JobAfter(s.gated, s.jobs[j], e)).(group := A.End(s.group))
    case ReleaseGate(j) =>
      Put(s, j, JobAfter(s.gated, s.jobs[j], e)).(token := if s.gated then s.token + 1 else s.token)
    case Arrive(c) => Move(s, c, Arriving)
    case Stop(c) => Move(s, c, Stopping).(group := A.Stop(s.group), stopOnce := Running(c), todo := s.group.streams)
    case StreamClosed(c, j) => s.(todo := s.todo - {j})
    case Stopped(c) => Move(s, c, Waiting).(stopOnce := Ran)
    case PassOnce(c) => Move(s, c, Waiting)
    case GrabIdle(c) => Move(s, c, Watching(s.group.idle))
    case SeeIdle(c) => Move(s, c, Deciding)
    case Decide(c) =>
      if s.closeComplete then s.(closers := s.closers - {c})
      else if s.closeCall.Some? then Move(s, c, Joining)
      else Move(s, c, Calling).(closeCall := Some(c))
    case Send(c) => Move(s, c, Sent).(sent := s.sent + 1)
    case Answer(c, ok) =>
      var done := s.(closers := s.closers - {c}, closeCall := None);
      if ok then done.(closeComplete := true, confirmed := s.confirmed + One(CloserAt(s, c, Sent))) else done
    case Return(c) => s.(closers := s.closers - {c})
  }

  // ---- the invariant, in four parts ----

  ghost predicate Counted(s: State) {
    && s.group.active == Count(s.jobs, Active)
    && (s.gated ==> s.token + Count(s.jobs, HasGate) == 1)
    && A.GroupOk(s.group)
  }

  /** What a job has done by where it is: each effect of its end exactly once, and only what was taken is given back. */
  predicate JobOk(gated: bool, job: Job) {
    && job.ends == One(job.begun && job.place in {Ended, Gone})
    && job.releases == One(job.took && job.place == Gone)
    && (job.place == Acquiring ==> !job.took && !job.begun)
    && (job.place == Held ==> job.took && !job.begun)
    && (Active(job) ==> job.begun)
    && (Active(job) || job.place == Ended ==> job.took == gated)
    && (job.took ==> gated)
    && (job.place in {Acquiring, Held, Begun} ==> !job.created)
    && (job.created ==> job.stream && (job.once <==> job.place !in {Opened, Live}))
    && (job.once ==> job.created)
    && (job.place in {Opened, Live, Closing, Unlisted} ==> job.created)
  }

  ghost predicate JobsOk(s: State) {
    (forall j :: j in s.jobs ==> JobOk(s.gated, s.jobs[j])) && ListedOk(s)
  }

  ghost predicate ListedOk(s: State) {
    && (forall j :: j in s.group.streams ==> IsAt(s, j, Live) || IsAt(s, j, Closing))
    && (forall j :: IsAt(s, j, Live) ==> j in s.group.streams)
  }

  /** One stopper; after the stop every registered stream that is not yet finishing is in its snapshot. */
  ghost predicate StopOk(s: State) {
    && (s.group.closed <==> s.stopOnce != NotRun)
    && (s.stopOnce.Running? ==> CloserAt(s, s.stopOnce.stopper, Stopping))
    && (forall c :: CloserAt(s, c, Stopping) ==> s.stopOnce == Running(c))
    && (s.stopOnce == Ran ==> s.todo == {})
    && (s.group.closed ==> forall j :: IsAt(s, j, Live) ==> j in s.todo)
    && (forall c :: c in s.closers && s.closers[c] !in {Arriving, Stopping} ==> s.stopOnce == Ran)
  }

  predicate PastWaiting(stage: Stage) {
    stage in {Deciding, Calling, Sent, Joining}
  }

  predicate Owns(stage: Stage) {
    stage in {Calling, Sent}
  }

  ghost predicate CloseOk(s: State) {
    && (forall c :: c in s.closers && s.closers[c].Watching? ==> s.closers[c].idle == s.group.idle)
    && (forall c :: c in s.closers && PastWaiting(s.closers[c]) ==> s.group.active == 0)
    && (forall c :: c in s.closers && Owns(s.closers[c]) ==> s.closeCall == Some(c))
    && (s.closeCall.Some? ==> s.closeCall.value in s.closers && Owns(s.closers[s.closeCall.value]))
    && (s.closeComplete ==> s.closeCall == None)
    && s.confirmed <= One(s.closeComplete)
  }

  ghost predicate Inv(s: State) {
    Counted(s) && JobsOk(s) && StopOk(s) && CloseOk(s)
  }

  /** The job an event is about, if it is about one that changes. */
  function JobOf(e: Event): Option<JobId> {
    match e
    case Start(j, _) => Some(j)
    case GiveUp(j) => Some(j)
    case TakeGate(j) => Some(j)
    case FindClosed(j) => Some(j)
    case Begin(j) => Some(j)
    case Open(j) => Some(j)
    case Register(j) => Some(j)
    case Finish(j) => Some(j)
    case Unregister(j) => Some(j)
    case End(j) => Some(j)
    case ReleaseGate(j) => Some(j)
    case _ => None
  }

  lemma OnlyItsJob(s: State, e: Event)
    requires Enabled(s, e)
    ensures match JobOf(e)
            case None => Do(s, e).jobs == s.jobs
            case Some(j) => j in Do(s, e).jobs && Do(s, e).jobs == s.jobs[j := Do(s, e).jobs[j]]
  {
    if JobOf(e).Some? {
      PutsItsJob(s, e);
    }
  }

  lemma PutsItsJob(s: State, e: Event)
    requires Enabled(s, e) && JobOf(e).Some?
    ensures var j := JobOf(e).value; j in Do(s, e).jobs && Do(s, e).jobs == s.jobs[j := Do(s, e).jobs[j]]
  {
  }

  lemma StepKeepsActive(s: State, e: Event)
    requires Inv(s) && Enabled(s, e) && JobOf(e).Some?
    ensures Do(s, e).group.active == Count(Do(s, e).jobs, Active)
  {
    var j := JobOf(e).value;
    CountSet(s.jobs, j, Do(s, e).jobs[j], Active);
    if j in s.jobs {
      assert JobOk(s.gated, s.jobs[j]);
      if Active(s.jobs[j]) {
        CountSees(s.jobs, j, Active);
      }
    }
  }

  lemma StepKeepsToken(s: State, e: Event)
    requires Inv(s) && Enabled(s, e) && JobOf(e).Some? && s.gated
    ensures Do(s, e).token + Count(Do(s, e).jobs, HasGate) == 1
  {
    var j := JobOf(e).value;
    CountSet(s.jobs, j, Do(s, e).jobs[j], HasGate);
    if j in s.jobs {
      assert JobOk(s.gated, s.jobs[j]);
    }
  }

  lemma StepKeepsCounted(s: State, e: Event)
    requires Inv(s) && Enabled(s, e)
    ensures Counted(Do(s, e))
  {
    OnlyItsJob(s, e);
    if JobOf(e).Some? {
      StepKeepsActive(s, e);
      if s.gated {
        StepKeepsToken(s, e);
      }
      if e.End? {
        assert JobOk(s.gated, s.jobs[e.j]);
        CountSees(s.jobs, e.j, Active);
      }
    }
  }

  lemma JobAfterOk(gated: bool, job: Job, e: Event)
    requires JobOk(gated, job)
    requires match e
             case GiveUp(_) => job.place == Acquiring
             case TakeGate(_) => gated && job.place == Acquiring
             case FindClosed(_) => job.place == Held
             case Begin(_) => job.place == if gated then Held else Acquiring
             case Open(_) => job.place == Begun && job.stream
             case Register(_) => job.place == Opened
             case Finish(_) => job.created
             case Unregister(_) => job.place == Closing
             case End(_) => job.place in {Unlisted, Begun}
             case ReleaseGate(_) => job.place == Ended
             case _ => true
    ensures JobOk(gated, JobAfter(gated, job, e))
  {
  }

  lemma StepKeepsJobOk(s: State, e: Event)
    requires Inv(s) && Enabled(s, e) && JobOf(e).Some?
    ensures var j := JobOf(e).value; j in Do(s, e).jobs && JobOk(s.gated, Do(s, e).jobs[j])
  {
    if !e.Start? {
      JobAfterOk(s.gated, s.jobs[JobOf(e).value], e);
    }
  }

  lemma StreamsAfter(s: State, e: Event)
    requires Enabled(s, e)
    ensures Do(s, e).group.streams ==
            if e.Register? then s.group.streams + {e.j}
            else if e.Unregister? then s.group.streams - {e.j}
            else s.group.streams
  {
  }

  /** The job that moves is listed exactly while it is live or closing, as the others are. */
  lemma MovedIsListed(s: State, e: Event, j: JobId)
    requires Inv(s) && Enabled(s, e) && JobOf(e) == Some(j)
    ensures j in Do(s, e).group.streams ==> IsAt(Do(s, e), j, Live) || IsAt(Do(s, e), j, Closing)
    ensures IsAt(Do(s, e), j, Live) ==> j in Do(s, e).group.streams
  {
    StreamsAfter(s, e);
    if j in s.jobs {
      assert JobOk(s.gated, s.jobs[j]);
    }
  }

  lemma OthersAreListed(s: State, d: State, moved: JobId)
    requires ListedOk(s)
    requires moved in d.group.streams ==> IsAt(d, moved, Live) || IsAt(d, moved, Closing)
    requires IsAt(d, moved, Live) ==> moved in d.group.streams
    requires moved in d.jobs && d.jobs == s.jobs[moved := d.jobs[moved]]
    requires d.group.streams - {moved} == s.group.streams - {moved}
    ensures ListedOk(d)
  {
    forall j: JobId | j != moved ensures j in d.group.streams <==> j in s.group.streams {
      assert j in d.group.streams - {moved} <==> j in s.group.streams - {moved};
    }
  }

  lemma StepKeepsListed(s: State, e: Event)
    requires Inv(s) && Enabled(s, e)
    ensures ListedOk(Do(s, e))
  {
    OnlyItsJob(s, e);
    StreamsAfter(s, e);
    if JobOf(e).Some? {
      var j := JobOf(e).value;
      MovedIsListed(s, e, j);
      assert Do(s, e).group.streams - {j} == s.group.streams - {j};
      OthersAreListed(s, Do(s, e), j);
    }
  }

  lemma StepKeepsJobs(s: State, e: Event)
    requires Inv(s) && Enabled(s, e)
    ensures JobsOk(Do(s, e))
  {
    OnlyItsJob(s, e);
    StepKeepsListed(s, e);
    if JobOf(e).Some? {
      StepKeepsJobOk(s, e);
    }
    forall j | j in Do(s, e).jobs ensures JobOk(s.gated, Do(s, e).jobs[j]) {
      if JobOf(e) != Some(j) {
        assert j in s.jobs;
      }
    }
  }

  /** Once the group is closed no step of a job leaves it live. */
  lemma MovedIsNotLive(s: State, e: Event, j: JobId)
    requires Inv(s) && s.group.closed && Enabled(s, e) && JobOf(e) == Some(j)
    ensures !IsAt(Do(s, e), j, Live)
  {
    if j in s.jobs {
      assert JobOk(s.gated, s.jobs[j]);
    }
  }

  lemma WorkKeepsStop(s: State, e: Event)
    requires Inv(s) && Enabled(s, e) && JobOf(e).Some?
    ensures StopOk(Do(s, e))
  {
    OnlyItsJob(s, e);
    var d, moved := Do(s, e), JobOf(e).value;
    assert d.closers == s.closers && d.stopOnce == s.stopOnce && d.group.closed == s.group.closed && d.todo == s.todo;
    if s.group.closed {
      MovedIsNotLive(s, e, moved);
      assert forall j: JobId :: j != moved && IsAt(d, j, Live) ==> IsAt(s, j, Live);
    }
  }

  /** Events of the stop, of the wait behind it, and of the close. */
  predicate AboutStop(e: Event) {
    e.Arrive? || e.Stop? || e.StreamClosed? || e.Stopped? || e.PassOnce?
  }

  predicate AboutWait(e: Event) {
    e.GrabIdle? || e.SeeIdle? || e.Return?
  }

  predicate AboutClose(e: Event) {
    e.Decide? || e.Send? || e.Answer?
  }

  lemma StopKeepsStop(s: State, e: Event)
    requires StopOk(s) && JobsOk(s) && Enabled(s, e) && AboutStop(e)
    ensures StopOk(Do(s, e))
  {
    var d := Do(s, e);
    assert forall j :: IsAt(d, j, Live) <==> IsAt(s, j, Live);
  }

  lemma WaitKeepsStop(s: State, e: Event)
    requires StopOk(s) && Enabled(s, e) && AboutWait(e)
    ensures StopOk(Do(s, e))
  {
    var d := Do(s, e);
    assert forall j :: IsAt(d, j, Live) <==> IsAt(s, j, Live);
  }

  lemma CloseKeepsStop(s: State, e: Event)
    requires StopOk(s) && Enabled(s, e) && AboutClose(e)
    ensures StopOk(Do(s, e))
  {
    var d := Do(s, e);
    assert forall j :: IsAt(d, j, Live) <==> IsAt(s, j, Live);
  }

  /** Closers past the wait see an idle group that stays idle: nothing begins once it is closed. */
  lemma WorkKeepsClose(s: State, e: Event)
    requires Inv(s) && Enabled(s, e) && JobOf(e).Some?
    ensures CloseOk(Do(s, e))
  {
    var d := Do(s, e);
    assert d.closers == s.closers && d.closeCall == s.closeCall;
    if e.Begin? {
      assert forall c :: c in s.closers ==> s.closers[c] in {Arriving, Stopping};
    }
  }

  lemma StopKeepsClose(s: State, e: Event)
    requires CloseOk(s) && Enabled(s, e) && AboutStop(e)
    ensures CloseOk(Do(s, e))
  {
  }

  lemma WaitKeepsClose(s: State, e: Event)
    requires Inv(s) && Enabled(s, e) && AboutWait(e)
    ensures CloseOk(Do(s, e))
  {
  }

  lemma CloseKeepsClose(s: State, e: Event)
    requires CloseOk(s) && Enabled(s, e) && AboutClose(e)
    ensures CloseOk(Do(s, e))
  {
  }

  lemma CloserKeepsBoth(s: State, e: Event)
    requires Inv(s) && Enabled(s, e) && JobOf(e).None?
    ensures StopOk(Do(s, e)) && CloseOk(Do(s, e))
  {
    if AboutStop(e) {
      StopKeepsStop(s, e);
      StopKeepsClose(s, e);
    } else if AboutWait(e) {
      WaitKeepsStop(s, e);
      WaitKeepsClose(s, e);
    } else {
      CloseKeepsStop(s, e);
      CloseKeepsClose(s, e);
    }
  }

  lemma StepKeepsInv(s: State, e: Event)
    requires Inv(s) && Enabled(s, e)
    ensures Inv(Do(s, e))
  {
    StepKeepsCounted(s, e);
    StepKeepsJobs(s, e);
    if JobOf(e).Some? {
      WorkKeepsStop(s, e);
      WorkKeepsClose(s, e);
    } else {
      CloserKeepsBoth(s, e);
    }
  }

  // ---- whole runs ----

  ghost predicate Possible(s: State, events: seq<Event>)
    decreases |events|
  {
    events == [] || (Enabled(s, events[0]) && Possible(Do(s, events[0]), events[1..]))
  }

  function Run(s: State, events: seq<Event>): State
    requires Possible(s, events)
    decreases |events|
  {
    if events == [] then s else Run(Do(s, events[0]), events[1..])
  }

  lemma {:induction false} RunKeepsInv(s: State, events: seq<Event>)
    requires Inv(s) && Possible(s, events)
    ensures Inv(Run(s, events))
    decreases |events|
  {
    if events != [] {
      StepKeepsInv(s, events[0]);
      RunKeepsInv(Do(s, events[0]), events[1..]);
    }
  }

  lemma InitialIsOk(gated: bool)
    ensures Inv(Initial(gated))
  {
    CountNone(Initial(gated).jobs, Active);
    CountNone(Initial(gated).jobs, HasGate);
  }

  ghost predicate Reachable(gated: bool, s: State) {
    exists events :: Possible(Initial(gated), events) && Run(Initial(gated), events) == s
  }

  lemma ReachableIsOk(gated: bool, s: State)
    requires Reachable(gated, s)
    ensures Inv(s)
  {
    var events :| Possible(Initial(gated), events) && Run(Initial(gated), events) == s;
    InitialIsOk(gated);
    RunKeepsInv(Initial(gated), events);
  }

  ghost predicate Quiet(s: State) {
    s.group.closed && forall j :: j in s.jobs ==> !Active(s.jobs[j])
  }

  /** Whoever may send the DELETE finds the wrapper stopped and nothing begun through it still running. */
  lemma DeleteOnlyWhenQuiet(gated: bool, s: State, c: Closer)
    requires Reachable(gated, s) && c in s.closers && Owns(s.closers[c])
    ensures Quiet(s)
  {
    ReachableIsOk(gated, s);
    CountNone(s.jobs, Active);
  }

  /** Quiet is for good: no execution or stream begins after it. */
  lemma {:induction false} QuietIsForGood(s: State, events: seq<Event>)
    requires Inv(s) && Quiet(s) && Possible(s, events)
    ensures Quiet(Run(s, events)) && forall e :: e in events ==> !e.Begin?
    decreases |events|
  {
    if events != [] {
      StepKeepsInv(s, events[0]);
      StepKeepsQuiet(s, events[0]);
      QuietIsForGood(Do(s, events[0]), events[1..]);
    }
  }

  lemma QuietRefusesWork(s: State, e: Event)
    requires Inv(s) && Quiet(s) && Enabled(s, e)
    ensures !e.Begin? && Do(s, e).group.closed
  {
  }

  lemma StepKeepsQuiet(s: State, e: Event)
    requires Inv(s) && Quiet(s) && Enabled(s, e)
    ensures Quiet(Do(s, e)) && !e.Begin?
  {
    QuietRefusesWork(s, e);
    OnlyItsJob(s, e);
    forall j | j in Do(s, e).jobs ensures !Active(Do(s, e).jobs[j]) {
      if j in s.jobs {
        assert JobOk(s.gated, s.jobs[j]);
      }
    }
  }

  /** At most one close is in flight. */
  lemma OneCloseInFlight(gated: bool, s: State, c: Closer, d: Closer)
    requires Reachable(gated, s) && c in s.closers && d in s.closers
    requires Owns(s.closers[c]) && Owns(s.closers[d])
    ensures c == d
  {
    ReachableIsOk(gated, s);
  }

  /** Once a DELETE has succeeded none is sent again, whatever happens next. */
  lemma {:induction false} SucceededIsFinal(s: State, events: seq<Event>)
    requires Inv(s) && s.closeComplete && Possible(s, events)
    ensures Run(s, events).closeComplete && Run(s, events).sent == s.sent
    ensures Run(s, events).confirmed == s.confirmed <= 1
    decreases |events|
  {
    if events != [] {
      StepKeepsInv(s, events[0]);
      StepSendsNothing(s, events[0]);
      SucceededIsFinal(Do(s, events[0]), events[1..]);
    }
  }

  lemma StepSendsNothing(s: State, e: Event)
    requires Inv(s) && s.closeComplete && Enabled(s, e)
    ensures Do(s, e).closeComplete && Do(s, e).sent == s.sent && Do(s, e).confirmed == s.confirmed
  {
    forall c | c in s.closers ensures !Owns(s.closers[c]) {
    }
  }

  /** One more step of a run, read from the back. */
  lemma {:induction false} RunUpTo(s: State, events: seq<Event>, n: nat)
    requires Possible(s, events) && n < |events|
    ensures Possible(s, events[..n]) && Enabled(Run(s, events[..n]), events[n])
    ensures Possible(s, events[..n + 1]) && Run(s, events[..n + 1]) == Do(Run(s, events[..n]), events[n])
    decreases n
  {
    var front, more := events[..n], events[..n + 1];
    if n == 0 {
      assert more[1..] == [];
    } else {
      RunUpTo(Do(s, events[0]), events[1..], n - 1);
      assert front[1..] == events[1..][..n - 1] && more[1..] == events[1..][..n];
    }
  }

  /** Among the first n events a close was answered with success. */
  predicate SucceededBy(events: seq<Event>, n: nat)
    requires n <= |events|
  {
    exists i :: 0 <= i < n && events[i].Answer? && events[i].ok
  }

  lemma {:induction false} SuccessIsRecorded(gated: bool, events: seq<Event>, n: nat)
    requires Possible(Initial(gated), events) && n <= |events|
    ensures Possible(Initial(gated), events[..n])
    ensures Run(Initial(gated), events[..n]).closeComplete <==> SucceededBy(events, n)
    decreases n
  {
    if n > 0 {
      SuccessIsRecorded(gated, events, n - 1);
      RunUpTo(Initial(gated), events, n - 1);
      var e := events[n - 1];
      assert SucceededBy(events, n) <==> SucceededBy(events, n - 1) || (e.Answer? && e.ok);
    }
  }

  /** After a close was answered with success no DELETE is sent in that run, and later closers go home. */
  lemma NoSendAfterSuccess(gated: bool, events: seq<Event>, i: nat, j: nat)
    requires Possible(Initial(gated), events) && i < j < |events| && events[i].Answer? && events[i].ok
    ensures !events[j].Send?
    ensures Possible(Initial(gated), events[..j + 1])
    ensures events[j].Decide? ==> events[j].c !in Run(Initial(gated), events[..j + 1]).closers
  {
    SuccessIsRecorded(gated, events, j);
    RunUpTo(Initial(gated), events, j);
    InitialIsOk(gated);
    RunKeepsInv(Initial(gated), events[..j]);
    StepSendsNothing(Run(Initial(gated), events[..j]), events[j]);
  }

  /**
   What a closer past the wait is told: to go home exactly when a close has succeeded before, to join exactly when
   another owns the close in flight, and otherwise to own it.
   */
  lemma WhatACloserIsTold(gated: bool, events: seq<Event>, j: nat)
    requires Possible(Initial(gated), events) && j < |events| && events[j].Decide?
    ensures Possible(Initial(gated), events[..j]) && Possible(Initial(gated), events[..j + 1])
    ensures var s, d, c := Run(Initial(gated), events[..j]), Run(Initial(gated), events[..j + 1]), events[j].c;
            if SucceededBy(events, j) then c !in d.closers
            else if exists o :: o in s.closers && Owns(s.closers[o]) then CloserAt(d, c, Joining)
            else CloserAt(d, c, Calling)
  {
    SuccessIsRecorded(gated, events, j);
    RunUpTo(Initial(gated), events, j);
    InitialIsOk(gated);
    RunKeepsInv(Initial(gated), events[..j]);
  }

  /** A failed close leaves the next closer free to send again. */
  lemma FailedCloseCanBeRetried(gated: bool, s: State, c: Closer, d: Closer)
    requires Reachable(gated, s) && Enabled(s, Answer(c, false))
    requires d != c && CloserAt(s, d, Deciding)
    ensures var failed := Do(s, Answer(c, false));
            && !failed.closeComplete && Enabled(failed, Decide(d))
            && Enabled(Do(failed, Decide(d)), Send(d))
  {
    ReachableIsOk(gated, s);
  }

  /** Giving the gate's token back never blocks, and the token is nowhere twice. */
  lemma GateReleaseNeverBlocks(gated: bool, s: State, j: JobId)
    requires Reachable(gated, s) && IsAt(s, j, Ended)
    ensures Enabled(s, ReleaseGate(j))
    ensures s.gated ==> forall k :: k in s.jobs && HasGate(s.jobs[k]) ==> k == j
  {
    ReachableIsOk(gated, s);
    if s.gated {
      CountSees(s.jobs, j, HasGate);
      forall k | k in s.jobs && HasGate(s.jobs[k]) ensures k == j {
        CountOnce(s.jobs, k, j, HasGate);
      }
    }
  }

  /**
   However finishes race, activity.end and the gate's release each happen at most once, and exactly once by the time
   a job is gone.
   */
  lemma EffectsExactlyOnce(gated: bool, s: State, j: JobId)
    requires Reachable(gated, s) && j in s.jobs
    ensures s.jobs[j].ends <= 1 && s.jobs[j].releases <= 1
    ensures s.jobs[j].place == Gone ==>
            s.jobs[j].ends == One(s.jobs[j].begun) && s.jobs[j].releases == One(s.jobs[j].took)
  {
    ReachableIsOk(gated, s);
    assert JobOk(s.gated, s.jobs[j]);
  }

  /**
   No stream escapes a stop: a stream that exists when the wrapper is closed is finishing or finished, or in
   the stopper's snapshot, or not registered yet, and then registration is refused and its creator closes it.
   */
  lemma NoStreamEscapes(gated: bool, s: State, j: JobId)
    requires Reachable(gated, s) && s.group.closed && j in s.jobs && s.jobs[j].created
    ensures s.jobs[j].once || (j in s.todo && s.stopOnce.Running?)
            || (s.jobs[j].place == Opened && !Enabled(s, Register(j)) && Enabled(s, Finish(j)))
  {
    ReachableIsOk(gated, s);
    assert JobOk(s.gated, s.jobs[j]);
    if s.jobs[j].place == Live {
      assert IsAt(s, j, Live);
    }
  }

  // ---- nobody waits in vain ----

  /** The streams a stopper has to wait for are jobs. */
  ghost predicate TodoOk(s: State) {
    forall j :: j in s.todo ==> j in s.jobs
  }

  lemma StepKeepsTodo(s: State, e: Event)
    requires JobsOk(s) && TodoOk(s) && Enabled(s, e)
    ensures TodoOk(Do(s, e))
  {
    OnlyItsJob(s, e);
  }

  lemma {:induction false} RunKeepsTodo(s: State, events: seq<Event>)
    requires Inv(s) && TodoOk(s) && Possible(s, events)
    ensures TodoOk(Run(s, events))
    decreases |events|
  {
    if events != [] {
      StepKeepsInv(s, events[0]);
      StepKeepsTodo(s, events[0]);
      RunKeepsTodo(Do(s, events[0]), events[1..]);
    }
  }

  lemma ReachableTodo(gated: bool, s: State)
    requires Reachable(gated, s)
    ensures Inv(s) && TodoOk(s)
  {
    ReachableIsOk(gated, s);
    var events :| Possible(Initial(gated), events) && Run(Initial(gated), events) == s;
    InitialIsOk(gated);
    RunKeepsTodo(Initial(gated), events);
  }

  /** Steps that bring someone on: not a new job or closer, not a cancellation, not a finish without effect. */
  predicate BringsOn(s: State, e: Event) {
    match e
    case Start(_, _) => false
    case Arrive(_) => false
    case GiveUp(_) => !s.gated && s.group.closed
    case Finish(j) => j in s.jobs && !s.jobs[j].once
    case Return(c) => CloserAt(s, c, Joining)
    case _ => true
  }

  /** What a job that has begun, or need not wait for a gate, does next. */
  function NextOfJob(s: State, j: JobId): Event
    requires j in s.jobs && s.jobs[j].place != Gone
  {
    match s.jobs[j].place
    case Acquiring => if s.gated then TakeGate(j) else if s.group.closed then GiveUp(j) else Begin(j)
    case Held => if s.group.closed then FindClosed(j) else Begin(j)
    case Begun => End(j)
    case Opened => if s.group.closed then Finish(j) else Register(j)
    case Live => Finish(j)
    case Closing => Unregister(j)
    case Unlisted => End(j)
    case Ended => ReleaseGate(j)
  }

  lemma BegunJobGoesOn(s: State, j: JobId)
    requires Inv(s) && j in s.jobs && s.jobs[j].place !in {Acquiring, Gone}
    ensures Enabled(s, NextOfJob(s, j)) && BringsOn(s, NextOfJob(s, j))
  {
    assert JobOk(s.gated, s.jobs[j]);
    if s.jobs[j].place == Ended && s.gated {
      CountSees(s.jobs, j, HasGate);
    }
  }

  /** A job that is not gone can go on, or it waits for the gate and the one that has it can. */
  lemma JobGoesOn(s: State, j: JobId) returns (o: JobId)
    requires Inv(s) && j in s.jobs && s.jobs[j].place != Gone
    ensures o in s.jobs && s.jobs[o].place != Gone
    ensures Enabled(s, NextOfJob(s, o)) && BringsOn(s, NextOfJob(s, o))
    ensures o == j || (IsAt(s, j, Acquiring) && s.gated && HasGate(s.jobs[o]))
  {
    o := j;
    if s.jobs[j].place != Acquiring {
      BegunJobGoesOn(s, j);
    } else if s.gated && s.token == 0 {
      CountNone(s.jobs, HasGate);
      o :| o in s.jobs && HasGate(s.jobs[o]);
      BegunJobGoesOn(s, o);
    }
  }

  lemma StopperGoesOn(s: State, c: Closer) returns (e: Event)
    requires Inv(s) && TodoOk(s) && CloserAt(s, c, Stopping)
    ensures Enabled(s, e) && BringsOn(s, e) && !e.GrabIdle? && !e.Decide?
  {
    if s.todo == {} {
      e := Stopped(c);
    } else {
      var j :| j in s.todo;
      if IsAt(s, j, Gone) {
        e := StreamClosed(c, j);
      } else {
        var o := JobGoesOn(s, j);
        e := NextOfJob(s, o);
      }
    }
  }

  /** Waiting for idleness: it is there, or some job that is active can go on. */
  lemma WatcherGoesOn(s: State, c: Closer) returns (e: Event)
    requires Inv(s) && c in s.closers && s.closers[c].Watching?
    ensures Enabled(s, e) && BringsOn(s, e) && !e.GrabIdle? && !e.Decide?
  {
    if s.group.active == 0 {
      e := SeeIdle(c);
    } else {
      CountNone(s.jobs, Active);
      var j :| j in s.jobs && Active(s.jobs[j]);
      var o := JobGoesOn(s, j);
      e := NextOfJob(s, o);
    }
  }

  lemma CloserGoesOn(s: State, c: Closer) returns (e: Event)
    requires Inv(s) && TodoOk(s) && c in s.closers
    ensures Enabled(s, e) && BringsOn(s, e)
    ensures s.closers[c] == Arriving || s.closers[c] == Stopping ==> !e.GrabIdle? && !e.Decide?
  {
    match s.closers[c]
    case Arriving =>
      if s.stopOnce.Running? {
        e := StopperGoesOn(s, s.stopOnce.stopper);
      } else {
        e := if s.stopOnce == NotRun then Stop(c) else PassOnce(c);
      }
    case Stopping => e := StopperGoesOn(s, c);
    case Waiting => e := GrabIdle(c);
    case Watching(_) => e := WatcherGoesOn(s, c);
    case Deciding => e := Decide(c);
    case Calling => e := Send(c);
    case Sent => e := Answer(c, true);
    case Joining => e := Return(c);
  }

  /** While a job is not gone or a closer has not come back, someone can go on without anyone being cancelled. */
  lemma NoDeadlock(gated: bool, s: State) returns (e: Event)
    requires Reachable(gated, s)
    requires s.closers != map[] || exists j :: j in s.jobs && s.jobs[j].place != Gone
    ensures Enabled(s, e) && BringsOn(s, e)
  {
    ReachableTodo(gated, s);
    if s.closers != map[] {
      var c :| c in s.closers;
      e := CloserGoesOn(s, c);
    } else {
      var j :| j in s.jobs && s.jobs[j].place != Gone;
      var o := JobGoesOn(s, j);
      e := NextOfJob(s, o);
    }
  }
}
