/**
 CheckAPIVersion: one detection at a time, shared by whoever asks meanwhile, cached when it settles the
 matter, and not inherited when it failed only because the asker in front lost interest. Each mutex
 section, each look at a context and each wake-up is a step of one of any number of threads.
 */
module VersionCheck {
  import opened Text

  type Thread = nat
  type CallId = nat

  /** The two errors a context can end with. */
  datatype ContextError = Canceled | DeadlineExceeded

  /**
   An error of resolveCompatibility. detection: it wraps ErrCompatibilityDetection. kinds: the context
   errors that errors.Is finds in it, be they the caller's or a request timeout's.
   */
  datatype Error = Error(text: string, detection: bool, kinds: set<ContextError>)

  /** None is success. */
  type Answer = Option<Error>

  datatype Call = Call(owner: Thread, done: bool, answer: Answer, retryForWaiters: bool,
      ownerContext: Option<ContextError>)

  /** How resolveCompatibility went: at which of its two requests it failed, or what it made of their answers. */
  datatype Detection =
    | InfoFailed(kinds: set<ContextError>)
    | VersionRefused(reason: string)     // the server's release cannot be parsed or is not supported
    | VersionsFailed(kinds: set<ContextError>)
    | SelectionRefused(reason: string)   // no API version in common
    | Selected

  /** A failed request is wrapped in ErrCompatibilityDetection with its cause; a refusal has no request error in it. */
  function AnswerOf(d: Detection): Answer {
    match d
    case InfoFailed(kinds) => Some(Error("GET /info", true, kinds))
    case VersionRefused(reason) => Some(Error(reason, false, {}))
    case VersionsFailed(kinds) => Some(Error("GET /api_versions", true, kinds))
    case SelectionRefused(reason) => Some(Error(reason, false, {}))
    case Selected => None
  }

  datatype How = Cached | OwnCancellation | Shared(call: CallId) | Led(call: CallId)

  datatype Place =
    | Looping                                                             // at the top of the loop
    | Resolving(call: CallId)
    | Resolved(call: CallId, answer: Answer)
    | Publishing(call: CallId, answer: Answer, seen: Option<ContextError>) // the leader has looked at its own context
    | Waiting(call: CallId)
    | Returned(how: How, answer: Answer)

  datatype State = State(
    configured: Option<Error>,   // what configuredCompatibility alone already refuses, fixed for good
    versionChecked: bool,
    versionErr: Answer,
    versionCall: Option<CallId>,
    calls: map<CallId, Call>,
    threads: map<Thread, Place>,
    contexts: map<Thread, ContextError>, // the contexts that have ended
    detected: map<CallId, Detection>,    // what came of the detections
    writes: nat)                 // how often the cached outcome was written

  function Initial(configured: Option<Error>): State {
    State(configured, false, None, None, map[], map[], map[], map[], 0)
  }

  datatype Event =
    | Ask(t: Thread)
    | EndContext(t: Thread, kind: ContextError)
    | Look(t: Thread, newCall: CallId)        // the first mutex section
    | Resolve(t: Thread, d: Detection)        // the detection requests are over
    | Observe(t: Thread)                      // ownerContextErr := ctx.Err()
    | Publish(t: Thread)                      // the second mutex section
    | WakeDone(t: Thread)
    | WakeCancelled(t: Thread)

  /** The answer decides the matter for good: a selection, or a refusal that asking again cannot change. */
  predicate Settles(answer: Answer) {
    answer.None? || !answer.value.detection
  }

  predicate Enabled(s: State, e: Event) {
    match e
    case Ask(t) => t !in s.threads && t !in s.contexts
    case EndContext(t, _) => t in s.threads && t !in s.contexts
    case Look(t, newCall) => t in s.threads && s.threads[t] == Looping && newCall !in s.calls
    case Resolve(t, _) => t in s.threads && s.threads[t].Resolving?
    case Observe(t) => t in s.threads && s.threads[t].Resolved?
    case Publish(t) => t in s.threads && s.threads[t].Publishing? && s.threads[t].call in s.calls
    case WakeDone(t) =>
      t in s.threads && s.threads[t].Waiting? && s.threads[t].call in s.calls && s.calls[s.threads[t].call].done
    case WakeCancelled(t) => t in s.threads && s.threads[t].Waiting? && t in s.contexts
  }

  function Go(s: State, t: Thread, place: Place): State {
    s.(threads := s.threads[t := place])
  }

  function Do(s: State, e: Event): State
    requires Enabled(s, e)
  {
    match e
    case Ask(t) => Go(s, t, Looping)
    case EndContext(t, kind) => s.(contexts := s.contexts[t := kind])
    case Look(t, newCall) =>
      if s.configured.Some? then
        var err := if s.versionChecked then s.versionErr else s.configured;
        Go(s, t, Returned(Cached, err)).(versionChecked := true, versionErr := err,
                                         writes := if s.versionChecked then s.writes else s.writes + 1)
      else if s.versionChecked then Go(s, t, Returned(Cached, s.versionErr))
      else if s.versionCall.Some? then Go(s, t, Waiting(s.versionCall.value))
      else
        Go(s, t, Resolving(newCall)).(versionCall := Some(newCall),
                                      calls := s.calls[newCall := Call(t, false, None, false, None)])
    case Resolve(t, d) =>
      var id := s.threads[t].call;
      Go(s, t, Resolved(id, AnswerOf(d))).(detected := s.detected[id := d])
    case Observe(t) =>
      var seen := if t in s.contexts then Some(s.contexts[t]) else None;
      Go(s, t, Publishing(s.threads[t].call, s.threads[t].answer, seen))
    case Publish(t) =>
      var p := s.threads[t];
      var retry := p.seen.Some? && p.answer.Some? && p.seen.value in p.answer.value.kinds;
      var told := Go(s, t, Returned(Led(p.call), p.answer)).(
                  versionCall := None,
                  calls := s.calls[p.call := Call(t, true, p.answer, retry, p.seen)]);
      if Settles(p.answer) then
        told.(versionChecked := true, versionErr := if p.answer.Some? then p.answer else s.versionErr,
              writes := s.writes + 1)
      else told
    case WakeDone(t) =>
      var id := s.threads[t].call;
      if s.calls[id].retryForWaiters then Go(s, t, Looping) else Go(s, t, Returned(Shared(id), s.calls[id].answer))
    case WakeCancelled(t) => Go(s, t, Returned(OwnCancellation, Some(Error("context", false, {s.contexts[t]}))))
  }

  predicate Leads(place: Place) {
    place.Resolving? || place.Resolved? || place.Publishing?
  }

  predicate SettledKindFree(answer: Answer) {
    answer.Some? && !answer.value.detection ==> answer.value.kinds == {}
  }

  predicate IsDetected(s: State, id: CallId, answer: Answer) {
    id in s.detected && AnswerOf(s.detected[id]) == answer
  }

  /** Who owns a call is leading it or has returned from it. */
  predicate Owns(place: Place, id: CallId) {
    || (Leads(place) && place.call == id)
    || (place.Returned? && place.how == Led(id))
  }

  /** What a finished call may pass on. */
  predicate CallOk(s: State, id: CallId)
    requires id in s.calls
  {
    OutcomeOk(s, s.calls[id]) && OwnerOk(s, id)
  }

  predicate OwnerOk(s: State, id: CallId)
    requires id in s.calls
  {
    var call := s.calls[id];
    && call.owner in s.threads && Owns(s.threads[call.owner], id)
    && (call.done ==> IsDetected(s, id, call.answer))
  }

  predicate OutcomeOk(s: State, call: Call) {
    && (call.done && call.answer.Some? ==>
          (call.retryForWaiters <==> call.ownerContext.Some? && call.ownerContext.value in call.answer.value.kinds))
    && (call.done && call.retryForWaiters ==> call.answer.Some?)
    && (call.done && Settles(call.answer) ==> s.versionChecked && s.versionErr == call.answer)
  }

  predicate PlaceOk(s: State, t: Thread, place: Place) {
    match place
    case Looping => true
    case Resolving(id) => s.versionCall == Some(id) && id in s.calls && s.calls[id].owner == t
    case Resolved(id, answer) =>
      s.versionCall == Some(id) && id in s.calls && s.calls[id].owner == t && IsDetected(s, id, answer)
    case Publishing(id, answer, _) =>
      s.versionCall == Some(id) && id in s.calls && s.calls[id].owner == t && IsDetected(s, id, answer)
    case Waiting(id) => id in s.calls && (s.calls[id].done || s.versionCall == Some(id))
    case Returned(how, answer) =>
      match how
      case Cached => s.versionChecked && s.versionErr == answer
      case OwnCancellation => t in s.contexts && answer.Some? && answer.value.kinds == {s.contexts[t]}
      case Shared(id) =>
        id in s.calls && s.calls[id].done && !s.calls[id].retryForWaiters && s.calls[id].answer == answer
      case Led(id) =>
        && id in s.calls && s.calls[id].done && s.calls[id].owner == t && s.calls[id].answer == answer
        && (Settles(answer) ==> s.versionChecked && s.versionErr == answer)
  }

  ghost predicate Inv(s: State) {
    && (forall t :: t in s.threads ==> PlaceOk(s, t, s.threads[t]))
    && (forall id :: id in s.calls ==> CallOk(s, id))
    && (s.versionCall.Some? ==>
          !s.versionChecked && s.configured.None? && s.versionCall.value in s.calls
            && !s.calls[s.versionCall.value].done)
    && (s.versionChecked ==>
          || s.versionErr == s.configured
          || (s.configured.None? && Settles(s.versionErr) && SettledKindFree(s.versionErr)))
    && (!s.versionChecked ==> s.versionErr == None)
    && (s.writes == if s.versionChecked then 1 else 0)
  }

  /** The cache is written at most once and what is in it stays. */
  lemma StepKeepsCache(s: State, e: Event)
    requires Inv(s) && Enabled(s, e)
    ensures s.versionChecked ==>
            Do(s, e).versionChecked && Do(s, e).versionErr == s.versionErr && Do(s, e).writes == s.writes
  {
    if e.Publish? {
      assert PlaceOk(s, e.t, s.threads[e.t]);
    }
  }

  /** Only publishing changes a call that someone relies on, and only resolving what came of one. */
  lemma CallsGoOn(s: State, e: Event, id: CallId)
    requires Inv(s) && Enabled(s, e) && id in s.calls
    ensures id in Do(s, e).calls && Do(s, e).calls[id].owner == s.calls[id].owner
    ensures s.calls[id].done ==> Do(s, e).calls[id] == s.calls[id]
    ensures Do(s, e).calls[id] != s.calls[id] ==> e.Publish? && Do(s, e).calls[id].done
  {
    if e.Publish? {
      assert PlaceOk(s, e.t, s.threads[e.t]);
    }
  }

  /** Threads that do not move keep what they rely on. */
  lemma OthersStayOk(s: State, e: Event, t: Thread)
    requires Inv(s) && Enabled(s, e) && t in s.threads && (t != e.t || e.EndContext?)
    ensures PlaceOk(Do(s, e), t, s.threads[t])
  {
    assert PlaceOk(s, t, s.threads[t]);
    if s.threads[t].Returned? {
      ReturnedStayOk(s, e, t);
    } else if Leads(s.threads[t]) {
      LeadersStayOk(s, e, t);
    } else if s.threads[t].Waiting? {
      CallsGoOn(s, e, s.threads[t].call);
      WaitersStayOk(s, e, t);
    }
  }

  lemma ReturnedStayOk(s: State, e: Event, t: Thread)
    requires Inv(s) && Enabled(s, e) && t in s.threads && s.threads[t].Returned?
    ensures PlaceOk(Do(s, e), t, s.threads[t])
  {
    assert PlaceOk(s, t, s.threads[t]);
    StepKeepsCache(s, e);
    if s.threads[t].how.Shared? || s.threads[t].how.Led? {
      CallsGoOn(s, e, s.threads[t].how.call);
    }
  }

  lemma LeadersStayOk(s: State, e: Event, t: Thread)
    requires Inv(s) && Enabled(s, e) && t in s.threads && Leads(s.threads[t]) && (t != e.t || e.EndContext?)
    ensures PlaceOk(Do(s, e), t, s.threads[t])
  {
    assert PlaceOk(s, t, s.threads[t]);
    CallsGoOn(s, e, s.threads[t].call);
    if e.t in s.threads {
      assert PlaceOk(s, e.t, s.threads[e.t]);
    }
  }

  lemma WaitersStayOk(s: State, e: Event, t: Thread)
    requires Inv(s) && Enabled(s, e) && t in s.threads && s.threads[t].Waiting?
    requires var id := s.threads[t].call;
             && id in s.calls && (s.calls[id].done || s.versionCall == Some(id))
             && id in Do(s, e).calls && (s.calls[id].done ==> Do(s, e).calls[id].done)
    ensures PlaceOk(Do(s, e), t, s.threads[t])
  {
    if e.Publish? {
      assert PlaceOk(s, e.t, s.threads[e.t]);
    }
  }

  lemma MoverIsOk(s: State, e: Event)
    requires Inv(s) && Enabled(s, e)
    ensures e.t in Do(s, e).threads && PlaceOk(Do(s, e), e.t, Do(s, e).threads[e.t])
  {
    if e.t in s.threads {
      assert PlaceOk(s, e.t, s.threads[e.t]);
      if e.WakeDone? {
        assert CallOk(s, s.threads[e.t].call);
      }
    }
  }

  /** A leader goes on leading its call until it has returned from it. */
  lemma OwnersStay(s: State, e: Event, t: Thread, id: CallId)
    requires Enabled(s, e) && t in s.threads && Owns(s.threads[t], id)
    ensures t in Do(s, e).threads && Owns(Do(s, e).threads[t], id)
  {
  }

  /** What came of a detection is settled before its call is done. */
  lemma DetectionStays(s: State, e: Event, id: CallId)
    requires Inv(s) && Enabled(s, e) && id in s.calls && s.calls[id].done && IsDetected(s, id, s.calls[id].answer)
    ensures id in Do(s, e).calls && Do(s, e).calls[id] == s.calls[id] && IsDetected(Do(s, e), id, s.calls[id].answer)
  {
    if e.t in s.threads {
      assert PlaceOk(s, e.t, s.threads[e.t]);
    }
  }

  lemma NewCallIsOwned(s: State, e: Event, id: CallId)
    requires Enabled(s, e) && id in Do(s, e).calls && id !in s.calls
    ensures OwnerOk(Do(s, e), id)
  {
  }

  lemma OwnersStayOk(s: State, e: Event, id: CallId)
    requires Inv(s) && Enabled(s, e) && id in s.calls
    ensures id in Do(s, e).calls && OwnerOk(Do(s, e), id)
  {
    assert CallOk(s, id);
    OwnersStay(s, e, s.calls[id].owner, id);
    if s.calls[id].done {
      DetectionStays(s, e, id);
    } else if e.Publish? {
      assert PlaceOk(s, e.t, s.threads[e.t]);
    }
  }

  lemma OutcomesStayOk(s: State, e: Event, id: CallId)
    requires Inv(s) && Enabled(s, e) && id in Do(s, e).calls
    ensures OutcomeOk(Do(s, e), Do(s, e).calls[id])
  {
    StepKeepsCache(s, e);
    if id in s.calls {
      assert CallOk(s, id);
    }
    if e.Publish? {
      assert PlaceOk(s, e.t, s.threads[e.t]);
    }
  }

  lemma CacheStaysOk(s: State, e: Event)
    requires Inv(s) && Enabled(s, e)
    ensures var d := Do(s, e);
            && (d.versionCall.Some? ==>
                  !d.versionChecked && d.configured.None? && d.versionCall.value in d.calls
                    && !d.calls[d.versionCall.value].done)
            && (d.versionChecked ==>
                  || d.versionErr == d.configured
                  || (d.configured.None? && Settles(d.versionErr) && SettledKindFree(d.versionErr)))
            && (!d.versionChecked ==> d.versionErr == None)
            && (d.writes == if d.versionChecked then 1 else 0)
  {
    if e.t in s.threads {
      assert PlaceOk(s, e.t, s.threads[e.t]);
    }
  }

  ghost predicate PlacesOk(s: State) {
    forall t :: t in s.threads ==> PlaceOk(s, t, s.threads[t])
  }

  ghost predicate CallsOk(s: State) {
    forall id :: id in s.calls ==> CallOk(s, id)
  }

  lemma OnlyOneMoves(s: State, e: Event, t: Thread)
    requires Enabled(s, e) && t in Do(s, e).threads && t != e.t
    ensures t in s.threads && Do(s, e).threads[t] == s.threads[t]
  {
  }

  lemma StepKeepsPlaces(s: State, e: Event)
    requires Inv(s) && Enabled(s, e)
    ensures PlacesOk(Do(s, e))
  {
    forall t | t in Do(s, e).threads ensures PlaceOk(Do(s, e), t, Do(s, e).threads[t]) {
      if t == e.t {
        MoverIsOk(s, e);
      } else {
        OnlyOneMoves(s, e, t);
        OthersStayOk(s, e, t);
      }
    }
  }

  lemma StepKeepsCalls(s: State, e: Event)
    requires Inv(s) && Enabled(s, e)
    ensures CallsOk(Do(s, e))
  {
    forall id | id in Do(s, e).calls ensures CallOk(Do(s, e), id) {
      if id in s.calls {
        OwnersStayOk(s, e, id);
      } else {
        NewCallIsOwned(s, e, id);
      }
      OutcomesStayOk(s, e, id);
    }
  }

  lemma StepKeepsInv(s: State, e: Event)
    requires Inv(s) && Enabled(s, e)
    ensures Inv(Do(s, e))
  {
    CacheStaysOk(s, e);
    StepKeepsPlaces(s, e);
    StepKeepsCalls(s, e);
  }

  // ---- whole runs ----

  ghost predicate Possible(s: State, events: seq<Event>)
    decreases |events|
  {
    events == [] || (Enabled(s, events[0]) && Possible(Do(s, events[0]), events[1..]))
  }

  function Run(s: State, events: seq<Event>): State
    requires Possible(s, events)
    decreases |events|
  {
    if events == [] then s else Run(Do(s, events[0]), events[1..])
  }

  lemma {:induction false} RunKeepsInv(s: State, events: seq<Event>)
    requires Inv(s) && Possible(s, events)
    ensures Inv(Run(s, events))
    ensures s.versionChecked ==> Run(s, events).versionChecked && Run(s, events).versionErr == s.versionErr
    decreases |events|
  {
    if events != [] {
      StepKeepsInv(s, events[0]);
      StepKeepsCache(s, events[0]);
      RunKeepsInv(Do(s, events[0]), events[1..]);
    }
  }

  ghost predicate Reachable(configured: Option<Error>, s: State) {
    exists events :: Possible(Initial(configured), events) && Run(Initial(configured), events) == s
  }

  lemma ReachableIsOk(configured: Option<Error>, s: State)
    requires Reachable(configured, s)
    ensures Inv(s)
  {
    var events :| Possible(Initial(configured), events) && Run(Initial(configured), events) == s;
    RunKeepsInv(Initial(configured), events);
  }

  /** In any interleaving at most one thread is between starting a detection and publishing it. */
  lemma OneDetection(configured: Option<Error>, s: State, t: Thread, o: Thread)
    requires Reachable(configured, s) && t in s.threads && o in s.threads
    requires Leads(s.threads[t]) && Leads(s.threads[o])
    ensures t == o
  {
    ReachableIsOk(configured, s);
    assert PlaceOk(s, t, s.threads[t]) && PlaceOk(s, o, s.threads[o]);
  }

  /**
   The cached outcome is written at most once, never changes, and never holds a context error or an unfinished
   detection.
   */
  lemma CacheIsFinal(configured: Option<Error>, s: State, more: seq<Event>)
    requires Reachable(configured, s) && Possible(s, more)
    ensures s.writes <= 1
    ensures s.versionChecked ==>
            Run(s, more).versionChecked && Run(s, more).versionErr == s.versionErr && Run(s, more).writes == 1
    ensures s.versionChecked && s.configured.None? ==>
            Settles(s.versionErr) && (s.versionErr.Some? ==> s.versionErr.value.kinds == {})
  {
    ReachableIsOk(configured, s);
    RunKeepsInv(s, more);
  }

  /**
   What CheckAPIVersion returned is the end of the caller's own context, or the cached outcome, or what its
   own detection came to, or another's outcome that is not the end of that other's context.
   */
  lemma WhatIsReturned(configured: Option<Error>, s: State, t: Thread)
    requires Reachable(configured, s) && t in s.threads && s.threads[t].Returned?
    ensures var how, answer := s.threads[t].how, s.threads[t].answer;
            match how
            case Cached => s.versionChecked && answer == s.versionErr
            case OwnCancellation => t in s.contexts && answer.Some? && s.contexts[t] in answer.value.kinds
            case Led(id) =>
              && IsOwnDetection(s, t, id, answer)
              && (Settles(answer) ==> s.versionChecked && s.versionErr == answer)
            case Shared(id) =>
              && NotTheLeadersContext(s, id, answer)
              && s.calls[id].owner != t
              && IsDetected(s, id, answer)
  {
    ReachableIsOk(configured, s);
    assert PlaceOk(s, t, s.threads[t]);
    if s.threads[t].how.Shared? || s.threads[t].how.Led? {
      assert CallOk(s, s.threads[t].how.call);
    }
  }

  /** The answer is what the caller's own detection came to. */
  predicate IsOwnDetection(s: State, t: Thread, id: CallId, answer: Answer) {
    id in s.calls && s.calls[id].owner == t && IsDetected(s, id, answer)
  }

  ghost predicate NotTheLeadersContext(s: State, id: CallId, answer: Answer) {
    && id in s.calls && s.calls[id].done && s.calls[id].answer == answer
    && (answer.Some? && s.calls[id].ownerContext.Some? ==> s.calls[id].ownerContext.value !in answer.value.kinds)
  }

  /** All callers who were told something final were told the same. */
  lemma FinalAnswersAgree(configured: Option<Error>, s: State, t: Thread, o: Thread)
    requires Reachable(configured, s) && t in s.threads && o in s.threads
    requires s.threads[t].Returned? && !s.threads[t].how.OwnCancellation? && Settles(s.threads[t].answer)
    requires s.threads[o].Returned? && !s.threads[o].how.OwnCancellation? && Settles(s.threads[o].answer)
    ensures s.threads[t].answer == s.threads[o].answer
  {
    ReachableIsOk(configured, s);
    forall x | x == t || x == o ensures s.threads[x].answer == s.versionErr {
      assert PlaceOk(s, x, s.threads[x]);
      if s.threads[x].how.Shared? {
        assert CallOk(s, s.threads[x].how.call);
      }
    }
  }

  // ---- in terms of what detection found ----

  /** The server was asked and answered: an API version was selected, or the server was refused for a reason. */
  predicate Answered(d: Detection) {
    d.Selected? || d.VersionRefused? || d.SelectionRefused?
  }

  /** This is what a caller is to be told of it. */
  predicate Tells(d: Detection, answer: Answer) {
    match d
    case Selected => answer.None?
    case VersionRefused(reason) => answer == Some(Error(reason, false, {}))
    case SelectionRefused(reason) => answer == Some(Error(reason, false, {}))
    case InfoFailed(kinds) => answer.Some? && answer.value.detection && answer.value.kinds == kinds
    case VersionsFailed(kinds) => answer.Some? && answer.value.detection && answer.value.kinds == kinds
  }

  /** A finished detection tells what it found, and if the server answered that is what is cached from then on. */
  lemma DetectionDecides(configured: Option<Error>, s: State, id: CallId)
    requires Reachable(configured, s) && id in s.calls && s.calls[id].done
    ensures id in s.detected && Tells(s.detected[id], s.calls[id].answer)
    ensures Answered(s.detected[id]) ==> s.versionChecked && Tells(s.detected[id], s.versionErr)
  {
    ReachableIsOk(configured, s);
    assert CallOk(s, id);
  }

  /** The cache has what some finished detection found. */
  ghost predicate HasSource(s: State) {
    s.versionChecked && s.configured.None? ==>
      exists id :: id in s.calls && s.calls[id].done && Settles(s.calls[id].answer)
  }

  lemma StepKeepsSource(s: State, e: Event)
    requires Inv(s) && HasSource(s) && Enabled(s, e)
    ensures HasSource(Do(s, e))
  {
    var d := Do(s, e);
    if s.versionChecked && s.configured.None? {
      var id :| id in s.calls && s.calls[id].done && Settles(s.calls[id].answer);
      CallsGoOn(s, e, id);
    } else if d.versionChecked && d.configured.None? {
      assert e.Publish? && d.calls[s.threads[e.t].call].done;
    }
  }

  lemma {:induction false} RunKeepsSource(s: State, events: seq<Event>)
    requires Inv(s) && HasSource(s) && Possible(s, events)
    ensures HasSource(Run(s, events))
    decreases |events|
  {
    if events != [] {
      StepKeepsInv(s, events[0]);
      StepKeepsSource(s, events[0]);
      RunKeepsSource(Do(s, events[0]), events[1..]);
    }
  }

  /** Unless the configuration alone decides, only a server that answered gets into the cache. */
  lemma CacheIsAnAnswer(configured: Option<Error>, s: State)
    requires Reachable(configured, s) && s.versionChecked && s.configured.None?
    ensures exists id :: id in s.detected && Answered(s.detected[id]) && Tells(s.detected[id], s.versionErr)
  {
    var events :| Possible(Initial(configured), events) && Run(Initial(configured), events) == s;
    RunKeepsSource(Initial(configured), events);
    var id :| id in s.calls && s.calls[id].done && Settles(s.calls[id].answer);
    DetectionDecides(configured, s, id);
  }

  // ---- what waiters inherit ----

  /** The end of the leader's own context is in its answer. */
  predicate FailedByContext(s: State, t: Thread, answer: Answer) {
    t in s.contexts && answer.Some? && s.contexts[t] in answer.value.kinds
  }

  /** The leader saw that its own context was in the way, and waiters will be, or have been, told to try again. */
  predicate Withheld(s: State, t: Thread, id: CallId) {
    || (id in s.calls && s.calls[id].done && s.calls[id].retryForWaiters)
    || (t in s.threads && s.threads[t].Publishing? && s.threads[t].call == id
        && s.threads[t].answer.Some? && s.threads[t].seen.Some?
        && s.threads[t].seen.value in s.threads[t].answer.value.kinds)
  }

  lemma StepKeepsWithheld(s: State, e: Event, t: Thread, id: CallId)
    requires Inv(s) && Enabled(s, e) && Withheld(s, t, id)
    ensures Withheld(Do(s, e), t, id)
  {
    if id in s.calls && s.calls[id].done {
      CallsGoOn(s, e, id);
    }
  }

  lemma {:induction false} RunKeepsWithheld(s: State, events: seq<Event>, t: Thread, id: CallId)
    requires Inv(s) && Possible(s, events) && Withheld(s, t, id)
    ensures Withheld(Run(s, events), t, id)
    decreases |events|
  {
    if events != [] {
      StepKeepsInv(s, events[0]);
      StepKeepsWithheld(s, events[0], t, id);
      RunKeepsWithheld(Do(s, events[0]), events[1..], t, id);
    }
  }

  /**
   When a leader looks at its own context and finds that the end of it is why its detection failed, no waiter ever
   inherits that failure: whenever one wakes up for this call it starts over.
   */
  lemma LeadersContextIsNotInherited(configured: Option<Error>, s: State, t: Thread, more: seq<Event>, o: Thread)
    requires Reachable(configured, s) && t in s.threads && s.threads[t].Resolved?
    requires FailedByContext(s, t, s.threads[t].answer)
    requires Enabled(s, Observe(t)) && Possible(Do(s, Observe(t)), more)
    requires var d := Run(Do(s, Observe(t)), more); Enabled(d, WakeDone(o)) && d.threads[o].call == s.threads[t].call
    ensures var d := Run(Do(s, Observe(t)), more); Do(d, WakeDone(o)).threads[o] == Looping
  {
    ReachableIsOk(configured, s);
    StepKeepsInv(s, Observe(t));
    RunKeepsInv(Do(s, Observe(t)), more);
    RunKeepsWithheld(Do(s, Observe(t)), more, t, s.threads[t].call);
    var d := Run(Do(s, Observe(t)), more);
    var id := s.threads[t].call;
    assert CallOk(d, id);
    assert t in d.threads ==> PlaceOk(d, t, d.threads[t]);
  }

  /** What leaders saw of their contexts is true. */
  ghost predicate SeenOk(s: State) {
    && (forall t :: t in s.threads ==> SawItsContext(s, t, s.threads[t]))
    && (forall id :: id in s.calls ==> IsContextOf(s, s.calls[id].owner, s.calls[id].ownerContext))
  }

  predicate IsContextOf(s: State, t: Thread, seen: Option<ContextError>) {
    seen.Some? ==> t in s.contexts && s.contexts[t] == seen.value
  }

  predicate SawItsContext(s: State, t: Thread, place: Place) {
    place.Publishing? ==> IsContextOf(s, t, place.seen)
  }

  lemma ContextsStay(s: State, e: Event, t: Thread, seen: Option<ContextError>)
    requires Enabled(s, e) && IsContextOf(s, t, seen)
    ensures IsContextOf(Do(s, e), t, seen)
  {
  }

  lemma ThreadsSee(s: State, e: Event, t: Thread)
    requires Enabled(s, e) && t in Do(s, e).threads && (t in s.threads ==> SawItsContext(s, t, s.threads[t]))
    ensures SawItsContext(Do(s, e), t, Do(s, e).threads[t])
  {
    if t != e.t {
      OnlyOneMoves(s, e, t);
      if s.threads[t].Publishing? {
        ContextsStay(s, e, t, s.threads[t].seen);
      }
    }
  }

  lemma CallsSee(s: State, e: Event, id: CallId)
    requires Enabled(s, e) && id in Do(s, e).calls
    requires id in s.calls ==> IsContextOf(s, s.calls[id].owner, s.calls[id].ownerContext)
    requires e.Publish? ==> SawItsContext(s, e.t, s.threads[e.t])
    ensures IsContextOf(Do(s, e), Do(s, e).calls[id].owner, Do(s, e).calls[id].ownerContext)
  {
    if id in s.calls {
      ContextsStay(s, e, s.calls[id].owner, s.calls[id].ownerContext);
    }
  }

  lemma StepKeepsSeen(s: State, e: Event)
    requires SeenOk(s) && Enabled(s, e)
    ensures SeenOk(Do(s, e))
  {
    forall t | t in Do(s, e).threads ensures SawItsContext(Do(s, e), t, Do(s, e).threads[t]) {
      ThreadsSee(s, e, t);
    }
    forall id | id in Do(s, e).calls
      ensures IsContextOf(Do(s, e), Do(s, e).calls[id].owner, Do(s, e).calls[id].ownerContext)
    {
      CallsSee(s, e, id);
    }
  }

  lemma {:induction false} RunKeepsSeen(s: State, events: seq<Event>)
    requires SeenOk(s) && Possible(s, events)
    ensures SeenOk(Run(s, events))
    decreases |events|
  {
    if events != [] {
      StepKeepsSeen(s, events[0]);
      RunKeepsSeen(Do(s, events[0]), events[1..]);
    }
  }

  /**
   And that is the only reason to start over: a waiter woken for a finished call does so only if the leader's context
   has ended and is why its detection failed, and otherwise returns with the leader's answer.
   */
  lemma WaitersInheritTheRest(configured: Option<Error>, s: State, o: Thread)
    requires Reachable(configured, s) && Enabled(s, WakeDone(o))
    ensures var id := s.threads[o].call; var after := Do(s, WakeDone(o)).threads[o];
            || (after == Looping && FailedByContext(s, s.calls[id].owner, s.calls[id].answer))
            || after == Returned(Shared(id), s.calls[id].answer)
  {
    ReachableIsOk(configured, s);
    var events :| Possible(Initial(configured), events) && Run(Initial(configured), events) == s;
    RunKeepsSeen(Initial(configured), events);
    assert CallOk(s, s.threads[o].call);
  }

  /** No waiter is stuck: its call is finished, or the one who leads it has its next step before it. */
  lemma NoWaiterIsStuck(configured: Option<Error>, s: State, t: Thread)
    requires Reachable(configured, s) && t in s.threads && s.threads[t].Waiting?
    ensures var id := s.threads[t].call; id in s.calls
    ensures var leader := s.calls[s.threads[t].call].owner;
            || Enabled(s, WakeDone(t))
            || Enabled(s, Observe(leader)) || Enabled(s, Publish(leader))
            || forall d :: Enabled(s, Resolve(leader, d))
  {
    ReachableIsOk(configured, s);
    assert PlaceOk(s, t, s.threads[t]);
    var id := s.threads[t].call;
    assert CallOk(s, id);
    var leader := s.calls[id].owner;
    assert PlaceOk(s, leader, s.threads[leader]);
  }
}
