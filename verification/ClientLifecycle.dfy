/**
 Streams opened directly on the client, and the client's Close: who closes each server operation, however
 opening, reading and closing interleave. One event is one section under the client's mutex, one answer of the
 server, or one step of a call that finishes a stream. Such calls may be any number on one stream: a Next that
 has come to the end, a Close of the reader, and the client's Close.
 */
module ClientLifecycle {
  import opened Text

  type StreamId = nat
  type Caller = nat

  datatype Place =
    | Submitting // the statement is on its way
    | Opened     // the operation exists, the stream is not registered yet
    | Live       // registered, in the hands of its reader
    | Refused    // the client was closed first: its creator has to clean up
    | Cleaning   // someone is inside cleanupOnce
    | Cleaned
    | Failed     // the statement was never accepted

  /** once is the stream's sync.Once, with who got through; closes counts the requests that closed the operation. */
  datatype Stream = Stream(place: Place, once: Option<Caller>, closes: nat)

  /** Where a finishing call is: before the once, inside it before and after the requests, behind it, or back. */
  datatype Stage = Entering | Inside | Requested | Awaiting | Over

  datatype Call = Call(id: StreamId, stage: Stage)

  datatype Closer = NotClosing | Closing(todo: set<StreamId>, current: Option<Caller>) | Finished

  datatype State = State(
    clientClosed: bool,
    registered: set<StreamId>,
    streams: map<StreamId, Stream>,
    calls: map<Caller, Call>,
    closer: Closer)

  const INIT := State(false, {}, map[], map[], NotClosing)

  datatype Event =
    | Submit(id: StreamId) | Accepted(id: StreamId) | Rejected(id: StreamId)
    | Register(id: StreamId) | CreatorCleans(id: StreamId)
    | Finish(c: Caller, id: StreamId)     // a reader's call
    | EnterOnce(c: Caller)
    | CloseOperation(c: Caller)
    | CleanupEnds(c: Caller)              // cleanupDone is closed, the stream unregistered
    | Return(c: Caller)
    | CloseClient
    | CloserFinishes(c: Caller, id: StreamId)
    | CloserGoesOn                        // its call on one stream is back
    | CloseReturns

  predicate IsAt(s: State, id: StreamId, place: Place) {
    id in s.streams && s.streams[id].place == place
  }

  /** Registered at some time, and so in someone's hands. */
  predicate HandedOut(s: State, id: StreamId) {
    && id in s.streams
    && (s.streams[id].place in {Live, Cleaning} || (s.streams[id].place == Cleaned && s.streams[id].once.Some?))
  }

  predicate CallAt(s: State, c: Caller, stage: Stage) {
    c in s.calls && s.calls[c].stage == stage && s.calls[c].id in s.streams
  }

  predicate Enabled(s: State, e: Event) {
    match e
    case Submit(id) => id !in s.streams && !s.clientClosed
    case Accepted(id) => IsAt(s, id, Submitting)
    case Rejected(id) => IsAt(s, id, Submitting)
    case Register(id) => IsAt(s, id, Opened)
    case CreatorCleans(id) => IsAt(s, id, Refused)
    case Finish(c, id) => c !in s.calls && HandedOut(s, id)
    case EnterOnce(c) => CallAt(s, c, Entering)
    case CloseOperation(c) => CallAt(s, c, Inside)
    case CleanupEnds(c) => CallAt(s, c, Requested)
    case Return(c) => CallAt(s, c, Awaiting) && IsAt(s, s.calls[c].id, Cleaned)
    case CloseClient => s.closer == NotClosing
    case CloserFinishes(c, id) => c !in s.calls && s.closer.Closing? && s.closer.current.None? && id in s.closer.todo
    case CloserGoesOn => s.closer.Closing? && s.closer.current.Some? && CallAt(s, s.closer.current.value, Over)
    case CloseReturns => s.closer == Closing({}, None)
  }

  function Put(s: State, id: StreamId, stream: Stream): State {
    s.(streams := s.streams[id := stream])
  }

  function Move(s: State, c: Caller, stage: Stage): State
    requires c in s.calls
  {
    s.(calls := s.calls[c := s.calls[c].(stage := stage)])
  }

  function Do(s: State, e: Event): State
    requires Enabled(s, e)
  {
    match e
    case Submit(id) => Put(s, id, Stream(Submitting, None, 0))
    case Accepted(id) => Put(s, id, s.streams[id].(place := Opened))
    case Rejected(id) => Put(s, id, s.streams[id].(place := Failed))
    case Register(id) =>
      if s.clientClosed then Put(s, id, s.streams[id].(place := Refused))
      else Put(s, id, s.streams[id].(place := Live)).(registered := s.registered + {id})
    case CreatorCleans(id) => Put(s, id, s.streams[id].(place := Cleaned, closes := s.streams[id].closes + 1))
    case Finish(c, id) => s.(calls := s.calls[c := Call(id, Entering)])
    case EnterOnce(c) =>
      var id := s.calls[c].id;
      if s.streams[id].once.Some? then Move(s, c, Awaiting)
      else Put(Move(s, c, Inside), id, s.streams[id].(place := Cleaning, once := Some(c)))
    case CloseOperation(c) =>
      var id := s.calls[c].id;
      Put(Move(s, c, Requested), id, s.streams[id].(closes := s.streams[id].closes + 1))
    case CleanupEnds(c) =>
      var id := s.calls[c].id;
      Put(Move(s, c, Awaiting), id, s.streams[id].(place := Cleaned)).(registered := s.registered - {id})
    case Return(c) => Move(s, c, Over)
    case CloseClient => s.(clientClosed := true, closer := Closing(s.registered, None))
    case CloserFinishes(c, id) =>
      s.(calls := s.calls[c := Call(id, Entering)], closer := Closing(s.closer.todo, Some(c)))
    case CloserGoesOn => s.(closer := Closing(s.closer.todo - {s.calls[s.closer.current.value].id}, None))
    case CloseReturns => s.(closer := Finished)
  }

  // ---- invariant ----

  predicate HasOperation(place: Place) {
    place != Submitting && place != Failed
  }

  predicate InOnce(stage: Stage) {
    stage == Inside || stage == Requested
  }

  /** One caller at most is inside the once of a stream, and the operation is closed when it has made its requests. */
  ghost predicate StreamOk(s: State, id: StreamId)
    requires id in s.streams
  {
    var stream := s.streams[id];
    && (stream.once.Some? ==> stream.place in {Cleaning, Cleaned})
    && (stream.place == Cleaning ==>
          && stream.once.Some? && stream.once.value in s.calls
          && s.calls[stream.once.value].id == id && InOnce(s.calls[stream.once.value].stage))
    && stream.closes ==
       if stream.place == Cleaned || (stream.place == Cleaning && s.calls[stream.once.value].stage == Requested)
       then 1 else 0
  }

  ghost predicate CallOk(s: State, c: Caller)
    requires c in s.calls
  {
    var call := s.calls[c];
    && HandedOut(s, call.id)
    && (InOnce(call.stage) ==> IsAt(s, call.id, Cleaning) && s.streams[call.id].once == Some(c))
    && (call.stage == Awaiting || call.stage == Over ==> s.streams[call.id].once.Some?)
    && (call.stage == Over ==> IsAt(s, call.id, Cleaned))
  }

  ghost predicate ClientOk(s: State) {
    && (forall id :: id in s.registered <==> IsAt(s, id, Live) || IsAt(s, id, Cleaning))
    && (forall id :: IsAt(s, id, Refused) ==> s.clientClosed)
    && (s.clientClosed <==> s.closer != NotClosing)
    && (s.closer.Closing? ==> s.registered <= s.closer.todo && forall id :: id in s.closer.todo ==> HandedOut(s, id))
    && (s.closer.Closing? && s.closer.current.Some? ==> s.closer.current.value in s.calls)
    && (s.closer == Finished ==> s.registered == {})
  }

  ghost predicate Inv(s: State) {
    && (forall id :: id in s.streams ==> StreamOk(s, id))
    && (forall c :: c in s.calls ==> CallOk(s, c))
    && ClientOk(s)
  }

  lemma StreamStaysOk(s: State, e: Event, id: StreamId)
    requires Inv(s) && Enabled(s, e) && id in Do(s, e).streams
    ensures StreamOk(Do(s, e), id)
  {
    if id in s.streams {
      assert StreamOk(s, id);
    }
    if (e.CloseOperation? || e.CleanupEnds? || e.EnterOnce? || e.Return?) && e.c in s.calls {
      assert CallOk(s, e.c);
    }
  }

  predicate AboutCall(e: Event) {
    e.Finish? || e.EnterOnce? || e.CloseOperation? || e.CleanupEnds? || e.Return? || e.CloserFinishes?
  }

  /** Streams on their way in and the client's Close leave the calls alone. */
  lemma CallIsLeftAlone(s: State, e: Event, c: Caller)
    requires Inv(s) && Enabled(s, e) && !AboutCall(e) && c in s.calls
    ensures c in Do(s, e).calls && CallOk(Do(s, e), c)
  {
    assert CallOk(s, c) && StreamOk(s, s.calls[c].id);
  }

  lemma CallsAreLeftAlone(s: State, e: Event)
    requires Enabled(s, e) && !AboutCall(e)
    ensures Do(s, e).calls == s.calls
  {
  }

  lemma CallStaysOk(s: State, e: Event, c: Caller)
    requires Inv(s) && Enabled(s, e) && AboutCall(e) && c in Do(s, e).calls
    ensures CallOk(Do(s, e), c)
  {
    if c in s.calls {
      assert CallOk(s, c) && StreamOk(s, s.calls[c].id);
    }
    if e.c in s.calls {
      assert CallOk(s, e.c);
    }
  }

  /** The streams an event does not touch, and what becomes of the one it does. */
  lemma ClientStaysOk(s: State, e: Event)
    requires Inv(s) && Enabled(s, e)
    ensures ClientOk(Do(s, e))
    ensures s.clientClosed ==> Do(s, e).clientClosed && Do(s, e).registered <= s.registered
  {
    var d := Do(s, e);
    if (e.CloseOperation? || e.CleanupEnds? || e.EnterOnce? || e.Return?) && e.c in s.calls {
      assert CallOk(s, e.c) && StreamOk(s, s.calls[e.c].id);
    }
    if e.CloserGoesOn? {
      assert CallOk(s, s.closer.current.value);
    }
    forall id ensures id in d.registered <==> IsAt(d, id, Live) || IsAt(d, id, Cleaning) {
      assert id in s.registered <==> IsAt(s, id, Live) || IsAt(s, id, Cleaning);
    }
    forall id | IsAt(d, id, Refused) ensures d.clientClosed {
      assert IsAt(s, id, Refused) || e == Register(id);
    }
    forall id | d.closer.Closing? && id in d.closer.todo ensures HandedOut(d, id) {
      assert HandedOut(s, id);
    }
  }

  lemma StepKeepsInv(s: State, e: Event)
    requires Inv(s) && Enabled(s, e)
    ensures Inv(Do(s, e))
    ensures s.clientClosed ==> Do(s, e).clientClosed && Do(s, e).registered <= s.registered
  {
    ClientStaysOk(s, e);
    forall id | id in Do(s, e).streams ensures StreamOk(Do(s, e), id) {
      StreamStaysOk(s, e, id);
    }
    if AboutCall(e) {
      forall c | c in Do(s, e).calls ensures CallOk(Do(s, e), c) {
        CallStaysOk(s, e, c);
      }
    } else {
      CallsAreLeftAlone(s, e);
      forall c | c in s.calls ensures CallOk(Do(s, e), c) {
        CallIsLeftAlone(s, e, c);
      }
    }
  }

  ghost predicate Possible(s: State, events: seq<Event>)
    decreases |events|
  {
    events == [] || (Enabled(s, events[0]) && Possible(Do(s, events[0]), events[1..]))
  }

  function Run(s: State, events: seq<Event>): State
    requires Possible(s, events)
    decreases |events|
  {
    if events == [] then s else Run(Do(s, events[0]), events[1..])
  }

  lemma {:induction false} RunKeepsInv(s: State, events: seq<Event>)
    requires Inv(s) && Possible(s, events)
    ensures Inv(Run(s, events))
    ensures s.clientClosed ==> Run(s, events).clientClosed && Run(s, events).registered <= s.registered
    decreases |events|
  {
    if events != [] {
      StepKeepsInv(s, events[0]);
      RunKeepsInv(Do(s, events[0]), events[1..]);
    }
  }

  // ---- whole runs ----

  /** No operation is closed twice, and one that was opened is closed by the time its stream is done with. */
  lemma OperationClosedOnce(events: seq<Event>, id: StreamId)
    requires Possible(INIT, events) && id in Run(INIT, events).streams
    ensures var stream := Run(INIT, events).streams[id];
            && stream.closes <= 1 && (stream.place == Cleaned ==> stream.closes == 1)
            && (!HasOperation(stream.place) ==> stream.closes == 0)
  {
    RunKeepsInv(INIT, events);
    assert StreamOk(Run(INIT, events), id);
  }

  /** Of all calls that finish one stream at most one is inside its once. */
  lemma OneCleansUp(events: seq<Event>, c: Caller, d: Caller)
    requires Possible(INIT, events) && c in Run(INIT, events).calls && d in Run(INIT, events).calls
    requires var calls := Run(INIT, events).calls;
             calls[c].id == calls[d].id && InOnce(calls[c].stage) && InOnce(calls[d].stage)
    ensures c == d
  {
    RunKeepsInv(INIT, events);
    assert CallOk(Run(INIT, events), c) && CallOk(Run(INIT, events), d);
  }

  /** Whoever finished a stream comes back only when the operation is closed and the stream unregistered. */
  lemma FinishersReturnAfterCleanup(events: seq<Event>, c: Caller)
    requires Possible(INIT, events) && CallAt(Run(INIT, events), c, Over)
    ensures var s := Run(INIT, events); var id := s.calls[c].id;
            IsAt(s, id, Cleaned) && s.streams[id].closes == 1 && id !in s.registered
  {
    RunKeepsInv(INIT, events);
    var s := Run(INIT, events);
    assert CallOk(s, c) && StreamOk(s, s.calls[c].id);
  }

  /** And nobody waits in vain: a waiting call may return, or the one inside the once has its next step before it. */
  lemma NoFinisherIsStuck(events: seq<Event>, c: Caller)
    requires Possible(INIT, events) && CallAt(Run(INIT, events), c, Awaiting)
    ensures var s := Run(INIT, events); var id := s.calls[c].id;
            || Enabled(s, Return(c))
            || (s.streams[id].once.Some? && s.streams[id].once.value != c
                && (Enabled(s, CloseOperation(s.streams[id].once.value))
                      || Enabled(s, CleanupEnds(s.streams[id].once.value))))
  {
    RunKeepsInv(INIT, events);
    var s := Run(INIT, events);
    assert CallOk(s, c) && StreamOk(s, s.calls[c].id);
  }

  /**
   When the client's Close has returned, whatever happens after it, no stream is registered, and every operation
   ever opened is closed or still with its creator, whom registration refuses and who then closes it.
   */
  lemma CloseLeavesNoStream(events: seq<Event>, more: seq<Event>, id: StreamId)
    requires Possible(INIT, events) && Run(INIT, events).closer == Finished
    requires Possible(Run(INIT, events), more)
    ensures var s := Run(Run(INIT, events), more);
            && s.registered == {}
            && (id in s.streams && HasOperation(s.streams[id].place) ==>
                  || (s.streams[id].place == Cleaned && s.streams[id].closes == 1)
                  || (IsAt(s, id, Opened) && IsAt(Do(s, Register(id)), id, Refused))
                  || (IsAt(s, id, Refused) && Enabled(s, CreatorCleans(id))))
  {
    RunKeepsInv(INIT, events);
    RunKeepsInv(Run(INIT, events), more);
    var s := Run(Run(INIT, events), more);
    assert s.registered == {} && s.clientClosed;
    if id in s.streams {
      assert StreamOk(s, id);
      assert id !in s.registered;
    }
  }

  /** A stream that was registered before Close is in its snapshot until its cleanup is over. */
  lemma SnapshotMissesNothing(events: seq<Event>, id: StreamId)
    requires Possible(INIT, events) && Run(INIT, events).closer.Closing?
    requires IsAt(Run(INIT, events), id, Live) || IsAt(Run(INIT, events), id, Cleaning)
    ensures id in Run(INIT, events).closer.todo && !Enabled(Run(INIT, events), CloseReturns)
  {
    RunKeepsInv(INIT, events);
    assert id in Run(INIT, events).registered;
  }

  lemma {:induction false} ClosedSubmitsNothing(s: State, events: seq<Event>)
    requires s.clientClosed && Possible(s, events)
    ensures forall e :: e in events ==> !e.Submit?
    decreases |events|
  {
    if events != [] {
      ClosedSubmitsNothing(Do(s, events[0]), events[1..]);
      assert forall e :: e in events <==> e == events[0] || e in events[1..];
    }
  }

  /** Once the client's Close has begun no statement is submitted any more. */
  lemma {:induction false} NothingSubmittedAfterClose(s: State, events: seq<Event>, i: nat, j: nat)
    requires Possible(s, events) && i < j < |events| && events[i] == CloseClient
    ensures !events[j].Submit?
    decreases i
  {
    if i == 0 {
      ClosedSubmitsNothing(Do(s, events[0]), events[1..]);
      assert events[j] in events[1..];
    } else {
      NothingSubmittedAfterClose(Do(s, events[0]), events[1..], i - 1, j - 1);
    }
  }

  predicate PartOfClose(e: Event) {
    e.EnterOnce? || e.CloseOperation? || e.CleanupEnds? || e.Return? || e.CloserFinishes? || e.CloserGoesOn?
    || e.CloseReturns?
  }

  /** A Close that has begun and not returned can always go on, or the finisher it waits for can. */
  lemma CloseGoesOn(events: seq<Event>, caller: Caller) returns (e: Event)
    requires Possible(INIT, events) && Run(INIT, events).closer.Closing? && caller !in Run(INIT, events).calls
    ensures Enabled(Run(INIT, events), e) && PartOfClose(e)
  {
    RunKeepsInv(INIT, events);
    var s := Run(INIT, events);
    if s.closer.current.Some? {
      e := CallGoesOn(events, s.closer.current.value);
    } else if s.closer.todo == {} {
      e := CloseReturns;
    } else {
      var id :| id in s.closer.todo;
      e := CloserFinishes(caller, id);
    }
  }

  lemma CallGoesOn(events: seq<Event>, c: Caller) returns (e: Event)
    requires Possible(INIT, events) && Run(INIT, events).closer.Closing?
    requires Run(INIT, events).closer.current == Some(c) && c in Run(INIT, events).calls
    ensures Enabled(Run(INIT, events), e) && PartOfClose(e)
  {
    RunKeepsInv(INIT, events);
    var s := Run(INIT, events);
    assert CallOk(s, c);
    match s.calls[c].stage
    case Entering => e := EnterOnce(c);
    case Inside => e := CloseOperation(c);
    case Requested => e := CleanupEnds(c);
    case Awaiting =>
      NoFinisherIsStuck(events, c);
      if Enabled(s, Return(c)) {
        e := Return(c);
      } else {
        var inside := s.streams[s.calls[c].id].once.value;
        e := if Enabled(s, CloseOperation(inside)) then CloseOperation(inside) else CleanupEnds(inside);
      }
    case Over => e := CloserGoesOn;
  }
}
