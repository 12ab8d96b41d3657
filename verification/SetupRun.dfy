/**
 Running compiled setup steps: how the outcome of a POST is classified from what the client saw of it, and what
 the flags of the result say about the statements the server may have executed.
 */
module SetupRun {
  import opened Text
  import opened SetupCompile

  // ---- one POST ----

  /** What the HTTP trace reports while a request is on its way, in any order. */
  datatype TraceEvent = WroteHeaders | WroteRequest(failed: bool) | GotFirstByte

  /** What the client sees of a POST; it is never sent a second time. */
  datatype Exchange =
    | Unsendable                         // the client is closed, or the body cannot be encoded
    | NoResponse(trace: seq<TraceEvent>) // the transport failed
    | BodyLost(status: nat)              // the response broke off or was too long
    | Answered(status: nat)

  datatype Phase = NotSent | PossiblySent | HeaderMissing | BodyIncomplete | Received

  datatype PostError = ApiError(phase: Phase, status: nat) | OtherError

  function Advance(current: nat, next: nat): nat {
    if current >= next then current else next
  }

  function Progress(e: TraceEvent): nat {
    match e
    case WroteHeaders => 1
    case WroteRequest(failed) => if failed then 1 else 2
    case GotFirstByte => 3
  }

  function ProgressAfter(trace: seq<TraceEvent>): nat {
    if trace == [] then 0 else Advance(ProgressAfter(trace[..|trace| - 1]), Progress(trace[|trace| - 1]))
  }

  function PhaseFor(progress: nat): Phase {
    if progress == 1 then PossiblySent
    else if progress == 2 then HeaderMissing
    else if progress == 3 then BodyIncomplete
    else NotSent
  }

  predicate IsSuccess(status: nat) {
    200 <= status < 300
  }

  function ErrorOf(e: Exchange): Option<PostError> {
    match e
    case Unsendable => Some(OtherError)
    case NoResponse(trace) => Some(ApiError(PhaseFor(ProgressAfter(trace)), 0))
    case BodyLost(status) => Some(ApiError(BodyIncomplete, status))
    case Answered(status) => if IsSuccess(status) then None else Some(ApiError(Received, status))
  }

  predicate NonIdempotentOutcomeIsUnknown(phase: Phase, status: nat) {
    if phase == NotSent then false
    else if status == 0 then true
    else if 200 <= status < 300 then true
    else status == 408 || status == 429 || status >= 500
  }

  predicate OutcomeIsUnknown(e: Exchange) {
    var error := ErrorOf(e);
    error.Some? && error.value.ApiError? && NonIdempotentOutcomeIsUnknown(error.value.phase, error.value.status)
  }

  /** An answer that says the statement was not executed. */
  predicate Refusal(status: nat) {
    0 < status < 200 || (300 <= status < 500 && status != 408 && status != 429)
  }

  /** The server may have executed the statement: something of the request went out and no answer denies it. */
  predicate MayHaveRun(e: Exchange) {
    match e
    case Unsendable => false
    case NoResponse(trace) => trace != []
    case BodyLost(status) => !Refusal(status)
    case Answered(status) => !Refusal(status)
  }

  lemma {:induction false} ProgressIsTheFurthest(trace: seq<TraceEvent>)
    ensures ProgressAfter(trace) <= 3
    ensures forall i :: 0 <= i < |trace| ==> Progress(trace[i]) <= ProgressAfter(trace)
    ensures trace != [] ==> exists i :: 0 <= i < |trace| && Progress(trace[i]) == ProgressAfter(trace)
  {
    if trace != [] {
      var front, last := trace[..|trace| - 1], trace[|trace| - 1];
      ProgressIsTheFurthest(front);
      assert forall i :: 0 <= i < |front| ==> trace[i] == front[i];
      if ProgressAfter(front) < Progress(last) || front == [] {
        assert Progress(trace[|trace| - 1]) == ProgressAfter(trace);
      } else {
        var i :| 0 <= i < |front| && Progress(front[i]) == ProgressAfter(front);
        assert Progress(trace[i]) == ProgressAfter(trace);
      }
    }
  }

  /** Where a request without an answer was lost, read off what the trace had reported, in whatever order. */
  lemma PhaseByTrace(trace: seq<TraceEvent>)
    ensures ErrorOf(NoResponse(trace)) ==
            Some(ApiError(if GotFirstByte in trace then BodyIncomplete
                          else if WroteRequest(false) in trace then HeaderMissing
                          else if trace != [] then PossiblySent
                          else NotSent, 0))
  {
    ProgressIsTheFurthest(trace);
    if trace != [] {
      var i :| 0 <= i < |trace| && Progress(trace[i]) == ProgressAfter(trace);
      assert trace[i] in trace;
      assert forall e :: e in trace ==> Progress(e) <= ProgressAfter(trace);
    }
  }

  /**
   The classification misses nothing and exaggerates nothing: a POST may have run exactly when it is reported as done
   or as unknown.
   */
  lemma OutcomeIsClassified(e: Exchange)
    ensures MayHaveRun(e) <==> ErrorOf(e).None? || OutcomeIsUnknown(e)
    ensures ErrorOf(e).None? ==> !OutcomeIsUnknown(e)
  {
    if e.NoResponse? {
      ProgressIsTheFurthest(e.trace);
      if e.trace != [] {
        var i :| 0 <= i < |e.trace| && Progress(e.trace[i]) == ProgressAfter(e.trace);
      }
    }
  }

  // ---- a run ----

  /** What the client sees of the outside; the answer to a POST may depend on all the earlier ones. */
  datatype Outside = Outside(
    gateAcquired: bool,
    valid: Step -> bool,
    post: (seq<Step>, Step) -> Exchange,
    catalogs: Step -> Option<seq<string>>,
    databases: Step -> Option<seq<string>>,
    tables: Step -> Option<seq<string>>,
    views: Step -> Option<seq<string>>,
    described: Step -> bool)

  datatype Options = Options(verifyMetadata: bool, verifyTableSchema: bool)

  datatype StepResult = StepResult(index: nat, kind: StepKind, target: Identifier, applied: bool, verified: bool,
      outcomeUnknown: bool)

  datatype SetupResult = SetupResult(steps: seq<StepResult>, failedIndex: int, complete: bool,
      persistentChangesMayRemain: bool)

  datatype SetupError = SetupError(failedIndex: int, outcomeUnknown: bool)

  predicate IsCreate(kind: StepKind) {
    kind == CatalogStep || kind == DatabaseStep || kind == TableStep
  }

  predicate RequiresVerification(step: Step, options: Options) {
    match step.kind
    case CatalogStep => options.verifyMetadata
    case DatabaseStep => options.verifyMetadata
    case TableStep => options.verifyMetadata || options.verifyTableSchema || step.verify
    case UseCatalogStep => false
    case UseDatabaseStep => false
  }

  predicate Lists(names: Option<seq<string>>, name: string) {
    names.Some? && name in names.value
  }

  /** The metadata shows the object under exactly its name, and a table not hidden by a view. */
  predicate Exists(out: Outside, options: Options, step: Step) {
    match step.kind
    case CatalogStep => Lists(out.catalogs(step), step.target.catalog)
    case DatabaseStep => Lists(out.databases(step), step.target.database)
    case TableStep =>
      && Lists(out.tables(step), step.target.table)
      && out.views(step).Some? && step.target.table !in out.views(step).value
      && (options.verifyTableSchema ==> out.described(step))
    case UseCatalogStep => true
    case UseDatabaseStep => true
  }

  function ExchangeAt(out: Outside, steps: seq<Step>, i: nat): Exchange
    requires i < |steps|
  {
    out.post(steps[..i], steps[i])
  }

  predicate GoesThrough(out: Outside, steps: seq<Step>, i: nat)
    requires i < |steps|
  {
    out.valid(steps[i]) && ErrorOf(ExchangeAt(out, steps, i)).None?
  }

  /** The run gets as far as step i: it holds the gate and every earlier step went through. */
  predicate Reached(out: Outside, steps: seq<Step>, i: nat)
    requires i <= |steps|
  {
    out.gateAcquired && forall j :: 0 <= j < i ==> GoesThrough(out, steps, j)
  }

  predicate Verifies(out: Outside, options: Options, step: Step) {
    RequiresVerification(step, options) ==> Exists(out, options, step)
  }

  predicate VerifiesBefore(out: Outside, options: Options, steps: seq<Step>, i: nat)
    requires i <= |steps|
  {
    forall j :: 0 <= j < i ==> Verifies(out, options, steps[j])
  }

  predicate Indexed(steps: seq<Step>) {
    forall i :: 0 <= i < |steps| ==> steps[i].index == i
  }

  // ---- what the result says ----

  predicate SameSteps(result: SetupResult, steps: seq<Step>) {
    && |result.steps| == |steps|
    && forall i :: 0 <= i < |steps| ==>
         && result.steps[i].index == i && result.steps[i].kind == steps[i].kind
         && result.steps[i].target == steps[i].target
  }

  /** A step is applied when the run got past it, and unknown when it was sent and its answer tells nothing. */
  predicate FlagsAreRight(out: Outside, steps: seq<Step>, result: SetupResult)
    requires SameSteps(result, steps)
  {
    forall i :: 0 <= i < |steps| ==>
      && (result.steps[i].applied <==> Reached(out, steps, i + 1))
      && (result.steps[i].outcomeUnknown <==>
            Reached(out, steps, i) && out.valid(steps[i]) && OutcomeIsUnknown(ExchangeAt(out, steps, i)))
  }

  /** Nothing is verified before everything is applied; then the steps that need it, up to the first that fails. */
  predicate VerifiedIsRight(out: Outside, options: Options, steps: seq<Step>, result: SetupResult)
    requires SameSteps(result, steps)
  {
    forall i :: 0 <= i < |steps| ==>
      (result.steps[i].verified <==>
       Reached(out, steps, |steps|) && RequiresVerification(steps[i], options)
           && VerifiesBefore(out, options, steps, i + 1))
  }

  /** Step f is where the run ended: it did not go through, or all did and it is the first not to verify. */
  predicate FailsAt(out: Outside, options: Options, steps: seq<Step>, f: nat) {
    && f < |steps| && Reached(out, steps, f)
    && (GoesThrough(out, steps, f) ==>
          Reached(out, steps, |steps|) && VerifiesBefore(out, options, steps, f) && !Verifies(out, options, steps[f]))
  }

  predicate SentIsRight(out: Outside, steps: seq<Step>, sent: seq<Step>) {
    && sent <= steps
    && forall i :: 0 <= i < |steps| ==> (i < |sent| <==> Reached(out, steps, i) && out.valid(steps[i]))
  }

  /** Some CREATE that was sent may have been executed. */
  predicate SomeCreateMayHaveRun(out: Outside, steps: seq<Step>, sent: seq<Step>)
    requires |sent| <= |steps|
  {
    exists i :: 0 <= i < |sent| && IsCreate(steps[i].kind) && MayHaveRun(ExchangeAt(out, steps, i))
  }

  predicate CompletesExactlyWhenAllWent(out: Outside, options: Options, steps: seq<Step>, result: SetupResult,
      error: Option<SetupError>)
  {
    && (result.complete <==> Reached(out, steps, |steps|) && VerifiesBefore(out, options, steps, |steps|))
    && (error.None? <==> result.complete)
  }

  predicate FailureIsLocated(out: Outside, options: Options, steps: seq<Step>, result: SetupResult,
      error: Option<SetupError>)
  {
    && (result.failedIndex == -1 <==> result.complete || !out.gateAcquired)
    && (result.failedIndex != -1 ==> result.failedIndex >= 0 && FailsAt(out, options, steps, result.failedIndex))
    && (error.Some? ==> error.value.failedIndex == result.failedIndex)
    && (error.Some? ==> (error.value.outcomeUnknown <==>
          exists i :: 0 <= i < |result.steps| && result.steps[i].outcomeUnknown))
  }

  predicate PersistenceIsRight(out: Outside, steps: seq<Step>, result: SetupResult, error: Option<SetupError>,
      sent: seq<Step>)
    requires |sent| <= |steps|
  {
    result.persistentChangesMayRemain <==> error.Some? && SomeCreateMayHaveRun(out, steps, sent)
  }

  lemma ReachedNext(out: Outside, steps: seq<Step>, i: nat)
    requires i < |steps|
    ensures Reached(out, steps, i + 1) <==> Reached(out, steps, i) && GoesThrough(out, steps, i)
  {
  }

  /** A step is flagged as applied or unknown exactly when it was sent and may have been executed. */
  lemma FlaggedExactly(out: Outside, steps: seq<Step>, result: SetupResult, sent: seq<Step>, i: nat)
    requires SameSteps(result, steps) && FlagsAreRight(out, steps, result) && SentIsRight(out, steps, sent)
             && i < |steps|
    ensures result.steps[i].applied || result.steps[i].outcomeUnknown <==>
            i < |sent| && MayHaveRun(ExchangeAt(out, steps, i))
    ensures !(result.steps[i].applied && result.steps[i].outcomeUnknown)
  {
    ReachedNext(out, steps, i);
    OutcomeIsClassified(ExchangeAt(out, steps, i));
  }

  lemma FlaggedCreates(out: Outside, steps: seq<Step>, result: SetupResult, sent: seq<Step>)
    requires SameSteps(result, steps) && FlagsAreRight(out, steps, result) && SentIsRight(out, steps, sent)
    ensures SomeCreateMayHaveRun(out, steps, sent) <==>
            exists i :: 0 <= i < |result.steps| && IsCreate(result.steps[i].kind)
                && (result.steps[i].applied || result.steps[i].outcomeUnknown)
  {
    forall i | 0 <= i < |steps|
      ensures result.steps[i].applied || result.steps[i].outcomeUnknown <==>
              i < |sent| && MayHaveRun(ExchangeAt(out, steps, i))
    {
      FlaggedExactly(out, steps, result, sent, i);
    }
  }

  /** The run goes no further than the first step that does not go through. */
  lemma NothingBehind(out: Outside, steps: seq<Step>, f: nat)
    requires f < |steps| && Reached(out, steps, f) && !GoesThrough(out, steps, f)
    ensures forall i :: 0 <= i <= |steps| ==> (Reached(out, steps, i) <==> i <= f)
    ensures forall i :: 0 <= i < f ==> out.valid(steps[i]) && !OutcomeIsUnknown(ExchangeAt(out, steps, i))
  {
    forall i | 0 <= i < f ensures out.valid(steps[i]) && !OutcomeIsUnknown(ExchangeAt(out, steps, i)) {
      assert GoesThrough(out, steps, i);
    }
  }

  // ---- the run ----

  function NewResult(steps: seq<Step>): SetupResult {
    var untouched := (i: int) requires 0 <= i < |steps| =>
      StepResult(steps[i].index, steps[i].kind, steps[i].target, false, false, false);
    SetupResult(seq(|steps|, untouched), -1, false, false)
  }

  method PersistentChangesMayRemain(result: SetupResult, failed: nat) returns (r: bool)
    requires failed < |result.steps|
    ensures r <==> exists i ::
            0 <= i < |result.steps| && IsCreate(result.steps[i].kind)
            && (result.steps[i].applied || result.steps[i].outcomeUnknown)
  {
    for i := 0 to |result.steps|
      invariant forall j :: 0 <= j < i ==>
                !(IsCreate(result.steps[j].kind) && (result.steps[j].applied || result.steps[j].outcomeUnknown))
    {
      if !IsCreate(result.steps[i].kind) {
        continue;
      }
      if result.steps[i].applied || result.steps[i].outcomeUnknown {
        return true;
      }
    }
    return IsCreate(result.steps[failed].kind) && result.steps[failed].outcomeUnknown;
  }

  method FailSessionSetup(before: SetupResult, failed: nat) returns (result: SetupResult, error: Option<SetupError>)
    requires failed < |before.steps|
    ensures result.steps == before.steps && result.complete == before.complete && result.failedIndex == failed
    ensures result.persistentChangesMayRemain <==>
            exists i :: 0 <= i < |result.steps| && IsCreate(result.steps[i].kind)
                && (result.steps[i].applied || result.steps[i].outcomeUnknown)
    ensures error == Some(SetupError(failed, before.steps[failed].outcomeUnknown))
  {
    result := before.(failedIndex := failed);
    var remain := PersistentChangesMayRemain(result, failed);
    result := result.(persistentChangesMayRemain := remain);
    error := Some(SetupError(failed, result.steps[failed].outcomeUnknown));
  }

  method Verify(out: Outside, options: Options, step: Step) returns (ok: bool)
    ensures ok <==> Exists(out, options, step)
  {
    match step.kind
    case CatalogStep =>
      var names := out.catalogs(step);
      return names.Some? && step.target.catalog in names.value;
    case DatabaseStep =>
      var names := out.databases(step);
      return names.Some? && step.target.database in names.value;
    case TableStep =>
      var tables := out.tables(step);
      if tables.None? {
        return false;
      }
      var views := out.views(step);
      if views.None? || step.target.table in views.value || step.target.table !in tables.value {
        return false;
      }
      return !options.verifyTableSchema || out.described(step);
    case UseCatalogStep => return true;
    case UseDatabaseStep => return true;
  }

  /** Every flag of a result, by what happened. */
  predicate Reports(out: Outside, options: Options, steps: seq<Step>, result: SetupResult, error: Option<SetupError>,
      sent: seq<Step>)
  {
    && SameSteps(result, steps)
    && FlagsAreRight(out, steps, result)
    && VerifiedIsRight(out, options, steps, result)
    && SentIsRight(out, steps, sent)
    && CompletesExactlyWhenAllWent(out, options, steps, result, error)
    && FailureIsLocated(out, options, steps, result, error)
    && PersistenceIsRight(out, steps, result, error, sent)
  }

  /** A run underway: nothing failed, the first n steps are applied, and of the first v those that need it verified. */
  predicate Underway(options: Options, steps: seq<Step>, result: SetupResult, n: nat, v: nat) {
    && SameSteps(result, steps)
    && !result.complete && !result.persistentChangesMayRemain && result.failedIndex == -1
    && forall i :: 0 <= i < |steps| ==>
         && (result.steps[i].applied <==> i < n) && !result.steps[i].outcomeUnknown
         && (result.steps[i].verified <==> i < v && RequiresVerification(steps[i], options))
  }

  function Mark(result: SetupResult, i: nat, mark: StepResult): SetupResult
    requires i < |result.steps|
  {
    result.(steps := result.steps[i := mark])
  }

  /** A run that failed at step f, which was refused by the validator or by the answer to its request. */
  predicate Stopped(out: Outside, options: Options, steps: seq<Step>, was: SetupResult, result: SetupResult,
      error: Option<SetupError>, f: nat)
  {
    && f < |steps| && Reached(out, steps, f) && !GoesThrough(out, steps, f)
    && Underway(options, steps, was, f, 0)
    && (var unknown := out.valid(steps[f]) && OutcomeIsUnknown(ExchangeAt(out, steps, f));
        && result.steps == was.steps[f := was.steps[f].(outcomeUnknown := unknown)]
        && error == Some(SetupError(f, unknown)))
    && !result.complete && result.failedIndex == f
  }

  lemma StoppedFlags(out: Outside, options: Options, steps: seq<Step>, was: SetupResult, result: SetupResult,
      error: Option<SetupError>, f: nat)
    requires Stopped(out, options, steps, was, result, error, f)
    ensures SameSteps(result, steps) && FlagsAreRight(out, steps, result)
            && VerifiedIsRight(out, options, steps, result)
  {
    NothingBehind(out, steps, f);
  }

  lemma StoppedReports(out: Outside, options: Options, steps: seq<Step>, was: SetupResult, result: SetupResult,
      error: Option<SetupError>,
                       sent: seq<Step>, f: nat)
    requires Stopped(out, options, steps, was, result, error, f)
    requires sent == if out.valid(steps[f]) then steps[..f + 1] else steps[..f]
    requires result.persistentChangesMayRemain <==>
             exists i :: 0 <= i < |result.steps| && IsCreate(result.steps[i].kind)
                 && (result.steps[i].applied || result.steps[i].outcomeUnknown)
    ensures Reports(out, options, steps, result, error, sent)
  {
    StoppedFlags(out, options, steps, was, result, error, f);
    NothingBehind(out, steps, f);
    FlaggedCreates(out, steps, result, sent);
    assert out.gateAcquired && FailsAt(out, options, steps, f);
    if error.value.outcomeUnknown {
      assert result.steps[f].outcomeUnknown;
    }
  }

  /** The configure requests, one after another, up to the first that fails. */
  method ConfigureSteps(out: Outside, steps: seq<Step>, options: Options)
    returns (result: SetupResult, error: Option<SetupError>, sent: seq<Step>)
    requires Indexed(steps) && out.gateAcquired
    ensures error.None? ==> Reached(out, steps, |steps|) && Underway(options, steps, result, |steps|, 0)
    ensures error.None? ==> sent == steps
    ensures error.Some? ==> Reports(out, options, steps, result, error, sent)
  {
    result, sent := NewResult(steps), [];
    for index := 0 to |steps|
      invariant Reached(out, steps, index) && Underway(options, steps, result, index, 0) && sent == steps[..index]
    {
      var step := steps[index];
      ghost var was := result;
      if !out.valid(step) {
        result, error := FailSessionSetup(result, step.index);
        assert result.steps == was.steps[index := was.steps[index].(outcomeUnknown := false)];
        StoppedReports(out, options, steps, was, result, error, sent, index);
        return;
      }
      sent := sent + [step];
      var exchange := out.post(steps[..index], step);
      if ErrorOf(exchange).Some? {
        if OutcomeIsUnknown(exchange) {
          result := Mark(result, step.index, result.steps[step.index].(outcomeUnknown := true));
        }
        result, error := FailSessionSetup(result, step.index);
        assert result.steps == was.steps[index := was.steps[index].(outcomeUnknown := OutcomeIsUnknown(exchange))];
        StoppedReports(out, options, steps, was, result, error, sent, index);
        return;
      }
      assert GoesThrough(out, steps, index);
      result := Mark(result, step.index, result.steps[step.index].(applied := true));
    }
    error := None;
  }

  /** When everything went through, every request was answered by a success. */
  lemma AllWentThrough(out: Outside, steps: seq<Step>)
    requires Reached(out, steps, |steps|)
    ensures forall i :: 0 <= i <= |steps| ==> Reached(out, steps, i)
    ensures forall i :: 0 <= i < |steps| ==> out.valid(steps[i]) && !OutcomeIsUnknown(ExchangeAt(out, steps, i))
  {
    forall i | 0 <= i < |steps| ensures out.valid(steps[i]) && !OutcomeIsUnknown(ExchangeAt(out, steps, i)) {
      assert GoesThrough(out, steps, i);
    }
  }

  /** Verification of an applied setup, up to the first object that is not found. */
  method VerifySteps(out: Outside, steps: seq<Step>, options: Options, before: SetupResult)
    returns (result: SetupResult, error: Option<SetupError>)
    requires Indexed(steps) && Reached(out, steps, |steps|) && Underway(options, steps, before, |steps|, 0)
    ensures Reports(out, options, steps, result, error, steps)
  {
    result := before;
    AllWentThrough(out, steps);
    for index := 0 to |steps|
      invariant VerifiesBefore(out, options, steps, index) && Underway(options, steps, result, |steps|, index)
    {
      var step := steps[index];
      if !RequiresVerification(step, options) {
        continue;
      }
      var ok := Verify(out, options, step);
      if !ok {
        result, error := FailSessionSetup(result, step.index);
        FlaggedCreates(out, steps, result, steps);
        return;
      }
      result := Mark(result, step.index, result.steps[step.index].(verified := true));
    }
    result := result.(complete := true);
    error := None;
  }

  method ApplyCompiledSessionSetup(out: Outside, steps: seq<Step>, options: Options)
    returns (result: SetupResult, error: Option<SetupError>, sent: seq<Step>)
    requires Indexed(steps)
    ensures Reports(out, options, steps, result, error, sent)
  {
    if !out.gateAcquired {
      return NewResult(steps), Some(SetupError(-1, false)), [];
    }
    result, error, sent := ConfigureSteps(out, steps, options);
    if error.None? {
      result, error := VerifySteps(out, steps, options, result);
    }
  }

  // ---- what the result tells about the server ----

  /** Whether the server executed a statement, given what it was sent before. */
  type Truth = (seq<Step>, Step) -> bool

  /** The server executes only what reached it and what it does not deny having executed. */
  ghost predicate Honest(out: Outside, ran: Truth) {
    forall before, step :: ran(before, step) ==> MayHaveRun(out.post(before, step))
  }

  ghost predicate RanACreate(ran: Truth, steps: seq<Step>, sent: seq<Step>)
    requires |sent| <= |steps|
  {
    exists i :: 0 <= i < |sent| && IsCreate(steps[i].kind) && ran(steps[..i], steps[i])
  }

  function WorstCase(out: Outside): Truth {
    (before: seq<Step>, step: Step) => MayHaveRun(out.post(before, step))
  }

  /**
   On a failed run the flag is set exactly when some server that the client cannot tell from the real one has
   executed a CREATE: it is never missing, and never set without need.
   */
  lemma FlagIsExact(out: Outside, steps: seq<Step>, result: SetupResult, error: Option<SetupError>, sent: seq<Step>)
    requires SentIsRight(out, steps, sent) && PersistenceIsRight(out, steps, result, error, sent) && error.Some?
    ensures result.persistentChangesMayRemain <==> exists ran: Truth :: Honest(out, ran) && RanACreate(ran, steps, sent)
  {
    if result.persistentChangesMayRemain {
      var i :| 0 <= i < |sent| && IsCreate(steps[i].kind) && MayHaveRun(ExchangeAt(out, steps, i));
      assert WorstCase(out)(steps[..i], steps[i]);
      assert Honest(out, WorstCase(out)) && RanACreate(WorstCase(out), steps, sent);
    }
    if ran: Truth :| Honest(out, ran) && RanACreate(ran, steps, sent) {
      var i :| 0 <= i < |sent| && IsCreate(steps[i].kind) && ran(steps[..i], steps[i]);
      assert MayHaveRun(ExchangeAt(out, steps, i));
    }
  }

  /** Steps reported neither applied nor unknown left no trace: they were not sent, or sent and not executed. */
  lemma UnflaggedDidNotRun(out: Outside, steps: seq<Step>, result: SetupResult, sent: seq<Step>, ran: Truth, i: nat)
    requires SameSteps(result, steps) && FlagsAreRight(out, steps, result) && SentIsRight(out, steps, sent)
             && Honest(out, ran)
    requires i < |steps| && !result.steps[i].applied && !result.steps[i].outcomeUnknown
    ensures i >= |sent| || !ran(steps[..i], steps[i])
  {
    FlaggedExactly(out, steps, result, sent, i);
  }

  /** What a reader of the result may conclude from its flags alone. */
  lemma FlagsInOrder(out: Outside, options: Options, steps: seq<Step>, result: SetupResult, error: Option<SetupError>,
      sent: seq<Step>)
    requires Reports(out, options, steps, result, error, sent)
    ensures forall i, j :: 0 <= i < j < |steps| && result.steps[j].applied ==> result.steps[i].applied
    ensures forall i :: 0 <= i < |steps| && result.steps[i].outcomeUnknown ==>
            i == result.failedIndex && !result.steps[i].applied
    ensures forall i, j :: 0 <= i < |steps| && 0 <= j < |steps| && result.steps[i].verified ==> result.steps[j].applied
    ensures result.complete ==>
              forall i :: 0 <= i < |steps| ==>
                  result.steps[i].applied && (result.steps[i].verified <==> RequiresVerification(steps[i], options))
  {
    forall i, j | 0 <= i < j < |steps| && result.steps[j].applied ensures result.steps[i].applied {
      assert Reached(out, steps, j + 1);
      assert Reached(out, steps, i + 1);
    }
    forall i | 0 <= i < |steps| && result.steps[i].outcomeUnknown
      ensures i == result.failedIndex && !result.steps[i].applied
    {
      UnknownIsWhereItFails(out, options, steps, result, error, i);
    }
    if Reached(out, steps, |steps|) {
      AllWentThrough(out, steps);
      forall j | 0 <= j < |steps| ensures result.steps[j].applied {
        assert Reached(out, steps, j + 1);
      }
    }
    if result.complete {
      forall i | 0 <= i < |steps| ensures result.steps[i].verified <==> RequiresVerification(steps[i], options) {
        assert VerifiesBefore(out, options, steps, i + 1);
      }
    }
  }

  lemma UnknownIsWhereItFails(out: Outside, options: Options, steps: seq<Step>, result: SetupResult,
      error: Option<SetupError>, i: nat)
    requires SameSteps(result, steps) && FlagsAreRight(out, steps, result)
    requires CompletesExactlyWhenAllWent(out, options, steps, result, error)
             && FailureIsLocated(out, options, steps, result, error)
    requires i < |steps| && result.steps[i].outcomeUnknown
    ensures i == result.failedIndex && !result.steps[i].applied
  {
    OutcomeIsClassified(ExchangeAt(out, steps, i));
    ReachedNext(out, steps, i);
    assert Reached(out, steps, i) && !GoesThrough(out, steps, i);
    NothingBehind(out, steps, i);
  }

  // ---- the flags in terms of what came back ----

  /** Step i was answered by a status that means done. */
  predicate AnsweredDone(out: Outside, steps: seq<Step>, i: nat)
    requires i < |steps|
  {
    var e := out.post(steps[..i], steps[i]);
    e.Answered? && 200 <= e.status <= 299
  }

  /** What came back for step i tells neither that it was done nor that it was not. */
  predicate AnsweredUnclear(out: Outside, steps: seq<Step>, i: nat)
    requires i < |steps|
  {
    match out.post(steps[..i], steps[i])
    case Unsendable => false
    case NoResponse(trace) => trace != []
    case BodyLost(status) => status in {0, 408, 429} || 200 <= status <= 299 || status >= 500
    case Answered(status) => status in {0, 408, 429} || status >= 500
  }

  lemma ExchangeByStatus(out: Outside, steps: seq<Step>, i: nat)
    requires i < |steps|
    ensures ErrorOf(ExchangeAt(out, steps, i)).None? <==> AnsweredDone(out, steps, i)
    ensures OutcomeIsUnknown(ExchangeAt(out, steps, i)) <==> AnsweredUnclear(out, steps, i)
    ensures MayHaveRun(ExchangeAt(out, steps, i)) <==> AnsweredDone(out, steps, i) || AnsweredUnclear(out, steps, i)
  {
    OutcomeIsClassified(ExchangeAt(out, steps, i));
    var e := ExchangeAt(out, steps, i);
    if e.NoResponse? {
      ProgressIsTheFurthest(e.trace);
      if e.trace != [] {
        var k :| 0 <= k < |e.trace| && Progress(e.trace[k]) == ProgressAfter(e.trace);
      }
    }
  }

  /**
   The flags of a result read off the answers: applied exactly when this step and all before it were answered by a
   status from 200 to 299, unknown exactly when it was sent and what came back tells nothing, and sent exactly when
   all before it were answered so.
   */
  lemma FlagsByAnswers(out: Outside, options: Options, steps: seq<Step>, result: SetupResult,
      error: Option<SetupError>, sent: seq<Step>, i: nat)
    requires Reports(out, options, steps, result, error, sent) && i < |steps|
    ensures i < |sent| <==>
            && out.gateAcquired && (forall k :: 0 <= k <= i ==> out.valid(steps[k]))
            && forall k :: 0 <= k < i ==> AnsweredDone(out, steps, k)
    ensures result.steps[i].applied <==> i < |sent| && forall k :: 0 <= k <= i ==> AnsweredDone(out, steps, k)
    ensures result.steps[i].outcomeUnknown <==> i < |sent| && AnsweredUnclear(out, steps, i)
  {
    forall k | 0 <= k <= i ensures GoesThrough(out, steps, k) <==> out.valid(steps[k]) && AnsweredDone(out, steps, k) {
      ExchangeByStatus(out, steps, k);
    }
    ExchangeByStatus(out, steps, i);
    assert Reached(out, steps, i) <==>
        out.gateAcquired && forall k :: 0 <= k < i ==> out.valid(steps[k]) && AnsweredDone(out, steps, k);
    ReachedNext(out, steps, i);
  }

  /** The metadata has what this step needs: the object under its own name, for a table not that of a view. */
  predicate Found(out: Outside, options: Options, step: Step) {
    match step.kind
    case CatalogStep =>
      options.verifyMetadata ==> out.catalogs(step).Some? && step.target.catalog in out.catalogs(step).value
    case DatabaseStep =>
      options.verifyMetadata ==> out.databases(step).Some? && step.target.database in out.databases(step).value
    case TableStep =>
      options.verifyMetadata || options.verifyTableSchema || step.verify ==>
        && out.tables(step).Some? && step.target.table in out.tables(step).value
        && out.views(step).Some? && step.target.table !in out.views(step).value
        && (options.verifyTableSchema ==> out.described(step))
    case _ => true
  }

  /**
   A run completes exactly when every statement was answered by a status that means done and the metadata has all
   that was asked for; on a failure changes may remain exactly when some CREATE that was sent was not refused.
   */
  lemma EndByAnswers(out: Outside, options: Options, steps: seq<Step>, result: SetupResult,
      error: Option<SetupError>, sent: seq<Step>)
    requires Reports(out, options, steps, result, error, sent)
    ensures result.complete <==>
            && out.gateAcquired
            && forall k :: 0 <= k < |steps| ==>
                 out.valid(steps[k]) && AnsweredDone(out, steps, k) && Found(out, options, steps[k])
    ensures result.persistentChangesMayRemain <==>
            error.Some? && exists k ::
              && 0 <= k < |sent| && steps[k].kind in {CatalogStep, DatabaseStep, TableStep}
              && (AnsweredDone(out, steps, k) || AnsweredUnclear(out, steps, k))
  {
    forall k | 0 <= k < |steps|
      ensures GoesThrough(out, steps, k) <==> out.valid(steps[k]) && AnsweredDone(out, steps, k)
      ensures MayHaveRun(ExchangeAt(out, steps, k)) <==>
              AnsweredDone(out, steps, k) || AnsweredUnclear(out, steps, k)
      ensures Verifies(out, options, steps[k]) <==> Found(out, options, steps[k])
    {
      ExchangeByStatus(out, steps, k);
    }
  }

  /** A compiled plan is numbered by place, so no request of a run is ever repeated. */
  lemma EachIsSentOnce(steps: seq<Step>, planned: seq<Planned>, sent: seq<Step>)
    requires Compiled(steps, planned) && sent <= steps
    ensures Indexed(steps)
    ensures forall i, j :: 0 <= i < j < |sent| ==> sent[i] != sent[j]
  {
    assert forall i :: 0 <= i < |sent| ==> sent[i] == steps[i] && sent[i].index == i;
  }

  /** Compiling and running: a plan that does not compile costs no request, any other is run as planned. */
  method ApplySessionSetup(lib: Library, plan: Plan, ready: bool, out: Outside, options: Options)
    returns (run: Option<(SetupResult, Option<SetupError>)>, ghost steps: seq<Step>, sent: seq<Step>)
    ensures run.Some? <==> Accepted(lib, plan) && ready
    ensures run.None? ==> sent == []
    ensures run.Some? ==>
              && Compiled(steps, PlannedSteps(plan)) && SaysPlan(steps, plan)
              && Reports(out, options, steps, run.value.0, run.value.1, sent)
  {
    steps := [];
    var compiled := CompileSessionSetupPlan(lib, plan);
    if compiled.None? || !ready {
      return None, [], [];
    }
    steps := compiled.value;
    EachIsSentOnce(steps, PlannedSteps(plan), []);
    var result, error, requests := ApplyCompiledSessionSetup(out, compiled.value, options);
    return Some((result, error)), steps, requests;
  }

  /** A run that completes says nothing about what remains, though a CREATE was applied: the flag is for failures. */
  method CompletedRun() returns (result: SetupResult, error: Option<SetupError>)
    ensures result.complete && error.None? && !result.persistentChangesMayRemain
    ensures |result.steps| == 1 && IsCreate(result.steps[0].kind) && result.steps[0].applied
  {
    var statement := "CREATE CATALOG `c` WITH ('type' = 'generic_in_memory')";
    var step := Step(0, CatalogStep, Identifier("c", "", ""), statement, false);
    var out := Outside(true, s => true, (before, s) => Answered(200),
                       s => None, s => None, s => None, s => None, s => false);
    var sent: seq<Step>;
    result, error, sent := ApplyCompiledSessionSetup(out, [step], Options(false, false));
    assert GoesThrough(out, [step], 0);
    assert Reached(out, [step], 1) && Verifies(out, Options(false, false), step);
  }
}
