/**
 Which conversations the loop and the iterator have with the server: what each request follows from, and what
 was the matter when they end.
 */
module PageConversation {
  import opened Text
  import opened ResultPaging

  predicate IsResult(answer: Result<Page, FetchError>) {
    answer.Ok? && (answer.value.kind == Payload || answer.value.kind == EOS)
  }

  predicate IsNotReady(answer: Result<Page, FetchError>) {
    answer.Ok? && answer.value.kind == NotReady
  }

  /** The first columns that a result page has brought. */
  function SchemaKnown(w: World, fetches: seq<Request>): seq<string> {
    if fetches == [] then []
    else
      var before, answer := SchemaKnown(w, fetches[..|fetches| - 1]), w.server(fetches);
      if before == [] && IsResult(answer) && answer.value.results.Some? then answer.value.results.value.columns
      else before
  }

  /** The rows of the page that answers the last request are as wide as the schema, and all their fields are valid. */
  predicate GoodRows(w: World, fetches: seq<Request>) {
    forall row :: row in CarriedBy(w.server(fetches)) ==>
      |row.fields| == |SchemaKnown(w, fetches)| && forall field :: field in row.fields ==> w.validField(field)
  }

  /**
   The answer to fetches leads to this request: the page it names, or the first token again if it names none and the
   result is not ready.
   */
  ghost predicate LeadsTo(w: World, cfg: Config, fetches: seq<Request>, request: Request) {
    var answer := w.server(fetches);
    && answer.Ok?
    && var uri := w.trim(answer.value.nextResultUri);
    && (if uri == "" then answer.value.kind == NotReady && request == FirstToken
        else w.resolve(uri).Some? && request == Paging(w.resolve(uri).value))
    && match answer.value.kind
       case NotReady => !w.waitCut(fetches)
       case Payload => GoodRows(w, fetches) && |AllData(w, fetches)| <= cfg.maxRows
       case _ => false
  }

  /** From the first token on every request follows from the answer to the one before it. */
  ghost predicate Followed(w: World, cfg: Config, fetches: seq<Request>) {
    && (fetches != [] ==> fetches[0] == FirstToken)
    && forall i :: 0 < i < |fetches| ==> LeadsTo(w, cfg, fetches[..i], fetches[i])
  }

  /** None was made after the context had ended. */
  predicate InTime(w: World, fetches: seq<Request>) {
    forall i :: 0 <= i < |fetches| ==> !w.ended(fetches[..i], |AllData(w, fetches[..i])|)
  }

  /** What was the matter when the conversation ended. */
  predicate EndIsRight(w: World, cfg: Config, r: Outcome) {
    var answer := w.server(r.fetches);
    match r.end
    case ContextEnded =>
      w.ended(r.fetches, |r.rows|) || (r.fetches != [] && IsNotReady(answer) && w.waitCut(r.fetches))
    case PollLimit(received) => received == |r.fetches| == cfg.maxPolls
    case RowLimit(received) =>
      received == |r.rows| == cfg.maxRows < |AllData(w, r.fetches)| && r.fetches != [] && GoodRows(w, r.fetches)
    case FetchFailed(error) => r.fetches != [] && answer == Err(error)
    case UnknownResult(name) => r.fetches != [] && answer.Ok? && answer.value.kind == UnknownKind(name)
    case BadRows => r.fetches != [] && IsResult(answer) && !GoodRows(w, r.fetches)
    case Finished => r.fetches != [] && answer.Ok? && answer.value.kind == EOS && GoodRows(w, r.fetches)
    case MissingUri =>
      && r.fetches != [] && answer.Ok? && answer.value.kind == Payload && GoodRows(w, r.fetches)
      && w.trim(answer.value.nextResultUri) == ""
    case BadUri =>
      && r.fetches != [] && answer.Ok? && (answer.value.kind == NotReady || answer.value.kind == Payload)
      && GoodRows(w, r.fetches)
      && w.trim(answer.value.nextResultUri) != "" && w.resolve(w.trim(answer.value.nextResultUri)).None?
    case Abandoned => false
  }

  /** Ends that leave the operation running: a limit was met, or the context ended and is to end the operation too. */
  predicate CutShort(cfg: Config, end: End) {
    || end.RowLimit? || end.PollLimit? || (end.FetchFailed? && end.error.isLimit)
    || (cfg.cancelOnContextDone && (end.ContextEnded? || (end.FetchFailed? && end.error.isContext)))
  }

  /** The operation is closed once, last of all, and cancelled before that exactly when the end cut it short. */
  predicate CleanedUp(cfg: Config, end: End, cleanup: seq<Cleanup>) {
    cleanup == if CutShort(cfg, end) then [Cancel, Close] else [Close]
  }

  lemma CleanupIsRight(cfg: Config, end: End)
    ensures CleanedUp(cfg, end, CleanupFor(cfg, end))
  {
  }

  ghost predicate Conversed(w: World, cfg: Config, r: Outcome) {
    Followed(w, cfg, r.fetches) && InTime(w, r.fetches) && EndIsRight(w, cfg, r)
  }

  /** Between two fetches: the conversation so far, and the request that comes next in it. */
  ghost predicate Conversing(w: World, cfg: Config, c: Cursor) {
    && |c.fetches| <= cfg.maxPolls && c.columns == SchemaKnown(w, c.fetches)
    && Followed(w, cfg, c.fetches + [c.next]) && InTime(w, c.fetches)
  }

  lemma FollowedSoFar(w: World, cfg: Config, fetches: seq<Request>, request: Request)
    requires Followed(w, cfg, fetches + [request])
    ensures Followed(w, cfg, fetches)
  {
    var all := fetches + [request];
    forall i | 0 < i < |fetches| ensures LeadsTo(w, cfg, fetches[..i], fetches[i]) {
      assert all[..i] == fetches[..i] && all[i] == fetches[i];
    }
  }

  lemma FollowedOn(w: World, cfg: Config, fetches: seq<Request>, request: Request)
    requires Followed(w, cfg, fetches) && if fetches == [] then request == FirstToken
                                          else LeadsTo(w, cfg, fetches, request)
    ensures Followed(w, cfg, fetches + [request])
  {
    var all := fetches + [request];
    forall i | 0 < i < |all| ensures LeadsTo(w, cfg, all[..i], all[i]) {
      assert all[..i] == fetches[..i];
      if i < |fetches| {
        assert LeadsTo(w, cfg, fetches[..i], fetches[i]);
      } else {
        assert fetches[..i] == fetches;
      }
    }
  }

  /** The next fetch is made. */
  lemma Fetched(w: World, cfg: Config, c: Cursor)
    requires Conversing(w, cfg, c) && !w.ended(c.fetches, |AllData(w, c.fetches)|)
    ensures var f := Fetching(c).fetches;
            && Followed(w, cfg, f) && InTime(w, f)
            && AllData(w, f) == AllData(w, c.fetches) + CarriedBy(w.server(f))
            && (IsResult(w.server(f)) ==> SchemaKnown(w, f) == Columns(c.columns, w.server(f).value))
            && (!IsResult(w.server(f)) ==> SchemaKnown(w, f) == c.columns)
  {
    var f := Fetching(c).fetches;
    assert f[..|f| - 1] == c.fetches;
    forall i | 0 <= i < |f| ensures !w.ended(f[..i], |AllData(w, f[..i])|) {
      assert f[..i] == c.fetches[..i];
    }
    assert c.fetches[..|c.fetches|] == c.fetches;
  }

  /** The check that loop and iterator make on a page's rows is the one the schema asks for. */
  lemma RowsChecked(w: World, fetches: seq<Request>)
    requires IsResult(w.server(fetches))
    ensures RowsFit(w, SchemaKnown(w, fetches), Data(w.server(fetches).value)) <==> GoodRows(w, fetches)
  {
    var rows, schema := CarriedBy(w.server(fetches)), SchemaKnown(w, fetches);
    if RowsFit(w, schema, rows) {
      forall row | row in rows
        ensures |row.fields| == |schema| && forall field :: field in row.fields ==> w.validField(field)
      {
        var i :| 0 <= i < |rows| && rows[i] == row;
      }
    }
    if GoodRows(w, fetches) {
      forall i | 0 <= i < |rows|
        ensures |rows[i].fields| == |schema|
        ensures forall j :: 0 <= j < |rows[i].fields| ==> w.validField(rows[i].fields[j])
      {
        assert rows[i] in rows;
      }
    }
  }

  // ---- the loop ----

  /** One round of the loop, on a page that is not ready and on a result page. */
  lemma NotReadyRound(w: World, cfg: Config, c: Cursor, rows: seq<Row>)
    requires Conversing(w, cfg, c) && |c.fetches| < cfg.maxPolls && |rows| <= cfg.maxRows
    requires rows == AllData(w, c.fetches) && !w.ended(c.fetches, |rows|)
    requires IsNotReady(w.server(Fetching(c).fetches))
    ensures var p := CollectStep(w, cfg, c, rows);
            if p.Done? then Conversed(w, cfg, p.outcome)
            else Conversing(w, cfg, p.cursor) && p.rows == AllData(w, p.cursor.fetches)
  {
    Fetched(w, cfg, c);
    var f, p := Fetching(c).fetches, CollectStep(w, cfg, c, rows);
    assert CarriedBy(w.server(f)) == [];
    if p.More? {
      FollowedOn(w, cfg, f, p.cursor.next);
    }
  }

  lemma ResultRound(w: World, cfg: Config, c: Cursor, rows: seq<Row>)
    requires Conversing(w, cfg, c) && |c.fetches| < cfg.maxPolls && |rows| <= cfg.maxRows
    requires rows == AllData(w, c.fetches) && !w.ended(c.fetches, |rows|)
    requires IsResult(w.server(Fetching(c).fetches))
    ensures var p := CollectStep(w, cfg, c, rows);
            if p.Done? then Conversed(w, cfg, p.outcome)
            else Conversing(w, cfg, p.cursor) && p.rows == AllData(w, p.cursor.fetches)
  {
    Fetched(w, cfg, c);
    var f, p := Fetching(c).fetches, CollectStep(w, cfg, c, rows);
    RowsChecked(w, f);
    if p.More? {
      FollowedOn(w, cfg, f, p.cursor.next);
    }
  }

  lemma {:induction false} CollectConverses(w: World, cfg: Config, c: Cursor, rows: seq<Row>)
    requires Conversing(w, cfg, c) && |rows| <= cfg.maxRows && rows == AllData(w, c.fetches)
    ensures Conversed(w, cfg, CollectFrom(w, cfg, c, rows))
    decreases cfg.maxPolls - |c.fetches|
  {
    FollowedSoFar(w, cfg, c.fetches, c.next);
    if !w.ended(c.fetches, |rows|) && |c.fetches| < cfg.maxPolls {
      Fetched(w, cfg, c);
      var answer := w.server(Fetching(c).fetches);
      if IsNotReady(answer) {
        NotReadyRound(w, cfg, c, rows);
      } else if IsResult(answer) {
        ResultRound(w, cfg, c, rows);
      }
      var p := CollectStep(w, cfg, c, rows);
      if p.More? {
        CollectConverses(w, cfg, p.cursor, p.rows);
      }
    }
  }

  lemma StartConverses(w: World, cfg: Config)
    ensures Conversing(w, cfg, Start(cfg)) && AllData(w, Start(cfg).fetches) == []
  {
  }

  /**
   Against any server and any context the collecting loop begins with the first token, goes on with what each answer
   names, asks nothing after its context has ended, says of the last answer what is true of it, and cleans up as that
   calls for.
   */
  lemma LoopConverses(w: World, cfg: Config)
    ensures var r := CollectFrom(w, cfg, Start(cfg), []);
            Conversed(w, cfg, r) && CleanedUp(cfg, r.end, CleanupFor(cfg, r.end))
  {
    StartConverses(w, cfg);
    CollectConverses(w, cfg, Start(cfg), []);
    CleanupIsRight(cfg, CollectFrom(w, cfg, Start(cfg), []).end);
  }

  // ---- the iterator ----

  /** An iterator that has not ended: as the loop, with the rows handed out and the pending ones making up all data. */
  ghost predicate Streaming(w: World, cfg: Config, s: Iterator, rows: seq<Row>) {
    && IteratorOk(cfg, s) && s.end.None? && |rows| == s.rowsYielded && rows + s.pending == AllData(w, s.cursor.fetches)
    && |s.cursor.fetches| <= cfg.maxPolls && Followed(w, cfg, s.cursor.fetches) && InTime(w, s.cursor.fetches)
    && s.cursor.columns == SchemaKnown(w, s.cursor.fetches)
    && (s.pending != [] ==> s.cursor.fetches != [] && GoodRows(w, s.cursor.fetches))
    && if s.pendingEOS then
         s.cursor.fetches != [] && GoodRows(w, s.cursor.fetches)
         && w.server(s.cursor.fetches).Ok? && w.server(s.cursor.fetches).value.kind == EOS
       else |AllData(w, s.cursor.fetches)| <= cfg.maxRows ==> Followed(w, cfg, s.cursor.fetches + [s.cursor.next])
  }

  ghost predicate Streamed(w: World, cfg: Config, s: Iterator, rows: seq<Row>) {
    && s.end.Some? && CleanedUp(cfg, s.end.value, s.cleanup)
    && Conversed(w, cfg, Outcome(rows, s.end.value, s.cursor.fetches, s.cursor.waits))
  }

  ghost predicate Fetches(w: World, cfg: Config, s: Iterator, rows: seq<Row>) {
    && Streaming(w, cfg, s, rows) && s.pending == [] && !s.pendingEOS && |s.cursor.fetches| < cfg.maxPolls
    && !w.ended(s.cursor.fetches, s.rowsYielded)
  }

  lemma FetchesAsLoop(w: World, cfg: Config, s: Iterator, rows: seq<Row>)
    requires Fetches(w, cfg, s, rows)
    ensures rows == AllData(w, s.cursor.fetches) && Conversing(w, cfg, s.cursor)
  {
    assert rows + [] == rows;
  }

  lemma NotReadyFetch(w: World, cfg: Config, s: Iterator, rows: seq<Row>)
    requires Fetches(w, cfg, s, rows) && IsNotReady(w.server(Fetching(s.cursor).fetches))
    ensures var t := FetchStep(w, cfg, s);
            if t.end.None? then Streaming(w, cfg, t, rows) else Streamed(w, cfg, t, rows)
  {
    FetchesAsLoop(w, cfg, s, rows);
    Fetched(w, cfg, s.cursor);
    var f, t := Fetching(s.cursor).fetches, FetchStep(w, cfg, s);
    assert CarriedBy(w.server(f)) == [] && rows + [] == rows;
    if t.end.None? {
      FollowedOn(w, cfg, f, t.cursor.next);
    }
  }

  lemma ResultLoads(w: World, cfg: Config, s: Iterator, rows: seq<Row>)
    requires Fetches(w, cfg, s, rows) && IsResult(w.server(Fetching(s.cursor).fetches))
    requires FetchStep(w, cfg, s).end.None?
    ensures Streaming(w, cfg, FetchStep(w, cfg, s), rows)
  {
    FetchesAsLoop(w, cfg, s, rows);
    Fetched(w, cfg, s.cursor);
    var f, t := Fetching(s.cursor).fetches, FetchStep(w, cfg, s);
    RowsChecked(w, f);
    if !t.pendingEOS && |AllData(w, f)| <= cfg.maxRows {
      FollowedOn(w, cfg, f, t.cursor.next);
    }
  }

  lemma ResultStops(w: World, cfg: Config, s: Iterator, rows: seq<Row>)
    requires Fetches(w, cfg, s, rows) && IsResult(w.server(Fetching(s.cursor).fetches))
    requires FetchStep(w, cfg, s).end.Some?
    ensures Streamed(w, cfg, FetchStep(w, cfg, s), rows)
  {
    FetchesAsLoop(w, cfg, s, rows);
    Fetched(w, cfg, s.cursor);
    RowsChecked(w, Fetching(s.cursor).fetches);
  }

  lemma AnyFetch(w: World, cfg: Config, s: Iterator, rows: seq<Row>)
    requires Fetches(w, cfg, s, rows)
    ensures var t := FetchStep(w, cfg, s);
            if t.end.None? then Streaming(w, cfg, t, rows) else Streamed(w, cfg, t, rows)
  {
    var answer := w.server(Fetching(s.cursor).fetches);
    if IsNotReady(answer) {
      NotReadyFetch(w, cfg, s, rows);
    } else if IsResult(answer) {
      if FetchStep(w, cfg, s).end.None? {
        ResultLoads(w, cfg, s, rows);
      } else {
        ResultStops(w, cfg, s, rows);
      }
    } else {
      FetchesAsLoop(w, cfg, s, rows);
      Fetched(w, cfg, s.cursor);
    }
  }

  lemma Stopped(w: World, cfg: Config, s: Iterator, rows: seq<Row>, end: End)
    requires Streaming(w, cfg, s, rows) && EndIsRight(w, cfg, Outcome(rows, end, s.cursor.fetches, s.cursor.waits))
    ensures Streamed(w, cfg, Stop(cfg, s, end), rows)
  {
  }

  /** A call of Next that needs no fetch. */
  lemma NextFromPending(w: World, cfg: Config, s: Iterator, rows: seq<Row>)
    requires Streaming(w, cfg, s, rows) && !Fetches(w, cfg, s, rows)
    ensures var (t, row) := NextFrom(w, cfg, s);
            if row.Some? then Streaming(w, cfg, t, rows + [row.value]) else Streamed(w, cfg, t, rows)
  {
    if w.ended(s.cursor.fetches, s.rowsYielded) {
      Stopped(w, cfg, s, rows, ContextEnded);
    } else if s.pending != [] {
      if s.rowsYielded >= cfg.maxRows {
        Stopped(w, cfg, s, rows, RowLimit(s.rowsYielded));
      } else {
        assert rows + [s.pending[0]] + s.pending[1..] == rows + s.pending;
      }
    } else if s.pendingEOS {
      Stopped(w, cfg, s, rows, Finished);
    } else {
      Stopped(w, cfg, s, rows, PollLimit(|s.cursor.fetches|));
    }
  }

  lemma {:induction false} NextConverses(w: World, cfg: Config, s: Iterator, rows: seq<Row>)
    requires Streaming(w, cfg, s, rows)
    ensures var (t, row) := NextFrom(w, cfg, s);
            if row.Some? then Streaming(w, cfg, t, rows + [row.value]) else Streamed(w, cfg, t, rows)
    decreases cfg.maxPolls - |s.cursor.fetches|
  {
    if Fetches(w, cfg, s, rows) {
      AnyFetch(w, cfg, s, rows);
      if FetchStep(w, cfg, s).end.None? {
        NextConverses(w, cfg, FetchStep(w, cfg, s), rows);
      }
    } else {
      NextFromPending(w, cfg, s, rows);
    }
  }

  lemma {:induction false} DrainConverses(w: World, cfg: Config, s: Iterator, rows: seq<Row>)
    requires Streaming(w, cfg, s, rows)
    ensures var (all, t) := Drain(w, cfg, s, rows); Streamed(w, cfg, t, all)
    decreases cfg.maxRows - s.rowsYielded
  {
    NextConverses(w, cfg, s, rows);
    var (t, row) := NextFrom(w, cfg, s);
    if row.Some? {
      DrainConverses(w, cfg, t, rows + [row.value]);
    }
  }

  /** The same of a new iterator drained to its end. */
  lemma IteratorConverses(w: World, cfg: Config)
    ensures var (all, t) := Drain(w, cfg, Fresh(cfg), []);
            && t.end.Some? && Conversed(w, cfg, Outcome(all, t.end.value, t.cursor.fetches, t.cursor.waits))
            && CleanedUp(cfg, t.end.value, t.cleanup)
  {
    StartConverses(w, cfg);
    assert [] + Fresh(cfg).pending == AllData(w, Fresh(cfg).cursor.fetches);
    DrainConverses(w, cfg, Fresh(cfg), []);
  }
}
