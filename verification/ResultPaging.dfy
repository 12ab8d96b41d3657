/**
 Following result pages to the end, as the collecting loop and as the resumable iterator do it, and
 what page by page they are supposed to come to.
 */
module ResultPaging {
  import opened Text

  datatype Request = FirstToken | Paging(url: string)

  datatype PageKind = NotReady | Payload | EOS | UnknownKind(name: string)

  datatype Row = Row(fields: seq<string>)

  datatype ResultInfo = ResultInfo(columns: seq<string>, data: seq<Row>)

  datatype Page = Page(kind: PageKind, nextResultUri: string, results: Option<ResultInfo>)

  /** What a failed fetch is after operationFailure has looked at the operation's status. */
  datatype FetchError = FetchError(text: string, isContext: bool, isLimit: bool)

  /**
   The world outside: the server answers the last of the requests made so far in any way it likes;
   trim is strings.TrimSpace, resolve validateNextResultURI, and validField the JSON check on one field. ended says
   whether the caller's context has ended when it is looked at after these requests and so many rows, waitCut whether
   it ends during the wait after them.
   */
  datatype World = World(
    server: seq<Request> -> Result<Page, FetchError>,
    trim: string -> string,
    resolve: string -> Option<string>,
    validField: string -> bool,
    ended: (seq<Request>, nat) -> bool,
    waitCut: seq<Request> -> bool)

  datatype Config = Config(maxRows: nat, maxPolls: nat, pollInterval: int, maxPollInterval: int,
      cancelOnContextDone: bool)

  const MAX_INT64: int := 0x7FFF_FFFF_FFFF_FFFF

  /** What Config.normalize and executionSettings guarantee. */
  ghost predicate Normalized(cfg: Config) {
    && cfg.maxRows > 0 && cfg.maxPolls > 0
    && 0 < cfg.pollInterval <= cfg.maxPollInterval <= MAX_INT64
  }

  datatype End =
    | Finished | RowLimit(received: nat) | PollLimit(received: nat) | FetchFailed(error: FetchError)
    | BadRows | MissingUri | BadUri | UnknownResult(name: string)
    | ContextEnded
    | Abandoned // closed by the caller before the end

  // ---- back-off ----

  /** The value a 64-bit signed integer keeps of n. */
  function Wrap64(n: int): int {
    (n + 0x8000_0000_0000_0000) % 0x1_0000_0000_0000_0000 - 0x8000_0000_0000_0000
  }

  function NextPollInterval(current: int, maximum: int): int {
    var next := Wrap64(current * 2);
    if next < current || next > maximum then maximum else next
  }

  function Doubled(interval: int, k: nat): int {
    if k == 0 then interval else 2 * Doubled(interval, k - 1)
  }

  /** The wait after k pages in a row that were not ready. */
  function Backoff(cfg: Config, k: nat): int {
    if Doubled(cfg.pollInterval, k) <= cfg.maxPollInterval then Doubled(cfg.pollInterval, k) else cfg.maxPollInterval
  }

  lemma {:induction false} DoubledPositive(interval: int, k: nat)
    requires interval > 0
    ensures Doubled(interval, k) > 0
  {
    if k > 0 {
      DoubledPositive(interval, k - 1);
    }
  }

  /** Doubling in 64 bits with a cap is doubling without bound and capping at the end. */
  lemma BackoffDoubles(cfg: Config, k: nat)
    requires Normalized(cfg)
    ensures NextPollInterval(Backoff(cfg, k), cfg.maxPollInterval) == Backoff(cfg, k + 1)
  {
    DoubledPositive(cfg.pollInterval, k);
  }

  // ---- where paging stands between two fetches ----

  datatype Cursor = Cursor(next: Request, interval: int, columns: seq<string>, fetches: seq<Request>, waits: seq<int>)

  function Start(cfg: Config): Cursor {
    Cursor(FirstToken, cfg.pollInterval, [], [], [])
  }

  predicate RowsFit(w: World, columns: seq<string>, rows: seq<Row>) {
    forall i :: 0 <= i < |rows| ==>
      |rows[i].fields| == |columns| && forall j :: 0 <= j < |rows[i].fields| ==> w.validField(rows[i].fields[j])
  }

  function Data(page: Page): seq<Row> {
    if page.results.Some? then page.results.value.data else []
  }

  /** The columns known once this page is in: the first non-empty schema seen. */
  function Columns(columns: seq<string>, page: Page): seq<string> {
    if columns == [] && page.results.Some? then page.results.value.columns else columns
  }

  function Uri(w: World, page: Page): string {
    w.trim(page.nextResultUri)
  }

  /** The page names a next page and the name is acceptable. */
  predicate Continues(w: World, page: Page) {
    Uri(w, page) != "" && w.resolve(Uri(w, page)).Some?
  }

  function UriProblem(w: World, page: Page): End {
    if Uri(w, page) == "" then MissingUri else BadUri
  }

  function Fetching(c: Cursor): Cursor {
    c.(fetches := c.fetches + [c.next])
  }

  /** After a NOT_READY page whose URI, if any, is acceptable: the wait begins. */
  function Waiting(w: World, c: Cursor, page: Page): Cursor
    requires Uri(w, page) == "" || Continues(w, page)
  {
    c.(next := if Uri(w, page) == "" then FirstToken else Paging(w.resolve(Uri(w, page)).value),
       waits := c.waits + [c.interval])
  }

  /** The wait is over: ask again. */
  function Waited(w: World, cfg: Config, c: Cursor, page: Page): Cursor
    requires Uri(w, page) == "" || Continues(w, page)
  {
    Waiting(w, c, page).(interval := NextPollInterval(c.interval, cfg.maxPollInterval))
  }

  function Advanced(w: World, cfg: Config, c: Cursor, page: Page): Cursor
    requires Continues(w, page)
  {
    c.(next := Paging(w.resolve(Uri(w, page)).value), interval := cfg.pollInterval, columns := Columns(c.columns, page))
  }

  datatype Outcome = Outcome(rows: seq<Row>, end: End, fetches: seq<Request>, waits: seq<int>)

  function Ended(c: Cursor, rows: seq<Row>, end: End): Outcome {
    Outcome(rows, end, c.fetches, c.waits)
  }

  /** What one fetch leads to: the end, or on with the rows so far. */
  datatype Progress = Done(outcome: Outcome) | More(cursor: Cursor, rows: seq<Row>)

  /** One round of the collecting loop. A result page's rows are taken before its URI is looked at. */
  function CollectStep(w: World, cfg: Config, c: Cursor, rows: seq<Row>): (p: Progress)
    requires |rows| <= cfg.maxRows
    ensures p.More? ==> |p.rows| <= cfg.maxRows && p.cursor.fetches == c.fetches + [c.next]
  {
    var d := Fetching(c);
    match w.server(d.fetches)
    case Err(e) => Done(Ended(d, rows, FetchFailed(e)))
    case Ok(page) =>
      if page.kind.UnknownKind? then Done(Ended(d, rows, UnknownResult(page.kind.name)))
      else if page.kind == NotReady then
        if Uri(w, page) != "" && !Continues(w, page) then Done(Ended(d, rows, BadUri))
        else if w.waitCut(d.fetches) then Done(Ended(Waiting(w, d, page), rows, ContextEnded))
        else More(Waited(w, cfg, d, page), rows)
      else
        var data := Data(page);
        if !RowsFit(w, Columns(c.columns, page), data) then Done(Ended(d, rows, BadRows))
        else if |rows| + |data| > cfg.maxRows then
          Done(Ended(d, rows + data[..cfg.maxRows - |rows|], RowLimit(cfg.maxRows)))
        else if page.kind == EOS then Done(Ended(d, rows + data, Finished))
        else if !Continues(w, page) then Done(Ended(d, rows + data, UriProblem(w, page)))
        else More(Advanced(w, cfg, d, page), rows + data)
  }

  /** The collecting loop from a cursor on, with the rows collected so far. */
  function CollectFrom(w: World, cfg: Config, c: Cursor, rows: seq<Row>): Outcome
    requires |rows| <= cfg.maxRows
    decreases cfg.maxPolls - |c.fetches|
  {
    if w.ended(c.fetches, |rows|) then Ended(c, rows, ContextEnded)
    else if |c.fetches| >= cfg.maxPolls then Ended(c, rows, PollLimit(|c.fetches|))
    else
      match CollectStep(w, cfg, c, rows)
      case Done(outcome) => outcome
      case More(d, more) => CollectFrom(w, cfg, d, more)
  }

  /** The requests that clean up an operation. */
  datatype Cleanup = Cancel | Close

  predicate WantsCancel(cfg: Config, end: End) {
    match end
    case RowLimit(_) => true
    case PollLimit(_) => true
    case FetchFailed(e) => e.isLimit || (cfg.cancelOnContextDone && e.isContext)
    case ContextEnded => cfg.cancelOnContextDone
    case _ => false
  }

  function CleanupFor(cfg: Config, end: End): seq<Cleanup> {
    if WantsCancel(cfg, end) then [Cancel, Close] else [Close]
  }

  method ValidateResultRows(w: World, columns: seq<string>, rows: seq<Row>) returns (ok: bool)
    ensures ok == RowsFit(w, columns, rows)
  {
    for i := 0 to |rows|
      invariant RowsFit(w, columns, rows[..i])
    {
      if |rows[i].fields| != |columns| {
        return false;
      }
      for j := 0 to |rows[i].fields|
        invariant forall k :: 0 <= k < j ==> w.validField(rows[i].fields[k])
      {
        if !w.validField(rows[i].fields[j]) {
          return false;
        }
      }
    }
    assert rows[..|rows|] == rows;
    return true;
  }

  /** The collecting loop and, as runExecution does after it, the cleanup its end calls for. */
  method ConsumeResults(w: World, cfg: Config) returns (result: Outcome, cleanup: seq<Cleanup>)
    ensures result == CollectFrom(w, cfg, Start(cfg), [])
    ensures cleanup == CleanupFor(cfg, result.end)
    ensures Normalized(cfg) ==> Faithful(w, cfg, result)
  {
    var c := Start(cfg);
    var rows: seq<Row> := [];
    var polls := 0;
    var end := Finished;
    while true
      invariant polls == |c.fetches| && polls <= cfg.maxPolls && |rows| <= cfg.maxRows
      invariant CollectFrom(w, cfg, c, rows) == CollectFrom(w, cfg, Start(cfg), [])
      decreases cfg.maxPolls - polls
    {
      if w.ended(c.fetches, |rows|) {
        end := ContextEnded;
        break;
      }
      if polls >= cfg.maxPolls {
        end := PollLimit(polls);
        break;
      }
      var d := Fetching(c);
      var fetched := w.server(d.fetches);
      polls := polls + 1;
      if fetched.Err? {
        c, end := d, FetchFailed(fetched.error);
        break;
      }
      var page := fetched.value;
      if page.kind == NotReady {
        if Uri(w, page) != "" && w.resolve(Uri(w, page)).None? {
          c, end := d, BadUri;
          break;
        }
        if w.waitCut(d.fetches) {
          c, end := Waiting(w, d, page), ContextEnded;
          break;
        }
        c := Waited(w, cfg, d, page);
      } else if page.kind.UnknownKind? {
        c, end := d, UnknownResult(page.kind.name);
        break;
      } else {
        var ok := ValidateResultRows(w, Columns(c.columns, page), Data(page));
        if !ok {
          c, end := d, BadRows;
          break;
        }
        ghost var before := rows;
        var limited := false;
        rows, limited := AppendRows(cfg, rows, Data(page));
        if limited {
          c, end := d, RowLimit(|rows|);
          break;
        }
        if page.kind == EOS {
          c, end := d, Finished;
          break;
        }
        if !Continues(w, page) {
          c, end := d, UriProblem(w, page);
          break;
        }
        c := Advanced(w, cfg, d, page);
      }
    }
    result := Ended(c, rows, end);
    cleanup := if WantsCancel(cfg, end) then [Cancel, Close] else [Close];
    if Normalized(cfg) {
      CollectorFaithful(w, cfg);
    }
  }

  /** The row loop of one page: it stops at the row that would exceed the limit. */
  method AppendRows(cfg: Config, before: seq<Row>, data: seq<Row>) returns (rows: seq<Row>, limited: bool)
    requires |before| <= cfg.maxRows
    ensures limited <==> |before| + |data| > cfg.maxRows
    ensures rows == before + (if limited then data[..cfg.maxRows - |before|] else data)
  {
    rows := before;
    for index := 0 to |data|
      invariant rows == before + data[..index] && |rows| <= cfg.maxRows
    {
      if |rows| >= cfg.maxRows {
        return rows, true;
      }
      rows := rows + [data[index]];
    }
    assert data[..|data|] == data;
    limited := false;
  }

  // ---- what the loop promises, over the whole conversation ----

  function CarriedBy(answer: Result<Page, FetchError>): seq<Row> {
    if answer.Ok? && (answer.value.kind == Payload || answer.value.kind == EOS) then Data(answer.value) else []
  }

  /** All rows of all result pages, in the order they were fetched. */
  function AllData(w: World, fetches: seq<Request>): seq<Row> {
    if fetches == [] then [] else AllData(w, fetches[..|fetches| - 1]) + CarriedBy(w.server(fetches))
  }

  predicate WasNotReady(w: World, fetches: seq<Request>) {
    fetches != [] && w.server(fetches).Ok? && w.server(fetches).value.kind == NotReady
  }

  /** How many of the latest pages in a row were not ready. */
  function Streak(w: World, fetches: seq<Request>): nat {
    if WasNotReady(w, fetches) then 1 + Streak(w, fetches[..|fetches| - 1]) else 0
  }

  /** One wait for each NOT_READY page that did not end the run, by its place in its streak. */
  function AllWaits(w: World, cfg: Config, fetches: seq<Request>): seq<int> {
    if fetches == [] then []
    else
      var before := fetches[..|fetches| - 1];
      AllWaits(w, cfg, before)
      + if WasNotReady(w, fetches) && (var page := w.server(fetches).value; Uri(w, page) == "" || Continues(w, page))
        then [Backoff(cfg, Streak(w, before))] else []
  }

  ghost predicate OnTrack(w: World, cfg: Config, c: Cursor) {
    && c.interval == Backoff(cfg, Streak(w, c.fetches))
    && c.waits == AllWaits(w, cfg, c.fetches)
    && |c.fetches| <= cfg.maxPolls
  }

  /** What every run promises about what it returns. */
  ghost predicate Faithful(w: World, cfg: Config, r: Outcome) {
    && |r.fetches| <= cfg.maxPolls && |r.rows| <= cfg.maxRows
    && r.rows <= AllData(w, r.fetches)
    && (r.end == Finished ==> r.rows == AllData(w, r.fetches))
    && r.waits == AllWaits(w, cfg, r.fetches)
    && (r.end.RowLimit? ==> |r.rows| == cfg.maxRows < |AllData(w, r.fetches)|)
    && (r.end.PollLimit? ==> |r.fetches| == cfg.maxPolls)
  }

  /** One more fetch, read off the definitions. */
  lemma LogGrows(w: World, cfg: Config, before: seq<Request>, request: Request)
    ensures var f := before + [request];
            && AllData(w, f) == AllData(w, before) + CarriedBy(w.server(f))
            && (WasNotReady(w, f) ==> Streak(w, f) == Streak(w, before) + 1)
            && (!WasNotReady(w, f) ==> Streak(w, f) == 0 && AllWaits(w, cfg, f) == AllWaits(w, cfg, before))
            && (WasNotReady(w, f) ==>
                  var page := w.server(f).value;
                  AllWaits(w, cfg, f) == AllWaits(w, cfg, before)
                                         + if Uri(w, page) == "" || Continues(w, page)
                                           then [Backoff(cfg, Streak(w, before))] else [])
  {
    var f := before + [request];
    assert f[..|f| - 1] == before;
  }

  /** The promise after one round: what was returned is faithful, or the loop is still on track. */
  ghost predicate RoundOk(w: World, cfg: Config, p: Progress) {
    if p.Done? then Faithful(w, cfg, p.outcome)
    else OnTrack(w, cfg, p.cursor) && p.rows == AllData(w, p.cursor.fetches)
  }

  lemma WaitedInterval(w: World, cfg: Config, c: Cursor, page: Page)
    requires Normalized(cfg) && OnTrack(w, cfg, c)
    requires w.server(Fetching(c).fetches) == Ok(page) && page.kind == NotReady
    requires Uri(w, page) == "" || Continues(w, page)
    ensures var d := Waited(w, cfg, Fetching(c), page); d.interval == Backoff(cfg, Streak(w, d.fetches))
  {
    var k, fetches := Streak(w, c.fetches), c.fetches + [c.next];
    StreakGrows(w, c.fetches, c.next);
    BackoffDoubles(cfg, k);
    assert Streak(w, fetches) == k + 1;
  }

  lemma StreakGrows(w: World, before: seq<Request>, request: Request)
    requires WasNotReady(w, before + [request])
    ensures Streak(w, before + [request]) == Streak(w, before) + 1
  {
    var f := before + [request];
    assert f[..|f| - 1] == before;
  }

  lemma WaitedLog(w: World, cfg: Config, c: Cursor, page: Page)
    requires Normalized(cfg) && OnTrack(w, cfg, c)
    requires w.server(Fetching(c).fetches) == Ok(page) && page.kind == NotReady
    requires Uri(w, page) == "" || Continues(w, page)
    ensures var d := Waited(w, cfg, Fetching(c), page);
            d.waits == AllWaits(w, cfg, d.fetches) && AllData(w, d.fetches) == AllData(w, c.fetches)
  {
    LogGrows(w, cfg, c.fetches, c.next);
  }

  lemma CutRound(w: World, cfg: Config, c: Cursor, rows: seq<Row>, page: Page)
    requires Normalized(cfg) && OnTrack(w, cfg, c) && |c.fetches| < cfg.maxPolls
    requires |rows| <= cfg.maxRows && rows == AllData(w, c.fetches)
    requires w.server(Fetching(c).fetches) == Ok(page) && page.kind == NotReady
    requires Uri(w, page) == "" || Continues(w, page)
    ensures Faithful(w, cfg, Ended(Waiting(w, Fetching(c), page), rows, ContextEnded))
  {
    WaitedLog(w, cfg, c, page);
  }

  lemma StuckRound(w: World, cfg: Config, c: Cursor, rows: seq<Row>, page: Page)
    requires Normalized(cfg) && OnTrack(w, cfg, c) && |c.fetches| < cfg.maxPolls
    requires |rows| <= cfg.maxRows && rows == AllData(w, c.fetches)
    requires w.server(Fetching(c).fetches) == Ok(page) && page.kind == NotReady
    requires Uri(w, page) != "" && !Continues(w, page)
    ensures Faithful(w, cfg, Ended(Fetching(c), rows, BadUri))
  {
    LogGrows(w, cfg, c.fetches, c.next);
    assert AllData(w, Fetching(c).fetches) == rows;
  }

  lemma ResultRound(w: World, cfg: Config, c: Cursor, rows: seq<Row>, page: Page)
    requires Normalized(cfg) && OnTrack(w, cfg, c) && |c.fetches| < cfg.maxPolls
    requires |rows| <= cfg.maxRows && rows == AllData(w, c.fetches)
    requires w.server(Fetching(c).fetches) == Ok(page) && (page.kind == Payload || page.kind == EOS)
    ensures Faithful(w, cfg, Ended(Fetching(c), rows, BadRows))
    ensures |rows| + |Data(page)| > cfg.maxRows ==>
              Faithful(w, cfg, Ended(Fetching(c), rows + Data(page)[..cfg.maxRows - |rows|], RowLimit(cfg.maxRows)))
    ensures |rows| + |Data(page)| <= cfg.maxRows ==>
              && Faithful(w, cfg, Ended(Fetching(c), rows + Data(page), Finished))
              && Faithful(w, cfg, Ended(Fetching(c), rows + Data(page), UriProblem(w, page)))
    ensures Continues(w, page) ==>
              && OnTrack(w, cfg, Advanced(w, cfg, Fetching(c), page))
              && rows + Data(page) == AllData(w, Fetching(c).fetches)
  {
    LogGrows(w, cfg, c.fetches, c.next);
    assert AllData(w, Fetching(c).fetches) == rows + Data(page);
    assert Backoff(cfg, 0) == cfg.pollInterval;
  }

  lemma FailedRound(w: World, cfg: Config, c: Cursor, rows: seq<Row>, end: End)
    requires Normalized(cfg) && OnTrack(w, cfg, c) && |c.fetches| < cfg.maxPolls
    requires |rows| <= cfg.maxRows && rows == AllData(w, c.fetches)
    requires end.FetchFailed? || end.UnknownResult?
    requires var answer := w.server(Fetching(c).fetches); answer.Err? || answer.value.kind.UnknownKind?
    ensures Faithful(w, cfg, Ended(Fetching(c), rows, end))
  {
    LogGrows(w, cfg, c.fetches, c.next);
    assert AllData(w, Fetching(c).fetches) == rows;
  }

  lemma RoundIsOk(w: World, cfg: Config, c: Cursor, rows: seq<Row>)
    requires Normalized(cfg) && OnTrack(w, cfg, c) && |c.fetches| < cfg.maxPolls
    requires |rows| <= cfg.maxRows && rows == AllData(w, c.fetches)
    ensures RoundOk(w, cfg, CollectStep(w, cfg, c, rows))
  {
    match w.server(Fetching(c).fetches) {
      case Err(e) => FailedRound(w, cfg, c, rows, FetchFailed(e));
      case Ok(page) =>
        match page.kind {
          case UnknownKind(name) => FailedRound(w, cfg, c, rows, UnknownResult(name));
          case NotReady =>
            if Uri(w, page) == "" || Continues(w, page) {
              WaitedInterval(w, cfg, c, page);
              WaitedLog(w, cfg, c, page);
              CutRound(w, cfg, c, rows, page);
            } else {
              StuckRound(w, cfg, c, rows, page);
            }
          case Payload => ResultRound(w, cfg, c, rows, page);
          case EOS => ResultRound(w, cfg, c, rows, page);
        }
    }
  }

  /**
   The collecting loop, from anywhere it can be: never more polls or rows than allowed, rows always the
   front of what the pages carried and all of it on success, every wait the capped doubling.
   */
  lemma {:induction false} CollectIsFaithful(w: World, cfg: Config, c: Cursor, rows: seq<Row>)
    requires Normalized(cfg) && OnTrack(w, cfg, c)
    requires |rows| <= cfg.maxRows && rows == AllData(w, c.fetches)
    ensures Faithful(w, cfg, CollectFrom(w, cfg, c, rows))
    decreases cfg.maxPolls - |c.fetches|
  {
    if |c.fetches| < cfg.maxPolls {
      RoundIsOk(w, cfg, c, rows);
      match CollectStep(w, cfg, c, rows) {
        case Done(_) =>
        case More(d, more) => CollectIsFaithful(w, cfg, d, more);
      }
    }
  }

  lemma CollectorFaithful(w: World, cfg: Config)
    requires Normalized(cfg)
    ensures Faithful(w, cfg, CollectFrom(w, cfg, Start(cfg), []))
  {
    CollectIsFaithful(w, cfg, Start(cfg), []);
  }

  // ---- the iterator ----

  datatype Iterator = Iterator(
    cursor: Cursor,
    pending: seq<Row>,
    pendingEOS: bool,
    rowsYielded: nat,
    end: Option<End>,
    cleanup: seq<Cleanup>)

  ghost predicate IteratorOk(cfg: Config, s: Iterator) {
    && s.rowsYielded <= cfg.maxRows
    && (s.end.None? <==> s.cleanup == [])
  }

  function Fresh(cfg: Config): Iterator {
    Iterator(Start(cfg), [], false, 0, None, [])
  }

  /** Only the first end counts; it cleans the operation up. */
  function Stop(cfg: Config, s: Iterator, end: End): Iterator {
    s.(end := Some(end), cleanup := CleanupFor(cfg, end))
  }

  /** A result page taken in: its rows are pending, the back-off starts over. */
  function Loaded(cfg: Config, s: Iterator, page: Page, rows: seq<Row>, eos: bool): Iterator {
    s.(cursor := s.cursor.(interval := cfg.pollInterval, columns := Columns(s.cursor.columns, page)),
       pending := rows, pendingEOS := eos)
  }

  /** One fetch of the iterator. A PAYLOAD page's URI is looked at before any of its rows are handed out. */
  function FetchStep(w: World, cfg: Config, s: Iterator): (t: Iterator)
    requires s.end.None? && s.cleanup == []
    ensures t.cursor.fetches == s.cursor.fetches + [s.cursor.next] && t.rowsYielded == s.rowsYielded
    ensures t.end.None? <==> t.cleanup == []
  {
    var t := s.(cursor := Fetching(s.cursor));
    match w.server(t.cursor.fetches)
    case Err(e) => Stop(cfg, t, FetchFailed(e))
    case Ok(page) =>
      if page.kind.UnknownKind? then Stop(cfg, t, UnknownResult(page.kind.name))
      else if page.kind == NotReady then NotReadyStep(w, cfg, t, page)
      else ResultStep(w, cfg, t, page)
  }

  function NotReadyStep(w: World, cfg: Config, t: Iterator, page: Page): Iterator {
    if Uri(w, page) != "" && !Continues(w, page) then Stop(cfg, t, BadUri)
    else if w.waitCut(t.cursor.fetches) then Stop(cfg, t.(cursor := Waiting(w, t.cursor, page)), ContextEnded)
    else t.(cursor := Waited(w, cfg, t.cursor, page))
  }

  function ResultStep(w: World, cfg: Config, t: Iterator, page: Page): Iterator {
    if !RowsFit(w, Columns(t.cursor.columns, page), Data(page)) then
      Stop(cfg, Loaded(cfg, t, page, [], t.pendingEOS), BadRows)
    else
      var u := Loaded(cfg, t, page, Data(page), page.kind == EOS);
      if page.kind == EOS then u
      else if !Continues(w, page) then Stop(cfg, u, UriProblem(w, page))
      else u.(cursor := u.cursor.(next := Paging(w.resolve(Uri(w, page)).value)))
  }

  /** One call of Next: the next row, or None at the end. */
  function NextFrom(w: World, cfg: Config, s: Iterator): (r: (Iterator, Option<Row>))
    requires IteratorOk(cfg, s)
    ensures IteratorOk(cfg, r.0)
    ensures r.1.Some? <==> r.0.end.None?
    ensures r.1.Some? ==> r.0.rowsYielded == s.rowsYielded + 1
    decreases cfg.maxPolls - |s.cursor.fetches|
  {
    if s.end.Some? then (s, None)
    else if w.ended(s.cursor.fetches, s.rowsYielded) then (Stop(cfg, s, ContextEnded), None)
    else if s.pending != [] then
      if s.rowsYielded >= cfg.maxRows then (Stop(cfg, s, RowLimit(s.rowsYielded)), None)
      else (s.(pending := s.pending[1..], rowsYielded := s.rowsYielded + 1), Some(s.pending[0]))
    else if s.pendingEOS then (Stop(cfg, s, Finished), None)
    else if |s.cursor.fetches| >= cfg.maxPolls then (Stop(cfg, s, PollLimit(|s.cursor.fetches|)), None)
    else NextFrom(w, cfg, FetchStep(w, cfg, s))
  }

  /** Calling Next until it returns false: the rows seen on the way and the iterator at the end. */
  function Drain(w: World, cfg: Config, s: Iterator, rows: seq<Row>): (seq<Row>, Iterator)
    requires IteratorOk(cfg, s)
    decreases cfg.maxRows - s.rowsYielded
  {
    var (t, row) := NextFrom(w, cfg, s);
    if row.Some? then Drain(w, cfg, t, rows + [row.value]) else (rows, t)
  }

  function Drained(r: (seq<Row>, Iterator)): Option<Outcome> {
    if r.1.end.None? then None else Some(Outcome(r.0, r.1.end.value, r.1.cursor.fetches, r.1.cursor.waits))
  }

  // ---- what the iterator promises, whenever its context ends ----

  /**
   So far the rows handed out and the pending ones are all that the pages carried, and the waits are as they should
   be.
   */
  ghost predicate Delivering(w: World, cfg: Config, s: Iterator, rows: seq<Row>) {
    && IteratorOk(cfg, s) && s.end.None? && |rows| == s.rowsYielded && OnTrack(w, cfg, s.cursor)
    && rows + s.pending == AllData(w, s.cursor.fetches)
  }

  /** At the end the iterator keeps the promise of the loop. */
  ghost predicate Delivered(w: World, cfg: Config, s: Iterator, rows: seq<Row>) {
    s.end.Some? && Faithful(w, cfg, Outcome(rows, s.end.value, s.cursor.fetches, s.cursor.waits))
  }

  lemma NotReadyDelivers(w: World, cfg: Config, s: Iterator, rows: seq<Row>, page: Page)
    requires Normalized(cfg) && Delivering(w, cfg, s, rows) && s.pending == [] && |s.cursor.fetches| < cfg.maxPolls
    requires w.server(Fetching(s.cursor).fetches) == Ok(page) && page.kind == NotReady
    ensures var t := FetchStep(w, cfg, s);
            if t.end.None? then Delivering(w, cfg, t, rows) else Delivered(w, cfg, t, rows)
  {
    assert rows + [] == rows;
    if Uri(w, page) == "" || Continues(w, page) {
      WaitedInterval(w, cfg, s.cursor, page);
      WaitedLog(w, cfg, s.cursor, page);
      CutRound(w, cfg, s.cursor, rows, page);
    } else {
      StuckRound(w, cfg, s.cursor, rows, page);
    }
  }

  /** A page's rows become pending; where its URI ends the stream they stay undelivered. */
  lemma ResultDelivers(w: World, cfg: Config, s: Iterator, rows: seq<Row>, page: Page)
    requires Normalized(cfg) && Delivering(w, cfg, s, rows) && s.pending == [] && |s.cursor.fetches| < cfg.maxPolls
    requires w.server(Fetching(s.cursor).fetches) == Ok(page) && (page.kind == Payload || page.kind == EOS)
    ensures var t := FetchStep(w, cfg, s);
            if t.end.None? then Delivering(w, cfg, t, rows) else Delivered(w, cfg, t, rows)
  {
    assert rows + [] == rows;
    LogGrows(w, cfg, s.cursor.fetches, s.cursor.next);
    assert Backoff(cfg, 0) == cfg.pollInterval;
  }

  lemma FetchDelivers(w: World, cfg: Config, s: Iterator, rows: seq<Row>)
    requires Normalized(cfg) && Delivering(w, cfg, s, rows) && s.pending == [] && |s.cursor.fetches| < cfg.maxPolls
    ensures var t := FetchStep(w, cfg, s);
            if t.end.None? then Delivering(w, cfg, t, rows) else Delivered(w, cfg, t, rows)
  {
    assert rows + [] == rows;
    match w.server(Fetching(s.cursor).fetches) {
      case Err(e) => FailedRound(w, cfg, s.cursor, rows, FetchFailed(e));
      case Ok(page) =>
        match page.kind {
          case UnknownKind(name) => FailedRound(w, cfg, s.cursor, rows, UnknownResult(name));
          case NotReady => NotReadyDelivers(w, cfg, s, rows, page);
          case Payload => ResultDelivers(w, cfg, s, rows, page);
          case EOS => ResultDelivers(w, cfg, s, rows, page);
        }
    }
  }

  lemma {:induction false} NextDelivers(w: World, cfg: Config, s: Iterator, rows: seq<Row>)
    requires Normalized(cfg) && Delivering(w, cfg, s, rows)
    ensures var (t, row) := NextFrom(w, cfg, s);
            if row.Some? then Delivering(w, cfg, t, rows + [row.value]) else Delivered(w, cfg, t, rows)
    decreases cfg.maxPolls - |s.cursor.fetches|
  {
    assert rows <= rows + s.pending;
    if w.ended(s.cursor.fetches, s.rowsYielded) {
    } else if s.pending != [] {
      assert rows + [s.pending[0]] + s.pending[1..] == rows + s.pending;
    } else {
      assert rows + s.pending == rows;
      if !s.pendingEOS && |s.cursor.fetches| < cfg.maxPolls {
        FetchDelivers(w, cfg, s, rows);
        if FetchStep(w, cfg, s).end.None? {
          NextDelivers(w, cfg, FetchStep(w, cfg, s), rows);
        }
      }
    }
  }

  /**
   Whatever the server does and whenever the context ends, the drained iterator is faithful to the conversation:
   limits, a front of what the pages carried, all of it on success, and every wait the capped doubling.
   */
  lemma {:induction false} DrainDelivers(w: World, cfg: Config, s: Iterator, rows: seq<Row>)
    requires Normalized(cfg) && Delivering(w, cfg, s, rows)
    ensures var (all, t) := Drain(w, cfg, s, rows); Delivered(w, cfg, t, all)
    decreases cfg.maxRows - s.rowsYielded
  {
    NextDelivers(w, cfg, s, rows);
    var (t, row) := NextFrom(w, cfg, s);
    if row.Some? {
      DrainDelivers(w, cfg, t, rows + [row.value]);
    }
  }

  lemma IteratorFaithful(w: World, cfg: Config)
    requires Normalized(cfg)
    ensures var (all, t) := Drain(w, cfg, Fresh(cfg), []);
            t.end.Some? && Faithful(w, cfg, Outcome(all, t.end.value, t.cursor.fetches, t.cursor.waits))
  {
    assert [] + Fresh(cfg).pending == AllData(w, Fresh(cfg).cursor.fetches);
    DrainDelivers(w, cfg, Fresh(cfg), []);
  }

  /** The caller's context outlives the conversation. */
  ghost predicate NeverEnded(w: World) {
    (forall f, n :: !w.ended(f, n)) && (forall f :: !w.waitCut(f))
  }

  // ---- the two page by page ----

  /** One fetch as the drained iterator sees it: the URI of a PAYLOAD page first, then its rows. */
  function IterateStep(w: World, cfg: Config, c: Cursor, rows: seq<Row>): (p: Progress)
    requires |rows| <= cfg.maxRows
    ensures p.More? ==> |p.rows| <= cfg.maxRows && p.cursor.fetches == c.fetches + [c.next]
  {
    var d := Fetching(c);
    if LosesRows(w, cfg, c) then Done(Ended(d, rows, UriProblem(w, w.server(d.fetches).value)))
    else CollectStep(w, cfg, c, rows)
  }

  /** The next page is a PAYLOAD page that carries good rows and an unusable URI. */
  predicate LosesRows(w: World, cfg: Config, c: Cursor) {
    var answer := w.server(Fetching(c).fetches);
    && answer.Ok? && answer.value.kind == Payload && !Continues(w, answer.value)
    && Data(answer.value) != [] && RowsFit(w, Columns(c.columns, answer.value), Data(answer.value))
  }

  function IterateFrom(w: World, cfg: Config, c: Cursor, rows: seq<Row>): Outcome
    requires |rows| <= cfg.maxRows
    decreases cfg.maxPolls - |c.fetches|
  {
    if w.ended(c.fetches, |rows|) then Ended(c, rows, ContextEnded)
    else if |c.fetches| >= cfg.maxPolls then Ended(c, rows, PollLimit(|c.fetches|))
    else
      match IterateStep(w, cfg, c, rows)
      case Done(outcome) => outcome
      case More(d, more) => IterateFrom(w, cfg, d, more)
  }

  lemma DrainOne(w: World, cfg: Config, s: Iterator, rows: seq<Row>)
    requires NeverEnded(w)
    requires IteratorOk(cfg, s) && s.end.None? && s.pending != [] && s.rowsYielded < cfg.maxRows
    ensures Drain(w, cfg, s, rows) ==
            Drain(w, cfg, s.(pending := s.pending[1..], rowsYielded := s.rowsYielded + 1), rows + [s.pending[0]])
  {
  }

  lemma Regrouped(rows: seq<Row>, row: Row, more: seq<Row>)
    ensures rows + [row] + more == rows + ([row] + more)
  {
  }

  /** Handing out pending rows one call at a time: all of them if they fit. */
  lemma {:induction false} DrainPending(w: World, cfg: Config, s: Iterator, rows: seq<Row>)
    requires NeverEnded(w)
    requires IteratorOk(cfg, s) && s.end.None? && s.rowsYielded == |rows| && |rows| + |s.pending| <= cfg.maxRows
    ensures Drain(w, cfg, s, rows) ==
            Drain(w, cfg, s.(pending := [], rowsYielded := |rows| + |s.pending|), rows + s.pending)
    decreases |s.pending|
  {
    if s.pending == [] {
      assert rows + s.pending == rows;
    } else {
      DrainOne(w, cfg, s, rows);
      var first, left := s.pending[0], s.pending[1..];
      assert [first] + left == s.pending;
      Regrouped(rows, first, left);
      DrainPending(w, cfg, s.(pending := left, rowsYielded := s.rowsYielded + 1), rows + [first]);
    }
  }

  /** And otherwise as many as the limit allows, which ends the stream. */
  lemma {:induction false} DrainToLimit(w: World, cfg: Config, s: Iterator, rows: seq<Row>)
    requires NeverEnded(w)
    requires IteratorOk(cfg, s) && s.end.None? && s.rowsYielded == |rows| && |rows| + |s.pending| > cfg.maxRows
    ensures var n := cfg.maxRows - |rows|;
            Drain(w, cfg, s, rows) == (rows + s.pending[..n],
                                       Stop(cfg, s.(pending := s.pending[n..], rowsYielded := cfg.maxRows),
                                            RowLimit(cfg.maxRows)))
    decreases |s.pending|
  {
    var n := cfg.maxRows - |rows|;
    if n == 0 {
      assert rows + s.pending[..0] == rows;
    } else {
      DrainOne(w, cfg, s, rows);
      var t := s.(pending := s.pending[1..], rowsYielded := s.rowsYielded + 1);
      DrainToLimit(w, cfg, t, rows + [s.pending[0]]);
      assert s.pending[..n] == [s.pending[0]] + t.pending[..n - 1];
      assert rows + s.pending[..n] == rows + [s.pending[0]] + t.pending[..n - 1];
      assert s.pending[n..] == t.pending[n - 1..];
    }
  }

  /** Draining the iterator is following the pages with the URI looked at first. */
  lemma {:induction false} DrainIsIterate(w: World, cfg: Config, s: Iterator, rows: seq<Row>)
    requires NeverEnded(w)
    requires IteratorOk(cfg, s) && s.end.None?
    requires s.pending == [] && !s.pendingEOS && s.rowsYielded == |rows|
    ensures var r := Drain(w, cfg, s, rows);
            && Drained(r) == Some(IterateFrom(w, cfg, s.cursor, rows))
            && r.1.cleanup == CleanupFor(cfg, r.1.end.value)
    decreases cfg.maxPolls - |s.cursor.fetches|
  {
    if |s.cursor.fetches| < cfg.maxPolls {
      var t := FetchStep(w, cfg, s);
      assert Drain(w, cfg, s, rows) == Drain(w, cfg, t, rows);
      if t.end.Some? {
        StoppedStep(w, cfg, s, rows);
      } else {
        RunningStep(w, cfg, s, rows);
        if |rows| + |t.pending| > cfg.maxRows {
          DrainToLimit(w, cfg, t, rows);
        } else {
          DrainPending(w, cfg, t, rows);
          if !t.pendingEOS {
            var u := t.(pending := [], rowsYielded := |rows| + |t.pending|);
            DrainIsIterate(w, cfg, u, rows + t.pending);
          }
        }
      }
    }
  }

  /** A fetch that does not stop the iterator, in terms of the page-by-page step. */
  lemma RunningStep(w: World, cfg: Config, s: Iterator, rows: seq<Row>)
    requires IteratorOk(cfg, s) && s.end.None? && |rows| <= cfg.maxRows && s.pending == [] && !s.pendingEOS
    requires FetchStep(w, cfg, s).end.None?
    ensures var t := FetchStep(w, cfg, s);
            IterateStep(w, cfg, s.cursor, rows) ==
            if |rows| + |t.pending| > cfg.maxRows then
              Done(Ended(t.cursor, rows + t.pending[..cfg.maxRows - |rows|], RowLimit(cfg.maxRows)))
            else if t.pendingEOS then Done(Ended(t.cursor, rows + t.pending, Finished))
            else More(t.cursor, rows + t.pending)
  {
    assert rows + [] == rows;
  }

  lemma StoppedStep(w: World, cfg: Config, s: Iterator, rows: seq<Row>)
    requires IteratorOk(cfg, s) && s.end.None? && |rows| <= cfg.maxRows
    requires FetchStep(w, cfg, s).end.Some?
    ensures var t := FetchStep(w, cfg, s);
            && IterateStep(w, cfg, s.cursor, rows) == Done(Outcome(rows, t.end.value, t.cursor.fetches, t.cursor.waits))
            && t.cleanup == CleanupFor(cfg, t.end.value)
  {
    var d := Fetching(s.cursor);
    match w.server(d.fetches) {
      case Err(_) =>
      case Ok(page) =>
        if Data(page) == [] {
          assert rows + Data(page) == rows;
        }
    }
  }

  /** The last page the run fetched was a PAYLOAD page with rows and an unusable URI. */
  predicate EndsByLosingRows(w: World, r: Outcome) {
    && r.fetches != [] && r.end != BadRows
    && w.server(r.fetches).Ok?
    && var page := w.server(r.fetches).value; page.kind == Payload && !Continues(w, page) && Data(page) != []
  }

  /** How the iterator's outcome i relates to the loop's outcome k. */
  ghost predicate Compared(w: World, i: Outcome, k: Outcome) {
    && i.fetches == k.fetches && i.waits == k.waits && i.rows <= k.rows
    && (i == k <==> !EndsByLosingRows(w, k))
  }

  /**
   Loop and iterator make the same fetches and waits, the iterator's rows are the front of the loop's,
   and rows and end differ in exactly one situation.
   */
  lemma {:induction false} IterateFollowsCollect(w: World, cfg: Config, c: Cursor, rows: seq<Row>)
    requires |rows| <= cfg.maxRows && |c.fetches| < cfg.maxPolls && !EndsByLosingRows(w, Ended(c, rows, ContextEnded))
    ensures Compared(w, IterateFrom(w, cfg, c, rows), CollectFrom(w, cfg, c, rows))
    decreases cfg.maxPolls - |c.fetches|
  {
    StepsCompared(w, cfg, c, rows);
    var p := CollectStep(w, cfg, c, rows);
    if !w.ended(c.fetches, |rows|) && p.More? {
      MoreIsNotLosing(w, cfg, c, rows, PollLimit(|p.cursor.fetches|));
      MoreIsNotLosing(w, cfg, c, rows, ContextEnded);
      if |p.cursor.fetches| < cfg.maxPolls {
        IterateFollowsCollect(w, cfg, p.cursor, p.rows);
      }
    }
  }

  lemma MoreIsNotLosing(w: World, cfg: Config, c: Cursor, rows: seq<Row>, end: End)
    requires |rows| <= cfg.maxRows && CollectStep(w, cfg, c, rows).More?
    ensures var p := CollectStep(w, cfg, c, rows);
            !EndsByLosingRows(w, Ended(p.cursor, p.rows, end))
  {
    var answer := w.server(Fetching(c).fetches);
    assert CollectStep(w, cfg, c, rows).cursor.fetches == Fetching(c).fetches;
    assert answer.Ok? && (answer.value.kind == NotReady || Continues(w, answer.value));
  }

  /**
   What the loop makes of a page on which the iterator loses rows: it has them, in part if the row limit comes first.
   */
  function Kept(cfg: Config, rows: seq<Row>, page: Page): seq<Row>
    requires |rows| <= cfg.maxRows
  {
    rows + if |rows| + |Data(page)| > cfg.maxRows then Data(page)[..cfg.maxRows - |rows|] else Data(page)
  }

  lemma LosingCollects(w: World, cfg: Config, c: Cursor, rows: seq<Row>)
    requires |rows| <= cfg.maxRows && LosesRows(w, cfg, c)
    ensures var page := w.server(Fetching(c).fetches).value;
            && CollectStep(w, cfg, c, rows).Done?
            && CollectStep(w, cfg, c, rows).outcome.rows == Kept(cfg, rows, page)
            && CollectStep(w, cfg, c, rows).outcome.end ==
               if |rows| + |Data(page)| > cfg.maxRows then RowLimit(cfg.maxRows) else UriProblem(w, page)
  {
  }

  lemma KeptIsMore(cfg: Config, rows: seq<Row>, page: Page)
    requires |rows| <= cfg.maxRows && Data(page) != []
    ensures rows <= Kept(cfg, rows, page) && (|rows| + |Data(page)| <= cfg.maxRows ==> |Kept(cfg, rows, page)| > |rows|)
  {
  }

  lemma LosingCompared(w: World, cfg: Config, c: Cursor, rows: seq<Row>)
    requires |rows| <= cfg.maxRows && LosesRows(w, cfg, c)
    ensures var i, k := IterateStep(w, cfg, c, rows), CollectStep(w, cfg, c, rows);
            i.Done? && k.Done? && Compared(w, i.outcome, k.outcome)
  {
    LosingCollects(w, cfg, c, rows);
    var page := w.server(Fetching(c).fetches).value;
    KeptIsMore(cfg, rows, page);
    var i, k := IterateStep(w, cfg, c, rows).outcome, CollectStep(w, cfg, c, rows).outcome;
    assert i.rows != k.rows || i.end != k.end;
    assert EndsByLosingRows(w, k);
  }

  lemma StepsCompared(w: World, cfg: Config, c: Cursor, rows: seq<Row>)
    requires |rows| <= cfg.maxRows
    ensures var i, k := IterateStep(w, cfg, c, rows), CollectStep(w, cfg, c, rows);
            if k.More? then i == k
            else
              && i.Done? && |k.outcome.fetches| == |c.fetches| + 1
              && Compared(w, i.outcome, k.outcome)
  {
    if LosesRows(w, cfg, c) {
      LosingCompared(w, cfg, c, rows);
    }
  }

  /**
   The whole comparison. Reading a stream to its end and collecting it: same requests in the same order,
   same waits, the stream's rows a prefix of the collected ones; and same rows, same end and same cleanup
   if and only if the conversation did not end on a PAYLOAD page with rows and an unusable URI.
   */
  lemma StreamEqualsCollect(w: World, cfg: Config)
    requires Normalized(cfg) && NeverEnded(w)
    ensures var stream, all := Drain(w, cfg, Fresh(cfg), []), CollectFrom(w, cfg, Start(cfg), []);
            && stream.1.end.Some? && stream.0 <= all.rows
            && stream.1.cursor.fetches == all.fetches && stream.1.cursor.waits == all.waits
            && stream.1.cleanup == CleanupFor(cfg, stream.1.end.value)
            && (stream.0 == all.rows && stream.1.end == Some(all.end) <==> !EndsByLosingRows(w, all))
  {
    DrainIsIterate(w, cfg, Fresh(cfg), []);
    IterateFollowsCollect(w, cfg, Start(cfg), []);
  }

  /** A paged server whose PAYLOAD pages all name an acceptable next page never separates the two. */
  lemma GoodUrisMeanEqual(w: World, cfg: Config)
    requires Normalized(cfg) && NeverEnded(w)
    requires forall f :: w.server(f).Ok? && w.server(f).value.kind == Payload ==> Continues(w, w.server(f).value)
    ensures var stream, all := Drain(w, cfg, Fresh(cfg), []), CollectFrom(w, cfg, Start(cfg), []);
            stream.0 == all.rows && stream.1.end == Some(all.end) && stream.1.cleanup == CleanupFor(cfg, all.end)
  {
    StreamEqualsCollect(w, cfg);
  }

  /** A server with a single PAYLOAD page: one row of one column, and no URI. */
  const LAST_PAGE := Page(Payload, "", Some(ResultInfo(["id"], [Row(["1"])])))

  function NoUriServer(): World {
    World((f: seq<Request>) => Ok(LAST_PAGE), TrimSpace, (uri: string) => Some(uri), (field: string) => true,
          (f: seq<Request>, n: nat) => false, (f: seq<Request>) => false)
  }

  const ONE_OF_EACH := Config(1, 1, 1, 1, false)

  lemma NoUriLosesRows(c: Cursor)
    requires c.columns == []
    ensures LosesRows(NoUriServer(), ONE_OF_EACH, c)
  {
    assert RowsFit(NoUriServer(), ["id"], Data(LAST_PAGE));
  }

  lemma NoUriCollects()
    ensures CollectFrom(NoUriServer(), ONE_OF_EACH, Start(ONE_OF_EACH), []).rows == [Row(["1"])]
  {
    NoUriLosesRows(Start(ONE_OF_EACH));
    LosingCollects(NoUriServer(), ONE_OF_EACH, Start(ONE_OF_EACH), []);
    assert [] + Data(LAST_PAGE) == [Row(["1"])];
  }

  lemma NoUriStreams()
    ensures IterateFrom(NoUriServer(), ONE_OF_EACH, Start(ONE_OF_EACH), []).rows == []
  {
    NoUriLosesRows(Start(ONE_OF_EACH));
  }

  /** The two do separate: the row is collected but not streamed. */
  lemma SeparatingServer()
    ensures Normalized(ONE_OF_EACH) && NeverEnded(NoUriServer())
    ensures CollectFrom(NoUriServer(), ONE_OF_EACH, Start(ONE_OF_EACH), []).rows == [Row(["1"])]
    ensures Drain(NoUriServer(), ONE_OF_EACH, Fresh(ONE_OF_EACH), []).0 == []
  {
    NoUriCollects();
    NoUriStreams();
    DrainIsIterate(NoUriServer(), ONE_OF_EACH, Fresh(ONE_OF_EACH), []);
  }
}
