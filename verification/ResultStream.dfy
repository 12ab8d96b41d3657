/**
 The iterator object: the fields of resultStream, which survive from one Next to the next.
 */
module ResultStream {
  import opened Text
  import opened ResultPaging

  class Stream {
    const world: World
    const cfg: Config
    var nextURL: Request
    var interval: int
    var columns: seq<string>
    var polls: nat
    var rowsYielded: nat
    var pendingRows: seq<Row>
    var pendingIndex: nat
    var pendingEOS: bool
    var currentRow: Row
    var closed: bool
    var streamErr: End
    /** The conversation with the server so far, and the waits between fetches. */
    var fetches: seq<Request>
    var waits: seq<int>
    var cleanup: seq<Cleanup>

    ghost predicate Valid()
      reads this
    {
      && pendingIndex <= |pendingRows| && rowsYielded <= cfg.maxRows && polls == |fetches| <= cfg.maxPolls
      && (closed <==> cleanup != [])
    }

    ghost function State(): Iterator
      requires pendingIndex <= |pendingRows|
      reads this
    {
      Iterator(Cursor(nextURL, interval, columns, fetches, waits), pendingRows[pendingIndex..], pendingEOS, rowsYielded,
               if closed then Some(streamErr) else None, cleanup)
    }

    constructor (world: World, cfg: Config)
      ensures Valid() && State() == Fresh(cfg) && this.world == world && this.cfg == cfg
    {
      this.world, this.cfg := world, cfg;
      nextURL, interval, columns, polls, rowsYielded := FirstToken, cfg.pollInterval, [], 0, 0;
      pendingRows, pendingIndex, pendingEOS, currentRow := [], 0, false, Row([]);
      closed, streamErr, fetches, waits, cleanup := false, Finished, [], [], [];
    }

    /** Another row in currentRow, or the end; never more than maxPolls fetches in all. */
    method Next() returns (ok: bool)
      requires Valid()
      modifies this
      ensures Valid()
      ensures State() == NextFrom(world, cfg, old(State())).0
      ensures ok == NextFrom(world, cfg, old(State())).1.Some?
      ensures currentRow == NextFrom(world, cfg, old(State())).1.GetOr(old(currentRow))
    {
      while true
        invariant Valid() && currentRow == old(currentRow)
        invariant NextFrom(world, cfg, State()) == NextFrom(world, cfg, old(State()))
        decreases cfg.maxPolls - polls
      {
        if closed {
          return false;
        }
        if world.ended(fetches, rowsYielded) {
          Finish(ContextEnded, cfg.cancelOnContextDone);
          return false;
        }
        if pendingIndex < |pendingRows| {
          if rowsYielded >= cfg.maxRows {
            Finish(RowLimit(rowsYielded), true);
            return false;
          }
          Yield();
          return true;
        }
        if pendingEOS {
          Finish(Finished, false);
          return false;
        }
        if polls >= cfg.maxPolls {
          Finish(PollLimit(polls), true);
          return false;
        }
        FetchNextPage();
      }
    }

    /** Hands out the next pending row. */
    method Yield()
      requires Valid() && !closed && pendingIndex < |pendingRows| && rowsYielded < cfg.maxRows
      modifies `currentRow, `pendingIndex, `rowsYielded
      ensures Valid() && currentRow == old(State()).pending[0]
      ensures State() == old(State()).(pending := old(State()).pending[1..], rowsYielded := old(rowsYielded) + 1)
    {
      currentRow := pendingRows[pendingIndex];
      pendingIndex := pendingIndex + 1;
      rowsYielded := rowsYielded + 1;
    }

    /** One more request in the conversation, and what came of it. */
    method Ask() returns (fetched: Result<Page, FetchError>)
      requires Valid() && !closed && polls < cfg.maxPolls
      modifies `fetches, `polls
      ensures Valid() && polls == old(polls) + 1
      ensures State() == old(State()).(cursor := Fetching(old(State()).cursor)) && fetched == world.server(fetches)
    {
      fetches := fetches + [nextURL];
      fetched := world.server(fetches);
      polls := polls + 1;
    }

    /** The part of the loop body after the limits: one fetch and what its page means. */
    method FetchNextPage()
      requires Valid() && !closed && polls < cfg.maxPolls && pendingIndex == |pendingRows|
      modifies this
      ensures Valid() && polls == old(polls) + 1 && currentRow == old(currentRow)
      ensures State() == FetchStep(world, cfg, old(State()))
    {
      var fetched := Ask();
      if fetched.Err? {
        var e := fetched.error;
        Finish(FetchFailed(e), cfg.cancelOnContextDone && e.isContext);
        return;
      }
      var page := fetched.value;
      if page.kind.UnknownKind? {
        Finish(UnknownResult(page.kind.name), false);
        return;
      }
      if page.kind == NotReady {
        TakeNotReady(page);
      } else {
        TakeResult(page);
      }
    }

    method TakeNotReady(page: Page)
      requires Valid() && !closed
      modifies this
      ensures Valid() && polls == old(polls) && currentRow == old(currentRow)
      ensures State() == NotReadyStep(world, cfg, old(State()), page)
    {
      var problem := SetNextURL(page, false);
      if problem.Some? {
        Finish(problem.value, false);
        return;
      }
      BeginWait();
      if world.waitCut(fetches) {
        Finish(ContextEnded, cfg.cancelOnContextDone);
        return;
      }
      WidenInterval();
    }

    method BeginWait()
      requires Valid()
      modifies `waits
      ensures Valid() && State() == old(State()).(cursor := old(State()).cursor.(waits := old(waits) + [interval]))
    {
      waits := waits + [interval];
    }

    method WidenInterval()
      requires Valid()
      modifies `interval
      ensures Valid()
      ensures interval == NextPollInterval(old(interval), cfg.maxPollInterval)
      ensures State() == old(State()).(cursor := old(State()).cursor.(interval := interval))
    {
      interval := NextPollInterval(interval, cfg.maxPollInterval);
    }

    method TakeResult(page: Page)
      requires Valid() && !closed
      modifies this
      ensures Valid() && polls == old(polls) && currentRow == old(currentRow)
      ensures State() == ResultStep(world, cfg, old(State()), page)
    {
      Load(page);
      var fit := ValidateResultRows(world, columns, Data(page));
      if !fit {
        Finish(BadRows, false);
        return;
      }
      TakeRows(page, old(State()));
    }

    /** The rows of a page fit: they are next, and unless they are the last the page says where to go on. */
    method TakeRows(page: Page, ghost before: Iterator)
      requires Valid() && !closed && before.end.None?
      requires State() == Loaded(cfg, before, page, [], before.pendingEOS) && RowsFit(world, columns, Data(page))
      modifies this
      ensures Valid() && polls == old(polls) && currentRow == old(currentRow)
      ensures State() == ResultStep(world, cfg, before, page)
    {
      pendingRows, pendingIndex, pendingEOS := Data(page), 0, page.kind == EOS;
      assert State() == Loaded(cfg, before, page, Data(page), pendingEOS) by {
        assert pendingRows[0..] == Data(page);
      }
      if !pendingEOS {
        var problem := SetNextURL(page, true);
        if problem.Some? {
          Finish(problem.value, false);
        }
      }
    }

    /** A result page has arrived: the back-off starts over, the schema may become known, no row is pending. */
    method Load(page: Page)
      requires Valid() && !closed
      modifies `interval, `columns, `pendingRows, `pendingIndex
      ensures Valid() && columns == Columns(old(columns), page)
      ensures State() == Loaded(cfg, old(State()), page, [], pendingEOS)
    {
      interval := cfg.pollInterval;
      columns := Columns(columns, page);
      pendingRows, pendingIndex := [], 0;
    }

    method SetNextURL(page: Page, required: bool) returns (problem: Option<End>)
      requires Valid()
      modifies `nextURL
      ensures problem == if Uri(world, page) == "" then (if required then Some(MissingUri) else None)
                         else if world.resolve(Uri(world, page)).None? then Some(BadUri) else None
      ensures Valid() && State() == old(State()).(cursor := old(State()).cursor.(next := nextURL))
      ensures nextURL == if problem.Some? then old(nextURL)
                         else if Uri(world, page) == "" then FirstToken
                         else Paging(world.resolve(Uri(world, page)).value)
    {
      var value := Uri(world, page);
      if value == "" {
        if required {
          return Some(MissingUri);
        }
        nextURL := FirstToken;
        return None;
      }
      var resolved := world.resolve(value);
      if resolved.None? {
        return Some(BadUri);
      }
      nextURL := Paging(resolved.value);
      return None;
    }

    /** Once only: cancel the operation where the end calls for it or the caller insists, then close it. */
    method Finish(primary: End, forceCancel: bool)
      requires Valid()
      modifies `closed, `streamErr, `cleanup
      ensures Valid() && closed
      ensures old(closed) ==> streamErr == old(streamErr) && cleanup == old(cleanup)
      ensures !old(closed) ==> streamErr == primary
      ensures !old(closed) && !forceCancel ==> State() == Stop(cfg, old(State()), primary)
      ensures !old(closed) ==>
                cleanup == if forceCancel then [Cleanup.Cancel, Cleanup.Close] else CleanupFor(cfg, primary)
    {
      if closed {
        return;
      }
      if forceCancel || WantsCancel(cfg, primary) {
        cleanup := cleanup + [Cleanup.Cancel];
      }
      cleanup := cleanup + [Cleanup.Close];
      closed, streamErr := true, primary;
    }

    /** The user's Close. The stream is over either way; the operation is cleaned up exactly once. */
    method Close()
      requires Valid()
      modifies `closed, `streamErr, `cleanup
      ensures Valid() && closed && cleanup == if old(closed) then old(cleanup) else [Cleanup.Cancel, Cleanup.Close]
      ensures NextFrom(world, cfg, State()) == (State(), None)
    {
      Finish(Abandoned, true);
    }
  }
}
