/**
 The client's books on sessions: which are open, which were closed recently (a bounded first-in
 first-out list, so that closing again is free), and which are being closed right now.
 */
module ClosedSessions {
  import opened Lists
  import opened Text

  const MAX_REMEMBERED := 1024

  /** The list and nothing else: what remembering and forgetting mean. */
  function Remember(fifo: seq<string>, handle: string): seq<string> {
    if handle in fifo then fifo
    else if |fifo| < MAX_REMEMBERED then fifo + [handle]
    else (fifo + [handle])[1..]
  }

  function Forget(fifo: seq<string>, handle: string): seq<string> {
    if fifo == [] then [] else if fifo[0] == handle then fifo[1..] else [fifo[0]] + Forget(fifo[1..], handle)
  }

  lemma {:induction false} ForgetAt(fifo: seq<string>, handle: string, at: nat)
    requires at < |fifo| && fifo[at] == handle && handle !in fifo[..at]
    ensures Forget(fifo, handle) == fifo[..at] + fifo[at + 1..]
  {
    if at > 0 {
      assert fifo[..at] == [fifo[0]] + fifo[1..][..at - 1];
      ForgetAt(fifo[1..], handle, at - 1);
    }
  }

  lemma {:induction false} ForgetMissing(fifo: seq<string>, handle: string)
    requires handle !in fifo
    ensures Forget(fifo, handle) == fifo
  {
    if fifo != [] {
      ForgetMissing(fifo[1..], handle);
    }
  }

  lemma {:induction false} ForgetMembers(fifo: seq<string>, handle: string)
    requires NoRepeats(fifo)
    ensures NoRepeats(Forget(fifo, handle)) && |Forget(fifo, handle)| <= |fifo|
    ensures forall h :: h in Forget(fifo, handle) <==> h in fifo && h != handle
  {
    if fifo != [] {
      ForgetMembers(fifo[1..], handle);
      var rest := Forget(fifo[1..], handle);
      assert forall i :: 0 <= i < |rest| ==> rest[i] in rest && rest[i] in fifo[1..];
      assert fifo[0] !in fifo[1..];
      assert forall h :: h in fifo <==> h == fifo[0] || h in fifo[1..];
    }
  }

  datatype Change = Closed(handle: string) | Reissued(handle: string)

  function After(fifo: seq<string>, changes: seq<Change>): seq<string>
    decreases |changes|
  {
    if changes == [] then fifo
    else
      After(match changes[0] case Closed(h) => Remember(fifo, h) case Reissued(h) => Forget(fifo, h), changes[1..])
  }

  function Closings(changes: seq<Change>): nat {
    if changes == [] then 0 else (if changes[0].Closed? then 1 else 0) + Closings(changes[1..])
  }

  lemma {:induction false} AfterIsBounded(fifo: seq<string>, changes: seq<Change>)
    requires NoRepeats(fifo) && |fifo| <= MAX_REMEMBERED
    ensures NoRepeats(After(fifo, changes)) && |After(fifo, changes)| <= MAX_REMEMBERED
    decreases |changes|
  {
    if changes != [] {
      match changes[0] {
        case Closed(h) => AfterIsBounded(Remember(fifo, h), changes[1..]);
        case Reissued(h) => ForgetMembers(fifo, h); AfterIsBounded(Forget(fifo, h), changes[1..]);
      }
    }
  }

  /** Forgetting another handle leaves this one as close to the young end as it was, or closer. */
  lemma ForgetOther(fifo: seq<string>, handle: string, other: string, at: nat) returns (k: nat)
    requires at < |fifo| && fifo[at] == handle && other != handle
    ensures k < |Forget(fifo, other)| && Forget(fifo, other)[k] == handle
    ensures |Forget(fifo, other)| - k <= |fifo| - at
    decreases |fifo|
  {
    if fifo[0] == other {
      k := at - 1;
    } else if at == 0 {
      k := 0;
      ForgetShrinks(fifo, other);
    } else {
      k := ForgetOther(fifo[1..], handle, other, at - 1);
      k := k + 1;
    }
  }

  lemma {:induction false} ForgetShrinks(fifo: seq<string>, handle: string)
    ensures |Forget(fifo, handle)| <= |fifo|
  {
    if fifo != [] {
      ForgetShrinks(fifo[1..], handle);
    }
  }

  /** A closed session with few enough younger ones stays remembered while the changes are fewer still. */
  lemma {:induction false} StaysFrom(fifo: seq<string>, changes: seq<Change>, handle: string, at: nat)
    requires at < |fifo| <= MAX_REMEMBERED && fifo[at] == handle
    requires |fifo| - at + Closings(changes) <= MAX_REMEMBERED && Reissued(handle) !in changes
    ensures handle in After(fifo, changes)
    decreases |changes|
  {
    if changes != [] {
      match changes[0] {
        case Closed(h) =>
          var next := Remember(fifo, h);
          var k := if h in fifo || |fifo| < MAX_REMEMBERED then at else at - 1;
          assert next[k] == handle;
          StaysFrom(next, changes[1..], handle, k);
        case Reissued(h) =>
          var k := ForgetOther(fifo, handle, h, at);
          ForgetShrinks(fifo, h);
          StaysFrom(Forget(fifo, h), changes[1..], handle, k);
      }
    }
  }

  /**
   Closing twice is free for long enough: a handle newly closed is still remembered after any changes
   that do not reissue it and close fewer than 1024 sessions.
   */
  lemma ClosedStaysRemembered(fifo: seq<string>, handle: string, changes: seq<Change>)
    requires |fifo| <= MAX_REMEMBERED && handle !in fifo
    requires Closings(changes) < MAX_REMEMBERED && Reissued(handle) !in changes
    ensures handle in After(Remember(fifo, handle), changes)
  {
    var next := Remember(fifo, handle);
    StaysFrom(next, changes, handle, |next| - 1);
  }

  /** The limit is exact: 1024 newly closed handles push out whatever was there before. */
  lemma {:induction false} ClosedIsPushedOut(fifo: seq<string>, younger: seq<string>)
    requires NoRepeats(fifo + younger) && |fifo| == MAX_REMEMBERED
    ensures After(fifo, ClosedAll(younger)) == (fifo + younger)[|younger|..]
    decreases |younger|
  {
    if younger != [] {
      var next := Remember(fifo, younger[0]);
      assert (fifo + younger)[MAX_REMEMBERED] == younger[0];
      assert forall i :: 0 <= i < |fifo| ==> (fifo + younger)[i] == fifo[i];
      assert ClosedAll(younger)[1..] == ClosedAll(younger[1..]);
      assert next + younger[1..] == (fifo + younger)[1..];
      ClosedIsPushedOut(next, younger[1..]);
    }
  }

  function ClosedAll(handles: seq<string>): seq<Change> {
    seq(|handles|, i requires 0 <= i < |handles| => Closed(handles[i]))
  }

  // ---- the object ----

  datatype CloseAnswer = AlreadyClosed | Join | Own

  class SessionBook {
    var sessions: set<string>
    var closed: set<string>
    var closedOrder: seq<string>
    var closeCalls: set<string>

    /** Map and order list of the cache agree. */
    ghost predicate CacheOk()
      reads this
    {
      && NoRepeats(closedOrder) && |closedOrder| <= MAX_REMEMBERED
      && closed == (set h | h in closedOrder)
    }

    ghost predicate Valid()
      reads this
    {
      CacheOk() && sessions !! closed
    }

    constructor ()
      ensures Valid() && sessions == {} && closedOrder == [] && closeCalls == {}
    {
      sessions, closed, closedOrder, closeCalls := {}, {}, [], {};
    }

    /** OpenSession's bookkeeping: the server may issue a handle that was closed before. */
    method RecordOpened(handle: string)
      requires Valid()
      modifies this
      ensures Valid() && sessions == old(sessions) + {handle}
      ensures closedOrder == Forget(old(closedOrder), handle) && closeCalls == old(closeCalls)
    {
      ForgetMembers(closedOrder, handle);
      sessions := sessions + {handle};
      ForgetClosed(handle);
    }

    /** The first section of CloseSession: only the caller told to Own sends the DELETE. */
    method CloseBegin(handle: string) returns (answer: CloseAnswer)
      requires Valid()
      modifies `closeCalls
      ensures Valid()
      ensures answer == if handle in closedOrder then AlreadyClosed else if handle in old(closeCalls) then Join else Own
      ensures closeCalls == if answer == Own then old(closeCalls) + {handle} else old(closeCalls)
    {
      if handle in closed {
        return AlreadyClosed;
      }
      if handle in closeCalls {
        return Join;
      }
      closeCalls := closeCalls + {handle};
      return Own;
    }

    /** Its last section, with what the DELETE came to. */
    method CloseEnd(handle: string, succeeded: bool)
      requires Valid() && handle in closeCalls
      modifies this
      ensures Valid() && closeCalls == old(closeCalls) - {handle}
      ensures !succeeded ==> sessions == old(sessions) && closedOrder == old(closedOrder)
      ensures succeeded ==> sessions == old(sessions) - {handle} && closedOrder == Remember(old(closedOrder), handle)
    {
      closeCalls := closeCalls - {handle};
      if succeeded {
        RememberClosed(handle);
        sessions := sessions - {handle};
      }
    }

    method RememberClosed(handle: string)
      requires CacheOk()
      modifies `closed, `closedOrder
      ensures CacheOk() && closedOrder == Remember(old(closedOrder), handle)
    {
      if handle in closed {
        return;
      }
      closed := closed + {handle};
      closedOrder := closedOrder + [handle];
      if |closedOrder| <= MAX_REMEMBERED {
        return;
      }
      var oldest := closedOrder[0];
      assert forall h :: h in closedOrder <==> h == oldest || h in closedOrder[1..];
      closedOrder := closedOrder[1..];
      closed := closed - {oldest};
    }

    method ForgetClosed(handle: string)
      requires CacheOk()
      modifies `closed, `closedOrder
      ensures CacheOk() && closedOrder == Forget(old(closedOrder), handle)
    {
      ForgetMembers(closedOrder, handle);
      if handle !in closed {
        ForgetMissing(closedOrder, handle);
        return;
      }
      closed := closed - {handle};
      for index := 0 to |closedOrder|
        invariant closedOrder == old(closedOrder) && closed == old(closed) - {handle}
        invariant handle in closedOrder && forall k :: 0 <= k < index ==> closedOrder[k] != handle
      {
        if closedOrder[index] == handle {
          ForgetAt(closedOrder, handle, index);
          closedOrder := closedOrder[..index] + closedOrder[index + 1..];
          return;
        }
      }
      assert false;
    }
  }

  // ---- whole histories of the object ----

  /** A session opened, a caller at the start of CloseSession, and an owner at its end. */
  datatype Call = Opening(handle: string) | Closing(handle: string) | Ending(handle: string, succeeded: bool)

  /** What the calls change about the remembered handles. */
  function ChangesOf(calls: seq<Call>): seq<Change> {
    if calls == [] then []
    else
      var last := calls[|calls| - 1];
      ChangesOf(calls[..|calls| - 1])
      + if last.Opening? then [Reissued(last.handle)]
        else if last.Ending? && last.succeeded then [Closed(last.handle)]
        else []
  }

  lemma {:induction false} AfterMore(fifo: seq<string>, changes: seq<Change>, more: seq<Change>)
    ensures After(fifo, changes + more) == After(After(fifo, changes), more)
    decreases |changes|
  {
    if changes == [] {
      assert changes + more == more;
    } else {
      assert (changes + more)[1..] == changes[1..] + more;
      var next := match changes[0] case Closed(h) => Remember(fifo, h) case Reissued(h) => Forget(fifo, h);
      AfterMore(next, changes[1..], more);
    }
  }

  /** The caller of calls[i] was told to send the DELETE. */
  predicate OwnedAt(calls: seq<Call>, answers: seq<Option<CloseAnswer>>, i: nat, handle: string) {
    i < |calls| && i < |answers| && calls[i] == Closing(handle) && answers[i] == Some(Own)
  }

  /** Its owner's close of the handle ended between places i and j. */
  predicate EndedBetween(calls: seq<Call>, i: nat, j: nat, handle: string) {
    exists k :: i < k < j && k < |calls| && calls[k].Ending? && calls[k].handle == handle
  }

  /** Handle is being closed: an owner of it has not come back. */
  predicate Outstanding(calls: seq<Call>, answers: seq<Option<CloseAnswer>>, handle: string, n: nat) {
    exists i :: 0 <= i < n && OwnedAt(calls, answers, i, handle) && !EndedBetween(calls, i, n, handle)
  }

  /** Between two callers who were told to send the DELETE for one handle, the first of them came back. */
  ghost predicate OwnersTakeTurns(calls: seq<Call>, answers: seq<Option<CloseAnswer>>) {
    forall i: nat, j: nat, handle ::
      i < j && OwnedAt(calls, answers, i, handle) && OwnedAt(calls, answers, j, handle) ==>
        EndedBetween(calls, i, j, handle)
  }

  method Perform(book: SessionBook, call: Call) returns (answer: Option<CloseAnswer>)
    requires book.Valid() && (call.Ending? ==> call.handle in book.closeCalls)
    modifies book
    ensures book.Valid() && book.closedOrder == After(old(book.closedOrder), ChangesOf([call]))
    ensures answer.Some? <==> call.Closing?
    ensures answer == Some(Own) <==>
            call.Closing? && call.handle !in old(book.closedOrder) && call.handle !in old(book.closeCalls)
    ensures book.closeCalls == if answer == Some(Own) then old(book.closeCalls) + {call.handle}
                               else if call.Ending? then old(book.closeCalls) - {call.handle}
                               else old(book.closeCalls)
  {
    assert [call][..0] == [];
    match call {
      case Opening(handle) =>
        book.RecordOpened(handle);
        return None;
      case Closing(handle) =>
        var told := book.CloseBegin(handle);
        return Some(told);
      case Ending(handle, succeeded) =>
        book.CloseEnd(handle, succeeded);
        return None;
    }
  }

  /**
   Any history of a new book, as far as it goes: the calls from the first on, up to one that ends a close nobody owns.
   What is remembered is what the list specification gives, and two callers told to send the DELETE for one handle are
   never both out.
   */
  method Replay(calls: seq<Call>) returns (done: nat, remembered: seq<string>, answers: seq<Option<CloseAnswer>>)
    ensures done <= |calls| && |answers| == done
    ensures done < |calls| ==> calls[done].Ending? && !Outstanding(calls, answers, calls[done].handle, done)
    ensures remembered == After([], ChangesOf(calls[..done]))
    ensures forall i :: 0 <= i < done ==> (answers[i].Some? <==> calls[i].Closing?)
    ensures OwnersTakeTurns(calls, answers)
  {
    var book := new SessionBook();
    done, answers := 0, [];
    while done < |calls|
      invariant fresh(book) && book.Valid() && done <= |calls| && |answers| == done
      invariant book.closedOrder == After([], ChangesOf(calls[..done]))
      invariant forall i :: 0 <= i < done ==> (answers[i].Some? <==> calls[i].Closing?)
      invariant Tracks(book.closeCalls, calls, answers)
      invariant OwnersTakeTurns(calls, answers)
    {
      var call := calls[done];
      if call.Ending? && call.handle !in book.closeCalls {
        break;
      }
      ghost var pending := book.closeCalls;
      var answer := Perform(book, call);
      TracksOn(pending, book.closeCalls, calls, answers, answer);
      TurnsGoOn(calls, answers, answer);
      answers := answers + [answer];
      AfterMore([], ChangesOf(calls[..done]), ChangesOf([call]));
      ChangesOfOneMore(calls, done);
      done := done + 1;
    }
    remembered := book.closedOrder;
  }

  lemma ChangesOfOneMore(calls: seq<Call>, n: nat)
    requires n < |calls|
    ensures ChangesOf(calls[..n + 1]) == ChangesOf(calls[..n]) + ChangesOf([calls[n]])
  {
    assert calls[..n + 1][..n] == calls[..n];
    assert [calls[n]][..0] == [];
  }

  /** The close calls in the book are those of owners who have not come back. */
  ghost predicate Tracks(pending: set<string>, calls: seq<Call>, answers: seq<Option<CloseAnswer>>) {
    forall handle :: handle in pending <==> Outstanding(calls, answers, handle, |answers|)
  }

  lemma TracksOn(pending: set<string>, after: set<string>, calls: seq<Call>, answers: seq<Option<CloseAnswer>>,
                 answer: Option<CloseAnswer>)
    requires |answers| < |calls| && Tracks(pending, calls, answers)
    requires var call := calls[|answers|];
             && (answer == Some(Own) ==> call.Closing?)
             && after == if answer == Some(Own) then pending + {call.handle}
                         else if call.Ending? then pending - {call.handle}
                         else pending
    ensures Tracks(after, calls, answers + [answer])
  {
    OneMoreCall(calls, answers, answer);
  }

  /** How one more call changes who owns what. */
  lemma OneMoreCall(calls: seq<Call>, answers: seq<Option<CloseAnswer>>, answer: Option<CloseAnswer>)
    requires |answers| < |calls|
    ensures var n, more := |answers|, answers + [answer];
            && (forall handle :: Outstanding(calls, more, handle, n + 1) <==>
                  || (answer == Some(Own) && calls[n] == Closing(handle))
                  || (Outstanding(calls, answers, handle, n) && !(calls[n].Ending? && calls[n].handle == handle)))
            && (forall i: nat, handle :: i < n ==>
                  (OwnedAt(calls, more, i, handle) <==> OwnedAt(calls, answers, i, handle)))
  {
    var n, more := |answers|, answers + [answer];
    forall i: nat, handle | i < n
      ensures EndedBetween(calls, i, n + 1, handle) <==>
              EndedBetween(calls, i, n, handle) || (calls[n].Ending? && calls[n].handle == handle)
    {
      EndedOneMore(calls, i, n, handle);
    }
    forall handle
      ensures Outstanding(calls, more, handle, n + 1) <==>
              || (answer == Some(Own) && calls[n] == Closing(handle))
              || (Outstanding(calls, answers, handle, n) && !(calls[n].Ending? && calls[n].handle == handle))
    {
      if Outstanding(calls, answers, handle, n) {
        var i :| 0 <= i < n && OwnedAt(calls, answers, i, handle) && !EndedBetween(calls, i, n, handle);
        assert OwnedAt(calls, more, i, handle);
      }
      if answer == Some(Own) && calls[n] == Closing(handle) {
        assert OwnedAt(calls, more, n, handle) && !EndedBetween(calls, n, n + 1, handle);
      }
      if Outstanding(calls, more, handle, n + 1) {
        var i :| 0 <= i < n + 1 && OwnedAt(calls, more, i, handle) && !EndedBetween(calls, i, n + 1, handle);
        if i < n {
          assert OwnedAt(calls, answers, i, handle);
        }
      }
    }
  }

  lemma TurnsGoOn(calls: seq<Call>, answers: seq<Option<CloseAnswer>>, answer: Option<CloseAnswer>)
    requires |answers| < |calls| && OwnersTakeTurns(calls, answers)
    requires answer == Some(Own) && calls[|answers|].Closing? ==>
             !Outstanding(calls, answers, calls[|answers|].handle, |answers|)
    ensures OwnersTakeTurns(calls, answers + [answer])
  {
    var n, more := |answers|, answers + [answer];
    forall i: nat, j: nat, handle | i < j && OwnedAt(calls, more, i, handle) && OwnedAt(calls, more, j, handle)
      ensures EndedBetween(calls, i, j, handle)
    {
      assert OwnedAt(calls, answers, i, handle);
      if j < n {
        assert OwnedAt(calls, answers, j, handle);
      } else {
        assert Outstanding(calls, answers, handle, n) || EndedBetween(calls, i, n, handle);
      }
    }
  }

  lemma EndedOneMore(calls: seq<Call>, i: nat, n: nat, handle: string)
    requires i < n < |calls|
    ensures EndedBetween(calls, i, n + 1, handle) <==>
            EndedBetween(calls, i, n, handle) || (calls[n].Ending? && calls[n].handle == handle)
  {
  }
}
