/**
 The activity group of a wrapper: how many executions and streams run, the channel that is closed while
 none does, and the streams a stop would have to close.
 */
module ActivityGroup {

  type Channel = nat

  /** idle names the current channel; idleClosed has the channels that are closed. */
  datatype Group = Group(closed: bool, active: nat, idle: Channel, idleClosed: set<Channel>, streams: set<nat>)

  const NEW := Group(false, 0, 0, {0}, {})

  /** The channel is closed exactly while nothing is active, and channels are never used again. */
  ghost predicate GroupOk(g: Group) {
    && (g.idle in g.idleClosed <==> g.active == 0)
    && (forall c :: c in g.idleClosed ==> c <= g.idle)
  }

  function Begin(g: Group): Group
    requires !g.closed
  {
    g.(active := g.active + 1, idle := if g.active == 0 then g.idle + 1 else g.idle)
  }

  function End(g: Group): Group {
    if g.active == 0 then g
    else g.(active := g.active - 1, idleClosed := if g.active == 1 then g.idleClosed + {g.idle} else g.idleClosed)
  }

  function Register(g: Group, stream: nat): Group
    requires !g.closed
  {
    g.(streams := g.streams + {stream})
  }

  function Unregister(g: Group, stream: nat): Group {
    g.(streams := g.streams - {stream})
  }

  function Stop(g: Group): Group {
    g.(closed := true)
  }

  lemma GroupStaysOk(g: Group, stream: nat)
    requires GroupOk(g)
    ensures !g.closed ==> GroupOk(Begin(g)) && GroupOk(Register(g, stream))
    ensures GroupOk(End(g)) && GroupOk(Unregister(g, stream)) && GroupOk(Stop(g))
  {
  }

  /** A begin undone by its end leaves the group idle or busy as it was, on another channel if it was idle. */
  lemma EndUndoesBegin(g: Group)
    requires GroupOk(g) && !g.closed
    ensures var back := End(Begin(g));
            && back.active == g.active && back.streams == g.streams && !back.closed
            && (g.active == 0 ==> back.idle > g.idle && back.idle in back.idleClosed)
            && (g.active > 0 ==> back == g)
  {
  }

  // ---- any calls, from any threads, one after the other ----

  datatype Call = Beginning | Ending | Registering(stream: nat) | Unregistering(stream: nat) | Stopping

  /** A call as the group takes it; beginning and registering are refused once it is closed. */
  function Step(g: Group, call: Call): Group {
    match call
    case Beginning => if g.closed then g else Begin(g)
    case Ending => End(g)
    case Registering(stream) => if g.closed then g else Register(g, stream)
    case Unregistering(stream) => Unregister(g, stream)
    case Stopping => Stop(g)
  }

  function Run(g: Group, calls: seq<Call>): Group
    decreases |calls|
  {
    if calls == [] then g else Run(Step(g, calls[0]), calls[1..])
  }

  /** The last thing the calls did about this stream was to register it; listed is whether it was before. */
  predicate EndsRegistered(listed: bool, calls: seq<Call>, stream: nat)
    decreases |calls|
  {
    if calls == [] then listed
    else
      var now := if calls[0] == Registering(stream) then true
                 else if calls[0] == Unregistering(stream) then false
                 else listed;
      EndsRegistered(now, calls[1..], stream)
  }

  lemma {:induction false} ListedByLastCall(g: Group, calls: seq<Call>, stream: nat)
    requires !g.closed && Stopping !in calls
    ensures !Run(g, calls).closed
            && (stream in Run(g, calls).streams <==> EndsRegistered(stream in g.streams, calls, stream))
    decreases |calls|
  {
    if calls != [] {
      assert calls[0] != Stopping;
      ListedByLastCall(Step(g, calls[0]), calls[1..], stream);
    }
  }

  /**
   Once closed: no stream is added and those listed stay so until unregistered, no activity begins, and the idle
   channel stays the one it is, closed exactly when nothing is active any more - so a waiter that takes it now is not
   woken early and not left behind.
   */
  lemma {:induction false} ClosedForGood(g: Group, calls: seq<Call>)
    requires GroupOk(g) && g.closed
    ensures var h := Run(g, calls);
            && h.closed && h.streams <= g.streams && h.active <= g.active
            && h.idle == g.idle && (g.idle in h.idleClosed <==> h.active == 0)
            && forall stream :: stream in h.streams <==> stream in g.streams && Unregistering(stream) !in calls
    decreases |calls|
  {
    if calls != [] {
      ClosedForGood(Step(g, calls[0]), calls[1..]);
      assert forall call :: call in calls <==> call == calls[0] || call in calls[1..];
    }
  }

  class Activity {
    var closed: bool
    var active: nat
    var idle: Channel
    var idleClosed: set<Channel>
    var streams: set<nat>

    ghost function State(): Group
      reads this
    {
      Group(closed, active, idle, idleClosed, streams)
    }

    constructor ()
      ensures State() == NEW && GroupOk(State())
    {
      closed, active, idle, idleClosed, streams := false, 0, 0, {0}, {};
    }

    method BeginActivity() returns (ok: bool)
      requires GroupOk(State())
      modifies this
      ensures GroupOk(State()) && ok == !old(closed)
      ensures State() == if ok then Begin(old(State())) else old(State())
    {
      if closed {
        return false;
      }
      if active == 0 {
        idle := idle + 1;
      }
      active := active + 1;
      return true;
    }

    method EndActivity()
      requires GroupOk(State())
      modifies this
      ensures GroupOk(State()) && State() == End(old(State()))
    {
      if active == 0 {
        return;
      }
      active := active - 1;
      if active == 0 {
        idleClosed := idleClosed + {idle};
      }
    }

    method RegisterStream(stream: nat) returns (ok: bool)
      requires GroupOk(State())
      modifies this
      ensures GroupOk(State()) && ok == !old(closed)
      ensures State() == if ok then Register(old(State()), stream) else old(State())
    {
      if closed {
        return false;
      }
      streams := streams + {stream};
      return true;
    }

    method UnregisterStream(stream: nat)
      requires GroupOk(State())
      modifies this
      ensures GroupOk(State()) && State() == Unregister(old(State()), stream)
    {
      streams := streams - {stream};
    }

    /** From here on begin and registration are refused; the snapshot is what was registered before. */
    method StopActivity() returns (snapshot: set<nat>)
      requires GroupOk(State())
      modifies this
      ensures GroupOk(State()) && State() == Stop(old(State())) && snapshot == old(streams)
    {
      closed := true;
      return streams;
    }
  }

  method Perform(g: Activity, call: Call)
    requires GroupOk(g.State())
    modifies g
    ensures GroupOk(g.State()) && g.State() == Step(old(g.State()), call)
  {
    match call {
      case Beginning => var ok := g.BeginActivity();
      case Ending => g.EndActivity();
      case Registering(stream) => var ok := g.RegisterStream(stream);
      case Unregistering(stream) => g.UnregisterStream(stream);
      case Stopping => var snapshot := g.StopActivity();
    }
  }

  method PerformAll(g: Activity, calls: seq<Call>)
    requires GroupOk(g.State())
    modifies g
    ensures GroupOk(g.State()) && g.State() == Run(old(g.State()), calls)
  {
    for i := 0 to |calls|
      invariant GroupOk(g.State()) && Run(old(g.State()), calls) == Run(g.State(), calls[i..])
    {
      assert calls[i..][0] == calls[i] && calls[i..][1..] == calls[i + 1..];
      Perform(g, calls[i]);
    }
  }

  /**
   What stopping and registering give together, whatever is called before and after the stop: its snapshot is exactly
   the streams registered and not unregistered by then, and those of them not unregistered since are listed later.
   */
  method StopBetween(before: seq<Call>, after: seq<Call>) returns (snapshot: set<nat>, listed: set<nat>)
    requires Stopping !in before
    ensures forall stream :: stream in snapshot <==> EndsRegistered(false, before, stream)
    ensures forall stream :: stream in listed <==> stream in snapshot && Unregistering(stream) !in after
  {
    var g := new Activity();
    PerformAll(g, before);
    forall stream: nat ensures stream in g.streams <==> EndsRegistered(false, before, stream) {
      ListedByLastCall(NEW, before, stream);
    }
    snapshot := g.StopActivity();
    ClosedForGood(g.State(), after);
    PerformAll(g, after);
    listed := g.streams;
  }
}
