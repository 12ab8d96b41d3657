/**
 The gate that keeps two configuration flows of one session apart. Gates are made on demand, counted
 and dropped again when the last user leaves. Every mutex section and every channel operation of
 acquireSessionSetup and its release function is one step; any number of threads take steps in any order,
 and a context may turn out cancelled at every point where the code looks.
 */
module SetupGate {
  import opened Counting

  type Handle = string
  type Thread = nat
  type GateId = nat

  /** token counts what is in the gate's channel, whose capacity is 1. */
  datatype Gate = Gate(token: nat, refs: int)

  /** Where a thread stands between entering and having dropped its reference. */
  datatype Place = Waiting | Took | Holding | Returning | Leaving

  datatype User = User(handle: Handle, gate: GateId, place: Place)

  /** gates is the heap of gate objects ever made; setupGates is the map of the client. */
  datatype State = State(
    gates: map<GateId, Gate>,
    setupGates: map<Handle, GateId>,
    users: map<Thread, User>,
    clientClosed: bool)

  const INIT := State(map[], map[], map[], false)

  datatype Event =
    | Enter(t: Thread, h: Handle, newGate: GateId) // the first mutex section; newGate names a new gate if one is made
    | GiveUp(t: Thread)                          // a context is done while waiting
    | Take(t: Thread)                            // receive the token
    | Confirm(t: Thread)                         // the context is still alive: the gate is held
    | Reconsider(t: Thread)                      // the context died meanwhile: hand the token back
    | Release(t: Thread)                         // first call of the release function; later calls do nothing
    | Put(t: Thread)                             // send the token
    | Drop(t: Thread)                            // the last mutex section
    | CloseClient

  predicate At(s: State, t: Thread, place: Place) {
    t in s.users && s.users[t].place == place && s.users[t].gate in s.gates
  }

  predicate Enabled(s: State, e: Event) {
    match e
    case Enter(t, h, newGate) =>
      && !s.clientClosed && t !in s.users
      && if h in s.setupGates then s.setupGates[h] in s.gates else newGate !in s.gates
    case GiveUp(t) => At(s, t, Waiting)
    case Take(t) => At(s, t, Waiting) && s.gates[s.users[t].gate].token > 0
    case Confirm(t) => At(s, t, Took)
    case Reconsider(t) => At(s, t, Took)
    case Release(t) => At(s, t, Holding)
    case Put(t) => At(s, t, Returning) && s.gates[s.users[t].gate].token < 1
    case Drop(t) => At(s, t, Leaving)
    case CloseClient => true
  }

  function Moved(s: State, t: Thread, place: Place): State
    requires t in s.users
  {
    s.(users := s.users[t := s.users[t].(place := place)])
  }

  function Do(s: State, e: Event): State
    requires Enabled(s, e)
  {
    match e
    case Enter(t, h, newGate) =>
      var known := h in s.setupGates;
      var g := if known then s.setupGates[h] else newGate;
      var gate := if known then s.gates[g] else Gate(1, 0);
      s.(gates := s.gates[g := gate.(refs := gate.refs + 1)],
         setupGates := if known then s.setupGates else s.setupGates[h := g],
         users := s.users[t := User(h, g, Waiting)])
    case GiveUp(t) => Moved(s, t, Leaving)
    case Take(t) =>
      var g := s.users[t].gate;
      Moved(s, t, Took).(gates := s.gates[g := s.gates[g].(token := s.gates[g].token - 1)])
    case Confirm(t) => Moved(s, t, Holding)
    case Reconsider(t) => Moved(s, t, Returning)
    case Release(t) => Moved(s, t, Returning)
    case Put(t) =>
      var g := s.users[t].gate;
      Moved(s, t, Leaving).(gates := s.gates[g := s.gates[g].(token := s.gates[g].token + 1)])
    case Drop(t) =>
      var g, h := s.users[t].gate, s.users[t].handle;
      var left := s.gates[g].(refs := s.gates[g].refs - 1);
      State(s.gates[g := left],
            if left.refs == 0 && h in s.setupGates && s.setupGates[h] == g then s.setupGates - {h} else s.setupGates,
            s.users - {t},
            s.clientClosed)
    case CloseClient => s.(clientClosed := true)
  }

  /** Threads with a reference to gate g, and those among them that have its token. */
  function UsesGate(g: GateId): User -> bool {
    (u: User) => u.gate == g
  }

  predicate HasToken(u: User) {
    u.place == Took || u.place == Holding || u.place == Returning
  }

  function HasTokenOf(g: GateId): User -> bool {
    (u: User) => u.gate == g && HasToken(u)
  }

  /** Users, map and gates point at each other. */
  ghost predicate Linked(s: State) {
    && (forall t :: t in s.users ==>
          s.users[t].handle in s.setupGates && s.setupGates[s.users[t].handle] == s.users[t].gate)
    && (forall h :: h in s.setupGates ==> s.setupGates[h] in s.gates && s.gates[s.setupGates[h]].refs > 0)
    && (forall h, k :: h in s.setupGates && k in s.setupGates && s.setupGates[h] == s.setupGates[k] ==> h == k)
  }

  ghost predicate CountedAt(s: State, g: GateId)
    requires g in s.gates
  {
    s.gates[g].refs == Count(s.users, UsesGate(g)) && s.gates[g].token + Count(s.users, HasTokenOf(g)) == 1
  }

  ghost predicate Inv(s: State) {
    Linked(s) && forall g :: g in s.gates ==> CountedAt(s, g)
  }

  lemma EnterKeepsCount(s: State, e: Event, g: GateId)
    requires e.Enter? && Enabled(s, e) && g in Do(s, e).gates && Linked(s)
    requires g in s.gates ==> CountedAt(s, g)
    ensures CountedAt(Do(s, e), g)
  {
    CountSet(s.users, e.t, Do(s, e).users[e.t], UsesGate(g));
    CountSet(s.users, e.t, Do(s, e).users[e.t], HasTokenOf(g));
    if g !in s.gates {
      CountNone(s.users, UsesGate(g));
      CountNone(s.users, HasTokenOf(g));
    }
  }

  lemma MoveKeepsCount(s: State, e: Event, g: GateId)
    requires Enabled(s, e) && !e.Enter? && !e.Drop? && !e.CloseClient?
    requires g in s.gates && CountedAt(s, g)
    ensures CountedAt(Do(s, e), g)
  {
    CountSet(s.users, e.t, Do(s, e).users[e.t], UsesGate(g));
    CountSet(s.users, e.t, Do(s, e).users[e.t], HasTokenOf(g));
  }

  lemma DropKeepsCount(s: State, e: Event, g: GateId)
    requires e.Drop? && Enabled(s, e) && g in s.gates && CountedAt(s, g)
    ensures CountedAt(Do(s, e), g)
  {
    CountRemove(s.users, e.t, UsesGate(g));
    CountRemove(s.users, e.t, HasTokenOf(g));
  }

  /** The last reference is the last user. */
  lemma LastReference(s: State, t: Thread)
    requires t in s.users && s.users[t].gate in s.gates && CountedAt(s, s.users[t].gate)
    ensures s.gates[s.users[t].gate].refs == 1 ==> forall o :: o in s.users && o != t ==>
            s.users[o].gate != s.users[t].gate
  {
    var g := s.users[t].gate;
    CountSees(s.users, t, UsesGate(g));
    forall o | s.gates[g].refs == 1 && o in s.users && s.users[o].gate == g ensures o == t {
      CountOnce(s.users, o, t, UsesGate(g));
    }
  }

  lemma StepKeepsLinked(s: State, e: Event)
    requires Inv(s) && Enabled(s, e)
    ensures Linked(Do(s, e))
  {
    if e.Drop? {
      assert CountedAt(s, s.users[e.t].gate);
      LastReference(s, e.t);
      DropKeepsLinked(s, e);
    } else if e.Enter? {
      EnterKeepsLinked(s, e);
    } else {
      MoveKeepsLinked(s, e);
    }
  }

  lemma MoveKeepsLinked(s: State, e: Event)
    requires Linked(s) && Enabled(s, e) && !e.Enter? && !e.Drop?
    ensures Linked(Do(s, e))
  {
    var d := Do(s, e);
    assert d.setupGates == s.setupGates && d.users.Keys == s.users.Keys;
    forall t | t in d.users ensures d.users[t].handle == s.users[t].handle && d.users[t].gate == s.users[t].gate {
    }
    forall g | g in d.gates ensures g in s.gates && d.gates[g].refs == s.gates[g].refs {
    }
  }

  lemma EnterKeepsLinked(s: State, e: Event)
    requires Linked(s) && Enabled(s, e) && e.Enter?
    ensures Linked(Do(s, e))
  {
    var d := Do(s, e);
    forall h | h in d.setupGates ensures d.setupGates[h] in d.gates && d.gates[d.setupGates[h]].refs > 0 {
      assert h == e.h || h in s.setupGates;
    }
  }

  lemma DropKeepsLinked(s: State, e: Event)
    requires Linked(s) && e.Drop? && Enabled(s, e)
    requires s.gates[s.users[e.t].gate].refs == 1 ==> forall o :: o in s.users && o != e.t ==>
             s.users[o].gate != s.users[e.t].gate
    ensures Linked(Do(s, e))
  {
    var h := s.users[e.t].handle;
    forall k | k in Do(s, e).setupGates ensures Do(s, e).gates[Do(s, e).setupGates[k]].refs > 0 {
      assert k in s.setupGates && s.gates[s.setupGates[k]].refs > 0;
    }
  }

  lemma StepKeepsInv(s: State, e: Event)
    requires Inv(s) && Enabled(s, e)
    ensures Inv(Do(s, e))
  {
    StepKeepsLinked(s, e);
    var d := Do(s, e);
    forall g | g in d.gates ensures CountedAt(d, g) {
      match e {
        case Enter(_, _, _) => EnterKeepsCount(s, e, g);
        case Drop(_) => DropKeepsCount(s, e, g);
        case CloseClient => assert CountedAt(s, g);
        case _ => MoveKeepsCount(s, e, g);
      }
    }
  }

  // ---- whole runs ----

  ghost predicate Possible(s: State, events: seq<Event>)
    decreases |events|
  {
    events == [] || (Enabled(s, events[0]) && Possible(Do(s, events[0]), events[1..]))
  }

  function Run(s: State, events: seq<Event>): State
    requires Possible(s, events)
    decreases |events|
  {
    if events == [] then s else Run(Do(s, events[0]), events[1..])
  }

  lemma {:induction false} RunKeepsInv(s: State, events: seq<Event>)
    requires Inv(s) && Possible(s, events)
    ensures Inv(Run(s, events))
    decreases |events|
  {
    if events != [] {
      StepKeepsInv(s, events[0]);
      RunKeepsInv(Do(s, events[0]), events[1..]);
    }
  }

  /**
   In every reachable state at most one thread has the token of a handle's gate, so configuration requests never
   overlap.
   */
  lemma MutualExclusion(events: seq<Event>, t: Thread, o: Thread)
    requires Possible(INIT, events)
    requires var s := Run(INIT, events);
             && t in s.users && o in s.users && s.users[t].handle == s.users[o].handle
             && HasToken(s.users[t]) && HasToken(s.users[o])
    ensures t == o
  {
    RunKeepsInv(INIT, events);
    var s := Run(INIT, events);
    assert CountedAt(s, s.users[t].gate);
    CountOnce(s.users, t, o, HasTokenOf(s.users[t].gate));
  }

  /** All contenders for a handle share one gate object, and two handles never share one. */
  lemma OneGatePerHandle(events: seq<Event>, t: Thread, o: Thread)
    requires Possible(INIT, events)
    requires t in Run(INIT, events).users && o in Run(INIT, events).users
    ensures var s := Run(INIT, events); s.users[t].handle == s.users[o].handle <==> s.users[t].gate == s.users[o].gate
  {
    RunKeepsInv(INIT, events);
  }

  /**
   The counts: references are users, the token is in the channel or with exactly one user, and only used gates are in
   the map.
   */
  lemma GateAccounts(events: seq<Event>, g: GateId)
    requires Possible(INIT, events) && g in Run(INIT, events).gates
    ensures var s := Run(INIT, events);
            && s.gates[g].refs == Count(s.users, UsesGate(g))
            && s.gates[g].token + Count(s.users, HasTokenOf(g)) == 1
            && (s.gates[g].refs > 0 <==> exists h :: h in s.setupGates && s.setupGates[h] == g)
  {
    RunKeepsInv(INIT, events);
    var s := Run(INIT, events);
    assert CountedAt(s, g);
    if s.gates[g].refs > 0 {
      CountNone(s.users, UsesGate(g));
      var t :| t in s.users && UsesGate(g)(s.users[t]);
      assert s.setupGates[s.users[t].handle] == g;
    }
  }

  /** Handing the token back never blocks: there is always room for it. */
  lemma PutNeverBlocks(events: seq<Event>, t: Thread)
    requires Possible(INIT, events)
    requires t in Run(INIT, events).users && Run(INIT, events).users[t].place == Returning
    ensures Enabled(Run(INIT, events), Put(t))
  {
    RunKeepsInv(INIT, events);
    var s := Run(INIT, events);
    assert CountedAt(s, s.users[t].gate);
    CountSees(s.users, t, HasTokenOf(s.users[t].gate));
  }

  /** A waiting thread can take the token whenever no one has it: no token is ever lost. */
  lemma TokenIsNotLost(events: seq<Event>, t: Thread)
    requires Possible(INIT, events)
    requires var s := Run(INIT, events);
             && t in s.users && s.users[t].place == Waiting
             && forall o :: o in s.users && s.users[o].handle == s.users[t].handle ==> !HasToken(s.users[o])
    ensures Enabled(Run(INIT, events), Take(t))
  {
    RunKeepsInv(INIT, events);
    var s := Run(INIT, events);
    assert CountedAt(s, s.users[t].gate);
    CountNone(s.users, HasTokenOf(s.users[t].gate));
  }

  /** When everyone has left, nothing is kept. */
  lemma GatesAreReclaimed(events: seq<Event>)
    requires Possible(INIT, events) && Run(INIT, events).users == map[]
    ensures Run(INIT, events).setupGates == map[]
  {
    RunKeepsInv(INIT, events);
    var s := Run(INIT, events);
    forall g ensures Count(s.users, UsesGate(g)) == 0 {
      CountNone(s.users, UsesGate(g));
    }
    forall h ensures h !in s.setupGates {
    }
  }

  lemma {:induction false} ClosedAdmitsNobody(s: State, events: seq<Event>)
    requires s.clientClosed && Possible(s, events)
    ensures forall e :: e in events ==> !e.Enter?
    decreases |events|
  {
    if events != [] {
      ClosedAdmitsNobody(Do(s, events[0]), events[1..]);
      assert forall e :: e in events <==> e == events[0] || e in events[1..];
    }
  }

  /** Once the client has been closed no configuration flow enters a gate any more, of whatever handle. */
  lemma {:induction false} NobodyEntersAfterClose(s: State, events: seq<Event>, i: nat, j: nat)
    requires Possible(s, events) && i < j < |events| && events[i] == CloseClient
    ensures !events[j].Enter?
    decreases i
  {
    if i == 0 {
      ClosedAdmitsNobody(Do(s, events[0]), events[1..]);
      assert events[j] in events[1..];
    } else {
      NobodyEntersAfterClose(Do(s, events[0]), events[1..], i - 1, j - 1);
    }
  }

  /** What a thread does next if nothing is cancelled. */
  function NextOf(t: Thread, place: Place): Event {
    match place
    case Waiting => Take(t)
    case Took => Confirm(t)
    case Holding => Release(t)
    case Returning => Put(t)
    case Leaving => Drop(t)
  }

  lemma NextIsOpen(events: seq<Event>, t: Thread)
    requires Possible(INIT, events) && t in Run(INIT, events).users && Run(INIT, events).users[t].place != Waiting
    ensures var s := Run(INIT, events); Enabled(s, NextOf(t, s.users[t].place))
  {
    RunKeepsInv(INIT, events);
    if Run(INIT, events).users[t].place == Returning {
      PutNeverBlocks(events, t);
    }
  }

  /** Nobody is stuck: every thread can take its next step, or it waits and the one that has the token can. */
  lemma NobodyIsStuck(events: seq<Event>, t: Thread) returns (o: Thread)
    requires Possible(INIT, events) && t in Run(INIT, events).users
    ensures var s := Run(INIT, events);
            && o in s.users && s.users[o].handle == s.users[t].handle && Enabled(s, NextOf(o, s.users[o].place))
            && (o == t || (s.users[t].place == Waiting && HasToken(s.users[o])))
  {
    var s := Run(INIT, events);
    o := t;
    if s.users[t].place == Waiting {
      if h :| h in s.users && s.users[h].handle == s.users[t].handle && HasToken(s.users[h]) {
        o := h;
        NextIsOpen(events, h);
      } else {
        TokenIsNotLost(events, t);
      }
    } else {
      NextIsOpen(events, t);
    }
  }
}
