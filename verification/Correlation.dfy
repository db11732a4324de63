/**
Matching of responses to the calls of SendAndWait: callers, one receive thread, and the map of pending
promises between them. Each critical section and each call into a promise is one step; a run is a list
of actions, and an action that is not possible changes nothing.
*/
module Correlation {

  import opened Wrappers

  /** MSGID is a 32-bit number; the counter starts at 1 and a draw returns the old value. */
  const ID_RANGE: nat := 0x1_0000_0000

  function IdOf(ordinal: nat): nat {
    (1 + ordinal) % ID_RANGE
  }

  datatype Packet = Packet(id: nat, body: seq<bv8>)

  // ----- The map of pending promises, each named by the call that waits for it

  type Pending = map<nat, nat>

  /** emplace leaves an existing entry alone, and the new promise is then destroyed. */
  function Emplaced(pending: Pending, id: nat, call: nat): Pending {
    if id in pending then pending else pending[id := call]
  }

  function Erased(pending: Pending, id: nat): Pending {
    pending - {id}
  }

  class PendingRequests {
    var msgIdSeq: nat
    var pending: Pending

    constructor ()
      ensures msgIdSeq == 1 && pending == map[]
    {
      msgIdSeq, pending := 1, map[];
    }

    /** The atomic post-increment; ordinal counts the draws before this one. */
    method DrawId(ghost ordinal: nat) returns (id: nat)
      requires msgIdSeq == IdOf(ordinal)
      modifies this
      ensures id == IdOf(ordinal) && msgIdSeq == IdOf(ordinal + 1) && pending == old(pending)
    {
      id := msgIdSeq;
      msgIdSeq := (msgIdSeq + 1) % ID_RANGE;
    }

    method Register(id: nat, call: nat) returns (inserted: bool)
      modifies this
      ensures pending == Emplaced(old(pending), id, call) && inserted == (id !in old(pending))
      ensures msgIdSeq == old(msgIdSeq)
    {
      inserted := id !in pending;
      if inserted {
        pending := pending[id := call];
      }
    }

    method Erase(id: nat)
      modifies this
      ensures pending == Erased(old(pending), id) && msgIdSeq == old(msgIdSeq)
    {
      pending := pending - {id};
    }

    /** The receive thread's look-up: a promise that is found is moved out of the map. */
    method Claim(id: nat) returns (owner: Option<nat>)
      modifies this
      ensures owner == if id in old(pending) then Some(old(pending)[id]) else None
      ensures pending == Erased(old(pending), id) && msgIdSeq == old(msgIdSeq)
    {
      if id in pending {
        owner := Some(pending[id]);
        pending := pending - {id};
      } else {
        owner := None;
        assert pending - {id} == pending;
      }
    }
  }

  // ----- The protocol

  datatype Promise = Open | Set(packet: Packet) | Abandoned

  /** How SendAndWait ends: false after a failed send or a timeout, true with a packet, or a broken promise. */
  datatype Result = SendFailed | TimedOut | Received(packet: Packet) | Threw

  datatype Phase = Drawn | Registered | Sent | Returned(result: Result)

  datatype Call = Call(ordinal: nat, phase: Phase, promise: Promise)

  datatype Target = ToCall(c: nat) | ToHandler

  datatype Route = Route(packet: Packet, target: Target)

  /** inHand is the packet that the receive thread is about to deliver; routes and received record the past. */
  datatype State = State(
    drawn: nat, calls: seq<Call>, pending: Pending, inHand: Option<Route>, routes: seq<Route>, received: seq<Packet>)

  const INITIAL := State(0, [], map[], None, [], [])

  datatype Action =
    | Draw | DrawElsewhere | Register(c: nat) | SendSucceeds(c: nat) | SendFails(c: nat)
    | Receive(packet: Packet) | Deliver | Get(c: nat) | TimeOut(c: nat)

  function Id(call: Call): nat {
    IdOf(call.ordinal)
  }

  function InPhase(s: State, c: nat, phase: Phase): State
    requires c < |s.calls|
  {
    s.(calls := s.calls[c := s.calls[c].(phase := phase)])
  }

  /** Destroying an open promise breaks it. */
  function Broken(call: Call): Call {
    if call.promise.Open? then call.(promise := Abandoned) else call
  }

  function RegisterCall(s: State, c: nat): State
    requires c < |s.calls|
  {
    var call := s.calls[c].(phase := Registered);
    s.(pending := Emplaced(s.pending, Id(call), c),
       calls := s.calls[c := if Id(call) in s.pending then Broken(call) else call])
  }

  /** Erasing an id destroys whatever promise is stored under it. */
  function EraseAndReturn(s: State, c: nat, result: Result): State
    requires c < |s.calls|
  {
    var s' := InPhase(s, c, Returned(result));
    var id := Id(s.calls[c]);
    var calls := if id in s.pending && s.pending[id] < |s.calls|
                 then s'.calls[s.pending[id] := Broken(s'.calls[s.pending[id]])] else s'.calls;
    s'.(pending := Erased(s.pending, id), calls := calls)
  }

  function Claimed(s: State, packet: Packet): State {
    var target := if packet.id in s.pending then ToCall(s.pending[packet.id]) else ToHandler;
    s.(pending := Erased(s.pending, packet.id), inHand := Some(Route(packet, target)),
       received := s.received + [packet])
  }

  function Delivered(s: State, route: Route): State {
    var s' := s.(inHand := None, routes := s.routes + [route]);
    if route.target.ToCall? && route.target.c < |s.calls|
    then s'.(calls := s.calls[route.target.c := s.calls[route.target.c].(promise := Set(route.packet))])
    else s'
  }

  function Step(s: State, a: Action): State {
    match a
    case Draw => s.(drawn := s.drawn + 1, calls := s.calls + [Call(s.drawn, Drawn, Open)])
    case DrawElsewhere => s.(drawn := s.drawn + 1)
    case Register(c) => if c < |s.calls| && s.calls[c].phase.Drawn? then RegisterCall(s, c) else s
    case SendSucceeds(c) => if c < |s.calls| && s.calls[c].phase.Registered? then InPhase(s, c, Sent) else s
    case SendFails(c) => if c < |s.calls| && s.calls[c].phase.Registered? then EraseAndReturn(s, c, SendFailed) else s
    case Receive(packet) => if s.inHand.None? then Claimed(s, packet) else s
    case Deliver => if s.inHand.Some? then Delivered(s, s.inHand.value) else s
    case Get(c) =>
      if c < |s.calls| && s.calls[c].phase.Sent? && !s.calls[c].promise.Open? then
        InPhase(s, c, Returned(if s.calls[c].promise.Set? then Received(s.calls[c].promise.packet) else Threw))
      else s
    case TimeOut(c) => if c < |s.calls| && s.calls[c].phase.Sent? then EraseAndReturn(s, c, TimedOut) else s
  }

  function Run(actions: seq<Action>): State {
    if actions == [] then INITIAL else Step(Run(actions[..|actions| - 1]), actions[|actions| - 1])
  }

  // ----- What holds whatever is drawn

  predicate Waits(call: Call) {
    call.phase.Registered? || call.phase.Sent?
  }

  predicate HandHolds(s: State, c: nat) {
    s.inHand.Some? && s.inHand.value.target == ToCall(c)
  }

  /** Every entry belongs to a waiting call with that id and an open promise. */
  predicate PendingOwned(s: State) {
    forall k :: k in s.pending ==>
      && s.pending[k] < |s.calls| && Id(s.calls[s.pending[k]]) == k
      && Waits(s.calls[s.pending[k]]) && s.calls[s.pending[k]].promise.Open?
  }

  /** A packet in hand for a call has the call's id and finds its promise open and out of the map. */
  predicate HandOwned(s: State) {
    s.inHand.Some? && s.inHand.value.target.ToCall? ==>
      var Route(packet, ToCall(c)) := s.inHand.value;
      && c < |s.calls| && s.calls[c].promise.Open? && !s.calls[c].phase.Drawn? && packet.id == Id(s.calls[c])
      && !(Id(s.calls[c]) in s.pending && s.pending[Id(s.calls[c])] == c)
  }

  /** A promise holds exactly the one packet that was routed to it. */
  predicate PromisesSetOnce(s: State) {
    && (forall r :: 0 <= r < |s.routes| && s.routes[r].target.ToCall? ==>
        var c := s.routes[r].target.c; c < |s.calls| && s.calls[c].promise == Set(s.routes[r].packet))
    && (forall r, q :: 0 <= r < q < |s.routes| && s.routes[r].target.ToCall? ==>
        s.routes[r].target != s.routes[q].target)
    && (forall c :: 0 <= c < |s.calls| && s.calls[c].promise.Set? ==>
        && s.calls[c].promise.packet.id == Id(s.calls[c]) && !s.calls[c].phase.Drawn?
        && Route(s.calls[c].promise.packet, ToCall(c)) in s.routes)
  }

  /** Every received packet is routed once, in order, or is the one in hand. */
  predicate AllRouted(s: State) {
    && |s.received| == |s.routes| + (if s.inHand.Some? then 1 else 0)
    && (forall r :: 0 <= r < |s.routes| ==> s.routes[r].packet == s.received[r])
    && (s.inHand.Some? ==> s.inHand.value.packet == s.received[|s.routes|])
  }

  predicate ResultsTrue(s: State) {
    forall c :: 0 <= c < |s.calls| && s.calls[c].phase.Returned? && s.calls[c].phase.result.Received? ==>
      s.calls[c].promise == Set(s.calls[c].phase.result.packet)
  }

  predicate DrawnPromisesOpen(s: State) {
    forall c :: 0 <= c < |s.calls| && s.calls[c].phase.Drawn? ==> s.calls[c].promise.Open?
  }

  predicate Consistent(s: State) {
    PendingOwned(s) && HandOwned(s) && PromisesSetOnce(s) && AllRouted(s) && ResultsTrue(s) && DrawnPromisesOpen(s)
  }

  lemma {:induction false} DrawConsistent(s: State)
    requires Consistent(s)
    ensures Consistent(Step(s, Draw))
  {
    hide IdOf;
  }

  lemma {:induction false} DrawElsewhereConsistent(s: State)
    requires Consistent(s)
    ensures Consistent(Step(s, DrawElsewhere))
  {
    hide IdOf;
  }

  lemma {:induction false} RegisterConsistent(s: State, c: nat)
    requires Consistent(s) && c < |s.calls| && s.calls[c].phase.Drawn?
    ensures Consistent(RegisterCall(s, c))
  {
    hide IdOf;
  }

  lemma {:induction false} PhaseConsistent(s: State, c: nat, phase: Phase)
    requires Consistent(s) && c < |s.calls| && Waits(s.calls[c]) && (phase.Sent? || phase.Returned?)
    requires phase.Returned? ==>
      || (s.calls[c].promise.Abandoned? && phase.result.Threw?)
      || (phase.result.Received? && s.calls[c].promise == Set(phase.result.packet))
    ensures Consistent(InPhase(s, c, phase))
  {
    hide IdOf;
  }

  lemma {:induction false} EraseConsistent(s: State, c: nat, result: Result)
    requires Consistent(s) && c < |s.calls| && Waits(s.calls[c]) && (result.SendFailed? || result.TimedOut?)
    ensures Consistent(EraseAndReturn(s, c, result))
  {
    hide IdOf;
    ErasingKeepsOwners(s, c, result);
    hide PendingOwned, HandOwned;
    ErasingKeepsRoutes(s, c, result);
    hide PromisesSetOnce, ResultsTrue, DrawnPromisesOpen;
  }

  lemma {:induction false} ErasingKeepsOwners(s: State, c: nat, result: Result)
    requires PendingOwned(s) && HandOwned(s) && c < |s.calls| && Waits(s.calls[c])
    ensures PendingOwned(EraseAndReturn(s, c, result)) && HandOwned(EraseAndReturn(s, c, result))
  {
    hide IdOf;
  }

  lemma {:induction false} ErasingKeepsRoutes(s: State, c: nat, result: Result)
    requires PendingOwned(s) && PromisesSetOnce(s) && ResultsTrue(s) && DrawnPromisesOpen(s)
    requires c < |s.calls| && Waits(s.calls[c]) && !result.Received?
    ensures var s' := EraseAndReturn(s, c, result); PromisesSetOnce(s') && ResultsTrue(s') && DrawnPromisesOpen(s')
  {
    hide IdOf;
  }

  lemma {:induction false} ClaimConsistent(s: State, packet: Packet)
    requires Consistent(s) && s.inHand.None?
    ensures Consistent(Claimed(s, packet))
  {
    hide IdOf;
  }

  lemma {:induction false} DeliverConsistent(s: State)
    requires Consistent(s) && s.inHand.Some?
    ensures Consistent(Delivered(s, s.inHand.value))
  {
    hide IdOf;
  }

  lemma {:induction false} StepConsistent(s: State, a: Action)
    requires Consistent(s)
    ensures Consistent(Step(s, a))
  {
    hide Consistent, IdOf, RegisterCall, InPhase, EraseAndReturn, Claimed, Delivered;
    match a
    case Draw => DrawConsistent(s);
    case DrawElsewhere => DrawElsewhereConsistent(s);
    case Register(c) => if c < |s.calls| && s.calls[c].phase.Drawn? { RegisterConsistent(s, c); }
    case SendSucceeds(c) => if c < |s.calls| && s.calls[c].phase.Registered? { PhaseConsistent(s, c, Sent); }
    case SendFails(c) => if c < |s.calls| && s.calls[c].phase.Registered? { EraseConsistent(s, c, SendFailed); }
    case Receive(packet) => if s.inHand.None? { ClaimConsistent(s, packet); }
    case Deliver => if s.inHand.Some? { DeliverConsistent(s); }
    case Get(c) =>
      if c < |s.calls| && s.calls[c].phase.Sent? && !s.calls[c].promise.Open? {
        PhaseConsistent(s, c, Returned(if s.calls[c].promise.Set? then Received(s.calls[c].promise.packet) else Threw));
      }
    case TimeOut(c) => if c < |s.calls| && s.calls[c].phase.Sent? { EraseConsistent(s, c, TimedOut); }
  }

  /** In every run the route of each received packet is decided once, and results are the packets so routed. */
  lemma {:induction false} AlwaysConsistent(actions: seq<Action>)
    ensures Consistent(Run(actions))
  {
    if actions != [] {
      AlwaysConsistent(actions[..|actions| - 1]);
      StepConsistent(Run(actions[..|actions| - 1]), actions[|actions| - 1]);
    }
  }

  lemma {:induction false} RunMore(actions: seq<Action>, a: Action)
    ensures Run(actions + [a]) == Step(Run(actions), a)
  {
    assert (actions + [a])[..|actions|] == actions;
  }

  /**
  A call that returned true got a received packet with its own id; no other packet was routed to it, and
  no other call got that packet.
  */
  lemma {:induction false} TrueResultsAreOwn(actions: seq<Action>, c: nat)
    requires c < |Run(actions).calls|
    requires Run(actions).calls[c].phase.Returned? && Run(actions).calls[c].phase.result.Received?
    ensures var s := Run(actions);
      var packet := s.calls[c].phase.result.packet;
      && packet.id == Id(s.calls[c]) && |s.routes| <= |s.received|
      && (exists r :: 0 <= r < |s.routes| && s.routes[r] == Route(packet, ToCall(c)) && s.received[r] == packet
                      && forall q :: 0 <= q < |s.routes| && q != r ==> s.routes[q].target != ToCall(c))
  {
    hide IdOf;
    AlwaysConsistent(actions);
    var s := Run(actions);
    var route := Route(s.calls[c].phase.result.packet, ToCall(c));
    assert route in s.routes;
    var r :| 0 <= r < |s.routes| && s.routes[r] == route;
    assert s.received[r] == route.packet;
  }

  // ----- The map

  /** The call is registered, and its promise is neither resolved, erased nor on its way. */
  predicate Outstanding(s: State, c: nat) {
    c < |s.calls| && Waits(s.calls[c]) && s.calls[c].promise.Open? && !HandHolds(s, c)
  }

  ghost predicate AllStored(s: State) {
    forall c: nat :: Outstanding(s, c) ==> Id(s.calls[c]) in s.pending && s.pending[Id(s.calls[c])] == c
  }

  lemma {:induction false} RegisterStores(s: State, c: nat)
    requires AllStored(s) && c < |s.calls| && s.calls[c].phase.Drawn?
    ensures AllStored(RegisterCall(s, c))
  {
    hide IdOf;
  }

  lemma {:induction false} EraseStores(s: State, c: nat, result: Result)
    requires AllStored(s) && PendingOwned(s) && c < |s.calls| && Waits(s.calls[c])
    ensures AllStored(EraseAndReturn(s, c, result))
  {
    hide IdOf;
  }

  lemma {:induction false} ClaimStores(s: State, packet: Packet)
    requires AllStored(s) && s.inHand.None?
    ensures AllStored(Claimed(s, packet))
  {
    hide IdOf;
  }

  lemma {:induction false} DeliverStores(s: State)
    requires AllStored(s) && s.inHand.Some? && HandOwned(s)
    ensures AllStored(Delivered(s, s.inHand.value))
  {
    hide IdOf;
  }

  lemma {:induction false} PhaseStores(s: State, c: nat, phase: Phase)
    requires AllStored(s) && c < |s.calls| && Waits(s.calls[c])
    ensures AllStored(InPhase(s, c, phase))
  {
    hide IdOf;
  }

  lemma {:induction false} StepStores(s: State, a: Action)
    requires Consistent(s) && AllStored(s)
    ensures AllStored(Step(s, a))
  {
    hide IdOf, RegisterCall, InPhase, EraseAndReturn, Claimed, Delivered, PendingOwned, HandOwned;
    match a
    case Register(c) => if c < |s.calls| && s.calls[c].phase.Drawn? { RegisterStores(s, c); }
    case SendSucceeds(c) => if c < |s.calls| && s.calls[c].phase.Registered? { PhaseStores(s, c, Sent); }
    case SendFails(c) => if c < |s.calls| && s.calls[c].phase.Registered? { EraseStores(s, c, SendFailed); }
    case Receive(packet) => if s.inHand.None? { ClaimStores(s, packet); }
    case Deliver => if s.inHand.Some? { DeliverStores(s); }
    case Get(c) =>
      if c < |s.calls| && s.calls[c].phase.Sent? && !s.calls[c].promise.Open? {
        PhaseStores(s, c, Returned(if s.calls[c].promise.Set? then Received(s.calls[c].promise.packet) else Threw));
      }
    case TimeOut(c) => if c < |s.calls| && s.calls[c].phase.Sent? { EraseStores(s, c, TimedOut); }
    case _ =>
  }

  lemma {:induction false} AlwaysStored(actions: seq<Action>)
    ensures AllStored(Run(actions))
  {
    hide Consistent, Step;
    if actions != [] {
      hide AllStored;
      AlwaysStored(actions[..|actions| - 1]);
      AlwaysConsistent(actions[..|actions| - 1]);
      StepStores(Run(actions[..|actions| - 1]), actions[|actions| - 1]);
    }
  }

  /** In every run the map holds exactly the ids of the outstanding calls, each with its own call. */
  lemma {:induction false} PendingExactly(actions: seq<Action>)
    ensures var s := Run(actions);
      forall k, c: nat :: k in s.pending && s.pending[k] == c <==> Outstanding(s, c) && Id(s.calls[c]) == k
  {
    hide Run, IdOf, PromisesSetOnce, AllRouted, ResultsTrue, DrawnPromisesOpen;
    AlwaysStored(actions);
    AlwaysConsistent(actions);
  }

  // ----- How a call ends

  /** What one step does to the phase of a call. */
  lemma {:induction false} PhasesExactly(s: State, a: Action, c: nat)
    requires c < |s.calls| && PendingOwned(s)
    ensures var s', call := Step(s, a), s.calls[c];
      && c < |s'.calls|
      && s'.calls[c].phase ==
        if a == Register(c) && call.phase.Drawn? then Registered
        else if a == SendSucceeds(c) && call.phase.Registered? then Sent
        else if a == SendFails(c) && call.phase.Registered? then Returned(SendFailed)
        else if a == TimeOut(c) && call.phase.Sent? then Returned(TimedOut)
        else if a == Get(c) && call.phase.Sent? && call.promise.Set? then Returned(Received(call.promise.packet))
        else if a == Get(c) && call.phase.Sent? && call.promise.Abandoned? then Returned(Threw)
        else call.phase
  {
    hide IdOf, Emplaced, Erased;
  }

  /** How a call ended tells which of its steps were taken. */
  predicate EndExplained(actions: seq<Action>, c: nat, call: Call) {
    && (call.phase == Returned(SendFailed) ==> SendFails(c) in actions)
    && (call.phase == Returned(TimedOut) ==> TimeOut(c) in actions)
    && (call.phase.Returned? && call.phase.result.Received? ==>
        Get(c) in actions && call.promise == Set(call.phase.result.packet))
    && (call.phase == Returned(Threw) ==> Get(c) in actions && call.promise.Abandoned?)
  }

  lemma {:induction false} StepPromise(s: State, a: Action, c: nat)
    requires c < |s.calls| && !s.calls[c].promise.Open? && PendingOwned(s) && HandOwned(s)
    ensures var s' := Step(s, a); c < |s'.calls| && s'.calls[c].promise == s.calls[c].promise
  {
    hide IdOf, Emplaced, Erased;
  }

  lemma {:induction false} StepCalls(s: State, a: Action)
    ensures var s' := Step(s, a);
      if a.Draw? then s'.calls == s.calls + [Call(s.drawn, Drawn, Open)] else |s'.calls| == |s.calls|
  {
    hide IdOf, Emplaced, Erased;
  }

  lemma {:induction false} StepExplains(s: State, before: seq<Action>, a: Action, c: nat)
    requires Consistent(s) && c < |s.calls| && EndExplained(before, c, s.calls[c])
    ensures c < |Step(s, a).calls| && EndExplained(before + [a], c, Step(s, a).calls[c])
  {
    PhasesExactly(s, a, c);
    var call, call' := s.calls[c], Step(s, a).calls[c];
    if !call.promise.Open? {
      StepPromise(s, a, c);
    }
    hide Step, PromisesSetOnce, AllRouted, ResultsTrue, DrawnPromisesOpen, PendingOwned, HandOwned;
  }

  /** In every run the result of a call is explained by the steps that it took. */
  lemma {:induction false} EndsExplained(actions: seq<Action>, c: nat)
    requires c < |Run(actions).calls|
    ensures EndExplained(actions, c, Run(actions).calls[c])
  {
    hide Step, Consistent, EndExplained;
    var before, a := actions[..|actions| - 1], actions[|actions| - 1];
    var s := Run(before);
    assert actions == before + [a];
    AlwaysConsistent(before);
    StepCalls(s, a);
    if c < |s.calls| {
      EndsExplained(before, c);
      StepExplains(s, before, a, c);
    } else {
      DrawnIsExplained(actions, c, Run(actions).calls[c]);
    }
  }

  lemma {:induction false} DrawnIsExplained(actions: seq<Action>, c: nat, call: Call)
    requires call.phase.Drawn?
    ensures EndExplained(actions, c, call)
  {
  }

  /**
  A call that got a packet routed to it returns true with that packet, unless its send failed or it timed out; a
  call that ended without either has a routed packet, or a broken promise and an exception.
  */
  lemma {:induction false} RoutedIsReturned(actions: seq<Action>, c: nat)
    requires c < |Run(actions).calls| && Run(actions).calls[c].phase.Returned?
    requires SendFails(c) !in actions && TimeOut(c) !in actions
    ensures var s := Run(actions);
      var result := s.calls[c].phase.result;
      && (result.Received? || result.Threw?)
      && (forall packet :: Route(packet, ToCall(c)) in s.routes <==> result == Received(packet))
  {
    hide Run, IdOf;
    AlwaysConsistent(actions);
    EndsExplained(actions, c);
    var s := Run(actions);
    forall packet | Route(packet, ToCall(c)) in s.routes
      ensures s.calls[c].promise == Set(packet)
    {
      var r :| 0 <= r < |s.routes| && s.routes[r] == Route(packet, ToCall(c));
      assert s.routes[r].target.ToCall?;
    }
  }

  /** The receive thread takes a packet for the outstanding call with its id, or else for the handler. */
  lemma {:induction false} ReceivesForOutstanding(actions: seq<Action>, packet: Packet)
    requires Run(actions).inHand.None?
    ensures var s, s' := Run(actions), Run(actions + [Receive(packet)]);
      && s'.inHand.Some? && s'.inHand.value.packet == packet
      && s'.received == s.received + [packet] && s'.calls == s.calls
      && forall c: nat :: s'.inHand.value.target == ToCall(c) <==> Outstanding(s, c) && Id(s.calls[c]) == packet.id
  {
    hide Run, IdOf;
    RunMore(actions, Receive(packet));
    PendingExactly(actions);
  }

  lemma {:induction false} SendingStaysOutstanding(s: State, c: nat)
    requires Outstanding(s, c)
    ensures var s' := Step(s, SendSucceeds(c));
      && c < |s.calls| == |s'.calls| && Outstanding(s', c)
      && s'.calls[c] == s.calls[c].(phase := Sent) && s'.inHand == s.inHand
  {
    hide IdOf;
  }

  lemma {:induction false} DeliveringStaysOutstanding(s: State, c: nat)
    requires Outstanding(s, c)
    ensures var s' := Step(s, Deliver);
      c < |s.calls| == |s'.calls| && Outstanding(s', c) && s'.calls[c] == s.calls[c] && s'.inHand.None?
  {
    hide IdOf;
  }

  lemma {:induction false} DeliveredIsReturned(s: State, c: nat, packet: Packet)
    requires c < |s.calls| && s.calls[c].phase.Sent? && s.inHand == Some(Route(packet, ToCall(c)))
    ensures var s' := Step(Step(s, Deliver), Get(c)); c < |s'.calls| && s'.calls[c].phase == Returned(Received(packet))
  {
    hide IdOf;
  }

  /** From every reachable state: a packet with the id of an outstanding call can come to be what it returns. */
  lemma {:induction false} AnswerArrives(actions: seq<Action>, c: nat, packet: Packet)
    requires Outstanding(Run(actions), c) && packet.id == Id(Run(actions).calls[c])
    ensures var s := Run(actions + [SendSucceeds(c), Deliver, Receive(packet), Deliver, Get(c)]);
      c < |s.calls| && s.calls[c].phase == Returned(Received(packet))
  {
    hide Run, Step, IdOf, Outstanding;
    var sent := actions + [SendSucceeds(c)];
    var free := sent + [Deliver];
    var taken := free + [Receive(packet)];
    RunMore(actions, SendSucceeds(c));
    RunMore(sent, Deliver);
    SendingStaysOutstanding(Run(actions), c);
    DeliveringStaysOutstanding(Run(sent), c);
    ReceivesForOutstanding(free, packet);
    assert Run(taken).inHand == Some(Route(packet, ToCall(c)));
    RunMore(taken, Deliver);
    RunMore(taken + [Deliver], Get(c));
    DeliveredIsReturned(Run(taken), c, packet);
    assert taken + [Deliver] + [Get(c)] == actions + [SendSucceeds(c), Deliver, Receive(packet), Deliver, Get(c)];
  }

  // ----- When a promise can break

  /** Two draws give one id exactly when a whole number of cycles lies between them. */
  lemma {:induction false} SameIdExactly(a: nat, b: nat)
    ensures IdOf(a) == IdOf(b) <==> (b - a) % 0x1_0000_0000 == 0
  {
  }

  predicate Unreturned(call: Call) {
    !call.phase.Returned?
  }

  /** The promise is still to be stored, or it is in the map. */
  predicate Exposed(s: State, c: nat) {
    c < |s.calls| && (s.calls[c].phase.Drawn? || Outstanding(s, c))
  }

  /** Two running calls drew a whole number of cycles apart, and the promise of the first is exposed. */
  predicate Clashes(s: State, c: nat, d: nat) {
    && c < |s.calls| && d < |s.calls| && c != d && Unreturned(s.calls[c]) && Unreturned(s.calls[d])
    && (s.calls[d].ordinal - s.calls[c].ordinal) % ID_RANGE == 0 && Exposed(s, c)
  }

  ghost predicate Clash(s: State) {
    exists c, d :: Clashes(s, c, d)
  }

  predicate HasThrown(s: State, c: nat) {
    c < |s.calls| && s.calls[c].phase == Returned(Threw)
  }

  ghost predicate Throws(s: State) {
    exists c :: HasThrown(s, c)
  }

  /** The call has ended with a broken promise, or runs with one. */
  predicate LostBy(s: State, c: nat) {
    HasThrown(s, c) || (c < |s.calls| && Unreturned(s.calls[c]) && s.calls[c].promise.Abandoned?)
  }

  ghost predicate Lost(s: State) {
    exists c :: LostBy(s, c)
  }

  lemma {:induction false} SameIdClashes(s: State, c: nat, d: nat)
    requires c < |s.calls| && d < |s.calls| && c != d && Unreturned(s.calls[c]) && Unreturned(s.calls[d])
    requires Exposed(s, c)
    ensures Clashes(s, c, d) <==> Id(s.calls[c]) == Id(s.calls[d])
  {
    hide IdOf;
    SameIdExactly(s.calls[c].ordinal, s.calls[d].ordinal);
  }

  predicate SameOrdinals(s: State, s': State) {
    |s'.calls| == |s.calls| && forall c :: 0 <= c < |s.calls| ==> s'.calls[c].ordinal == s.calls[c].ordinal
  }

  lemma {:induction false} StepKeepsOrdinals(s: State, a: Action)
    requires !a.Draw?
    ensures SameOrdinals(s, Step(s, a)) && s.drawn <= Step(s, a).drawn
  {
    hide IdOf, Emplaced, Erased;
  }

  /** Only a draw makes a clash. */
  lemma {:induction false} StepClashes(s: State, a: Action, c: nat, d: nat)
    requires HandOwned(s) && !a.Draw? && Clashes(Step(s, a), c, d)
    ensures Clashes(s, c, d)
  {
    StepKeepsOrdinals(s, a);
    StepExposes(s, a, c);
    StepReturns(s, a, c);
    StepReturns(s, a, d);
    hide Step, Unreturned, Exposed, HandOwned;
  }

  lemma {:induction false} StepExposes(s: State, a: Action, c: nat)
    requires HandOwned(s) && !a.Draw? && Exposed(Step(s, a), c)
    ensures Exposed(s, c)
  {
    hide IdOf, Emplaced, Erased;
  }

  lemma {:induction false} StepReturns(s: State, a: Action, c: nat)
    requires !a.Draw? && c < |Step(s, a).calls| && Unreturned(Step(s, a).calls[c])
    ensures c < |s.calls| && Unreturned(s.calls[c])
  {
    hide IdOf, Emplaced, Erased;
  }

  /** The owner of a stored promise is exposed. */
  lemma {:induction false} StoredIsExposed(s: State, id: nat)
    requires PendingOwned(s) && HandOwned(s) && id in s.pending
    ensures Exposed(s, s.pending[id])
  {
    hide IdOf;
  }

  /** Without a clash, whoever is stored under the id of a running call is that call. */
  lemma {:induction false} StoredIsOwn(s: State, c: nat)
    requires PendingOwned(s) && HandOwned(s) && !Clash(s) && c < |s.calls| && Unreturned(s.calls[c])
    requires Id(s.calls[c]) in s.pending
    ensures s.pending[Id(s.calls[c])] == c && Waits(s.calls[c])
  {
    hide IdOf;
    var d := s.pending[Id(s.calls[c])];
    StoredIsExposed(s, Id(s.calls[c]));
    hide HandOwned, Exposed, Clashes;
    if d != c {
      SameIdClashes(s, d, c);
    }
  }

  lemma {:induction false} StepLosesNone(s: State, a: Action)
    requires Consistent(s) && !Clash(s) && !Lost(s)
    ensures !Lost(Step(s, a))
  {
    if c: nat :| LostBy(Step(s, a), c) {
      StepLoses(s, a, c);
    }
  }

  /** A call loses its promise only to a clash. */
  lemma {:induction false} StepLoses(s: State, a: Action, c: nat)
    requires Consistent(s) && !Clash(s) && LostBy(Step(s, a), c)
    ensures LostBy(s, c)
  {
    hide Clash, Consistent, HandOwned, PendingOwned;
    match a
    case Register(d) =>
      if d < |s.calls| && s.calls[d].phase.Drawn? && Id(s.calls[d]) in s.pending {
        OwnIsStored(s, d);
      }
    case SendFails(d) =>
      if d < |s.calls| && s.calls[d].phase.Registered? {
        OwnIsStored(s, d);
      }
    case TimeOut(d) =>
      if d < |s.calls| && s.calls[d].phase.Sent? {
        OwnIsStored(s, d);
      }
    case _ =>
  }

  lemma {:induction false} OwnIsStored(s: State, c: nat)
    requires Consistent(s) && !Clash(s) && c < |s.calls| && Unreturned(s.calls[c])
    ensures Id(s.calls[c]) in s.pending ==> s.pending[Id(s.calls[c])] == c && Waits(s.calls[c])
  {
    hide IdOf, Clash;
    if Id(s.calls[c]) in s.pending {
      StoredIsOwn(s, c);
    }
  }

  predicate NoDraw(actions: seq<Action>) {
    forall a :: a in actions ==> !a.Draw?
  }

  /** A run that starts without a clash stays so until a call draws, and none of its promises breaks. */
  lemma {:induction false} SafeUntilDraw(actions: seq<Action>, more: seq<Action>)
    requires !Clash(Run(actions)) && !Lost(Run(actions)) && NoDraw(more)
    ensures !Clash(Run(actions + more)) && !Lost(Run(actions + more))
    decreases |more|
  {
    hide Run, Step, Consistent, Clashes, Lost;
    if more == [] {
      assert actions + more == actions;
    } else {
      var front, a := more[..|more| - 1], more[|more| - 1];
      SafeUntilDraw(actions, front);
      var s := Run(actions + front);
      AlwaysConsistent(actions + front);
      StepLosesNone(s, a);
      if c: nat, d: nat :| Clashes(Step(s, a), c, d) {
        assert HandOwned(s) by { ConsistentHand(s); }
        StepClashes(s, a, c, d);
      }
      RunMore(actions + front, a);
      assert actions + front + [a] == actions + more;
    }
  }

  lemma {:induction false} ConsistentHand(s: State)
    requires Consistent(s)
    ensures HandOwned(s)
  {
  }

  /** No promise breaks in a run in which no clash ever arises. */
  lemma {:induction false} LossNeedsClash(actions: seq<Action>)
    requires Lost(Run(actions))
    ensures exists n :: 0 <= n < |actions| && Clash(Run(actions[..n]))
  {
    hide Step, Consistent, Clash, Lost;
    if actions == [] {
      NothingLostAtFirst();
    } else {
      var before := actions[..|actions| - 1];
      AlwaysConsistent(before);
      if Lost(Run(before)) {
        LossNeedsClash(before);
        var n :| 0 <= n < |before| && Clash(Run(before[..n]));
        assert before[..n] == actions[..n];
      } else if !Clash(Run(before)) {
        StepLosesNone(Run(before), actions[|actions| - 1]);
      }
    }
  }

  lemma {:induction false} NothingLostAtFirst()
    ensures !Lost(INITIAL)
  {
  }

  // ----- A clash breaks a promise

  function RunFrom(s: State, actions: seq<Action>): State {
    if actions == [] then s else Step(RunFrom(s, actions[..|actions| - 1]), actions[|actions| - 1])
  }

  lemma {:induction false} RunSplits(front: seq<Action>, back: seq<Action>)
    ensures Run(front + back) == RunFrom(Run(front), back)
  {
    if back == [] {
      assert front + back == front;
    } else {
      var all := front + back;
      assert all[..|all| - 1] == front + back[..|back| - 1];
      RunSplits(front, back[..|back| - 1]);
    }
  }

  /** A run with a lost promise goes on to throw. */
  lemma {:induction false} LostThrows(actions: seq<Action>, c: nat) returns (more: seq<Action>)
    requires LostBy(Run(actions), c)
    ensures NoDraw(more) && HasThrown(Run(actions + more), c)
  {
    hide Run, IdOf;
    var s := Run(actions);
    if HasThrown(s, c) {
      more := [];
      assert actions + more == actions;
    } else {
      more := [SendSucceeds(c), Get(c)];
      AlwaysConsistent(actions);
      RunMore(actions, SendSucceeds(c));
      RunMore(actions + [SendSucceeds(c)], Get(c));
      assert actions + more == actions + [SendSucceeds(c)] + [Get(c)];
    }
  }

  /** The second call finds its id taken or, if it is past that, ends and erases the entry of the first. */
  lemma {:induction false} StoredClashLoses(s: State, c: nat, d: nat) returns (a: Action, e: nat)
    requires Consistent(s) && AllStored(s) && Clashes(s, c, d) && Outstanding(s, c)
    ensures !a.Draw? && LostBy(Step(s, a), e)
  {
    SameIdClashes(s, c, d);
    hide IdOf, Clashes, HandOwned, PromisesSetOnce, AllRouted, ResultsTrue, DrawnPromisesOpen;
    match s.calls[d].phase
    case Drawn =>
      a, e := Register(d), d;
    case Registered =>
      a, e := SendFails(d), c;
    case Sent =>
      a, e := TimeOut(d), c;
  }

  /** A call that is still to be stored is stored, or finds its id taken. */
  lemma {:induction false} DrawnClashStored(s: State, c: nat, d: nat)
    requires Consistent(s) && Clashes(s, c, d) && s.calls[c].phase.Drawn?
    ensures var s' := Step(s, Register(c)); LostBy(s', c) || (Clashes(s', c, d) && Outstanding(s', c))
  {
    hide IdOf, PendingOwned, PromisesSetOnce, AllRouted, ResultsTrue;
  }

  lemma {:induction false} ClashLoses(actions: seq<Action>, c: nat, d: nat) returns (more: seq<Action>, e: nat)
    requires Clashes(Run(actions), c, d)
    ensures NoDraw(more) && LostBy(Run(actions + more), e)
  {
    hide Run, Step, Consistent, AllStored, LostBy, IdOf;
    var s := Run(actions);
    AlwaysConsistent(actions);
    AlwaysStored(actions);
    if s.calls[c].phase.Drawn? {
      DrawnClashStored(s, c, d);
      RunMore(actions, Register(c));
      var now := actions + [Register(c)];
      if LostBy(Run(now), c) {
        more, e := [Register(c)], c;
      } else {
        AlwaysConsistent(now);
        AlwaysStored(now);
        var a;
        a, e := StoredClashLoses(Run(now), c, d);
        RunMore(now, a);
        more := [Register(c), a];
        assert actions + more == now + [a];
      }
    } else {
      var a;
      a, e := StoredClashLoses(s, c, d);
      RunMore(actions, a);
      more := [a];
    }
  }

  /**
  Without another call drawing an id, some call can come to end with a broken promise exactly when one has lost
  its promise already, or two running calls drew a multiple of 2^32 apart and one of them has its promise in the
  map or is still to put it there.
  */
  lemma {:induction false} PromiseBreaksExactly(actions: seq<Action>)
    ensures (exists more :: NoDraw(more) && Throws(Run(actions + more)))
      <==> Lost(Run(actions)) || Clash(Run(actions))
  {
    hide Run, Clashes, LostBy, NoDraw, HasThrown;
    if c: nat :| LostBy(Run(actions), c) {
      var more := LostThrows(actions, c);
      assert Throws(Run(actions + more));
    } else if c: nat, d: nat :| Clashes(Run(actions), c, d) {
      var upset, e := ClashLoses(actions, c, d);
      var more := LostThrows(actions + upset, e);
      assert NoDraw(upset + more) by { NoDrawTogether(upset, more); }
      assert actions + (upset + more) == actions + upset + more;
      assert Throws(Run(actions + (upset + more)));
    } else {
      forall more | NoDraw(more)
        ensures !Throws(Run(actions + more))
      {
        SafeUntilDraw(actions, more);
        if c: nat :| HasThrown(Run(actions + more), c) {
          ThrownIsLost(Run(actions + more), c);
        }
      }
    }
  }

  /** From some point of the run on, a promise can break before another call draws. */
  ghost predicate AtRisk(actions: seq<Action>) {
    exists n, more :: 0 <= n <= |actions| && NoDraw(more) && Throws(Run(actions[..n] + more))
  }

  ghost predicate EverClashes(actions: seq<Action>) {
    exists n :: 0 <= n <= |actions| && Clash(Run(actions[..n]))
  }

  /** Over a whole run: no promise is ever at risk exactly when no clash ever arises. */
  lemma {:induction false} AtRiskExactly(actions: seq<Action>)
    ensures AtRisk(actions) <==> EverClashes(actions)
  {
    hide Run, Clash, Lost, NoDraw, Throws;
    if n :| 0 <= n <= |actions| && Clash(Run(actions[..n])) {
      PromiseBreaksExactly(actions[..n]);
    }
    if n, more :| 0 <= n <= |actions| && NoDraw(more) && Throws(Run(actions[..n] + more)) {
      PromiseBreaksExactly(actions[..n]);
      if Lost(Run(actions[..n])) {
        LossNeedsClash(actions[..n]);
        var k :| 0 <= k < n && Clash(Run(actions[..n][..k]));
        assert actions[..n][..k] == actions[..k];
      }
    }
  }

  lemma {:induction false} NoDrawTogether(front: seq<Action>, back: seq<Action>)
    requires NoDraw(front) && NoDraw(back)
    ensures NoDraw(front + back)
  {
  }

  lemma {:induction false} ThrownIsLost(s: State, c: nat)
    requires HasThrown(s, c)
    ensures LostBy(s, c)
  {
  }

  // ----- What holds while no call outlives the cycle of the counter

  /** Fewer than ID_RANGE ids were drawn since any unreturned call drew its own. */
  predicate Window(s: State) {
    forall c :: 0 <= c < |s.calls| && Unreturned(s.calls[c]) ==> s.drawn - s.calls[c].ordinal <= ID_RANGE
  }

  predicate InWindow(actions: seq<Action>) {
    forall n :: 0 <= n <= |actions| ==> Window(Run(actions[..n]))
  }

  predicate Ordered(s: State) {
    && (forall c, d :: 0 <= c < d < |s.calls| ==> s.calls[c].ordinal < s.calls[d].ordinal)
    && (forall c :: 0 <= c < |s.calls| ==> s.calls[c].ordinal < s.drawn)
  }

  lemma {:induction false} StepOrdered(s: State, a: Action)
    requires Ordered(s)
    ensures Ordered(Step(s, a))
  {
    if !a.Draw? {
      StepKeepsOrdinals(s, a);
      hide Step;
      assert forall c :: 0 <= c < |s.calls| ==> Step(s, a).calls[c].ordinal == s.calls[c].ordinal;
    }
  }

  lemma {:induction false} AlwaysOrdered(actions: seq<Action>)
    ensures Ordered(Run(actions))
  {
    if actions != [] {
      AlwaysOrdered(actions[..|actions| - 1]);
      StepOrdered(Run(actions[..|actions| - 1]), actions[|actions| - 1]);
    }
  }

  predicate IdsDistinct(s: State) {
    forall c, d :: 0 <= c < d < |s.calls| && Unreturned(s.calls[c]) && Unreturned(s.calls[d]) ==>
      Id(s.calls[c]) != Id(s.calls[d])
  }

  lemma {:induction false} WindowKeepsIdsDistinct(s: State)
    requires Ordered(s) && Window(s)
    ensures IdsDistinct(s)
  {
    forall c, d | 0 <= c < d < |s.calls| && Unreturned(s.calls[c]) && Unreturned(s.calls[d])
      ensures Id(s.calls[c]) != Id(s.calls[d])
    {
      SameIdExactly(s.calls[c].ordinal, s.calls[d].ordinal);
    }
  }

  lemma {:induction false} DistinctIsNoClash(s: State)
    requires IdsDistinct(s)
    ensures !Clash(s)
  {
    hide IdOf, Exposed, Unreturned;
    if c: nat, d: nat :| Clashes(s, c, d) {
      SameIdClashes(s, c, d);
    }
  }

  /** While fewer than ID_RANGE ids are drawn during any call, running calls differ in id and no promise breaks. */
  lemma {:induction false} NothingLostInWindow(actions: seq<Action>)
    requires InWindow(actions)
    ensures IdsDistinct(Run(actions)) && !Clash(Run(actions)) && !Lost(Run(actions))
  {
    hide Run, Ordered, Window, IdsDistinct, Clash, Lost;
    forall n | 0 <= n <= |actions|
      ensures IdsDistinct(Run(actions[..n])) && !Clash(Run(actions[..n]))
    {
      AlwaysOrdered(actions[..n]);
      WindowKeepsIdsDistinct(Run(actions[..n]));
      DistinctIsNoClash(Run(actions[..n]));
    }
    assert actions[..|actions|] == actions;
    if Lost(Run(actions)) {
      LossNeedsClash(actions);
    }
  }

  // ----- The window cannot be widened

  function DrawsElsewhere(n: nat): (r: seq<Action>)
    ensures |r| == n
  {
    if n == 0 then [] else DrawsElsewhere(n - 1) + [DrawElsewhere]
  }

  lemma {:induction false} DrawingElsewhereOnlyCounts(s: State, n: nat)
    ensures RunFrom(s, DrawsElsewhere(n)) == s.(drawn := s.drawn + n)
  {
    if n > 0 {
      assert DrawsElsewhere(n)[..n - 1] == DrawsElsewhere(n - 1);
      DrawingElsewhereOnlyCounts(s, n - 1);
    }
  }

  function LongWait(): seq<Action> {
    [Draw, Register(0), SendSucceeds(0)] + DrawsElsewhere(ID_RANGE - 1)
  }

  lemma {:induction false} FirstCall()
    ensures Run([Draw, Register(0), SendSucceeds(0)]) == State(1, [Call(0, Sent, Open)], map[1 := 0], None, [], [])
  {
    var s1 := Step(INITIAL, Draw);
    var s2 := Step(s1, Register(0));
    assert [Draw, Register(0)][..1] == [Draw];
    assert [Draw, Register(0), SendSucceeds(0)][..2] == [Draw, Register(0)];
    assert Run([Draw]) == s1;
    assert Run([Draw, Register(0)]) == s2;
  }

  lemma {:induction false} SecondCall(s: State)
    requires s == State(ID_RANGE, [Call(0, Sent, Open)], map[1 := 0], None, [], [])
    ensures RunFrom(s, [Draw, Register(1), SendSucceeds(1), Get(1)])
      == State(
        ID_RANGE + 1, [Call(0, Sent, Open), Call(ID_RANGE, Returned(Threw), Abandoned)], map[1 := 0], None, [], [])
  {
    var all := [Draw, Register(1), SendSucceeds(1), Get(1)];
    assert all[..3] == [Draw, Register(1), SendSucceeds(1)] && all[..3][..2] == [Draw, Register(1)];
    assert [Draw, Register(1)][..1] == [Draw];
    assert RunFrom(s, [Draw]) == Step(RunFrom(s, []), Draw);
    var s1 := Step(s, Draw);
    assert s1.calls == [Call(0, Sent, Open), Call(ID_RANGE, Drawn, Open)];
    var s2 := Step(s1, Register(1));
    assert s2.calls == [Call(0, Sent, Open), Call(ID_RANGE, Registered, Abandoned)];
    assert RunFrom(s, [Draw, Register(1)]) == s2;
    var s3 := Step(s2, SendSucceeds(1));
    assert RunFrom(s, all[..3]) == s3;
  }

  /** One draw more: the second call draws the id of the first, finds it taken, and its wait throws. */
  lemma {:induction false} OneDrawTooMany()
    ensures Window(Run(LongWait()))
    ensures var s := Run(LongWait() + [Draw, Register(1), SendSucceeds(1), Get(1)]);
      && |s.calls| == 2 && Id(s.calls[0]) == Id(s.calls[1])
      && s.calls[0].phase == Sent && s.calls[1].phase == Returned(Threw) && !Window(s)
  {
    hide DrawsElsewhere, Consistent, Run;
    var first := [Draw, Register(0), SendSucceeds(0)];
    var waiting := State(1, [Call(0, Sent, Open)], map[1 := 0], None, [], []);
    assert Run(first) == waiting by { FirstCall(); }
    RunSplits(first, DrawsElsewhere(ID_RANGE - 1));
    DrawingElsewhereOnlyCounts(waiting, ID_RANGE - 1);
    var full := waiting.(drawn := ID_RANGE);
    assert Run(LongWait()) == full;
    var second := [Draw, Register(1), SendSucceeds(1), Get(1)];
    RunSplits(LongWait(), second);
    SecondCall(full);
  }
}
