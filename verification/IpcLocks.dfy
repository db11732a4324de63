/**
The named semaphores of the shared-memory protocol, with an acquire and a release step for each guard:
counts, nesting order, and the absence of deadlock for any number of threads and clients.
*/
module IpcLocks {

  import opened Wrappers

  /**
  The semaphore of the server slot, that of its large-request area, and the same two for clients. The number of
  a client's semaphore is that of the object and not of the name: each call of SendIPC unlinks the name and
  creates a new pair of objects, while those who had opened the old ones keep them.
  */
  datatype Lock = Server | ServerData | Client(c: nat) | ClientData(c: nat)

  /**
  Where a thread stands. At an Await it is inside sem_wait; c numbers the semaphore of the client it deals with.
  A worker opens the data semaphore by its name later on, and so may get a newer object d.
  */
  datatype Pc =
    // CIPCServer::main
    | Sleeping | PollAwait | Polling
    // CIPCServer::worker
    | Dequeuing | ReadAwait(c: nat) | Reading(c: nat) | CallingBack(c: nat)
    | AnswerAwait(c: nat) | Answering(c: nat) | AnswerDataAwait(c: nat, d: nat) | AnsweringData(c: nat, d: nat)
    | AnswerLeaving(c: nat)
    // SendIPC
    | Trying(c: nat) | PostAwait(c: nat) | Posting(c: nat) | PostDataAwait(c: nat) | PostingData(c: nat)
    | PostLeaving(c: nat, sent: bool)
    | ReceiveTrying(c: nat) | ReceiveAwait(c: nat) | Receiving(c: nat) | ReceiveDataAwait(c: nat)
    | ReceivingData(c: nat) | ReceiveLeaving(c: nat, received: bool) | Finished

  /** What a thread decides on where the code branches: which objects it finds under the names of the client of
      a dequeued request, whether a large area is used, whether the branch goes on, and whether it succeeded. */
  datatype Choice = Choice(client: nat, data: nat, large: bool, goesOn: bool, succeeds: bool)

  /** A thread and its live SemaphoreGuard objects, outermost first. */
  datatype Thread = Thread(pc: Pc, guards: seq<Lock>)

  /** A semaphore without an entry still has the count 1 that it was created with. */
  datatype State = State(counts: map<Lock, nat>, threads: seq<Thread>)

  datatype Action = Action(thread: nat, choice: Choice)

  function Count(s: State, l: Lock): nat {
    if l in s.counts then s.counts[l] else 1
  }

  function Wants(pc: Pc): Option<Lock> {
    match pc
    case PollAwait => Some(Server)
    case ReadAwait(_) => Some(ServerData)
    case AnswerAwait(c) => Some(Client(c))
    case AnswerDataAwait(_, d) => Some(ClientData(d))
    case PostAwait(_) => Some(Server)
    case PostDataAwait(_) => Some(ServerData)
    case ReceiveAwait(c) => Some(Client(c))
    case ReceiveDataAwait(c) => Some(ClientData(c))
    case _ => None
  }

  function Entered(pc: Pc): Pc
    requires Wants(pc).Some?
  {
    match pc
    case PollAwait => Polling
    case ReadAwait(c) => Reading(c)
    case AnswerAwait(c) => Answering(c)
    case AnswerDataAwait(c, d) => AnsweringData(c, d)
    case PostAwait(c) => Posting(c)
    case PostDataAwait(c) => PostingData(c)
    case ReceiveAwait(c) => Receiving(c)
    case ReceiveDataAwait(c) => ReceivingData(c)
  }

  /** The places where a guard goes out of scope. */
  predicate Leaves(pc: Pc) {
    pc.Polling? || pc.Reading? || pc.AnsweringData? || pc.AnswerLeaving? || pc.PostingData? || pc.PostLeaving?
    || pc.ReceivingData? || pc.ReceiveLeaving?
  }

  function Left(pc: Pc, choice: Choice): Pc
    requires Leaves(pc)
  {
    match pc
    case Polling => Sleeping
    case Reading(c) => if choice.succeeds then CallingBack(c) else Dequeuing
    case AnsweringData(c, _) => AnswerLeaving(c)
    case AnswerLeaving(c) => Dequeuing
    case PostingData(c) => PostLeaving(c, choice.succeeds)
    case PostLeaving(c, sent) => if sent then ReceiveTrying(c) else Trying(c)
    case ReceivingData(c) => ReceiveLeaving(c, choice.succeeds)
    case ReceiveLeaving(c, received) => if received then Finished else ReceiveTrying(c)
  }

  /** Steps that touch no semaphore. */
  function Moved(pc: Pc, choice: Choice): Pc {
    match pc
    case Sleeping => PollAwait
    case Dequeuing => if choice.large then ReadAwait(choice.client) else CallingBack(choice.client)
    case CallingBack(_) => if choice.goesOn then AnswerAwait(choice.client) else Dequeuing
    case Answering(c) => if choice.large then AnswerDataAwait(c, choice.data) else AnswerLeaving(c)
    case Trying(c) => if choice.goesOn then PostAwait(c) else Finished
    case Posting(c) => if choice.large then PostDataAwait(c) else PostLeaving(c, choice.succeeds)
    case ReceiveTrying(c) => if choice.goesOn then ReceiveAwait(c) else Finished
    case Receiving(c) => if choice.large then ReceiveDataAwait(c) else ReceiveLeaving(c, choice.succeeds)
    case _ => pc
  }

  /** sem_wait takes one from a positive count and adds a guard; a guard that goes out of scope, always the
      innermost, gives one back. */
  function Step(s: State, a: Action): State {
    if a.thread >= |s.threads| then s else
      var Thread(pc, guards) := s.threads[a.thread];
      if Wants(pc).Some? then
        var l := Wants(pc).value;
        if Count(s, l) == 0 then s
        else State(s.counts[l := Count(s, l) - 1], s.threads[a.thread := Thread(Entered(pc), guards + [l])])
      else if Leaves(pc) && guards != [] then
        var l := guards[|guards| - 1];
        State(s.counts[l := Count(s, l) + 1], s.threads[a.thread := Thread(Left(pc, a.choice), guards[..|guards| - 1])])
      else s.(threads := s.threads[a.thread := Thread(Moved(pc, a.choice), guards)])
  }

  /** The threads at the start: a server with its workers, and calls of SendIPC. */
  predicate StartsAt(pc: Pc) {
    pc.Sleeping? || pc.Dequeuing? || pc.Trying?
  }

  function Initial(pcs: seq<Pc>): State {
    State(map[], seq(|pcs|, i requires 0 <= i < |pcs| => Thread(pcs[i], [])))
  }

  function Run(pcs: seq<Pc>, actions: seq<Action>): State {
    if actions == [] then Initial(pcs) else Step(Run(pcs, actions[..|actions| - 1]), actions[|actions| - 1])
  }

  // ----- Which guards are live where

  function GuardsAt(pc: Pc): seq<Lock> {
    match pc
    case Polling => [Server]
    case Reading(_) => [ServerData]
    case Answering(c) => [Client(c)]
    case AnswerDataAwait(c, _) => [Client(c)]
    case AnsweringData(c, d) => [Client(c), ClientData(d)]
    case AnswerLeaving(c) => [Client(c)]
    case Posting(_) => [Server]
    case PostDataAwait(_) => [Server]
    case PostingData(_) => [Server, ServerData]
    case PostLeaving(_, _) => [Server]
    case Receiving(c) => [Client(c)]
    case ReceiveDataAwait(c) => [Client(c)]
    case ReceivingData(c) => [Client(c), ClientData(c)]
    case ReceiveLeaving(c, _) => [Client(c)]
    case _ => []
  }

  predicate Placed(s: State) {
    forall i :: 0 <= i < |s.threads| ==> s.threads[i].guards == GuardsAt(s.threads[i].pc)
  }

  lemma {:induction false} StepPlaces(s: State, a: Action)
    requires Placed(s)
    ensures Placed(Step(s, a))
  {
    if a.thread < |s.threads| {
      GuardsFollow(s.threads[a.thread].pc, a.choice);
    }
    hide Wants, Entered, Leaves, Left, Moved, GuardsAt;
  }

  /** Entering adds the wanted guard, leaving drops the innermost one, and other moves keep the guards. */
  lemma {:induction false} GuardsFollow(pc: Pc, choice: Choice)
    ensures Wants(pc).Some? ==> GuardsAt(Entered(pc)) == GuardsAt(pc) + [Wants(pc).value]
    ensures Leaves(pc) ==> GuardsAt(pc) != [] && GuardsAt(Left(pc, choice)) == GuardsAt(pc)[..|GuardsAt(pc)| - 1]
    ensures Wants(pc).None? && !Leaves(pc) ==> GuardsAt(Moved(pc, choice)) == GuardsAt(pc)
  {
  }

  function Holders(s: State, l: Lock): set<nat> {
    set i | 0 <= i < |s.threads| && l in s.threads[i].guards
  }

  /** Every semaphore's count and its holders add up to one. */
  ghost predicate Balanced(s: State) {
    forall l :: Count(s, l) + |Holders(s, l)| == 1
  }

  lemma {:induction false} OtherHolders(s: State, s': State, i: nat, k: Lock)
    requires i < |s.threads| == |s'.threads| && s'.threads == s.threads[i := s'.threads[i]]
    ensures forall j: nat :: j != i ==> (j in Holders(s', k) <==> j in Holders(s, k))
    ensures (i in Holders(s, k) <==> k in s.threads[i].guards) && (i in Holders(s', k) <==> k in s'.threads[i].guards)
  {
  }

  /** How a change of one thread's guards changes the number of holders of a lock. */
  lemma {:induction false} HoldersAfter(s: State, s': State, i: nat, k: Lock)
    requires i < |s.threads| == |s'.threads| && s'.threads == s.threads[i := s'.threads[i]]
    ensures var before, after := k in s.threads[i].guards, k in s'.threads[i].guards;
      |Holders(s', k)| == |Holders(s, k)| + (if after then 1 else 0) - (if before then 1 else 0)
  {
    var before, after := k in s.threads[i].guards, k in s'.threads[i].guards;
    OtherHolders(s, s', i, k);
    hide Holders;
    if before == after {
      assert Holders(s', k) == Holders(s, k);
    } else if after {
      assert Holders(s', k) == Holders(s, k) + {i};
    } else {
      assert Holders(s, k) == Holders(s', k) + {i};
    }
  }

  /** One thread's guards change by one lock, and the count of that lock against it. */
  lemma {:induction false} LockMoves(s: State, s': State, i: nat, l: Lock, acquired: bool)
    requires Balanced(s) && i < |s.threads| == |s'.threads| && s'.threads == s.threads[i := s'.threads[i]]
    requires (l in s.threads[i].guards) == !acquired && (l in s'.threads[i].guards) == acquired
    requires forall k :: k != l ==> (k in s'.threads[i].guards <==> k in s.threads[i].guards)
    requires Count(s', l) == Count(s, l) + (if acquired then -1 else 1)
    requires forall k :: k != l ==> Count(s', k) == Count(s, k)
    ensures Balanced(s')
  {
    forall k
      ensures Count(s', k) + |Holders(s', k)| == 1
    {
      assert Count(s, k) + |Holders(s, k)| == 1;
      HoldersAfter(s, s', i, k);
      hide Holders, Count;
    }
  }

  lemma {:induction false} GuardAdded(s: State, s': State, i: nat, l: Lock)
    requires Balanced(s) && i < |s.threads| == |s'.threads| && s'.threads == s.threads[i := s'.threads[i]]
    requires Count(s, l) > 0 && s'.counts == s.counts[l := Count(s, l) - 1]
    requires l !in s.threads[i].guards && s'.threads[i].guards == s.threads[i].guards + [l]
    ensures Balanced(s')
  {
    hide Balanced;
    LockMoves(s, s', i, l, true);
  }

  lemma {:induction false} GuardDropped(s: State, s': State, i: nat)
    requires Balanced(s) && i < |s.threads| == |s'.threads| && s'.threads == s.threads[i := s'.threads[i]]
    requires var g := s.threads[i].guards;
      && g != [] && g[|g| - 1] !in g[..|g| - 1] && s'.threads[i].guards == g[..|g| - 1]
      && s'.counts == s.counts[g[|g| - 1] := Count(s, g[|g| - 1]) + 1]
    ensures Balanced(s')
  {
    hide Balanced;
    var g := s.threads[i].guards;
    assert g == g[..|g| - 1] + [g[|g| - 1]];
    LockMoves(s, s', i, g[|g| - 1], false);
  }

  /** Nobody waits for what it holds, and guards on one lock are not nested. */
  lemma {:induction false} GuardsAreDistinct(pc: Pc)
    ensures Wants(pc).Some? ==> Wants(pc).value !in GuardsAt(pc)
    ensures Leaves(pc) ==> var g := GuardsAt(pc); g != [] && g[|g| - 1] !in g[..|g| - 1]
  {
  }

  lemma {:induction false} StepBalances(s: State, a: Action)
    requires Placed(s) && Balanced(s)
    ensures Balanced(Step(s, a))
  {
    hide Wants, Entered, Leaves, Left, Moved, GuardsAt, Balanced, Count;
    if a.thread < |s.threads| {
      var s', i := Step(s, a), a.thread;
      var Thread(pc, guards) := s.threads[i];
      GuardsAreDistinct(pc);
      if Wants(pc).Some? {
        var l := Wants(pc).value;
        if Count(s, l) > 0 {
          GuardAdded(s, s', i, l);
        }
      } else if Leaves(pc) {
        GuardDropped(s, s', i);
      } else {
        SameGuards(s, s');
      }
    }
  }

  lemma {:induction false} SameGuards(s: State, s': State)
    requires Balanced(s) && s'.counts == s.counts && |s'.threads| == |s.threads|
    requires forall i :: 0 <= i < |s.threads| ==> s'.threads[i].guards == s.threads[i].guards
    ensures Balanced(s')
  {
    forall l
      ensures Count(s', l) + |Holders(s', l)| == 1
    {
      assert Count(s, l) + |Holders(s, l)| == 1;
      assert Holders(s', l) == Holders(s, l);
    }
  }

  ghost predicate Sound(s: State) {
    Placed(s) && Balanced(s)
  }

  /** In every run each semaphore's count plus its holders is 1, and the live guards are those of the
      place where the thread stands. */
  lemma {:induction false} AlwaysSound(pcs: seq<Pc>, actions: seq<Action>)
    requires forall i :: 0 <= i < |pcs| ==> StartsAt(pcs[i])
    ensures Sound(Run(pcs, actions))
    decreases |actions|
  {
    if actions == [] {
      var s := Initial(pcs);
      forall l
        ensures Count(s, l) + |Holders(s, l)| == 1
      {
        assert Holders(s, l) == {};
      }
    } else {
      AlwaysSound(pcs, actions[..|actions| - 1]);
      StepPlaces(Run(pcs, actions[..|actions| - 1]), actions[|actions| - 1]);
      StepBalances(Run(pcs, actions[..|actions| - 1]), actions[|actions| - 1]);
    }
  }

  // ----- Order, and no deadlock

  function Rank(l: Lock): nat {
    match l
    case Server => 0
    case ServerData => 1
    case Client(_) => 2
    case ClientData(_) => 3
  }

  /** In every run a thread inside sem_wait holds nothing, or the server semaphore while it waits for the
      server's data semaphore, or a client's while it waits for a client's data semaphore. */
  lemma {:induction false} NestingOrder(pcs: seq<Pc>, actions: seq<Action>, i: nat)
    requires forall k :: 0 <= k < |pcs| ==> StartsAt(pcs[k])
    requires var s := Run(pcs, actions); i < |s.threads| && Wants(s.threads[i].pc).Some?
    ensures var t := Run(pcs, actions).threads[i]; var l := Wants(t.pc).value;
      || t.guards == []
      || (l == ServerData && t.guards == [Server])
      || (l.ClientData? && |t.guards| == 1 && t.guards[0].Client?)
    ensures var t := Run(pcs, actions).threads[i];
      t.pc.ReceiveDataAwait? ==> t.guards == [Client(t.pc.c)] && Wants(t.pc) == Some(ClientData(t.pc.c))
  {
    AlwaysSound(pcs, actions);
  }

  /** In every run the callback runs without any semaphore. */
  lemma {:induction false} CallbackHoldsNothing(pcs: seq<Pc>, actions: seq<Action>, i: nat)
    requires forall k :: 0 <= k < |pcs| ==> StartsAt(pcs[k])
    requires var s := Run(pcs, actions); i < |s.threads| && s.threads[i].pc.CallingBack?
    ensures Run(pcs, actions).threads[i].guards == []
  {
    AlwaysSound(pcs, actions);
  }

  /** Thread i is blocked on a semaphore that thread j holds. */
  predicate WaitsFor(s: State, i: nat, j: nat) {
    && i < |s.threads| && j < |s.threads|
    && Wants(s.threads[i].pc).Some? && Count(s, Wants(s.threads[i].pc).value) == 0
    && Wants(s.threads[i].pc).value in s.threads[j].guards
  }

  lemma {:induction false} WaitingClimbs(s: State, i: nat, j: nat)
    requires Placed(s) && WaitsFor(s, i, j) && Wants(s.threads[j].pc).Some?
    ensures Rank(Wants(s.threads[j].pc).value) > Rank(Wants(s.threads[i].pc).value)
  {
  }

  ghost predicate IsChain(s: State, chain: seq<nat>) {
    chain != [] && forall k :: 0 < k < |chain| ==> WaitsFor(s, chain[k - 1], chain[k])
  }

  lemma {:induction false} ChainClimbs(s: State, chain: seq<nat>)
    requires Placed(s) && IsChain(s, chain)
    requires forall k :: 0 <= k < |chain| ==> chain[k] < |s.threads| && Wants(s.threads[chain[k]].pc).Some?
    ensures Rank(Wants(s.threads[chain[|chain| - 1]].pc).value)
      >= Rank(Wants(s.threads[chain[0]].pc).value) + |chain| - 1
    decreases |chain|
  {
    if |chain| > 1 {
      var front := chain[..|chain| - 1];
      ChainClimbs(s, front);
      assert WaitsFor(s, chain[|chain| - 2], chain[|chain| - 1]);
      WaitingClimbs(s, chain[|chain| - 2], chain[|chain| - 1]);
    }
  }

  /** In no run do threads wait for each other in a circle. */
  lemma {:induction false} NoDeadlock(pcs: seq<Pc>, actions: seq<Action>, circle: seq<nat>)
    requires forall k :: 0 <= k < |pcs| ==> StartsAt(pcs[k])
    ensures var s := Run(pcs, actions); !(IsChain(s, circle) && WaitsFor(s, circle[|circle| - 1], circle[0]))
  {
    var s := Run(pcs, actions);
    AlwaysSound(pcs, actions);
    if IsChain(s, circle) && WaitsFor(s, circle[|circle| - 1], circle[0]) {
      forall k | 0 <= k < |circle|
        ensures circle[k] < |s.threads| && Wants(s.threads[circle[k]].pc).Some?
      {
        assert k + 1 < |circle| ==> WaitsFor(s, circle[k + 1 - 1], circle[k + 1]);
      }
      ChainClimbs(s, circle);
      WaitingClimbs(s, circle[|circle| - 1], circle[0]);
    }
  }

  predicate CanMove(s: State, i: nat) {
    && i < |s.threads| && !s.threads[i].pc.Finished?
    && (Wants(s.threads[i].pc).Some? ==> Count(s, Wants(s.threads[i].pc).value) > 0)
  }

  lemma {:induction false} ZeroCountHasHolder(s: State, l: Lock)
    requires Balanced(s) && Count(s, l) == 0
    ensures exists j :: 0 <= j < |s.threads| && l in s.threads[j].guards
  {
    assert |Holders(s, l)| == 1;
    var j :| j in Holders(s, l);
  }

  lemma {:induction false} HolderIsNotFinished(s: State, j: nat, l: Lock)
    requires Placed(s) && j < |s.threads| && l in s.threads[j].guards
    ensures !s.threads[j].pc.Finished?
  {
  }

  /** Whoever waits is at the start of a chain that ends, at most four links on, with a thread that can move. */
  lemma {:induction false} ChainToMover(s: State, i: nat) returns (chain: seq<nat>)
    requires Sound(s) && i < |s.threads| && !s.threads[i].pc.Finished?
    ensures IsChain(s, chain) && chain[0] == i && CanMove(s, chain[|chain| - 1]) && |chain| <= 5
    ensures |chain| <= if Wants(s.threads[i].pc).Some? then 5 - Rank(Wants(s.threads[i].pc).value) else 1
    decreases if Wants(s.threads[i].pc).Some? then 4 - Rank(Wants(s.threads[i].pc).value) else 0
  {
    hide Wants, GuardsAt, Balanced, Holders;
    if CanMove(s, i) {
      return [i];
    }
    var l := Wants(s.threads[i].pc).value;
    ZeroCountHasHolder(s, l);
    var j: nat :| j < |s.threads| && l in s.threads[j].guards;
    HolderIsNotFinished(s, j, l);
    assert WaitsFor(s, i, j);
    if Wants(s.threads[j].pc).Some? {
      WaitingClimbs(s, i, j);
    }
    hide WaitsFor, CanMove, Placed;
    var rest := ChainToMover(s, j);
    chain := [i] + rest;
  }

  /** In every run, as long as a thread is not finished, some thread can move: a step of it changes the state. */
  lemma {:induction false} Progress(pcs: seq<Pc>, actions: seq<Action>, i: nat)
    requires forall k :: 0 <= k < |pcs| ==> StartsAt(pcs[k])
    requires var s := Run(pcs, actions); i < |s.threads| && !s.threads[i].pc.Finished?
    ensures var s := Run(pcs, actions);
      exists j :: CanMove(s, j) && forall choice :: Step(s, Action(j, choice)) != s
  {
    var s := Run(pcs, actions);
    AlwaysSound(pcs, actions);
    var chain := ChainToMover(s, i);
    var j := chain[|chain| - 1];
    forall choice
      ensures Step(s, Action(j, choice)) != s
    {
      MoverMoves(s, j, choice);
    }
  }

  lemma {:induction false} MoverMoves(s: State, j: nat, choice: Choice)
    requires Placed(s) && CanMove(s, j)
    ensures Step(s, Action(j, choice)).threads[j].pc != s.threads[j].pc
  {
  }

  // ----- Mutual exclusion

  predicate AtServerSlot(pc: Pc) {
    pc.Polling? || pc.Posting? || pc.PostDataAwait? || pc.PostingData? || pc.PostLeaving?
  }

  predicate AtServerData(pc: Pc) {
    pc.Reading? || pc.PostingData?
  }

  predicate AtClientSlot(pc: Pc, c: nat) {
    match pc
    case Answering(k) => k == c
    case AnswerDataAwait(k, _) => k == c
    case AnsweringData(k, _) => k == c
    case AnswerLeaving(k) => k == c
    case Receiving(k) => k == c
    case ReceiveDataAwait(k) => k == c
    case ReceivingData(k) => k == c
    case ReceiveLeaving(k, _) => k == c
    case _ => false
  }

  predicate AtClientData(pc: Pc, d: nat) {
    (pc.AnsweringData? && pc.d == d) || (pc.ReceivingData? && pc.c == d)
  }

  lemma {:induction false} PlacesHold(pc: Pc, c: nat)
    ensures AtServerSlot(pc) ==> Server in GuardsAt(pc)
    ensures AtServerData(pc) ==> ServerData in GuardsAt(pc)
    ensures AtClientSlot(pc, c) ==> Client(c) in GuardsAt(pc)
    ensures AtClientData(pc, c) ==> ClientData(c) in GuardsAt(pc)
  {
  }

  lemma {:induction false} OneHolder(s: State, i: nat, j: nat, l: Lock)
    requires Balanced(s) && i < |s.threads| && j < |s.threads| && i != j
    requires l in s.threads[i].guards
    ensures l !in s.threads[j].guards
  {
    var holders := Holders(s, l);
    assert Count(s, l) + |holders| == 1;
    assert i in holders && |holders - {i}| == 0;
    assert j in holders <==> j in holders - {i};
  }

  /**
  In every run no two threads are in the slot of the server at once, nor in its data area, nor in the slot or
  the data area of one client.
  */
  lemma {:induction false} MutualExclusion(pcs: seq<Pc>, actions: seq<Action>, i: nat, j: nat, c: nat)
    requires forall k :: 0 <= k < |pcs| ==> StartsAt(pcs[k])
    requires i < |Run(pcs, actions).threads| && j < |Run(pcs, actions).threads| && i != j
    ensures var a, b := Run(pcs, actions).threads[i].pc, Run(pcs, actions).threads[j].pc;
      && !(AtServerSlot(a) && AtServerSlot(b)) && !(AtServerData(a) && AtServerData(b))
      && !(AtClientSlot(a, c) && AtClientSlot(b, c)) && !(AtClientData(a, c) && AtClientData(b, c))
  {
    hide Run, GuardsAt, Balanced, AtServerSlot, AtServerData, AtClientSlot, AtClientData;
    AlwaysSound(pcs, actions);
    var s := Run(pcs, actions);
    PlacesHold(s.threads[i].pc, c);
    PlacesHold(s.threads[j].pc, c);
    forall l | l in s.threads[i].guards
      ensures l !in s.threads[j].guards
    {
      OneHolder(s, i, j, l);
    }
  }

  // ----- The paths of the threads

  predicate Acts(s: State, a: Action, i: nat) {
    a.thread == i && i < |s.threads|
  }

  /** The last action put the request into the slot. */
  predicate Sends(s: State, a: Action, i: nat) {
    && Acts(s, a, i) && a.choice.succeeds
    && ((s.threads[i].pc.Posting? && !a.choice.large) || s.threads[i].pc.PostingData?)
  }

  /** The last action took the answer. */
  predicate Takes(s: State, a: Action, i: nat) {
    && Acts(s, a, i) && a.choice.succeeds
    && ((s.threads[i].pc.Receiving? && !a.choice.large) || s.threads[i].pc.ReceivingData?)
  }

  /** The last action found the budget used up. */
  predicate GivesUp(s: State, a: Action, i: nat) {
    Acts(s, a, i) && !a.choice.goesOn && (s.threads[i].pc.Trying? || s.threads[i].pc.ReceiveTrying?)
  }

  /** The past of a call of SendIPC. */
  datatype Past = Past(sent: bool, received: bool, gaveUp: bool)

  function PastOf(pcs: seq<Pc>, actions: seq<Action>, i: nat): Past {
    if actions == [] then Past(false, false, false)
    else
      var before, a := actions[..|actions| - 1], actions[|actions| - 1];
      var s, past := Run(pcs, before), PastOf(pcs, before, i);
      Past(past.sent || Sends(s, a, i), past.received || Takes(s, a, i), past.gaveUp || GivesUp(s, a, i))
  }

  /** Where a call of SendIPC with these semaphores is, after this past. */
  predicate SendsAt(pc: Pc, c: nat, past: Past) {
    match pc
    case Trying(k) => k == c && past == Past(false, false, false)
    case PostAwait(k) => k == c && past == Past(false, false, false)
    case Posting(k) => k == c && past == Past(false, false, false)
    case PostDataAwait(k) => k == c && past == Past(false, false, false)
    case PostingData(k) => k == c && past == Past(false, false, false)
    case PostLeaving(k, sent) => k == c && past == Past(sent, false, false)
    case ReceiveTrying(k) => k == c && past == Past(true, false, false)
    case ReceiveAwait(k) => k == c && past == Past(true, false, false)
    case Receiving(k) => k == c && past == Past(true, false, false)
    case ReceiveDataAwait(k) => k == c && past == Past(true, false, false)
    case ReceivingData(k) => k == c && past == Past(true, false, false)
    case ReceiveLeaving(k, received) => k == c && past == Past(true, received, false)
    case Finished => past == Past(true, true, false) || (past.gaveUp && !past.received)
    case _ => false
  }

  function PastAfter(pc: Pc, choice: Choice, past: Past): Past {
    match pc
    case Posting(_) => past.(sent := past.sent || (!choice.large && choice.succeeds))
    case PostingData(_) => past.(sent := past.sent || choice.succeeds)
    case Receiving(_) => past.(received := past.received || (!choice.large && choice.succeeds))
    case ReceivingData(_) => past.(received := past.received || choice.succeeds)
    case Trying(_) => past.(gaveUp := past.gaveUp || !choice.goesOn)
    case ReceiveTrying(_) => past.(gaveUp := past.gaveUp || !choice.goesOn)
    case _ => past
  }

  lemma {:induction false} PastOfStep(s: State, a: Action, i: nat, past: Past)
    requires i < |s.threads|
    ensures Past(past.sent || Sends(s, a, i), past.received || Takes(s, a, i), past.gaveUp || GivesUp(s, a, i))
      == if a.thread == i then PastAfter(s.threads[i].pc, a.choice, past) else past
  {
  }

  lemma {:induction false} EnteringSends(pc: Pc, choice: Choice, c: nat, past: Past)
    requires SendsAt(pc, c, past) && Wants(pc).Some?
    ensures SendsAt(Entered(pc), c, PastAfter(pc, choice, past))
  {
  }

  lemma {:induction false} LeavingSends(pc: Pc, choice: Choice, c: nat, past: Past)
    requires SendsAt(pc, c, past) && Leaves(pc)
    ensures SendsAt(Left(pc, choice), c, PastAfter(pc, choice, past))
  {
  }

  lemma {:induction false} MovingSends(pc: Pc, choice: Choice, c: nat, past: Past)
    requires SendsAt(pc, c, past) && Wants(pc).None? && !Leaves(pc)
    ensures SendsAt(Moved(pc, choice), c, PastAfter(pc, choice, past))
  {
  }

  lemma {:induction false} WaitingIsPastNothing(pc: Pc, choice: Choice, past: Past)
    requires Wants(pc).Some?
    ensures PastAfter(pc, choice, past) == past
  {
  }

  lemma {:induction false} StepSends(s: State, a: Action, i: nat, c: nat, past: Past)
    requires Placed(s) && i < |s.threads| && SendsAt(s.threads[i].pc, c, past)
    ensures var s' := Step(s, a);
      && |s'.threads| == |s.threads|
      && SendsAt(s'.threads[i].pc, c, Past(past.sent || Sends(s, a, i), past.received || Takes(s, a, i),
                                           past.gaveUp || GivesUp(s, a, i)))
  {
    hide Wants, Entered, Leaves, Left, Moved, SendsAt, GuardsAt, PastAfter, Sends, Takes, GivesUp;
    PastOfStep(s, a, i, past);
    var pc, choice := s.threads[i].pc, a.choice;
    if a.thread == i {
      GuardsFollow(pc, choice);
      if Wants(pc).Some? {
        EnteringSends(pc, choice, c, past);
        WaitingIsPastNothing(pc, choice, past);
      } else if Leaves(pc) {
        LeavingSends(pc, choice, c, past);
      } else {
        MovingSends(pc, choice, c, past);
      }
    }
  }

  /**
  In every run a call of SendIPC keeps to its own semaphores, goes on to receive exactly after a success in the
  slot of the server, and ends with an answer or with its budget used up.
  */
  lemma {:induction false} SendPath(pcs: seq<Pc>, actions: seq<Action>, i: nat, c: nat)
    requires forall k :: 0 <= k < |pcs| ==> StartsAt(pcs[k])
    requires i < |pcs| && pcs[i] == Trying(c)
    ensures var s := Run(pcs, actions); i < |s.threads| && SendsAt(s.threads[i].pc, c, PastOf(pcs, actions, i))
    decreases |actions|
  {
    hide Step, Sends, Takes, GivesUp;
    if actions != [] {
      hide SendsAt;
      var before, a := actions[..|actions| - 1], actions[|actions| - 1];
      SendPath(pcs, before, i, c);
      AlwaysSound(pcs, before);
      StepSends(Run(pcs, before), a, i, c, PastOf(pcs, before, i));
    }
  }

  /** What a worker has done: requests dequeued, reads of a large one that failed, callbacks and answers begun,
      and answers ended. */
  datatype Work = Work(dequeued: nat, unread: nat, called: nat, answering: nat, answered: nat)

  function Count1(b: bool): nat {
    if b then 1 else 0
  }

  function WorkOf(pcs: seq<Pc>, actions: seq<Action>, i: nat): Work {
    if actions == [] then Work(0, 0, 0, 0, 0)
    else
      var before, a := actions[..|actions| - 1], actions[|actions| - 1];
      WorkAfter(Run(pcs, before), a, i, WorkOf(pcs, before, i))
  }

  function WorkAfter(s: State, a: Action, i: nat, work: Work): Work {
    if !Acts(s, a, i) then work
    else
      match s.threads[i].pc
      case Dequeuing => work.(dequeued := work.dequeued + 1)
      case Reading(_) => if a.choice.succeeds then work else work.(unread := work.unread + 1)
      case CallingBack(_) =>
        work.(called := work.called + 1, answering := work.answering + Count1(a.choice.goesOn))
      case AnswerLeaving(_) => work.(answered := work.answered + 1)
      case _ => work
  }

  /** Every dequeued request is called back once, unless it is large and could not be read. */
  predicate WorksAt(pc: Pc, work: Work) {
    && (pc.Dequeuing? || pc.ReadAwait? || pc.Reading? || pc.CallingBack? || pc.AnswerAwait? || pc.Answering?
        || pc.AnswerDataAwait? || pc.AnsweringData? || pc.AnswerLeaving?)
    && work.dequeued == work.called + work.unread + Count1(pc.ReadAwait? || pc.Reading? || pc.CallingBack?)
    && work.answering == work.answered
      + Count1(pc.AnswerAwait? || pc.Answering? || pc.AnswerDataAwait? || pc.AnsweringData? || pc.AnswerLeaving?)
  }

  lemma {:induction false} StepWorks(s: State, a: Action, i: nat, work: Work)
    requires Placed(s) && i < |s.threads| && WorksAt(s.threads[i].pc, work)
    ensures var s' := Step(s, a);
      |s'.threads| == |s.threads| && WorksAt(s'.threads[i].pc, WorkAfter(s, a, i, work))
  {
    if a.thread == i {
      GuardsFollow(s.threads[i].pc, a.choice);
      hide GuardsAt;
    } else {
      hide Wants, Entered, Leaves, Left, Moved, WorksAt;
    }
  }

  /** In every run the requests that a worker dequeued are those it called back, those it could not read, and the
      one it is about to call back; and every answer that was begun has ended or is under way. */
  lemma {:induction false} WorkerPath(pcs: seq<Pc>, actions: seq<Action>, i: nat)
    requires forall k :: 0 <= k < |pcs| ==> StartsAt(pcs[k])
    requires i < |pcs| && pcs[i].Dequeuing?
    ensures var s := Run(pcs, actions); i < |s.threads| && WorksAt(s.threads[i].pc, WorkOf(pcs, actions, i))
    decreases |actions|
  {
    hide Step, WorkAfter;
    if actions != [] {
      hide WorksAt;
      var before, a := actions[..|actions| - 1], actions[|actions| - 1];
      WorkerPath(pcs, before, i);
      AlwaysSound(pcs, before);
      StepWorks(Run(pcs, before), a, i, WorkOf(pcs, before, i));
    }
  }

  predicate Polls(pc: Pc) {
    pc.Sleeping? || pc.PollAwait? || pc.Polling?
  }

  /** The polling thread polls for ever. */
  lemma {:induction false} PollerPath(pcs: seq<Pc>, actions: seq<Action>, i: nat)
    requires i < |pcs| && pcs[i].Sleeping?
    ensures var s := Run(pcs, actions); i < |s.threads| && Polls(s.threads[i].pc)
    decreases |actions|
  {
    hide Step;
    if actions != [] {
      hide Polls;
      PollerPath(pcs, actions[..|actions| - 1], i);
      StepPolls(Run(pcs, actions[..|actions| - 1]), actions[|actions| - 1], i);
    }
  }

  lemma {:induction false} StepPolls(s: State, a: Action, i: nat)
    requires i < |s.threads| && Polls(s.threads[i].pc)
    ensures i < |Step(s, a).threads| && Polls(Step(s, a).threads[i].pc)
  {
  }

  /** The data semaphore is waited for exactly for a large request or answer, and it is that of the data used. */
  lemma {:induction false} LargeWaitsForData(s: State, i: nat, choice: Choice)
    requires i < |s.threads|
    ensures var pc, s' := s.threads[i].pc, Step(s, Action(i, choice));
      && |s'.threads| == |s.threads|
      && var wants := Wants(s'.threads[i].pc);
        && (pc.Dequeuing? ==> wants == if choice.large then Some(ServerData) else None)
        && (pc.CallingBack? && choice.goesOn ==> wants == Some(Client(choice.client)))
        && (pc.Answering? ==> wants == if choice.large then Some(ClientData(choice.data)) else None)
        && (pc.Trying? && choice.goesOn ==> wants == Some(Server))
        && (pc.Posting? ==> wants == if choice.large then Some(ServerData) else None)
        && (pc.ReceiveTrying? && choice.goesOn ==> wants == Some(Client(pc.c)))
        && (pc.Receiving? ==> wants == if choice.large then Some(ClientData(pc.c)) else None)
        && (pc.Sleeping? ==> wants == Some(Server))
  {
  }
}
