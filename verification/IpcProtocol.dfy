/**
The request and response protocol over shared memory, as a transition system: any number of calls of
SendIPC, one polling thread, any number of workers. Every critical section is one step. A run is a list
of actions in the order in which they happen; an action that is not possible changes nothing, so the
lists of actions cover all interleavings.
*/
module IpcProtocol {
  import opened IpcData

  /** How a call names its channel: with a counter of its process (EXIPC.cpp) or by the process alone
      (EXIPC_unix.cpp). */
  datatype Naming = PerCall | PerProcess

  datatype Config = Config(
    naming: Naming, server: string, app: string, serverPid: nat, callback: Bytes -> InlineOutcome)

  datatype Phase = Posting | Waiting | TimedOut | Succeeded(response: Bytes, tag: nat)

  /** One call of SendIPC. The ordinal counts the calls of the process; polls counts failed attempts. Both
      loops share one budget in EXIPC.cpp, and the second starts anew in EXIPC_unix.cpp. */
  datatype Call = Call(pid: nat, ordinal: nat, payload: Bytes, budget: int, polls: nat, phase: Phase)

  datatype Worker = Idle | Loaded(item: Data) | Called(item: Data, outcome: InlineOutcome) | Exited

  datatype Callback = Callback(tag: nat, bytes: Bytes)

  /** posted, dropped, taken and called record the past: the call behind each request in posting order,
      the requests dropped for a dead sender, what the workers dequeued, what the callback was given. */
  datatype State = State(
    server: Data, queue: seq<Data>, stopped: bool, workers: seq<Worker>,
    calls: seq<Call>, drawn: map<nat, nat>, slots: map<string, Data>,
    posted: seq<nat>, dropped: set<nat>, taken: seq<Data>, called: seq<Callback>)

  datatype Action =
    | Start(pid: nat, payload: Bytes, budget: int)
    | TryPost(c: nat, isOpen: bool)
    | PollServer(senderAlive: bool)
    | Take(w: nat)
    | CallBack(w: nat, sawStop: bool)
    | Answer(w: nat, isOpen: bool)
    | TryReceive(c: nat, isOpen: bool)
    | Stop

  // ----- Channel names

  function Digit(d: nat): char
    requires d < 10
  {
    '0' + d as char
  }

  function Decimal(n: nat): string {
    if n < 10 then [Digit(n)] else Decimal(n / 10) + [Digit(n % 10)]
  }

  const COUNTER_RANGE: nat := 0x1_0000_0000

  function ClientName(cfg: Config, pid: nat, counter: nat): string {
    match cfg.naming
    case PerCall => cfg.server + Decimal(pid) + "Client" + Decimal(counter)
    case PerProcess => "/iMonSHM" + Decimal(pid) + cfg.app
  }

  /** The counter is a 32-bit number, incremented before use. */
  function Name(cfg: Config, call: Call): string {
    ClientName(cfg, call.pid, call.ordinal % COUNTER_RANGE)
  }

  // ----- Steps

  function Initial(workers: nat): State {
    State(Blank().(isInit := true), [], false, seq(workers, _ => Idle), [], map[], map[], [], {}, [], [])
  }

  function Drawn(s: State, pid: nat): nat {
    if pid in s.drawn then s.drawn[pid] else 0
  }

  function StartStep(cfg: Config, s: State, pid: nat, payload: Bytes, budget: int): State {
    if |payload| > INLINE_BYTES then s else
      var call := Call(pid, Drawn(s, pid) + 1, payload, budget, 0, Posting);
      var name := Name(cfg, call);
      s.(drawn := s.drawn[pid := call.ordinal], calls := s.calls + [call],
         slots := if name in s.slots then s.slots else s.slots[name := Blank()])
  }

  /** The end of a call closes its channel. */
  function Finished(cfg: Config, s: State, c: nat, phase: Phase): State
    requires c < |s.calls|
  {
    s.(calls := s.calls[c := s.calls[c].(phase := phase)], slots := s.slots - {Name(cfg, s.calls[c])})
  }

  function Retried(s: State, c: nat): State
    requires c < |s.calls|
  {
    s.(calls := s.calls[c := s.calls[c].(polls := s.calls[c].polls + 1)])
  }

  function TryPostStep(cfg: Config, s: State, c: nat, isOpen: bool): State {
    if c >= |s.calls| || !s.calls[c].phase.Posting? then s else
      var call := s.calls[c];
      if call.polls >= call.budget then Finished(cfg, s, c, TimedOut)
      else if !isOpen || !CanPost(s.server) || |call.payload| > INLINE_BYTES then Retried(s, c)
      else s.(server := Posted(s.server, Name(cfg, call), call.pid, call.payload, |s.posted|),
              posted := s.posted + [c],
              calls := s.calls[c := call.(phase := Waiting, polls := if cfg.naming.PerProcess? then 0 else call.polls)])
  }

  /** The test of the polling loop may have come before a stop, so that a poll does not depend on it. */
  function PollStep(s: State, senderAlive: bool): State {
    if !s.server.hasRequest then s
    else if !senderAlive then s.(server := Cleared(s.server), dropped := s.dropped + {s.server.tag})
    else s.(server := Cleared(s.server), queue := s.queue + [s.server])
  }

  function TakeStep(s: State, w: nat): State {
    if w >= |s.workers| || !s.workers[w].Idle? then s
    else if s.stopped then s.(workers := s.workers[w := Exited])
    else if s.queue == [] then s
    else s.(queue := s.queue[1..], taken := s.taken + [s.queue[0]], workers := s.workers[w := Loaded(s.queue[0])])
  }

  function CallBackStep(cfg: Config, s: State, w: nat, sawStop: bool): State {
    if w >= |s.workers| || !s.workers[w].Loaded? then s else
      var item := s.workers[w].item;
      if s.stopped && sawStop then s.(workers := s.workers[w := Exited])
      else if !item.hasRequest || item.requestSize > INLINE_BYTES then s.(workers := s.workers[w := Idle])
      else s.(called := s.called + [Callback(item.tag, Request(item))],
              workers := s.workers[w := Called(item, cfg.callback(Request(item)))])
  }

  function AnswerStep(cfg: Config, s: State, w: nat, isOpen: bool): State {
    if w >= |s.workers| || !s.workers[w].Called? then s else
      var Called(item, outcome) := s.workers[w];
      var done := s.(workers := s.workers[w := Idle]);
      if !Answers(item, outcome) || !isOpen || item.sender !in s.slots then done
      else done.(slots := s.slots[item.sender :=
                   Answered(s.slots[item.sender], cfg.server, cfg.serverPid, outcome, item.tag)])
  }

  function TryReceiveStep(cfg: Config, s: State, c: nat, isOpen: bool): State {
    if c >= |s.calls| || !s.calls[c].phase.Waiting? then s else
      var call := s.calls[c];
      var name := Name(cfg, call);
      if call.polls >= call.budget then Finished(cfg, s, c, TimedOut)
      else if !isOpen || name !in s.slots || !HasAnswer(s.slots[name]) || s.slots[name].responseSize > INLINE_BYTES
      then Retried(s, c)
      else Finished(cfg, s, c, Succeeded(Response(s.slots[name]), s.slots[name].tag))
  }

  function Step(cfg: Config, s: State, a: Action): State {
    match a
    case Start(pid, payload, budget) => StartStep(cfg, s, pid, payload, budget)
    case TryPost(c, isOpen) => TryPostStep(cfg, s, c, isOpen)
    case PollServer(senderAlive) => PollStep(s, senderAlive)
    case Take(w) => TakeStep(s, w)
    case CallBack(w, sawStop) => CallBackStep(cfg, s, w, sawStop)
    case Answer(w, isOpen) => AnswerStep(cfg, s, w, isOpen)
    case TryReceive(c, isOpen) => TryReceiveStep(cfg, s, c, isOpen)
    case Stop => s.(stopped := true)
  }

  function Run(cfg: Config, workers: nat, actions: seq<Action>): State {
    if actions == [] then Initial(workers)
    else Step(cfg, Run(cfg, workers, actions[..|actions| - 1]), actions[|actions| - 1])
  }

  // ----- Conservation

  function Tags(items: seq<Data>): seq<nat> {
    seq(|items|, i requires 0 <= i < |items| => items[i].tag)
  }

  /** Everything that was posted and not dropped, oldest first: dequeued, queued, in the slot. */
  function Pipeline(s: State): seq<Data> {
    s.taken + s.queue + (if s.server.hasRequest then [s.server] else [])
  }

  /** The numbers below n without the dropped ones, in order. */
  function Survivors(n: nat, dropped: set<nat>): seq<nat> {
    if n == 0 then [] else Survivors(n - 1, dropped) + (if n - 1 in dropped then [] else [n - 1])
  }

  /** An item carries what its call posted. */
  predicate Carries(cfg: Config, s: State, d: Data) {
    && d.tag < |s.posted| && s.posted[d.tag] < |s.calls|
    && var call := s.calls[s.posted[d.tag]];
      && d.hasRequest && d.needResponse && d.requestSize <= INLINE_BYTES
      && Request(d) == call.payload && d.sender == Name(cfg, call)
  }

  ghost predicate Conserved(cfg: Config, s: State) {
    && Tags(Pipeline(s)) == Survivors(|s.posted|, s.dropped)
    && (forall t :: t in s.dropped ==> t < |s.posted|)
    && (s.server.hasRequest ==> s.server.tag == |s.posted| - 1)
    && (forall i :: 0 <= i < |Pipeline(s)| ==> Carries(cfg, s, Pipeline(s)[i]))
  }

  /** What later states keep of a state: the identity of calls, and the past. */
  predicate Extends(s: State, s': State) {
    && |s.calls| <= |s'.calls| && s.posted <= s'.posted && s.called <= s'.called && s.taken <= s'.taken
    && forall c :: 0 <= c < |s.calls| ==>
      && s'.calls[c].pid == s.calls[c].pid && s'.calls[c].ordinal == s.calls[c].ordinal
      && s'.calls[c].payload == s.calls[c].payload
  }

  lemma {:induction false} ReceiveExtends(cfg: Config, s: State, c: nat, isOpen: bool)
    ensures Extends(s, TryReceiveStep(cfg, s, c, isOpen))
  {
    hide Name, Response, HasAnswer;
  }

  lemma {:induction false} PostExtends(cfg: Config, s: State, c: nat, isOpen: bool)
    ensures Extends(s, TryPostStep(cfg, s, c, isOpen))
  {
    hide Name, Posted, CanPost;
  }

  lemma {:induction false} StepExtends(cfg: Config, s: State, a: Action)
    ensures Extends(s, Step(cfg, s, a))
  {
    match a
    case TryReceive(c, isOpen) => ReceiveExtends(cfg, s, c, isOpen);
    case TryPost(c, isOpen) => PostExtends(cfg, s, c, isOpen);
    case _ => hide Name, Answered, Answers, Request, Cleared, TryReceiveStep, TryPostStep;
  }

  lemma {:induction false} CarriesLater(cfg: Config, s: State, s': State, d: Data)
    requires Carries(cfg, s, d) && Extends(s, s')
    ensures Carries(cfg, s', d)
  {
    assert s'.posted[d.tag] == s.posted[d.tag];
  }

  lemma {:induction false} SurvivorsWithout(n: nat, dropped: set<nat>, t: nat)
    requires n <= t
    ensures Survivors(n, dropped + {t}) == Survivors(n, dropped)
  {
    if n > 0 {
      SurvivorsWithout(n - 1, dropped, t);
    }
  }

  lemma {:induction false} SurvivorsSorted(n: nat, dropped: set<nat>)
    ensures var r := Survivors(n, dropped);
      && (forall i, j :: 0 <= i < j < |r| ==> r[i] < r[j])
      && (forall i :: 0 <= i < |r| ==> r[i] < n && r[i] !in dropped)
      && (forall t: nat :: t in r <==> t < n && t !in dropped)
  {
    if n > 0 {
      SurvivorsSorted(n - 1, dropped);
    }
  }

  lemma {:induction false} TagsOfSum(a: seq<Data>, b: seq<Data>)
    ensures Tags(a + b) == Tags(a) + Tags(b)
  {
  }

  /** A step that moves items along the pipeline. */
  lemma {:induction false} MoveConserves(cfg: Config, s: State, s': State)
    requires Conserved(cfg, s) && Extends(s, s')
    requires Pipeline(s') == Pipeline(s) && s'.posted == s.posted && s'.dropped == s.dropped
    requires s'.server.hasRequest ==> s'.server == s.server
    ensures Conserved(cfg, s')
  {
    hide Pipeline, Carries, Extends;
    forall i | 0 <= i < |Pipeline(s)|
      ensures Carries(cfg, s', Pipeline(s)[i])
    {
      CarriesLater(cfg, s, s', Pipeline(s)[i]);
    }
  }

  /** A step that puts a new item at its end. */
  lemma {:induction false} AppendConserves(cfg: Config, s: State, s': State, c: nat)
    requires Conserved(cfg, s) && Extends(s, s')
    requires Pipeline(s') == Pipeline(s) + [s'.server] && s'.posted == s.posted + [c] && s'.dropped == s.dropped
    requires s'.server.tag == |s.posted| && Carries(cfg, s', s'.server)
    ensures Conserved(cfg, s')
  {
    hide Pipeline, Carries, Extends;
    forall i | 0 <= i < |Pipeline(s)|
      ensures Carries(cfg, s', Pipeline(s)[i])
    {
      CarriesLater(cfg, s, s', Pipeline(s)[i]);
    }
    TagsOfSum(Pipeline(s), [s'.server]);
    assert Tags([s'.server]) == [|s.posted|];
  }

  lemma {:induction false} LastSurvives(n: nat, dropped: set<nat>)
    requires n > 0 && n - 1 in Survivors(n, dropped)
    ensures n - 1 !in dropped
  {
    SurvivorsSorted(n, dropped);
  }

  lemma {:induction false} DropLast(n: nat, dropped: set<nat>, front: seq<nat>)
    requires n > 0 && Survivors(n, dropped) == front + [n - 1]
    ensures Survivors(n, dropped + {n - 1}) == front
  {
    assert (front + [n - 1])[|front|] == n - 1;
    LastSurvives(n, dropped);
    assert Survivors(n, dropped) == Survivors(n - 1, dropped) + [n - 1];
    SurvivorsWithout(n - 1, dropped, n - 1);
    assert Survivors(n, dropped + {n - 1}) == Survivors(n - 1, dropped) + [];
    hide Survivors;
    assert (front + [n - 1])[..|front|] == front;
    assert (Survivors(n - 1, dropped) + [n - 1])[..|Survivors(n - 1, dropped)|] == Survivors(n - 1, dropped);
  }

  /** A step that drops its last item. */
  lemma {:induction false} DropConserves(cfg: Config, s: State, s': State)
    requires Conserved(cfg, s) && Extends(s, s') && s.server.hasRequest && !s'.server.hasRequest
    requires Pipeline(s) == Pipeline(s') + [s.server]
    requires s'.posted == s.posted && s'.dropped == s.dropped + {s.server.tag}
    ensures Conserved(cfg, s')
  {
    hide Carries, Extends;
    var p, n := Pipeline(s'), |s.posted|;
    assert Pipeline(s)[|p|] == s.server;
    hide Pipeline;
    TagsOfSum(p, [s.server]);
    assert Tags([s.server]) == [n - 1];
    DropLast(n, s.dropped, Tags(p));
    forall i | 0 <= i < |p|
      ensures Carries(cfg, s', p[i])
    {
      assert Pipeline(s)[i] == p[i];
      CarriesLater(cfg, s, s', p[i]);
    }
  }

  lemma {:induction false} TryPostConserves(cfg: Config, s: State, c: nat, isOpen: bool)
    requires Conserved(cfg, s)
    ensures Conserved(cfg, TryPostStep(cfg, s, c, isOpen))
  {
    hide Conserved, Extends, Name;
    var s' := TryPostStep(cfg, s, c, isOpen);
    StepExtends(cfg, s, TryPost(c, isOpen));
    if |s'.posted| > |s.posted| {
      var call := s.calls[c];
      CopiesAreExact(s.server, s.server, call.payload, Silent(0), Name(cfg, call), call.pid, |s.posted|);
      assert Name(cfg, s'.calls[c]) == Name(cfg, call) by {
        NameOfIdentity(cfg, call, s'.calls[c]);
      }
      AppendConserves(cfg, s, s', c);
    } else {
      MoveConserves(cfg, s, s');
    }
  }

  lemma {:induction false} NameOfIdentity(cfg: Config, a: Call, b: Call)
    requires a.pid == b.pid && a.ordinal == b.ordinal
    ensures Name(cfg, a) == Name(cfg, b)
  {
  }

  lemma {:induction false} PollConserves(cfg: Config, s: State, senderAlive: bool)
    requires Conserved(cfg, s)
    ensures Conserved(cfg, PollStep(s, senderAlive))
  {
    hide Conserved, Extends;
    var s' := PollStep(s, senderAlive);
    StepExtends(cfg, s, PollServer(senderAlive));
    if s.server.hasRequest && !senderAlive {
      DropConserves(cfg, s, s');
    } else {
      MoveConserves(cfg, s, s');
    }
  }

  lemma {:induction false} PipelineUnmoved(cfg: Config, s: State, a: Action)
    requires !a.TryPost? && !a.PollServer?
    ensures var s' := Step(cfg, s, a);
      Pipeline(s') == Pipeline(s) && s'.posted == s.posted && s'.dropped == s.dropped && s'.server == s.server
  {
    match a
    case Take(w) => TakeMoves(s, w);
    case CallBack(w, sawStop) => WorkerLeavesQueue(cfg, s, w, sawStop);
    case Answer(w, isOpen) => WorkerLeavesQueue(cfg, s, w, isOpen);
    case TryReceive(c, isOpen) => ReceiveLeavesQueue(cfg, s, c, isOpen);
    case Start(pid, payload, budget) => hide Name;
    case Stop =>
  }

  lemma {:induction false} ReceiveLeavesQueue(cfg: Config, s: State, c: nat, isOpen: bool)
    ensures var s' := TryReceiveStep(cfg, s, c, isOpen); SameQueue(s, s') && Pipeline(s') == Pipeline(s)
  {
    hide Name, Response, HasAnswer;
  }

  lemma {:induction false} WorkerLeavesQueue(cfg: Config, s: State, w: nat, oracle: bool)
    ensures var s' := CallBackStep(cfg, s, w, oracle); SameQueue(s, s') && Pipeline(s') == Pipeline(s)
    ensures var s' := AnswerStep(cfg, s, w, oracle); SameQueue(s, s') && Pipeline(s') == Pipeline(s)
  {
    hide Request, Answers, Answered;
  }

  predicate SameQueue(s: State, s': State) {
    && s'.taken == s.taken && s'.queue == s.queue && s'.server == s.server
    && s'.posted == s.posted && s'.dropped == s.dropped
  }

  lemma {:induction false} TakeMoves(s: State, w: nat)
    ensures Pipeline(TakeStep(s, w)) == Pipeline(s)
  {
    if s.queue != [] {
      assert s.taken + s.queue == s.taken + [s.queue[0]] + s.queue[1..];
    }
  }

  lemma {:induction false} StepConserves(cfg: Config, s: State, a: Action)
    requires Conserved(cfg, s)
    ensures Conserved(cfg, Step(cfg, s, a))
  {
    match a
    case TryPost(c, isOpen) => TryPostConserves(cfg, s, c, isOpen);
    case PollServer(senderAlive) => PollConserves(cfg, s, senderAlive);
    case _ =>
      hide Conserved, Extends;
      StepExtends(cfg, s, a);
      PipelineUnmoved(cfg, s, a);
      hide Step, Pipeline;
      MoveConserves(cfg, s, Step(cfg, s, a));
  }

  /** In every run: what was dequeued, then what is queued, then what is in the slot, are the posted
      requests in posting order without the dropped ones, each with the bytes and the name posted. */
  lemma {:induction false} Conservation(cfg: Config, workers: nat, actions: seq<Action>)
    ensures Conserved(cfg, Run(cfg, workers, actions))
    decreases |actions|
  {
    hide Conserved, Step;
    if actions == [] {
      InitiallyConserved(cfg, workers);
    } else {
      Conservation(cfg, workers, actions[..|actions| - 1]);
      StepConserves(cfg, Run(cfg, workers, actions[..|actions| - 1]), actions[|actions| - 1]);
    }
  }

  lemma {:induction false} InitiallyConserved(cfg: Config, workers: nat)
    ensures Conserved(cfg, Initial(workers))
  {
  }

  // ----- Callbacks

  /** A worker holds this item and has not run the callback on it. */
  predicate Holds(s: State, w: nat, d: Data) {
    w < |s.workers| && s.workers[w] == Loaded(d)
  }

  predicate WasTaken(taken: seq<Data>, tag: nat) {
    tag in Tags(taken)
  }

  predicate WasCalled(called: seq<Callback>, tag: nat) {
    exists i :: 0 <= i < |called| && called[i].tag == tag
  }

  /** Only dequeued requests reach the callback, each at most once and with the bytes that were posted. */
  ghost predicate CalledOnce(s: State) {
    && (forall i :: 0 <= i < |s.called| ==> WasTaken(s.taken, s.called[i].tag))
    && (forall i, j :: 0 <= i < j < |s.called| ==> s.called[i].tag != s.called[j].tag)
    && (forall i :: 0 <= i < |s.called| ==>
        var c := s.called[i];
        c.tag < |s.posted| && s.posted[c.tag] < |s.calls| && c.bytes == s.calls[s.posted[c.tag]].payload)
  }

  /** What the workers have in hand: dequeued items, no two the same, called or still to be called. */
  ghost predicate InHand(cfg: Config, s: State) {
    && (forall w :: 0 <= w < |s.workers| && s.workers[w].Loaded? ==>
        && Carries(cfg, s, s.workers[w].item) && WasTaken(s.taken, s.workers[w].item.tag)
        && !WasCalled(s.called, s.workers[w].item.tag))
    && (forall w, v :: 0 <= w < v < |s.workers| && s.workers[w].Loaded? && s.workers[v].Loaded? ==>
        s.workers[w].item.tag != s.workers[v].item.tag)
    && (forall w :: 0 <= w < |s.workers| && s.workers[w].Called? ==>
        var Called(item, outcome) := s.workers[w];
        Carries(cfg, s, item) && WasCalled(s.called, item.tag) && outcome == cfg.callback(Request(item)))
  }

  ghost predicate Served(cfg: Config, s: State) {
    CalledOnce(s) && InHand(cfg, s)
  }

  lemma {:induction false} CalledOnceLater(s: State, s': State)
    requires CalledOnce(s) && Extends(s, s') && s'.called == s.called
    ensures CalledOnce(s')
  {
    hide WasTaken;
    forall i | 0 <= i < |s.called|
      ensures WasTaken(s'.taken, s.called[i].tag)
    {
      TakenLater(s, s', s.called[i].tag);
    }
  }

  lemma {:induction false} TakenLater(s: State, s': State, tag: nat)
    requires Extends(s, s') && WasTaken(s.taken, tag)
    ensures WasTaken(s'.taken, tag)
  {
    var i :| 0 <= i < |s.taken| && s.taken[i].tag == tag;
    assert Tags(s'.taken)[i] == tag;
  }

  /** A step that adds nothing to the hands of the workers and calls nothing back. */
  lemma {:induction false} QuietServes(cfg: Config, s: State, s': State)
    requires Served(cfg, s) && Extends(s, s') && s'.called == s.called && |s'.workers| == |s.workers|
    requires forall w :: 0 <= w < |s.workers| ==>
      s'.workers[w] == s.workers[w] || s'.workers[w].Idle? || s'.workers[w].Exited?
    ensures Served(cfg, s')
  {
    CalledOnceLater(s, s');
    hide Carries, WasTaken, WasCalled, CalledOnce, Extends;
    forall w | 0 <= w < |s'.workers| && s'.workers[w].Loaded?
      ensures Carries(cfg, s', s'.workers[w].item) && WasTaken(s'.taken, s'.workers[w].item.tag)
    {
      CarriesLater(cfg, s, s', s.workers[w].item);
      TakenLater(s, s', s.workers[w].item.tag);
    }
    forall w | 0 <= w < |s'.workers| && s'.workers[w].Called?
      ensures Carries(cfg, s', s'.workers[w].item)
    {
      CarriesLater(cfg, s, s', s.workers[w].item);
    }
  }

  /** The front of the queue was never dequeued before. */
  lemma {:induction false} FrontIsNew(cfg: Config, s: State)
    requires Conserved(cfg, s) && s.queue != []
    ensures !WasTaken(s.taken, s.queue[0].tag) && Carries(cfg, s, s.queue[0])
  {
    var k := |s.taken|;
    assert Pipeline(s)[k] == s.queue[0];
    hide Carries;
    SurvivorsSorted(|s.posted|, s.dropped);
    forall i | 0 <= i < k
      ensures s.taken[i].tag != s.queue[0].tag
    {
      assert Pipeline(s)[i] == s.taken[i];
      assert Tags(Pipeline(s))[i] < Tags(Pipeline(s))[k];
    }
  }

  lemma {:induction false} TakeServes(cfg: Config, s: State, w: nat)
    requires Conserved(cfg, s) && Served(cfg, s)
    ensures Served(cfg, TakeStep(s, w))
  {
    var s' := TakeStep(s, w);
    StepExtends(cfg, s, Take(w));
    if |s'.taken| > |s.taken| {
      var item := s.queue[0];
      FrontIsNew(cfg, s);
      TakeLoads(cfg, s, s', w, item);
    } else {
      QuietServes(cfg, s, s');
    }
  }

  lemma {:induction false} TakeLoads(cfg: Config, s: State, s': State, w: nat, item: Data)
    requires Served(cfg, s) && Extends(s, s') && w < |s.workers|
    requires s'.called == s.called && s'.taken == s.taken + [item] && s'.workers == s.workers[w := Loaded(item)]
    requires !WasTaken(s.taken, item.tag) && Carries(cfg, s, item)
    ensures Served(cfg, s')
  {
    CalledOnceLater(s, s');
    CarriesLater(cfg, s, s', item);
    assert Tags(s'.taken)[|s.taken|] == item.tag;
    assert !WasCalled(s.called, item.tag);
    hide Carries, CalledOnce, Extends;
    assert WasTaken(s'.taken, item.tag);
    hide WasTaken, WasCalled;
    forall v | 0 <= v < |s.workers| && (s.workers[v].Loaded? || s.workers[v].Called?)
      ensures Carries(cfg, s', s.workers[v].item)
      ensures s.workers[v].Loaded? ==> WasTaken(s'.taken, s.workers[v].item.tag) && s.workers[v].item.tag != item.tag
    {
      CarriesLater(cfg, s, s', s.workers[v].item);
      if s.workers[v].Loaded? {
        TakenLater(s, s', s.workers[v].item.tag);
      }
    }
  }

  lemma {:induction false} CallBackServes(cfg: Config, s: State, w: nat, sawStop: bool)
    requires Served(cfg, s)
    ensures Served(cfg, CallBackStep(cfg, s, w, sawStop))
  {
    var s' := CallBackStep(cfg, s, w, sawStop);
    StepExtends(cfg, s, CallBack(w, sawStop));
    if |s'.called| > |s.called| {
      CallBackCalls(cfg, s, s', w, s.workers[w].item);
    } else {
      QuietServes(cfg, s, s');
    }
  }

  lemma {:induction false} CallBackCalls(cfg: Config, s: State, s': State, w: nat, item: Data)
    requires Served(cfg, s) && Extends(s, s') && Holds(s, w, item) && item.requestSize <= INLINE_BYTES
    requires s'.called == s.called + [Callback(item.tag, Request(item))] && s'.taken == s.taken && s'.posted == s.posted
    requires s'.calls == s.calls && s'.workers == s.workers[w := Called(item, cfg.callback(Request(item)))]
    ensures Served(cfg, s')
  {
    assert forall t :: WasCalled(s'.called, t) <==> WasCalled(s.called, t) || t == item.tag by {
      CalledMore(s.called, Callback(item.tag, Request(item)));
    }
    assert Carries(cfg, s, item);
    assert CalledOnce(s') by {
      hide WasTaken;
      forall i | 0 <= i < |s.called|
        ensures s.called[i].tag != item.tag
      {
        assert WasCalled(s.called, s.called[i].tag);
      }
    }
    hide CalledOnce, WasTaken, WasCalled, Request, Name;
  }

  lemma {:induction false} CalledMore(called: seq<Callback>, c: Callback)
    ensures forall t :: WasCalled(called + [c], t) <==> WasCalled(called, t) || t == c.tag
  {
    forall t
      ensures WasCalled(called + [c], t) <==> WasCalled(called, t) || t == c.tag
    {
      if WasCalled(called, t) {
        var i :| 0 <= i < |called| && called[i].tag == t;
        assert (called + [c])[i].tag == t;
      }
      assert (called + [c])[|called|] == c;
    }
  }

  lemma {:induction false} StepServes(cfg: Config, s: State, a: Action)
    requires Conserved(cfg, s) && Served(cfg, s)
    ensures Served(cfg, Step(cfg, s, a))
  {
    match a
    case Take(w) => TakeServes(cfg, s, w);
    case CallBack(w, sawStop) => CallBackServes(cfg, s, w, sawStop);
    case _ =>
      hide Conserved, Served, Extends;
      StepExtends(cfg, s, a);
      QuietServes(cfg, s, Step(cfg, s, a));
  }

  /** In every run: each request reaches the callback at most once, after it was dequeued, with exactly
      the bytes that its call posted. */
  lemma {:induction false} AtMostOnce(cfg: Config, workers: nat, actions: seq<Action>)
    ensures Served(cfg, Run(cfg, workers, actions))
    decreases |actions|
  {
    hide Conserved, Served, Step;
    if actions == [] {
      InitiallyServed(cfg, workers);
    } else {
      var before := actions[..|actions| - 1];
      AtMostOnce(cfg, workers, before);
      Conservation(cfg, workers, before);
      StepServes(cfg, Run(cfg, workers, before), actions[|actions| - 1]);
    }
  }

  lemma {:induction false} InitiallyServed(cfg: Config, workers: nat)
    ensures Served(cfg, Initial(workers))
  {
  }

  // ----- Nothing dequeued is lost

  predicate InLoad(s: State, tag: nat) {
    exists w :: 0 <= w < |s.workers| && s.workers[w].Loaded? && s.workers[w].item.tag == tag
  }

  /** Without a stop, what was dequeued was given to the callback or is about to be. */
  ghost predicate NoneDiscarded(s: State) {
    !s.stopped ==> forall i :: 0 <= i < |s.taken| ==> WasCalled(s.called, s.taken[i].tag) || InLoad(s, s.taken[i].tag)
  }

  /** A step that leaves the hands of the workers, or empties hands that hold nothing to be called. */
  lemma {:induction false} QuietDiscardsNone(s: State, s': State)
    requires NoneDiscarded(s) && s'.taken == s.taken && s'.called == s.called && (s'.stopped <==> s.stopped)
    requires |s'.workers| == |s.workers|
    requires forall w :: 0 <= w < |s.workers| && s.workers[w].Loaded? ==> s'.workers[w] == s.workers[w]
    ensures NoneDiscarded(s')
  {
    hide WasCalled;
    if !s.stopped {
      forall i | 0 <= i < |s.taken|
        ensures WasCalled(s.called, s.taken[i].tag) || InLoad(s', s.taken[i].tag)
      {
        if InLoad(s, s.taken[i].tag) {
          var w :| 0 <= w < |s.workers| && s.workers[w].Loaded? && s.workers[w].item.tag == s.taken[i].tag;
          assert s'.workers[w] == s.workers[w];
        }
      }
    }
  }

  lemma {:induction false} TakeDiscardsNone(s: State, w: nat)
    requires NoneDiscarded(s)
    ensures NoneDiscarded(TakeStep(s, w))
  {
    var s' := TakeStep(s, w);
    if |s'.taken| > |s.taken| {
      hide WasCalled;
      assert s'.workers[w] == Loaded(s.queue[0]);
      forall i | 0 <= i < |s'.taken|
        ensures WasCalled(s.called, s'.taken[i].tag) || InLoad(s', s'.taken[i].tag)
      {
        if i < |s.taken| && InLoad(s, s.taken[i].tag) {
          var v :| 0 <= v < |s.workers| && s.workers[v].Loaded? && s.workers[v].item.tag == s.taken[i].tag;
          assert s'.workers[v] == s.workers[v];
        }
      }
    } else {
      QuietDiscardsNone(s, s');
    }
  }

  lemma {:induction false} CallBackDiscardsNone(cfg: Config, s: State, w: nat, sawStop: bool)
    requires NoneDiscarded(s) && InHand(cfg, s)
    ensures NoneDiscarded(CallBackStep(cfg, s, w, sawStop))
  {
    var s' := CallBackStep(cfg, s, w, sawStop);
    if |s'.called| > |s.called| {
      var item := s.workers[w].item;
      CalledMore(s.called, Callback(item.tag, Request(item)));
      hide WasCalled, Request, Carries, InHand;
      if !s.stopped {
        forall i | 0 <= i < |s.taken|
          ensures WasCalled(s'.called, s.taken[i].tag) || InLoad(s', s.taken[i].tag)
        {
          if s.taken[i].tag != item.tag && InLoad(s, s.taken[i].tag) {
            var v :| 0 <= v < |s.workers| && s.workers[v].Loaded? && s.workers[v].item.tag == s.taken[i].tag;
            assert s'.workers[v] == s.workers[v];
          }
        }
      }
    } else if w < |s.workers| && s.workers[w].Loaded? {
      assert Carries(cfg, s, s.workers[w].item);
      assert s.stopped && s'.stopped;
    }
  }

  lemma {:induction false} StepDiscardsNone(cfg: Config, s: State, a: Action)
    requires NoneDiscarded(s) && InHand(cfg, s)
    ensures NoneDiscarded(Step(cfg, s, a))
  {
    match a
    case Take(w) => TakeDiscardsNone(s, w);
    case CallBack(w, sawStop) => CallBackDiscardsNone(cfg, s, w, sawStop);
    case Stop => hide InHand;
    case _ =>
      hide InHand, NoneDiscarded, Name, Posted, Cleared, Answered, Answers, Request, Response, HasAnswer, CanPost;
      QuietDiscardsNone(s, Step(cfg, s, a));
  }

  lemma {:induction false} NeverDiscarded(cfg: Config, workers: nat, actions: seq<Action>)
    ensures NoneDiscarded(Run(cfg, workers, actions))
    decreases |actions|
  {
    hide NoneDiscarded, Step, Served;
    if actions == [] {
      assert NoneDiscarded(Initial(workers)) by { InitiallyNoneDiscarded(workers); }
    } else {
      var before := actions[..|actions| - 1];
      NeverDiscarded(cfg, workers, before);
      AtMostOnce(cfg, workers, before);
      ServedHands(cfg, Run(cfg, workers, before));
      StepDiscardsNone(cfg, Run(cfg, workers, before), actions[|actions| - 1]);
    }
  }

  lemma {:induction false} InitiallyNoneDiscarded(workers: nat)
    ensures NoneDiscarded(Initial(workers))
  {
  }

  /** Until the server stops, the dequeued requests are exactly those called back and those a worker is about to
      call back. */
  lemma {:induction false} TakenExactly(cfg: Config, workers: nat, actions: seq<Action>, tag: nat)
    requires !Run(cfg, workers, actions).stopped
    ensures var s := Run(cfg, workers, actions); WasTaken(s.taken, tag) <==> WasCalled(s.called, tag) || InLoad(s, tag)
  {
    NeverDiscarded(cfg, workers, actions);
    AtMostOnce(cfg, workers, actions);
    var s := Run(cfg, workers, actions);
    hide Run, Carries;
    if WasTaken(s.taken, tag) {
      var i :| 0 <= i < |s.taken| && s.taken[i].tag == tag;
      assert WasCalled(s.called, s.taken[i].tag) || InLoad(s, s.taken[i].tag);
    }
    if WasCalled(s.called, tag) {
      var i :| 0 <= i < |s.called| && s.called[i].tag == tag;
      assert WasTaken(s.taken, s.called[i].tag);
    }
  }

  // ----- Routing

  predicate IsReply(outcome: Outcome, response: Bytes) {
    match outcome
    case Reply(bytes) => response == bytes
    case Silent(size) => size == 0 && response == []
  }

  /** These bytes are the callback's answer to the request with this number, and the callback did run on it. */
  ghost predicate AnswerOf(cfg: Config, s: State, tag: nat, response: Bytes) {
    && tag < |s.posted| && s.posted[tag] < |s.calls|
    && WasCalled(s.called, tag) && IsReply(cfg.callback(s.calls[s.posted[tag]].payload), response)
  }

  /** An answer to the request with this number, under the name that its call used. */
  ghost predicate AnswerFor(cfg: Config, s: State, tag: nat, response: Bytes, name: string) {
    AnswerOf(cfg, s, tag, response) && Name(cfg, s.calls[s.posted[tag]]) == name
  }

  ghost predicate SlotsHoldAnswers(cfg: Config, s: State) {
    forall n :: n in s.slots ==>
      && s.slots[n].responseSize <= INLINE_BYTES
      && (HasAnswer(s.slots[n]) ==> AnswerFor(cfg, s, s.slots[n].tag, Response(s.slots[n]), n))
  }

  ghost predicate CallsHoldAnswers(cfg: Config, s: State) {
    forall c :: 0 <= c < |s.calls| && s.calls[c].phase.Succeeded? ==>
      AnswerFor(cfg, s, s.calls[c].phase.tag, s.calls[c].phase.response, Name(cfg, s.calls[c]))
  }

  lemma {:induction false} AnswerForLater(cfg: Config, s: State, s': State, tag: nat, response: Bytes, name: string)
    requires AnswerFor(cfg, s, tag, response, name) && Extends(s, s')
    ensures AnswerFor(cfg, s', tag, response, name)
  {
    assert s'.posted[tag] == s.posted[tag];
    NameOfIdentity(cfg, s.calls[s.posted[tag]], s'.calls[s.posted[tag]]);
    var i :| 0 <= i < |s.called| && s.called[i].tag == tag;
    assert s'.called[i] == s.called[i];
  }

  ghost predicate Routed(cfg: Config, s: State) {
    SlotsHoldAnswers(cfg, s) && CallsHoldAnswers(cfg, s)
  }

  /** A step that puts no answer anywhere. */
  lemma {:induction false} QuietRoutes(cfg: Config, s: State, s': State)
    requires Routed(cfg, s) && Extends(s, s')
    requires forall n :: n in s'.slots ==> (n in s.slots && s'.slots[n] == s.slots[n]) || s'.slots[n] == Blank()
    requires forall c :: 0 <= c < |s'.calls| && s'.calls[c].phase.Succeeded? ==>
      c < |s.calls| && s'.calls[c].phase == s.calls[c].phase
    ensures Routed(cfg, s')
  {
    hide AnswerFor, Name, Response;
    forall n | n in s'.slots && HasAnswer(s'.slots[n])
      ensures AnswerFor(cfg, s', s'.slots[n].tag, Response(s'.slots[n]), n)
    {
      AnswerForLater(cfg, s, s', s.slots[n].tag, Response(s.slots[n]), n);
    }
    forall c | 0 <= c < |s'.calls| && s'.calls[c].phase.Succeeded?
      ensures AnswerFor(cfg, s', s'.calls[c].phase.tag, s'.calls[c].phase.response, Name(cfg, s'.calls[c]))
    {
      SameName(cfg, s, s', c);
      AnswerForLater(cfg, s, s', s.calls[c].phase.tag, s.calls[c].phase.response, Name(cfg, s.calls[c]));
    }
  }

  lemma {:induction false} SameName(cfg: Config, s: State, s': State, c: nat)
    requires Extends(s, s') && c < |s.calls|
    ensures Name(cfg, s'.calls[c]) == Name(cfg, s.calls[c])
  {
  }

  predicate Receives(cfg: Config, s: State, c: nat, isOpen: bool) {
    && c < |s.calls| && s.calls[c].phase.Waiting? && s.calls[c].polls < s.calls[c].budget && isOpen
    && var name := Name(cfg, s.calls[c]);
      name in s.slots && HasAnswer(s.slots[name]) && s.slots[name].responseSize <= INLINE_BYTES
  }

  lemma {:induction false} TryReceiveReceives(cfg: Config, s: State, c: nat, isOpen: bool)
    requires Receives(cfg, s, c, isOpen)
    ensures var name := Name(cfg, s.calls[c]);
      TryReceiveStep(cfg, s, c, isOpen) == Finished(cfg, s, c, Succeeded(Response(s.slots[name]), s.slots[name].tag))
  {
    hide Name, HasAnswer, Response;
  }

  lemma {:induction false} TryReceiveDoesNot(cfg: Config, s: State, c: nat, isOpen: bool)
    requires !Receives(cfg, s, c, isOpen)
    ensures var s' := TryReceiveStep(cfg, s, c, isOpen);
      && (forall n :: n in s'.slots ==> n in s.slots && s'.slots[n] == s.slots[n])
      && |s'.calls| == |s.calls|
      && (forall b :: 0 <= b < |s.calls| ==> s'.calls[b].phase == s.calls[b].phase || s'.calls[b].phase.TimedOut?)
  {
    hide Name, HasAnswer, Response;
  }

  /** Reading an answer moves it from the channel to its call. */
  lemma {:induction false} TryReceiveRoutes(cfg: Config, s: State, c: nat, isOpen: bool)
    requires Routed(cfg, s)
    ensures Routed(cfg, TryReceiveStep(cfg, s, c, isOpen))
  {
    hide Extends, AnswerFor, Response, Name, Receives, TryReceiveStep;
    StepExtends(cfg, s, TryReceive(c, isOpen));
    if Receives(cfg, s, c, isOpen) {
      TryReceiveReceives(cfg, s, c, isOpen);
      ReceivesFacts(cfg, s, c, isOpen);
      ReceivedRoutes(cfg, s, TryReceiveStep(cfg, s, c, isOpen), c);
    } else {
      TryReceiveDoesNot(cfg, s, c, isOpen);
      QuietRoutes(cfg, s, TryReceiveStep(cfg, s, c, isOpen));
    }
  }

  lemma {:induction false} ReceivesFacts(cfg: Config, s: State, c: nat, isOpen: bool)
    requires Receives(cfg, s, c, isOpen) && SlotsHoldAnswers(cfg, s)
    ensures c < |s.calls|
    ensures var name := Name(cfg, s.calls[c]);
      name in s.slots && AnswerFor(cfg, s, s.slots[name].tag, Response(s.slots[name]), name)
  {
    hide Name, Response, AnswerFor;
  }

  lemma {:induction false} ReceivedRoutes(cfg: Config, s: State, s': State, c: nat)
    requires Routed(cfg, s) && Extends(s, s') && c < |s.calls| == |s'.calls| && s'.calls[c].phase.Succeeded?
    requires forall n :: n in s'.slots ==> n in s.slots && s'.slots[n] == s.slots[n]
    requires forall b :: 0 <= b < |s.calls| && b != c ==> s'.calls[b] == s.calls[b]
    requires AnswerFor(cfg, s, s'.calls[c].phase.tag, s'.calls[c].phase.response, Name(cfg, s.calls[c]))
    ensures Routed(cfg, s')
  {
    hide AnswerFor, Name, Response;
    forall n | n in s'.slots && HasAnswer(s'.slots[n])
      ensures AnswerFor(cfg, s', s'.slots[n].tag, Response(s'.slots[n]), n)
    {
      AnswerForLater(cfg, s, s', s.slots[n].tag, Response(s.slots[n]), n);
    }
    forall b | 0 <= b < |s'.calls| && s'.calls[b].phase.Succeeded?
      ensures AnswerFor(cfg, s', s'.calls[b].phase.tag, s'.calls[b].phase.response, Name(cfg, s'.calls[b]))
    {
      SameName(cfg, s, s', b);
      AnswerForLater(cfg, s, s', s'.calls[b].phase.tag, s'.calls[b].phase.response, Name(cfg, s.calls[b]));
    }
  }

  /** A worker's answer goes to the channel that the request names. */
  lemma {:induction false} AnswerRoutes(cfg: Config, s: State, w: nat, isOpen: bool)
    requires Routed(cfg, s) && InHand(cfg, s)
    ensures Routed(cfg, AnswerStep(cfg, s, w, isOpen))
  {
    var s' := AnswerStep(cfg, s, w, isOpen);
    StepExtends(cfg, s, Answer(w, isOpen));
    if s'.slots != s.slots {
      var Called(item, outcome) := s.workers[w];
      var name, d := item.sender, s.slots[item.sender];
      var d' := Answered(d, cfg.server, cfg.serverPid, outcome, item.tag);
      CopiesAreExact(d, d, [], outcome, cfg.server, cfg.serverPid, item.tag);
      assert Carries(cfg, s, item);
      assert AnswerFor(cfg, s, item.tag, Response(d'), name);
      assert d'.responseSize <= INLINE_BYTES && d'.tag == item.tag;
      hide Carries, Extends, AnswerFor, Response, Name;
      forall n | n in s'.slots && HasAnswer(s'.slots[n])
        ensures AnswerFor(cfg, s', s'.slots[n].tag, Response(s'.slots[n]), n)
      {
        AnswerForLater(cfg, s, s', s'.slots[n].tag, Response(s'.slots[n]), n);
      }
      forall c | 0 <= c < |s'.calls| && s'.calls[c].phase.Succeeded?
        ensures AnswerFor(cfg, s', s'.calls[c].phase.tag, s'.calls[c].phase.response, Name(cfg, s'.calls[c]))
      {
        AnswerForLater(cfg, s, s', s.calls[c].phase.tag, s.calls[c].phase.response, Name(cfg, s.calls[c]));
      }
    } else {
      hide Extends, AnswerFor, Response, Name;
      QuietRoutes(cfg, s, s');
    }
  }

  lemma {:induction false} TryPostRoutes(cfg: Config, s: State, c: nat, isOpen: bool)
    requires Routed(cfg, s)
    ensures Routed(cfg, TryPostStep(cfg, s, c, isOpen))
  {
    hide Routed, Extends, Name, Posted, CanPost;
    StepExtends(cfg, s, TryPost(c, isOpen));
    QuietRoutes(cfg, s, TryPostStep(cfg, s, c, isOpen));
  }

  lemma {:induction false} StartRoutes(cfg: Config, s: State, pid: nat, payload: Bytes, budget: int)
    requires Routed(cfg, s)
    ensures Routed(cfg, StartStep(cfg, s, pid, payload, budget))
  {
    hide Routed, Extends, Name;
    StepExtends(cfg, s, Start(pid, payload, budget));
    QuietRoutes(cfg, s, StartStep(cfg, s, pid, payload, budget));
  }

  lemma {:induction false} StepRoutes(cfg: Config, s: State, a: Action)
    requires Routed(cfg, s) && InHand(cfg, s)
    ensures Routed(cfg, Step(cfg, s, a))
  {
    match a
    case Answer(w, isOpen) => AnswerRoutes(cfg, s, w, isOpen);
    case TryReceive(c, isOpen) => TryReceiveRoutes(cfg, s, c, isOpen);
    case Start(pid, payload, budget) => StartRoutes(cfg, s, pid, payload, budget);
    case TryPost(c, isOpen) => TryPostRoutes(cfg, s, c, isOpen);
    case _ =>
      hide Routed, Extends, InHand, Name, Posted, Cleared, Request, CanPost;
      StepExtends(cfg, s, a);
      QuietRoutes(cfg, s, Step(cfg, s, a));
  }

  lemma {:induction false} InitiallyRouted(cfg: Config, workers: nat)
    ensures Routed(cfg, Initial(workers))
  {
  }

  /** In every run, whatever the names: a channel or a finished call holds only the callback's answer to
      some request that was posted under the same name. */
  lemma {:induction false} Routing(cfg: Config, workers: nat, actions: seq<Action>)
    ensures Routed(cfg, Run(cfg, workers, actions))
    decreases |actions|
  {
    hide Routed, Served, Step;
    if actions == [] {
      InitiallyRouted(cfg, workers);
    } else {
      var before := actions[..|actions| - 1];
      Routing(cfg, workers, before);
      AtMostOnce(cfg, workers, before);
      assert InHand(cfg, Run(cfg, workers, before)) by {
        ServedHands(cfg, Run(cfg, workers, before));
      }
      StepRoutes(cfg, Run(cfg, workers, before), actions[|actions| - 1]);
    }
  }

  lemma {:induction false} ServedHands(cfg: Config, s: State)
    requires Served(cfg, s)
    ensures InHand(cfg, s)
  {
  }

  // ----- Which call an answer belongs to

  ghost predicate PostedOnce(s: State) {
    && (forall r :: 0 <= r < |s.posted| ==> s.posted[r] < |s.calls| && !s.calls[s.posted[r]].phase.Posting?)
    && (forall r, q :: 0 <= r < q < |s.posted| ==> s.posted[r] != s.posted[q])
    && (forall c :: 0 <= c < |s.calls| && (s.calls[c].phase.Waiting? || s.calls[c].phase.Succeeded?) ==> c in s.posted)
    && (forall c :: 0 <= c < |s.calls| ==>
        0 <= s.calls[c].polls <= if s.calls[c].budget < 0 then 0 else s.calls[c].budget)
  }

  lemma {:induction false} StepPostsOnce(cfg: Config, s: State, a: Action)
    requires PostedOnce(s)
    ensures PostedOnce(Step(cfg, s, a))
  {
    match a
    case Start(pid, payload, budget) => hide Name;
    case TryPost(c, isOpen) => TryPostPostsOnce(cfg, s, c, isOpen);
    case TryReceive(c, isOpen) => TryReceivePostsOnce(cfg, s, c, isOpen);
    case _ =>
      hide Cleared, Answered, Answers, Request, PostedOnce;
      assert Step(cfg, s, a).calls == s.calls && Step(cfg, s, a).posted == s.posted;
      SamePosted(s, Step(cfg, s, a));
  }

  lemma {:induction false} SamePosted(s: State, s': State)
    requires PostedOnce(s) && s'.calls == s.calls && s'.posted == s.posted
    ensures PostedOnce(s')
  {
  }

  lemma {:induction false} TryReceivePostsOnce(cfg: Config, s: State, c: nat, isOpen: bool)
    requires PostedOnce(s)
    ensures PostedOnce(TryReceiveStep(cfg, s, c, isOpen))
  {
    hide Name, Response, HasAnswer;
  }

  /** A call that was still to post has posted. */
  lemma {:induction false} PostedMore(s: State, s': State, c: nat)
    requires PostedOnce(s) && c < |s.calls| == |s'.calls| && s.calls[c].phase.Posting? && s'.calls[c].phase.Waiting?
    requires s'.calls == s.calls[c := s'.calls[c]] && s'.posted == s.posted + [c]
    requires 0 <= s'.calls[c].polls <= s.calls[c].polls && s'.calls[c].budget == s.calls[c].budget
    ensures PostedOnce(s')
  {
    assert s'.posted[|s.posted|] == c;
    assert c !in s.posted;
    forall b | 0 <= b < |s'.calls| && (s'.calls[b].phase.Waiting? || s'.calls[b].phase.Succeeded?)
      ensures b in s'.posted
    {
      assert b == c || b in s.posted;
    }
  }

  /** A call has polled once more, or its attempts are used up. */
  lemma {:induction false} NotPosted(s: State, s': State, c: nat)
    requires PostedOnce(s) && c < |s.calls| == |s'.calls| && s.calls[c].phase.Posting?
    requires s'.calls == s.calls[c := s'.calls[c]] && s'.posted == s.posted && s'.calls[c].budget == s.calls[c].budget
    requires s'.calls[c].phase.Posting? || s'.calls[c].phase.TimedOut?
    requires s'.calls[c].polls == s.calls[c].polls ||
      (s.calls[c].polls < s.calls[c].budget && s'.calls[c].polls == s.calls[c].polls + 1)
    ensures PostedOnce(s')
  {
  }

  lemma {:induction false} TryPostPostsOnce(cfg: Config, s: State, c: nat, isOpen: bool)
    requires PostedOnce(s)
    ensures PostedOnce(TryPostStep(cfg, s, c, isOpen))
  {
    hide Name, Posted, CanPost;
    var s' := TryPostStep(cfg, s, c, isOpen);
    if |s'.posted| > |s.posted| {
      hide PostedOnce;
      assert s.calls[c].polls >= 0 by { PollsCount(s, c); }
      PostedMore(s, s', c);
    } else if c < |s.calls| && s.calls[c].phase.Posting? {
      hide PostedOnce;
      NotPosted(s, s', c);
    }
  }

  lemma {:induction false} PollsCount(s: State, c: nat)
    requires PostedOnce(s) && c < |s.calls|
    ensures s.calls[c].polls >= 0
  {
  }

  /** In every run a call posts at most once, and not without leaving its first loop; the counted failed
      attempts stay within the budget. */
  lemma {:induction false} PostsAtMostOnce(cfg: Config, workers: nat, actions: seq<Action>)
    ensures PostedOnce(Run(cfg, workers, actions))
    decreases |actions|
  {
    hide PostedOnce, Step;
    if actions == [] {
      InitiallyPosted(workers);
    } else {
      PostsAtMostOnce(cfg, workers, actions[..|actions| - 1]);
      StepPostsOnce(cfg, Run(cfg, workers, actions[..|actions| - 1]), actions[|actions| - 1]);
    }
  }

  lemma {:induction false} InitiallyPosted(workers: nat)
    ensures PostedOnce(Initial(workers))
  {
  }

  ghost predicate NamesDistinct(cfg: Config, s: State) {
    forall b, c :: 0 <= b < c < |s.calls| ==> Name(cfg, s.calls[b]) != Name(cfg, s.calls[c])
  }

  /** When no two calls used one name, a call that returned true had its own request posted once,
      dequeued, given to the callback, and returns the callback's answer to its own bytes. */
  lemma {:induction false} AnsweredOwnRequest(cfg: Config, workers: nat, actions: seq<Action>, c: nat)
    requires var s := Run(cfg, workers, actions);
      NamesDistinct(cfg, s) && c < |s.calls| && s.calls[c].phase.Succeeded?
    ensures var s := Run(cfg, workers, actions); var Succeeded(response, tag) := s.calls[c].phase;
      && tag < |s.posted| && s.posted[tag] == c && (forall r :: 0 <= r < |s.posted| && s.posted[r] == c ==> r == tag)
      && WasTaken(s.taken, tag) && WasCalled(s.called, tag)
      && IsReply(cfg.callback(s.calls[c].payload), response)
  {
    hide Run, Name, WasTaken, IsReply;
    Routing(cfg, workers, actions);
    PostsAtMostOnce(cfg, workers, actions);
    AtMostOnce(cfg, workers, actions);
  }

  /** Under the same condition the channel of a call holds only the answer to its own request. */
  lemma {:induction false} ChannelHoldsOwnAnswer(cfg: Config, workers: nat, actions: seq<Action>, c: nat)
    requires var s := Run(cfg, workers, actions);
      && NamesDistinct(cfg, s) && c < |s.calls|
      && Name(cfg, s.calls[c]) in s.slots && HasAnswer(s.slots[Name(cfg, s.calls[c])])
    ensures var s := Run(cfg, workers, actions); var d := s.slots[Name(cfg, s.calls[c])];
      && d.tag < |s.posted| && s.posted[d.tag] == c && WasCalled(s.called, d.tag)
      && d.responseSize <= INLINE_BYTES && IsReply(cfg.callback(s.calls[c].payload), Response(d))
  {
    hide Run, Name, WasTaken, IsReply, HasAnswer, Response;
    Routing(cfg, workers, actions);
  }

  // ----- When names are distinct

  predicate AllDecimal(t: string) {
    forall i :: 0 <= i < |t| ==> '0' <= t[i] <= '9'
  }

  lemma {:induction false} DecimalDigits(n: nat)
    ensures AllDecimal(Decimal(n)) && Decimal(n) != ""
  {
    if n >= 10 {
      DecimalDigits(n / 10);
    }
  }

  lemma {:induction false} DecimalInjective(m: nat, n: nat)
    ensures Decimal(m) == Decimal(n) ==> m == n
    decreases m
  {
    if Decimal(m) == Decimal(n) {
      LastDigit(m);
      LastDigit(n);
      if m >= 10 && n >= 10 {
        DecimalInjective(m / 10, n / 10);
      }
    }
  }

  lemma {:induction false} LastDigit(n: nat)
    ensures |Decimal(n)| == 1 <==> n < 10
    ensures var k := |Decimal(n)| - 1;
      k >= 0 && Decimal(n)[k] == Digit(n % 10) && (n >= 10 ==> Decimal(n)[..k] == Decimal(n / 10))
  {
    DecimalDigits(n);
    if n >= 10 {
      DecimalDigits(n / 10);
    }
  }

  /** Digits before a letter end where the letter stands. */
  lemma {:induction false} DigitsBeforeLetter(d: string, t: string, d': string, t': string)
    requires AllDecimal(d) && AllDecimal(d') && t != "" && t' != "" && t[0] > '9' && t'[0] > '9'
    requires d + t == d' + t'
    ensures d == d' && t == t'
  {
    var u := d + t;
    assert u[|d|] == t[0] && u[|d'|] == t'[0];
    assert (forall i :: 0 <= i < |d| ==> u[i] == d[i]) && (forall i :: 0 <= i < |d'| ==> u[i] == d'[i]);
    assert |d| == |d'|;
    assert u[..|d|] == d && u[..|d'|] == d' && u[|d|..] == t && u[|d'|..] == t';
  }

  lemma {:induction false} CountersDiffer(server: string, p: nat, k: nat, p': nat, k': nat)
    requires server + Decimal(p) + "Client" + Decimal(k) == server + Decimal(p') + "Client" + Decimal(k')
    ensures p == p' && k == k'
  {
    hide Decimal;
    var name := server + Decimal(p) + "Client" + Decimal(k);
    var rest, rest' := "Client" + Decimal(k), "Client" + Decimal(k');
    DecimalDigits(p);
    DecimalDigits(p');
    assert name[|server|..] == Decimal(p) + rest;
    assert name[|server|..] == Decimal(p') + rest';
    DigitsBeforeLetter(Decimal(p), rest, Decimal(p'), rest');
    assert rest[6..] == Decimal(k) && rest'[6..] == Decimal(k');
    DecimalInjective(p, p');
    DecimalInjective(k, k');
  }

  lemma {:induction false} ProcessesDiffer(app: string, p: nat, p': nat)
    requires "/iMonSHM" + Decimal(p) + app == "/iMonSHM" + Decimal(p') + app
    ensures p == p'
  {
    hide Decimal;
    var name := "/iMonSHM" + Decimal(p) + app;
    var end := |name| - |app|;
    assert name[8..end] == Decimal(p) && name[8..end] == Decimal(p');
    DecimalInjective(p, p');
  }

  /** Names with a counter differ when the process or the counter does; names by process, when the process does. */
  lemma {:induction false} NamesDiffer(cfg: Config, p: nat, k: nat, p': nat, k': nat)
    ensures ClientName(cfg, p, k) == ClientName(cfg, p', k') <==> p == p' && (cfg.naming.PerCall? ==> k == k')
  {
    hide Decimal;
    if ClientName(cfg, p, k) == ClientName(cfg, p', k') {
      match cfg.naming
      case PerCall => CountersDiffer(cfg.server, p, k, p', k');
      case PerProcess => ProcessesDiffer(cfg.app, p, p');
    }
  }

  /** The calls of a process are numbered from 1 without gaps. */
  ghost predicate Numbered(s: State) {
    && (forall c :: 0 <= c < |s.calls| ==> 1 <= s.calls[c].ordinal <= Drawn(s, s.calls[c].pid))
    && (forall b, c :: 0 <= b < c < |s.calls| && s.calls[b].pid == s.calls[c].pid ==>
        s.calls[b].ordinal != s.calls[c].ordinal)
    && (forall pid, k :: 1 <= k <= Drawn(s, pid) ==> HasCall(s, pid, k))
  }

  ghost predicate HasCall(s: State, pid: nat, k: nat) {
    exists c :: 0 <= c < |s.calls| && s.calls[c].pid == pid && s.calls[c].ordinal == k
  }

  lemma {:induction false} HasCallLater(s: State, s': State, pid: nat, k: nat)
    requires HasCall(s, pid, k) && Extends(s, s')
    ensures HasCall(s', pid, k)
  {
    var c :| 0 <= c < |s.calls| && s.calls[c].pid == pid && s.calls[c].ordinal == k;
    assert s'.calls[c].pid == pid;
  }

  lemma {:induction false} QuietNumbers(s: State, s': State)
    requires Numbered(s) && Extends(s, s') && |s'.calls| == |s.calls| && s'.drawn == s.drawn
    ensures Numbered(s')
  {
    hide HasCall;
    forall pid, k | 1 <= k <= Drawn(s', pid)
      ensures HasCall(s', pid, k)
    {
      HasCallLater(s, s', pid, k);
    }
  }

  lemma {:induction false} StartNumbers(cfg: Config, s: State, pid: nat, payload: Bytes, budget: int)
    requires Numbered(s)
    ensures Numbered(StartStep(cfg, s, pid, payload, budget))
  {
    hide Name, HasCall;
    var s' := StartStep(cfg, s, pid, payload, budget);
    StepExtends(cfg, s, Start(pid, payload, budget));
    if s' != s {
      forall p, k | 1 <= k <= Drawn(s', p)
        ensures HasCall(s', p, k)
      {
        if k <= Drawn(s, p) {
          HasCallLater(s, s', p, k);
        } else {
          LastHasCall(s', p, k);
        }
      }
    }
  }

  lemma {:induction false} OnlyStartDraws(cfg: Config, s: State, a: Action)
    requires !a.Start?
    ensures |Step(cfg, s, a).calls| == |s.calls| && Step(cfg, s, a).drawn == s.drawn
  {
    hide Name, Posted, Cleared, Answered, Answers, Request, Response, HasAnswer, CanPost;
  }

  lemma {:induction false} StepNumbers(cfg: Config, s: State, a: Action)
    requires Numbered(s)
    ensures Numbered(Step(cfg, s, a))
  {
    match a
    case Start(pid, payload, budget) => StartNumbers(cfg, s, pid, payload, budget);
    case _ =>
      OnlyStartDraws(cfg, s, a);
      StepExtends(cfg, s, a);
      hide Step, Numbered, Extends;
      QuietNumbers(s, Step(cfg, s, a));
  }

  lemma {:induction false} LastHasCall(s: State, pid: nat, k: nat)
    requires s.calls != [] && s.calls[|s.calls| - 1].pid == pid && s.calls[|s.calls| - 1].ordinal == k
    ensures HasCall(s, pid, k)
  {
  }

  lemma {:induction false} CallsAreNumbered(cfg: Config, workers: nat, actions: seq<Action>)
    ensures Numbered(Run(cfg, workers, actions))
    decreases |actions|
  {
    hide Step;
    if actions != [] {
      hide Numbered;
      CallsAreNumbered(cfg, workers, actions[..|actions| - 1]);
      StepNumbers(cfg, Run(cfg, workers, actions[..|actions| - 1]), actions[|actions| - 1]);
    }
  }

  /** How many calls a process can make before a name comes up again. */
  function NameSupply(cfg: Config): nat {
    if cfg.naming.PerCall? then COUNTER_RANGE else 1
  }

  lemma {:induction false} FewCallsDistinct(cfg: Config, s: State)
    requires Numbered(s) && forall pid :: Drawn(s, pid) <= NameSupply(cfg)
    ensures NamesDistinct(cfg, s)
  {
    hide HasCall, ClientName;
    forall b, c | 0 <= b < c < |s.calls|
      ensures Name(cfg, s.calls[b]) != Name(cfg, s.calls[c])
    {
      var x, y := s.calls[b], s.calls[c];
      assert x.pid == y.pid ==> x.ordinal != y.ordinal;
      assert x.ordinal <= Drawn(s, x.pid) <= NameSupply(cfg) && y.ordinal <= Drawn(s, y.pid) <= NameSupply(cfg);
      NamesDiffer(cfg, x.pid, x.ordinal % COUNTER_RANGE, y.pid, y.ordinal % COUNTER_RANGE);
    }
  }

  lemma {:induction false} ManyCallsClash(cfg: Config, s: State, pid: nat)
    requires Numbered(s) && Drawn(s, pid) > NameSupply(cfg)
    ensures !NamesDistinct(cfg, s)
  {
    assert HasCall(s, pid, 1) && HasCall(s, pid, 1 + NameSupply(cfg));
    var b :| 0 <= b < |s.calls| && s.calls[b].pid == pid && s.calls[b].ordinal == 1;
    var c :| 0 <= c < |s.calls| && s.calls[c].pid == pid && s.calls[c].ordinal == 1 + NameSupply(cfg);
    hide Numbered, HasCall;
    NamesDiffer(cfg, pid, 1, pid, (1 + NameSupply(cfg)) % COUNTER_RANGE);
    assert Name(cfg, s.calls[b]) == Name(cfg, s.calls[c]);
  }

  /** The names of a run are distinct exactly when no process made more calls than there are names for it:
      2^32 with the counter, one without. */
  lemma {:induction false} NamesDistinctExactly(cfg: Config, workers: nat, actions: seq<Action>)
    ensures var s := Run(cfg, workers, actions);
      NamesDistinct(cfg, s) <==> forall pid :: Drawn(s, pid) <= NameSupply(cfg)
  {
    var s := Run(cfg, workers, actions);
    hide Run, NamesDistinct, Numbered;
    CallsAreNumbered(cfg, workers, actions);
    if pid :| Drawn(s, pid) > NameSupply(cfg) {
      ManyCallsClash(cfg, s, pid);
    } else {
      FewCallsDistinct(cfg, s);
    }
  }

  lemma {:induction false} RunMore(cfg: Config, workers: nat, actions: seq<Action>, a: Action)
    ensures Run(cfg, workers, actions + [a]) == Step(cfg, Run(cfg, workers, actions), a)
  {
    assert (actions + [a])[..|actions|] == actions;
  }

  lemma {:induction false} FirstStart(cfg: Config, p: nat, a: Bytes)
    requires cfg.naming.PerProcess? && |a| <= INLINE_BYTES
    ensures StartStep(cfg, Initial(1), p, a, 1) ==
      Initial(1).(drawn := map[p := 1], calls := [Call(p, 1, a, 1, 0, Posting)],
                  slots := map[ClientName(cfg, p, 0) := Blank()])
  {
    assert Name(cfg, Call(p, 1, a, 1, 0, Posting)) == ClientName(cfg, p, 0);
    hide Name, ClientName, Blank;
  }

  lemma {:induction false} FirstPost(cfg: Config, s: State, p: nat, a: Bytes)
    requires cfg.naming.PerProcess? && |a| <= INLINE_BYTES && CanPost(s.server)
    requires s.calls == [Call(p, 1, a, 1, 0, Posting)] && s.posted == []
    ensures TryPostStep(cfg, s, 0, true) ==
      s.(server := Posted(s.server, ClientName(cfg, p, 0), p, a, 0), posted := [0],
         calls := [Call(p, 1, a, 1, 0, Waiting)])
  {
    assert Name(cfg, s.calls[0]) == ClientName(cfg, p, 0);
    hide Name, ClientName, Posted, CanPost;
  }

  lemma {:induction false} FirstPoll(s: State, d: Data, name: string, p: nat, a: Bytes)
    requires |a| <= INLINE_BYTES && d.isInit && s.server == Posted(d, name, p, a, 0) && s.queue == []
    ensures var s' := PollStep(s, true);
      s' == s.(server := s'.server, queue := [s.server]) && CanPost(s'.server) && AsksFor(s.server, name, a, 0)
  {
    CopiesAreExact(d, Blank(), a, Silent(0), name, p, 0);
    hide Request;
  }

  /** A first call that posts and has its request queued. */
  lemma {:induction false} QueuedCall(cfg: Config, p: nat, a: Bytes) returns (actions: seq<Action>)
    requires cfg.naming.PerProcess? && |a| <= INLINE_BYTES
    ensures var s := Run(cfg, 1, actions); var name := ClientName(cfg, p, 0);
      && s.calls == [Call(p, 1, a, 1, 0, Waiting)] && s.drawn == map[p := 1] && s.slots == map[name := Blank()]
      && CanPost(s.server) && s.workers == [Idle] && !s.stopped && s.posted == [0] && s.taken == [] && |s.queue| == 1
      && AsksFor(s.queue[0], name, a, 0)
  {
    hide ClientName, Posted, AsksFor, StartStep, TryPostStep, PollStep;
    var s0 := Initial(1);
    FirstStart(cfg, p, a);
    var s1 := StartStep(cfg, s0, p, a, 1);
    FirstPost(cfg, s1, p, a);
    var s2 := TryPostStep(cfg, s1, 0, true);
    FirstPoll(s2, s1.server, ClientName(cfg, p, 0), p, a);
    assert Run(cfg, 1, []) == s0;
    hide Run;
    RunMore(cfg, 1, [], Start(p, a, 1));
    RunMore(cfg, 1, [] + [Start(p, a, 1)], TryPost(0, true));
    RunMore(cfg, 1, [] + [Start(p, a, 1)] + [TryPost(0, true)], PollServer(true));
    actions := [] + [Start(p, a, 1)] + [TryPost(0, true)] + [PollServer(true)];
  }

  /** And times out. */
  lemma {:induction false} FirstCall(cfg: Config, p: nat, a: Bytes) returns (actions: seq<Action>)
    requires cfg.naming.PerProcess? && |a| <= INLINE_BYTES
    ensures var s := Run(cfg, 1, actions);
      && s.calls == [Call(p, 1, a, 1, 1, TimedOut)] && s.drawn == map[p := 1] && s.slots == map[] && CanPost(s.server)
      && s.workers == [Idle] && !s.stopped && s.posted == [0] && s.taken == [] && |s.queue| == 1
      && AsksFor(s.queue[0], ClientName(cfg, p, 0), a, 0)
  {
    var name := ClientName(cfg, p, 0);
    assert forall call: Call :: call.pid == p ==> Name(cfg, call) == name;
    hide Name, ClientName, AsksFor;
    actions := QueuedCall(cfg, p, a);
    var s3 := Run(cfg, 1, actions);
    RunMore(cfg, 1, actions, TryReceive(0, false));
    RunMore(cfg, 1, actions + [TryReceive(0, false)], TryReceive(0, false));
    hide Run;
    var s4 := Step(cfg, s3, TryReceive(0, false));
    assert s4.calls == [Call(p, 1, a, 1, 1, Waiting)];
    var s5 := Step(cfg, s4, TryReceive(0, false));
    assert s5.calls == [Call(p, 1, a, 1, 1, TimedOut)] && s5.slots == map[];
    actions := actions + [TryReceive(0, false)] + [TryReceive(0, false)];
  }

  predicate AsksFor(item: Data, sender: string, payload: Bytes, tag: nat) {
    && item.hasRequest && item.needResponse && item.sender == sender && item.tag == tag
    && item.requestSize <= INLINE_BYTES && Request(item) == payload
  }

  /** And then a second one of the same process that posts. */
  lemma {:induction false} TimedOutCall(cfg: Config, p: nat, a: Bytes, b: Bytes) returns (actions: seq<Action>)
    requires cfg.naming.PerProcess? && |a| <= INLINE_BYTES && |b| <= INLINE_BYTES
    ensures var s := Run(cfg, 1, actions); var name := ClientName(cfg, p, 0);
      && s.calls == [Call(p, 1, a, 1, 1, TimedOut), Call(p, 2, b, 1, 0, Waiting)]
      && s.slots == map[name := Blank()] && s.workers == [Idle] && !s.stopped
      && |s.queue| == 1 && s.posted == [0, 1] && s.taken == [] && AsksFor(s.queue[0], name, a, 0)
  {
    var name := ClientName(cfg, p, 0);
    assert forall call: Call :: call.pid == p ==> Name(cfg, call) == name;
    hide Name, ClientName, AsksFor;
    actions := FirstCall(cfg, p, a);
    var s5 := Run(cfg, 1, actions);
    RunMore(cfg, 1, actions, Start(p, b, 1));
    RunMore(cfg, 1, actions + [Start(p, b, 1)], TryPost(1, true));
    hide Run;
    var s6 := Step(cfg, s5, Start(p, b, 1));
    assert s6.slots == map[name := Blank()] && s6.calls == s5.calls + [Call(p, 2, b, 1, 0, Posting)];
    actions := actions + [Start(p, b, 1)] + [TryPost(1, true)];
  }

  /** With names by process, the late answer to a timed-out call reaches the next call of the process:
      it returns true with the answer to the first call's bytes. */
  lemma {:induction false} MisroutedByProcess(cfg: Config, p: nat, a: Bytes, b: Bytes) returns (actions: seq<Action>)
    requires cfg.naming.PerProcess? && |a| <= INLINE_BYTES && |b| <= INLINE_BYTES && cfg.callback(a).Reply?
    ensures var s := Run(cfg, 1, actions);
      && |s.calls| == |s.posted| == 2 && s.calls[0].payload == a && s.calls[1].payload == b
      && s.calls[1].phase == Succeeded(cfg.callback(a).bytes, 0) && s.posted[0] == 0
  {
    var start := TimedOutCall(cfg, p, a, b);
    var name := ClientName(cfg, p, 0);
    assert forall call: Call :: call.pid == p ==> Name(cfg, call) == name;
    hide Name, Run;
    var s := Run(cfg, 1, start);
    var item, outcome := s.queue[0], cfg.callback(a);
    CopiesAreExact(Blank(), Blank(), [], outcome, cfg.server, cfg.serverPid, 0);
    hide ClientName;
    var s1 := Step(cfg, s, Take(0));
    assert s1.workers == [Loaded(item)];
    var s2 := Step(cfg, s1, CallBack(0, false));
    assert s2.workers == [Called(item, outcome)];
    var s3 := Step(cfg, s2, Answer(0, true));
    assert s3.slots[name] == Answered(Blank(), cfg.server, cfg.serverPid, outcome, 0);
    RunMore(cfg, 1, start, Take(0));
    RunMore(cfg, 1, start + [Take(0)], CallBack(0, false));
    RunMore(cfg, 1, start + [Take(0)] + [CallBack(0, false)], Answer(0, true));
    actions := start + [Take(0)] + [CallBack(0, false)] + [Answer(0, true)];
    RunMore(cfg, 1, actions, TryReceive(1, true));
    actions := actions + [TryReceive(1, true)];
  }
}
