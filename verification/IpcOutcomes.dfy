/**
How attempts and calls of the shared-memory protocol end, told from the actions of a run and from the bytes in the
channels: the budget of a call, what a poll drops, how long a channel lives, and what is left to do after a stop.
*/
module IpcOutcomes {

  import opened IpcData
  import opened IpcProtocol
  import opened IpcRouting

  // ----- The budget, counted in the failed attempts of a run

  /** The last action was an attempt of call c to post, and the call is still posting. */
  predicate PostFails(s: State, s': State, a: Action, c: nat) {
    && c < |s.calls| && c < |s'.calls| && a.TryPost? && a.c == c
    && s.calls[c].phase.Posting? && s'.calls[c].phase.Posting?
  }

  predicate ReceiveFails(s: State, s': State, a: Action, c: nat) {
    && c < |s.calls| && c < |s'.calls| && a.TryReceive? && a.c == c
    && s.calls[c].phase.Waiting? && s'.calls[c].phase.Waiting?
  }

  function PostFailures(cfg: Config, workers: nat, actions: seq<Action>, c: nat): nat {
    if actions == [] then 0
    else
      var before, a := actions[..|actions| - 1], actions[|actions| - 1];
      PostFailures(cfg, workers, before, c)
      + if PostFails(Run(cfg, workers, before), Run(cfg, workers, actions), a, c) then 1 else 0
  }

  function ReceiveFailures(cfg: Config, workers: nat, actions: seq<Action>, c: nat): nat {
    if actions == [] then 0
    else
      var before, a := actions[..|actions| - 1], actions[|actions| - 1];
      ReceiveFailures(cfg, workers, before, c)
      + if ReceiveFails(Run(cfg, workers, before), Run(cfg, workers, actions), a, c) then 1 else 0
  }

  /** The failures that count against the budget: both loops share it, or each has it anew. */
  function Spent(naming: Naming, posted: bool, postFailures: nat, receiveFailures: nat): nat {
    match naming
    case PerCall => postFailures + receiveFailures
    case PerProcess => if posted then receiveFailures else postFailures
  }

  /** A call that did not time out has not used up its budget before an attempt; one that did has, exactly. */
  predicate WithinBudget(naming: Naming, call: Call, posted: bool, p: nat, r: nat) {
    var budget := if call.budget < 0 then 0 else call.budget;
    && (posted ==> p < budget)
    && (posted <== call.phase.Waiting? || call.phase.Succeeded?)
    && (!posted ==> r == 0)
    && (posted ==> !call.phase.Posting?)
    && match call.phase
       case Posting => p <= budget
       case Waiting => Spent(naming, posted, p, r) <= budget
       case Succeeded(_, _) => Spent(naming, posted, p, r) < budget
       case TimedOut => Spent(naming, posted, p, r) == budget
  }

  /** The counter of the call is the number of the failures that count. */
  predicate Tallied(naming: Naming, call: Call, posted: bool, p: nat, r: nat) {
    && WithinBudget(naming, call, posted, p, r)
    && (call.phase.Posting? || call.phase.Waiting? ==> call.polls == Spent(naming, posted, p, r))
  }

  predicate TalliedIn(cfg: Config, s: State, c: nat, p: nat, r: nat) {
    if c < |s.calls| then Tallied(cfg.naming, s.calls[c], c in s.posted, p, r) else p == r == 0
  }

  function One(b: bool): nat {
    if b then 1 else 0
  }

  lemma {:induction false} PostTallied(cfg: Config, s: State, b: nat, isOpen: bool, c: nat, p: nat, r: nat)
    requires TalliedIn(cfg, s, c, p, r)
    ensures var s' := TryPostStep(cfg, s, b, isOpen);
      TalliedIn(cfg, s', c, p + One(PostFails(s, s', TryPost(b, isOpen), c)), r)
  {
    hide Name, Posted, CanPost;
  }

  lemma {:induction false} ReceiveTallied(cfg: Config, s: State, b: nat, isOpen: bool, c: nat, p: nat, r: nat)
    requires TalliedIn(cfg, s, c, p, r)
    ensures var s' := TryReceiveStep(cfg, s, b, isOpen);
      TalliedIn(cfg, s', c, p, r + One(ReceiveFails(s, s', TryReceive(b, isOpen), c)))
  {
    hide Name, Response, HasAnswer;
  }

  lemma {:induction false} OthersTallied(cfg: Config, s: State, a: Action, c: nat, p: nat, r: nat)
    requires PostedOnce(s) && TalliedIn(cfg, s, c, p, r) && !a.TryPost? && !a.TryReceive?
    ensures TalliedIn(cfg, Step(cfg, s, a), c, p, r)
  {
    hide Name, Cleared, Answered, Answers, Request, TryPostStep, TryReceiveStep;
  }

  lemma {:induction false} StepTallied(cfg: Config, s: State, a: Action, c: nat, p: nat, r: nat)
    requires PostedOnce(s) && TalliedIn(cfg, s, c, p, r)
    ensures var s' := Step(cfg, s, a);
      TalliedIn(cfg, s', c, p + One(PostFails(s, s', a, c)), r + One(ReceiveFails(s, s', a, c)))
  {
    hide TalliedIn, TryPostStep, TryReceiveStep, PostedOnce;
    match a
    case TryPost(b, isOpen) => PostTallied(cfg, s, b, isOpen, c, p, r);
    case TryReceive(b, isOpen) => ReceiveTallied(cfg, s, b, isOpen, c, p, r);
    case _ => OthersTallied(cfg, s, a, c, p, r);
  }

  lemma {:induction false} AlwaysTallied(cfg: Config, workers: nat, actions: seq<Action>, c: nat)
    ensures TalliedIn(cfg, Run(cfg, workers, actions), c,
                      PostFailures(cfg, workers, actions, c), ReceiveFailures(cfg, workers, actions, c))
  {
    hide Step, PostedOnce, PostFails, ReceiveFails;
    if actions != [] {
      hide TalliedIn;
      var before, a := actions[..|actions| - 1], actions[|actions| - 1];
      AlwaysTallied(cfg, workers, before, c);
      PostsAtMostOnce(cfg, workers, before);
      var p, r := PostFailures(cfg, workers, before, c), ReceiveFailures(cfg, workers, before, c);
      StepTallied(cfg, Run(cfg, workers, before), a, c, p, r);
    }
  }

  /** In every run the failed attempts of a call keep within its budget, and reach it when the call times out. */
  lemma {:induction false} BudgetKept(cfg: Config, workers: nat, actions: seq<Action>, c: nat)
    requires c < |Run(cfg, workers, actions).calls|
    ensures var s := Run(cfg, workers, actions);
      WithinBudget(cfg.naming, s.calls[c], c in s.posted,
                   PostFailures(cfg, workers, actions, c), ReceiveFailures(cfg, workers, actions, c))
  {
    hide Run, PostFailures, ReceiveFailures, WithinBudget;
    AlwaysTallied(cfg, workers, actions, c);
  }

  predicate AttemptOf(a: Action, call: Call, c: nat) {
    (a.TryPost? && a.c == c && call.phase.Posting?) || (a.TryReceive? && a.c == c && call.phase.Waiting?)
  }

  /**
  An attempt ends the call without success exactly when the failures that count have reached its budget: with a
  counter for each call those of both loops together, and by process those of the loop that the call is in.
  */
  lemma {:induction false} TimesOutExactly(cfg: Config, workers: nat, actions: seq<Action>, a: Action, c: nat)
    requires c < |Run(cfg, workers, actions).calls| && AttemptOf(a, Run(cfg, workers, actions).calls[c], c)
    ensures var s, s' := Run(cfg, workers, actions), Run(cfg, workers, actions + [a]);
      var p, r := PostFailures(cfg, workers, actions, c), ReceiveFailures(cfg, workers, actions, c);
      && c < |s'.calls|
      && (s'.calls[c].phase.TimedOut? <==>
          s.calls[c].budget <=
            match cfg.naming
            case PerCall => p + r
            case PerProcess => if s.calls[c].phase.Posting? then p else r)
  {
    hide Run, PostFailures, ReceiveFailures;
    AlwaysTallied(cfg, workers, actions, c);
    RunMore(cfg, workers, actions, a);
    var s := Run(cfg, workers, actions);
    hide Step;
    AttemptTimesOut(cfg, s, a, c);
  }

  lemma {:induction false} AttemptTimesOut(cfg: Config, s: State, a: Action, c: nat)
    requires c < |s.calls| && AttemptOf(a, s.calls[c], c)
    ensures var s' := Step(cfg, s, a);
      c < |s'.calls| && (s'.calls[c].phase.TimedOut? <==> s.calls[c].budget <= s.calls[c].polls)
  {
    hide Name, Posted, CanPost, Response, HasAnswer;
  }

  // ----- When an attempt succeeds

  /** An attempt to post succeeds exactly when the slot can be opened and is free; then it holds the request. */
  lemma {:induction false} PostsExactly(cfg: Config, workers: nat, actions: seq<Action>, c: nat, isOpen: bool)
    requires c < |Run(cfg, workers, actions).calls| && Run(cfg, workers, actions).calls[c].phase.Posting?
    requires !Run(cfg, workers, actions + [TryPost(c, isOpen)]).calls[c].phase.TimedOut?
    ensures var s, s' := Run(cfg, workers, actions), Run(cfg, workers, actions + [TryPost(c, isOpen)]);
      if isOpen && !s.server.hasRequest then
        && s'.calls[c].phase.Waiting? && s'.posted == s.posted + [c]
        && s'.server.hasRequest && Request(s'.server) == s.calls[c].payload && s'.server.tag == |s.posted|
        && s'.server.sender == Name(cfg, s.calls[c]) && s'.server.senderPid == s.calls[c].pid
        && s'.server.needResponse && !s'.server.hasResponse
      else
        s'.calls[c].phase.Posting? && s'.posted == s.posted && s'.server == s.server
  {
    hide Run;
    RunMore(cfg, workers, actions, TryPost(c, isOpen));
    AlwaysReady(cfg, workers, actions);
    hide Name;
  }

  /** An attempt to receive succeeds exactly when the channel can be opened and holds an answer, and takes it. */
  lemma {:induction false} ReceivesExactly(cfg: Config, workers: nat, actions: seq<Action>, c: nat, isOpen: bool)
    requires c < |Run(cfg, workers, actions).calls| && Run(cfg, workers, actions).calls[c].phase.Waiting?
    requires !Run(cfg, workers, actions + [TryReceive(c, isOpen)]).calls[c].phase.TimedOut?
    ensures var s, s' := Run(cfg, workers, actions), Run(cfg, workers, actions + [TryReceive(c, isOpen)]);
      var name := Name(cfg, s.calls[c]);
      if isOpen && name in s.slots && !s.slots[name].hasRequest && s.slots[name].hasResponse then
        && s.slots[name].responseSize <= INLINE_BYTES
        && s'.calls[c].phase == Succeeded(Response(s.slots[name]), s.slots[name].tag) && name !in s'.slots
      else
        s'.calls[c].phase.Waiting? && s'.slots == s.slots
  {
    hide Run;
    RunMore(cfg, workers, actions, TryReceive(c, isOpen));
    Routing(cfg, workers, actions);
    hide Name, AnswerFor, Response;
  }

  /** A worker that has run the callback answers exactly when the channel is there and can be opened, and the
      callback did not leave a size without data. No other channel changes, and the worker is free again. */
  lemma {:induction false} AnswersExactly(cfg: Config, workers: nat, actions: seq<Action>, w: nat, isOpen: bool)
    requires w < |Run(cfg, workers, actions).workers| && Run(cfg, workers, actions).workers[w].Called?
    ensures var s, s' := Run(cfg, workers, actions), Run(cfg, workers, actions + [Answer(w, isOpen)]);
      var Called(item, outcome) := s.workers[w];
      && s'.workers == s.workers[w := Idle] && s'.slots.Keys == s.slots.Keys
      && (forall n :: n in s.slots && n != item.sender ==> s'.slots[n] == s.slots[n])
      && (item.sender in s.slots ==>
          var d, d' := s.slots[item.sender], s'.slots[item.sender];
          if isOpen && (outcome.Reply? || outcome.size == 0) then
            && d'.hasResponse && !d'.hasRequest && d'.isInit && d'.tag == item.tag
            && d'.sender == cfg.server && d'.senderPid == cfg.serverPid && d'.reqData == d.reqData
            && d'.responseSize <= INLINE_BYTES && Response(d') == if outcome.Reply? then outcome.bytes else []
          else d' == d)
  {
    hide Run;
    RunMore(cfg, workers, actions, Answer(w, isOpen));
    AtMostOnce(cfg, workers, actions);
    var s := Run(cfg, workers, actions);
    assert Carries(cfg, s, s.workers[w].item) by { ServedHands(cfg, s); }
    hide Served, Name, Request;
  }

  /** A request that wants no answer gets none. */
  lemma {:induction false} NoAnswerUnasked(cfg: Config, s: State, w: nat, isOpen: bool)
    requires w < |s.workers| && s.workers[w].Called? && !s.workers[w].item.needResponse
    ensures AnswerStep(cfg, s, w, isOpen) == s.(workers := s.workers[w := Idle])
  {
  }

  // ----- What a poll drops

  predicate PollsDead(s: State, a: Action, tag: nat) {
    a == PollServer(false) && s.server.hasRequest && s.server.tag == tag
  }

  ghost predicate PolledDead(cfg: Config, workers: nat, actions: seq<Action>, tag: nat) {
    exists k :: 0 <= k < |actions| && PollsDead(Run(cfg, workers, actions[..k]), actions[k], tag)
  }

  lemma {:induction false} StepDrops(cfg: Config, s: State, a: Action, tag: nat)
    ensures tag in Step(cfg, s, a).dropped <==> tag in s.dropped || PollsDead(s, a, tag)
  {
    hide Name, Posted, Answered, Answers, Request, Response, HasAnswer, CanPost;
  }

  /** Dropped are exactly the requests that stood in the slot as it was polled with their sender dead. */
  lemma {:induction false} DroppedExactly(cfg: Config, workers: nat, actions: seq<Action>, tag: nat)
    ensures tag in Run(cfg, workers, actions).dropped <==> PolledDead(cfg, workers, actions, tag)
  {
    hide Step, PollsDead;
    if actions != [] {
      var m := |actions| - 1;
      var before := actions[..m];
      DroppedExactly(cfg, workers, before, tag);
      StepDrops(cfg, Run(cfg, workers, before), actions[m], tag);
      hide Run;
      assert forall k :: 0 <= k < m ==> before[..k] == actions[..k];
    }
  }

  /** They never reach the callback, nor the queue. */
  lemma {:induction false} DroppedIsGone(cfg: Config, workers: nat, actions: seq<Action>, tag: nat)
    requires PolledDead(cfg, workers, actions, tag)
    ensures var s := Run(cfg, workers, actions);
      && !WasCalled(s.called, tag) && !WasTaken(s.taken, tag)
      && (forall i :: 0 <= i < |s.queue| ==> s.queue[i].tag != tag)
      && !(s.server.hasRequest && s.server.tag == tag)
  {
    hide Run;
    DroppedExactly(cfg, workers, actions, tag);
    Conservation(cfg, workers, actions);
    AtMostOnce(cfg, workers, actions);
    NotInPipeline(cfg, Run(cfg, workers, actions), tag);
  }

  lemma {:induction false} TagsHold(items: seq<Data>, tag: nat)
    ensures tag in Tags(items) <==> exists i :: 0 <= i < |items| && items[i].tag == tag
  {
    if i :| 0 <= i < |items| && items[i].tag == tag {
      assert Tags(items)[i] == tag;
    }
  }

  lemma {:induction false} PipelineParts(s: State, tag: nat)
    requires tag !in Tags(Pipeline(s))
    ensures tag !in Tags(s.taken) && tag !in Tags(s.queue) && !(s.server.hasRequest && s.server.tag == tag)
  {
    var last := if s.server.hasRequest then [s.server] else [];
    TagsOfSum(s.taken + s.queue, last);
    TagsOfSum(s.taken, s.queue);
    TagsHold(last, tag);
    hide Tags;
    assert s.server.hasRequest ==> last[0] == s.server;
  }

  lemma {:induction false} NotInPipeline(cfg: Config, s: State, tag: nat)
    requires Conserved(cfg, s) && CalledOnce(s) && tag in s.dropped
    ensures !WasCalled(s.called, tag) && !WasTaken(s.taken, tag)
    ensures forall i :: 0 <= i < |s.queue| ==> s.queue[i].tag != tag
    ensures !(s.server.hasRequest && s.server.tag == tag)
  {
    hide Carries, Pipeline, Tags;
    SurvivorsSorted(|s.posted|, s.dropped);
    PipelineParts(s, tag);
    TagsHold(s.queue, tag);
  }

  /** A poll is what the polling section does to the slot and the queue. */
  lemma {:induction false} PollIsSection(s: State, senderAlive: bool)
    ensures var s' := PollStep(s, senderAlive);
      && s'.server == (if s.server.hasRequest then Cleared(s.server) else s.server)
      && s'.queue == s.queue + (if s.server.hasRequest && senderAlive then [s.server] else [])
      && s'.calls == s.calls && s'.workers == s.workers && s'.slots == s.slots && s'.posted == s.posted
      && (s.server.hasRequest ==>
          && !s'.server.hasRequest && !s'.server.hasResponse && !s'.server.needResponse && s'.server.senderPid == 0
          && s'.server.isInit == s.server.isInit && s'.server.reqData == s.server.reqData)
  {
  }

  // ----- How long a channel lives

  ghost predicate ChannelsLive(cfg: Config, s: State) {
    forall c :: 0 <= c < |s.calls| ==> (Name(cfg, s.calls[c]) in s.slots <==> Live(s.calls[c]))
  }

  lemma {:induction false} DistinctBefore(cfg: Config, s: State, s': State)
    requires Extends(s, s') && NamesDistinct(cfg, s')
    ensures NamesDistinct(cfg, s)
  {
    hide Name;
    forall b, c | 0 <= b < c < |s.calls|
      ensures Name(cfg, s.calls[b]) != Name(cfg, s.calls[c])
    {
      SameName(cfg, s, s', b);
      SameName(cfg, s, s', c);
    }
  }

  lemma {:induction false} FinishedLives(cfg: Config, s: State, c: nat, phase: Phase)
    requires ChannelsLive(cfg, s) && NamesDistinct(cfg, s) && c < |s.calls| && (phase.TimedOut? || phase.Succeeded?)
    ensures ChannelsLive(cfg, Finished(cfg, s, c, phase))
  {
    var s' := Finished(cfg, s, c, phase);
    forall b | 0 <= b < |s.calls|
      ensures Name(cfg, s'.calls[b]) in s'.slots <==> Live(s'.calls[b])
    {
      assert Name(cfg, s'.calls[b]) == Name(cfg, s.calls[b]);
      assert b != c ==> Name(cfg, s.calls[b]) != Name(cfg, s.calls[c]);
    }
  }

  /** Calls keep their names and whether they run, and channels stay. */
  lemma {:induction false} QuietLives(cfg: Config, s: State, s': State)
    requires ChannelsLive(cfg, s) && Extends(s, s') && |s'.calls| == |s.calls| && s'.slots.Keys == s.slots.Keys
    requires forall c :: 0 <= c < |s.calls| ==> (Live(s'.calls[c]) <==> Live(s.calls[c]))
    ensures ChannelsLive(cfg, s')
  {
    hide Name, Live;
    forall c | 0 <= c < |s.calls|
      ensures Name(cfg, s'.calls[c]) in s'.slots <==> Live(s'.calls[c])
    {
      SameName(cfg, s, s', c);
    }
  }

  lemma {:induction false} StartLives(cfg: Config, s: State, pid: nat, payload: Bytes, budget: int)
    requires ChannelsLive(cfg, s) && NamesDistinct(cfg, StartStep(cfg, s, pid, payload, budget))
    ensures ChannelsLive(cfg, StartStep(cfg, s, pid, payload, budget))
  {
    hide Name;
    var s', n := StartStep(cfg, s, pid, payload, budget), |s.calls|;
    forall c | 0 <= c < |s'.calls|
      ensures Name(cfg, s'.calls[c]) in s'.slots <==> Live(s'.calls[c])
    {
      if c < n {
        assert s'.calls[c] == s.calls[c];
        assert |s'.calls| > n ==> Name(cfg, s'.calls[c]) != Name(cfg, s'.calls[n]);
      }
    }
  }

  lemma {:induction false} PostLives(cfg: Config, s: State, c: nat, isOpen: bool)
    requires ChannelsLive(cfg, s) && NamesDistinct(cfg, s)
    ensures ChannelsLive(cfg, TryPostStep(cfg, s, c, isOpen))
  {
    hide ChannelsLive, NamesDistinct, Name, Finished, CanPost, Posted;
    if c < |s.calls| && s.calls[c].phase.Posting? {
      if s.calls[c].polls >= s.calls[c].budget {
        FinishedLives(cfg, s, c, TimedOut);
      } else {
        PostExtends(cfg, s, c, isOpen);
        QuietLives(cfg, s, TryPostStep(cfg, s, c, isOpen));
      }
    }
  }

  lemma {:induction false} ReceiveLives(cfg: Config, s: State, c: nat, isOpen: bool)
    requires ChannelsLive(cfg, s) && NamesDistinct(cfg, s)
    ensures ChannelsLive(cfg, TryReceiveStep(cfg, s, c, isOpen))
  {
    hide ChannelsLive, NamesDistinct, Name, Finished, Response, HasAnswer;
    if c < |s.calls| && s.calls[c].phase.Waiting? {
      var s' := TryReceiveStep(cfg, s, c, isOpen);
      var name := Name(cfg, s.calls[c]);
      if s.calls[c].polls >= s.calls[c].budget {
        FinishedLives(cfg, s, c, TimedOut);
      } else if s' == Retried(s, c) {
        ReceiveExtends(cfg, s, c, isOpen);
        QuietLives(cfg, s, s');
      } else {
        FinishedLives(cfg, s, c, Succeeded(Response(s.slots[name]), s.slots[name].tag));
      }
    }
  }

  lemma {:induction false} OthersLive(cfg: Config, s: State, a: Action)
    requires ChannelsLive(cfg, s) && !a.Start? && !a.TryPost? && !a.TryReceive?
    ensures ChannelsLive(cfg, Step(cfg, s, a))
  {
    hide ChannelsLive, Name, Cleared, Answered, Answers, Request, TryPostStep, TryReceiveStep, StartStep, Extends;
    StepExtends(cfg, s, a);
    assert Step(cfg, s, a).slots.Keys == s.slots.Keys;
    QuietLives(cfg, s, Step(cfg, s, a));
  }

  lemma {:induction false} StepLives(cfg: Config, s: State, a: Action)
    requires ChannelsLive(cfg, s) && NamesDistinct(cfg, Step(cfg, s, a))
    ensures ChannelsLive(cfg, Step(cfg, s, a))
  {
    hide ChannelsLive, NamesDistinct, TryPostStep, TryReceiveStep, StartStep, Extends;
    StepExtends(cfg, s, a);
    DistinctBefore(cfg, s, Step(cfg, s, a));
    match a
    case Start(pid, payload, budget) => StartLives(cfg, s, pid, payload, budget);
    case TryPost(c, isOpen) => PostLives(cfg, s, c, isOpen);
    case TryReceive(c, isOpen) => ReceiveLives(cfg, s, c, isOpen);
    case _ => OthersLive(cfg, s, a);
  }

  /** With distinct names a channel is there exactly while its call runs. */
  lemma {:induction false} ChannelWhileRunning(cfg: Config, workers: nat, actions: seq<Action>, c: nat)
    requires var s := Run(cfg, workers, actions); NamesDistinct(cfg, s) && c < |s.calls|
    ensures var s := Run(cfg, workers, actions); Name(cfg, s.calls[c]) in s.slots <==> Live(s.calls[c])
  {
    AlwaysLive(cfg, workers, actions);
  }

  lemma {:induction false} AlwaysLive(cfg: Config, workers: nat, actions: seq<Action>)
    requires NamesDistinct(cfg, Run(cfg, workers, actions))
    ensures ChannelsLive(cfg, Run(cfg, workers, actions))
    decreases |actions|
  {
    hide Step, NamesDistinct;
    if actions != [] {
      hide ChannelsLive, Extends;
      var before, a := actions[..|actions| - 1], actions[|actions| - 1];
      StepExtends(cfg, Run(cfg, workers, before), a);
      DistinctBefore(cfg, Run(cfg, workers, before), Run(cfg, workers, actions));
      AlwaysLive(cfg, workers, before);
      StepLives(cfg, Run(cfg, workers, before), a);
    }
  }

  /** Only an answer changes what a channel holds; it is closed by the end of a call of its name, and opened blank. */
  lemma {:induction false} ChannelsKept(cfg: Config, s: State, a: Action, name: string)
    ensures var s' := Step(cfg, s, a);
      && (name in s.slots && name in s'.slots && s'.slots[name] != s.slots[name] ==> a.Answer?)
      && (name in s.slots && name !in s'.slots ==>
          (a.TryPost? || a.TryReceive?) && a.c < |s.calls| == |s'.calls|
          && Name(cfg, s.calls[a.c]) == name && Live(s.calls[a.c]) && !Live(s'.calls[a.c]))
      && (name !in s.slots && name in s'.slots ==> a.Start? && !HasAnswer(s'.slots[name]))
  {
    hide Name, Posted, Cleared, Answered, Answers, Request, Response, CanPost;
    if a.TryReceive? {
      hide HasAnswer;
    }
  }

  // ----- After a stop

  lemma {:induction false} StepStops(cfg: Config, s: State, a: Action)
    ensures var s' := Step(cfg, s, a);
      (s'.stopped <==> s.stopped || a.Stop?) && (s.stopped ==> s'.taken == s.taken)
  {
    hide Name, Posted, Cleared, Answered, Answers, Request, Response, HasAnswer, CanPost;
  }

  lemma {:induction false} StoppedExactly(cfg: Config, workers: nat, actions: seq<Action>)
    ensures Run(cfg, workers, actions).stopped <==> Stop in actions
  {
    hide Step;
    if actions != [] {
      var before, a := actions[..|actions| - 1], actions[|actions| - 1];
      StoppedExactly(cfg, workers, before);
      StepStops(cfg, Run(cfg, workers, before), a);
      assert Stop in actions <==> Stop in before || a == Stop by { assert actions == before + [a]; }
    }
  }

  /** Nothing is dequeued after a stop, and only what was dequeued before it can still reach the callback. */
  lemma {:induction false} NothingTakenAfterStop(
      cfg: Config, workers: nat, before: seq<Action>, more: seq<Action>, tag: nat)
    requires Stop in before
    ensures var s, s' := Run(cfg, workers, before), Run(cfg, workers, before + more);
      s'.taken == s.taken && (WasCalled(s'.called, tag) ==> WasTaken(s.taken, tag))
    decreases |more|
  {
    hide Run, Step, WasTaken;
    AtMostOnce(cfg, workers, before + more);
    if more == [] {
      assert before + more == before;
    } else {
      var front, a := more[..|more| - 1], more[|more| - 1];
      NothingTakenAfterStop(cfg, workers, before, front, tag);
      StoppedExactly(cfg, workers, before + front);
      StepStops(cfg, Run(cfg, workers, before + front), a);
      RunMore(cfg, workers, before + front, a);
      assert before + front + [a] == before + more;
    }
  }

  /** A worker that sees the stop leaves, with a request in hand or without, and does not run the callback. */
  lemma {:induction false} StopEndsWorkers(cfg: Config, s: State, w: nat)
    requires s.stopped && w < |s.workers|
    ensures s.workers[w].Loaded? ==> CallBackStep(cfg, s, w, true) == s.(workers := s.workers[w := Exited])
    ensures s.workers[w].Idle? ==> TakeStep(s, w) == s.(workers := s.workers[w := Exited])
  {
  }

  // ----- Names in full

  lemma {:induction false} DecimalOf(n: nat)
    requires n >= 10
    ensures Decimal(n) == Decimal(n / 10) + Decimal(n % 10)
  {
  }

  lemma {:induction false} Decimals()
    ensures Decimal(1234567890) == "1234567890"
  {
    hide Decimal;
    DecimalOf(1234567890);
    DecimalOf(123456789);
    DecimalOf(12345678);
    DecimalOf(1234567);
    DecimalOf(123456);
    DecimalOf(12345);
    DecimalOf(1234);
    DecimalOf(123);
    DecimalOf(12);
    OneDigits();
  }

  lemma {:induction false} OneDigits()
    ensures Decimal(0) == "0" && Decimal(1) == "1" && Decimal(2) == "2" && Decimal(3) == "3" && Decimal(4) == "4"
    ensures Decimal(5) == "5" && Decimal(6) == "6" && Decimal(7) == "7" && Decimal(8) == "8" && Decimal(9) == "9"
  {
  }

  /** Names in full: a counter, which wraps at 2^32, and a process number. */
  lemma {:induction false} NamesInFull(cfg: Config, call: Call)
    requires call.pid == 1234567890 && call.ordinal % 0x1_0000_0000 == 1234567890
    ensures Name(cfg, call) ==
      match cfg.naming
      case PerCall => cfg.server + "1234567890Client1234567890"
      case PerProcess => "/iMonSHM1234567890" + cfg.app
  {
    hide Decimal;
    Decimals();
    assert cfg.server + "1234567890" + "Client" + "1234567890" == cfg.server + "1234567890Client1234567890";
    assert "/iMonSHM" + "1234567890" == "/iMonSHM1234567890";
  }
}
