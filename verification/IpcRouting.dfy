/**
When an answer goes to the call that asked for it, whatever the channel names: exactly when no other call has
left an answer behind, or a request that is still on its way, under the name of the call.
*/
module IpcRouting {

  import opened IpcData
  import opened IpcProtocol

  // ----- Requests under way

  predicate InHands(s: State, w: nat, tag: nat) {
    w < |s.workers| && (s.workers[w].Loaded? || s.workers[w].Called?) && s.workers[w].item.tag == tag
  }

  /** The request is with a worker or, while the server is not stopped, in the slot or in the queue. */
  ghost predicate InPlay(s: State, tag: nat) {
    || (!s.stopped && s.server.hasRequest && s.server.tag == tag)
    || (!s.stopped && exists i :: 0 <= i < |s.queue| && s.queue[i].tag == tag)
    || (exists w :: InHands(s, w, tag))
  }

  /** The answer to the request lies in the channel. */
  predicate AnswerLies(s: State, name: string, tag: nat) {
    name in s.slots && HasAnswer(s.slots[name]) && s.slots[name].tag == tag
  }

  predicate Replies(outcome: Outcome) {
    outcome.Reply? || outcome.size == 0
  }

  /** A request posted under the name that the callback replies to. */
  predicate Asks(cfg: Config, s: State, name: string, tag: nat) {
    && tag < |s.posted| && s.posted[tag] < |s.calls|
    && Name(cfg, s.calls[s.posted[tag]]) == name && Replies(cfg.callback(s.calls[s.posted[tag]].payload))
  }

  /** The request is under way to an answer in the channel, or its answer is there. */
  ghost predicate Outstanding(cfg: Config, s: State, name: string, tag: nat) {
    Asks(cfg, s, name, tag) && (InPlay(s, tag) || AnswerLies(s, name, tag))
  }

  /** An outstanding request of another call under the name of call c. */
  ghost predicate Foreign(cfg: Config, s: State, c: nat, tag: nat) {
    c < |s.calls| && Outstanding(cfg, s, Name(cfg, s.calls[c]), tag) && s.posted[tag] != c
  }

  ghost predicate NoForeign(cfg: Config, s: State, c: nat) {
    forall tag :: !Foreign(cfg, s, c, tag)
  }

  predicate Live(call: Call) {
    call.phase.Posting? || call.phase.Waiting?
  }

  /** No other call of the same name is still running. */
  predicate Alone(cfg: Config, s: State, c: nat) {
    c < |s.calls| && forall d :: 0 <= d < |s.calls| && d != c && Name(cfg, s.calls[d]) == Name(cfg, s.calls[c]) ==>
      !Live(s.calls[d])
  }

  /** If the call returned true, it did so with the answer to its own bytes. */
  predicate OwnResult(cfg: Config, s: State, c: nat) {
    c < |s.calls| && (s.calls[c].phase.Succeeded? ==>
      && s.calls[c].phase.tag < |s.posted| && s.posted[s.calls[c].phase.tag] == c
      && IsReply(cfg.callback(s.calls[c].payload), s.calls[c].phase.response))
  }

  /** What IpcProtocol proves of every run. */
  ghost predicate Sound(cfg: Config, s: State) {
    Conserved(cfg, s) && Served(cfg, s) && Routed(cfg, s) && PostedOnce(s)
  }

  lemma {:induction false} AlwaysSound(cfg: Config, workers: nat, actions: seq<Action>)
    ensures Sound(cfg, Run(cfg, workers, actions))
  {
    hide Run, Conserved, Served, Routed, PostedOnce;
    Conservation(cfg, workers, actions);
    AtMostOnce(cfg, workers, actions);
    Routing(cfg, workers, actions);
    PostsAtMostOnce(cfg, workers, actions);
  }

  // ----- Nothing comes back into play

  /** What a step may do to the requests under way. */
  ghost predicate Shrinks(s: State, s': State) {
    forall tag: nat :: tag < |s.posted| ==> InPlay(s', tag) ==> InPlay(s, tag)
  }

  lemma {:induction false} PostShrinks(cfg: Config, s: State, c: nat, isOpen: bool)
    ensures Shrinks(s, TryPostStep(cfg, s, c, isOpen))
  {
    hide Name, Request, CanPost;
    var s' := TryPostStep(cfg, s, c, isOpen);
    forall tag: nat | tag < |s.posted| && InPlay(s', tag)
      ensures InPlay(s, tag)
    {
      if w :| InHands(s', w, tag) {
        assert InHands(s, w, tag);
      }
    }
  }

  lemma {:induction false} PollShrinks(s: State, senderAlive: bool)
    ensures Shrinks(s, PollStep(s, senderAlive))
  {
    var s' := PollStep(s, senderAlive);
    forall tag: nat | tag < |s.posted| && InPlay(s', tag)
      ensures InPlay(s, tag)
    {
      if w :| InHands(s', w, tag) {
        assert InHands(s, w, tag);
      }
      if i :| 0 <= i < |s'.queue| && s'.queue[i].tag == tag {
        assert i < |s.queue| ==> s.queue[i].tag == tag;
      }
    }
  }

  lemma {:induction false} TakeShrinks(s: State, w: nat)
    ensures Shrinks(s, TakeStep(s, w))
  {
    var s' := TakeStep(s, w);
    forall tag: nat | tag < |s.posted| && InPlay(s', tag)
      ensures InPlay(s, tag)
    {
      if v :| InHands(s', v, tag) {
        assert InHands(s, v, tag) || (s.queue != [] && s.queue[0].tag == tag);
      }
      if i :| 0 <= i < |s'.queue| && s'.queue[i].tag == tag {
        assert s.queue[if s'.queue == s.queue then i else i + 1].tag == tag;
      }
    }
  }

  lemma {:induction false} WorkShrinks(cfg: Config, s: State, w: nat, oracle: bool)
    ensures Shrinks(s, CallBackStep(cfg, s, w, oracle)) && Shrinks(s, AnswerStep(cfg, s, w, oracle))
  {
    hide Request, Answers, Answered;
    var s', s'' := CallBackStep(cfg, s, w, oracle), AnswerStep(cfg, s, w, oracle);
    forall tag: nat | tag < |s.posted|
      ensures InPlay(s', tag) ==> InPlay(s, tag)
      ensures InPlay(s'', tag) ==> InPlay(s, tag)
    {
      if v :| InHands(s', v, tag) {
        assert InHands(s, v, tag);
      }
      if v :| InHands(s'', v, tag) {
        assert InHands(s, v, tag);
      }
    }
  }

  lemma {:induction false} SameShrinks(s: State, s': State)
    requires s'.server == s.server && s'.queue == s.queue && s'.workers == s.workers && (s.stopped ==> s'.stopped)
    ensures Shrinks(s, s')
  {
    forall tag: nat | tag < |s.posted| && InPlay(s', tag)
      ensures InPlay(s, tag)
    {
      if w :| InHands(s', w, tag) {
        assert InHands(s, w, tag);
      }
    }
  }

  lemma {:induction false} CallsOnly(cfg: Config, s: State, a: Action)
    requires a.Start? || a.TryReceive? || a.Stop?
    ensures var s' := Step(cfg, s, a);
      s'.server == s.server && s'.queue == s.queue && s'.workers == s.workers && (s.stopped ==> s'.stopped)
  {
    hide Name, Response, HasAnswer;
  }

  lemma {:induction false} StepShrinks(cfg: Config, s: State, a: Action)
    ensures Shrinks(s, Step(cfg, s, a))
  {
    hide Shrinks;
    match a
    case TryPost(c, isOpen) => PostShrinks(cfg, s, c, isOpen);
    case PollServer(senderAlive) => PollShrinks(s, senderAlive);
    case Take(w) => TakeShrinks(s, w);
    case CallBack(w, sawStop) => WorkShrinks(cfg, s, w, sawStop);
    case Answer(w, isOpen) => WorkShrinks(cfg, s, w, isOpen);
    case _ =>
      CallsOnly(cfg, s, a);
      SameShrinks(s, Step(cfg, s, a));
  }

  /** An answer that lies in a channel was there, or a worker had its request. */
  lemma {:induction false} StepAnswers(cfg: Config, s: State, a: Action, name: string, tag: nat)
    ensures AnswerLies(Step(cfg, s, a), name, tag) ==> AnswerLies(s, name, tag) || InPlay(s, tag)
  {
    if a.Answer? {
      AnswerAnswers(cfg, s, a.w, a.isOpen, name, tag);
    } else {
      OtherAnswers(cfg, s, a, name, tag);
    }
    hide Step, AnswerLies, InPlay;
  }

  lemma {:induction false} AnswerAnswers(cfg: Config, s: State, w: nat, isOpen: bool, name: string, tag: nat)
    ensures AnswerLies(AnswerStep(cfg, s, w, isOpen), name, tag) ==> AnswerLies(s, name, tag) || InPlay(s, tag)
  {
    hide Answers;
    var s' := AnswerStep(cfg, s, w, isOpen);
    if AnswerLies(s', name, tag) && s'.slots != s.slots {
      assert s'.slots[name] == s.slots[name] || InHands(s, w, tag);
    }
  }

  lemma {:induction false} OtherAnswers(cfg: Config, s: State, a: Action, name: string, tag: nat)
    requires !a.Answer?
    ensures AnswerLies(Step(cfg, s, a), name, tag) ==> AnswerLies(s, name, tag)
  {
    hide Name, Request, Response, CanPost, Posted, Cleared;
  }

  /** A request that is outstanding after a step was so before, or was posted by the step. */
  lemma {:induction false} StepOutstanding(cfg: Config, s: State, a: Action, name: string, tag: nat)
    requires tag < |s.posted| && s.posted[tag] < |s.calls| && Outstanding(cfg, Step(cfg, s, a), name, tag)
    ensures Outstanding(cfg, s, name, tag)
  {
    var s' := Step(cfg, s, a);
    StepShrinks(cfg, s, a);
    StepAnswers(cfg, s, a, name, tag);
    StepExtends(cfg, s, a);
    hide Step, InPlay, AnswerLies, Replies;
    assert s'.posted[tag] == s.posted[tag];
    SameName(cfg, s, s', s.posted[tag]);
  }

  // ----- A call that is alone and finds nothing outstanding

  /** A running call has no foreign request to fear, and a finished one has its own result. */
  ghost predicate Clean(cfg: Config, s: State, c: nat) {
    c < |s.calls| && (Live(s.calls[c]) ==> NoForeign(cfg, s, c)) && OwnResult(cfg, s, c)
  }

  /** Only a call of the name can add a request under it. */
  lemma {:induction false} StepForeign(cfg: Config, s: State, a: Action, c: nat, tag: nat)
    requires PostedOnce(s) && Alone(cfg, s, c) && Foreign(cfg, Step(cfg, s, a), c, tag)
    ensures Foreign(cfg, s, c, tag)
  {
    var s' := Step(cfg, s, a);
    StepExtends(cfg, s, a);
    NewPostName(cfg, s, a);
    hide Step, Outstanding, Live;
    SameName(cfg, s, s', c);
    var name := Name(cfg, s.calls[c]);
    OutstandingIsPosted(cfg, s', name, tag);
    if tag < |s.posted| {
      assert s'.posted[tag] == s.posted[tag];
      StepOutstanding(cfg, s, a, name, tag);
    }
  }

  lemma {:induction false} StepNoForeign(cfg: Config, s: State, a: Action, c: nat)
    requires PostedOnce(s) && NoForeign(cfg, s, c) && Alone(cfg, s, c)
    ensures NoForeign(cfg, Step(cfg, s, a), c)
  {
    hide Step, PostedOnce, Foreign, Alone;
    forall tag | Foreign(cfg, Step(cfg, s, a), c, tag)
      ensures Foreign(cfg, s, c, tag)
    {
      StepForeign(cfg, s, a, c, tag);
    }
  }

  lemma {:induction false} OutstandingIsPosted(cfg: Config, s: State, name: string, tag: nat)
    requires Outstanding(cfg, s, name, tag)
    ensures tag < |s.posted| && s.posted[tag] < |s.calls| && Name(cfg, s.calls[s.posted[tag]]) == name
  {
  }

  lemma {:induction false} NewPostName(cfg: Config, s: State, a: Action)
    ensures var s' := Step(cfg, s, a);
      s'.posted == s.posted ||
      (|s'.posted| == |s.posted| + 1 &&
       var d := s'.posted[|s.posted|];
       d < |s.calls| <= |s'.calls| && Live(s.calls[d]) && Name(cfg, s'.calls[d]) == Name(cfg, s.calls[d]))
  {
    var s' := Step(cfg, s, a);
    NewPost(cfg, s, a);
    StepExtends(cfg, s, a);
    hide Step, Live;
    if s'.posted != s.posted {
      SameName(cfg, s, s', s'.posted[|s.posted|]);
    }
  }

  /** A step posts at most one request, for a call that is running. */
  lemma {:induction false} NewPost(cfg: Config, s: State, a: Action)
    ensures var s' := Step(cfg, s, a);
      s'.posted == s.posted ||
      (|s'.posted| == |s.posted| + 1 && s'.posted[|s.posted|] < |s.calls| && Live(s.calls[s'.posted[|s.posted|]]))
  {
    hide Name, Posted, Cleared, Answered, Answers, Request, Response, HasAnswer, CanPost;
  }

  predicate Takes(cfg: Config, s: State, c: nat, phase: Phase)
    requires c < |s.calls|
  {
    var name := Name(cfg, s.calls[c]);
    && name in s.slots && HasAnswer(s.slots[name]) && s.slots[name].responseSize <= INLINE_BYTES
    && phase == Succeeded(Response(s.slots[name]), s.slots[name].tag)
  }

  /** What a step does to the phase of a call: only a received answer makes it succeed. */
  lemma {:induction false} StepPhase(cfg: Config, s: State, a: Action, c: nat)
    requires c < |s.calls|
    ensures var s' := Step(cfg, s, a);
      && c < |s'.calls|
      && (!Live(s.calls[c]) ==> s'.calls[c].phase == s.calls[c].phase)
      && (Live(s.calls[c]) && s'.calls[c].phase.Succeeded? ==> Takes(cfg, s, c, s'.calls[c].phase))
  {
    if a.TryReceive? {
      ReceivePhase(cfg, s, a.c, a.isOpen, c);
    } else {
      OtherPhase(cfg, s, a, c);
    }
    hide Step, Takes, Live;
  }

  lemma {:induction false} ReceivePhase(cfg: Config, s: State, b: nat, isOpen: bool, c: nat)
    requires c < |s.calls|
    ensures var s' := TryReceiveStep(cfg, s, b, isOpen);
      && |s'.calls| == |s.calls|
      && (!Live(s.calls[c]) ==> s'.calls[c].phase == s.calls[c].phase)
      && (Live(s.calls[c]) && s'.calls[c].phase.Succeeded? ==> Takes(cfg, s, c, s'.calls[c].phase))
  {
    hide Name, Response, HasAnswer;
  }

  lemma {:induction false} OtherPhase(cfg: Config, s: State, a: Action, c: nat)
    requires c < |s.calls| && !a.TryReceive?
    ensures var s' := Step(cfg, s, a);
      && c < |s'.calls|
      && (!Live(s.calls[c]) ==> s'.calls[c].phase == s.calls[c].phase)
      && (Live(s.calls[c]) ==> !s'.calls[c].phase.Succeeded?)
  {
    hide Name, Posted, Cleared, Answered, Answers, Request, CanPost, TryReceiveStep;
  }

  /** An answer that a call takes from its channel is its own when nothing foreign is outstanding. */
  lemma {:induction false} TakenIsOwn(cfg: Config, s: State, c: nat)
    requires Routed(cfg, s) && NoForeign(cfg, s, c) && c < |s.calls|
    requires var name := Name(cfg, s.calls[c]); name in s.slots && HasAnswer(s.slots[name])
    ensures var d := s.slots[Name(cfg, s.calls[c])];
      && d.tag < |s.posted| && s.posted[d.tag] == c
      && d.responseSize <= INLINE_BYTES && IsReply(cfg.callback(s.calls[c].payload), Response(d))
  {
    var name := Name(cfg, s.calls[c]);
    var tag := s.slots[name].tag;
    assert AnswerFor(cfg, s, tag, Response(s.slots[name]), name);
    hide Name, InPlay, HasAnswer, Response;
    assert AnswerLies(s, name, tag) && Asks(cfg, s, name, tag);
    assert !Foreign(cfg, s, c, tag);
  }

  lemma {:induction false} StepClean(cfg: Config, s: State, a: Action, c: nat)
    requires Sound(cfg, s) && Clean(cfg, s, c) && (Live(s.calls[c]) ==> Alone(cfg, s, c))
    ensures Clean(cfg, Step(cfg, s, a), c)
  {
    hide Conserved, Served, NoForeign, Response, HasAnswer, Name, IsReply, Live;
    var s' := Step(cfg, s, a);
    StepExtends(cfg, s, a);
    StepPhase(cfg, s, a, c);
    hide Step;
    if Live(s.calls[c]) {
      hide Routed, PostedOnce;
      StepNoForeign(cfg, s, a, c);
      if s'.calls[c].phase.Succeeded? {
        TakenIsOwn(cfg, s, c);
      }
    } else {
      assert !Live(s'.calls[c]) by { LiveIsPhase(s.calls[c], s'.calls[c]); }
    }
  }

  lemma {:induction false} LiveIsPhase(a: Call, b: Call)
    requires a.phase == b.phase
    ensures Live(a) <==> Live(b)
  {
  }

  /** As long as call c runs, no other call of its name does. */
  ghost predicate AloneThroughout(cfg: Config, workers: nat, before: seq<Action>, more: seq<Action>, c: nat) {
    forall k :: 0 <= k <= |more| ==> AloneIfLive(cfg, Run(cfg, workers, before + more[..k]), c)
  }

  predicate AloneIfLive(cfg: Config, s: State, c: nat) {
    c < |s.calls| && (Live(s.calls[c]) ==> Alone(cfg, s, c))
  }

  lemma {:induction false} StaysClean(cfg: Config, workers: nat, before: seq<Action>, more: seq<Action>, c: nat)
    requires Clean(cfg, Run(cfg, workers, before), c) && AloneThroughout(cfg, workers, before, more, c)
    ensures Clean(cfg, Run(cfg, workers, before + more), c)
    decreases |more|
  {
    hide Run, Clean, Step, Sound;
    if more == [] {
      assert before + more == before;
    } else {
      var m := |more| - 1;
      var front := more[..m];
      assert forall k :: 0 <= k <= m ==> front[..k] == more[..k];
      StaysClean(cfg, workers, before, front, c);
      AlwaysSound(cfg, workers, before + front);
      assert more[..m] == front;
      var s := Run(cfg, workers, before + front);
      assert AloneIfLive(cfg, s, c);
      StepClean(cfg, s, more[m], c);
      assert (before + front) + [more[m]] == before + more;
      RunMore(cfg, workers, before + front, more[m]);
    }
  }

  /**
  A call that runs alone under its name, and finds no foreign request outstanding, returns true only with the
  answer to its own bytes, however names are formed.
  */
  lemma {:induction false} RoutedAlone(cfg: Config, workers: nat, before: seq<Action>, more: seq<Action>, c: nat)
    requires var s := Run(cfg, workers, before); c < |s.calls| && Live(s.calls[c]) && NoForeign(cfg, s, c)
    requires AloneThroughout(cfg, workers, before, more, c)
    ensures OwnResult(cfg, Run(cfg, workers, before + more), c)
  {
    hide Run;
    StaysClean(cfg, workers, before, more, c);
  }

  // ----- A foreign request can always be answered

  /** What the server is ready for: it can be posted to, and its workers have not left. */
  predicate Ready(s: State, workers: nat) {
    && s.server.isInit && |s.workers| == workers
    && (forall c :: 0 <= c < |s.calls| ==> |s.calls[c].payload| <= INLINE_BYTES)
    && (!s.stopped ==> forall w :: 0 <= w < |s.workers| ==> !s.workers[w].Exited?)
  }

  lemma {:induction false} StepReady(cfg: Config, s: State, a: Action, workers: nat)
    requires Ready(s, workers)
    ensures Ready(Step(cfg, s, a), workers)
  {
    match a
    case TryReceive(c, isOpen) => ReceiveReady(cfg, s, c, isOpen, workers);
    case _ => hide Name, Answered, Answers, Request, HasAnswer, TryReceiveStep;
  }

  lemma {:induction false} ReceiveReady(cfg: Config, s: State, c: nat, isOpen: bool, workers: nat)
    requires Ready(s, workers)
    ensures Ready(TryReceiveStep(cfg, s, c, isOpen), workers)
  {
    hide Name, Response, HasAnswer;
  }

  lemma {:induction false} AlwaysReady(cfg: Config, workers: nat, actions: seq<Action>)
    ensures Ready(Run(cfg, workers, actions), workers)
    decreases |actions|
  {
    hide Step;
    if actions != [] {
      hide Ready;
      AlwaysReady(cfg, workers, actions[..|actions| - 1]);
      StepReady(cfg, Run(cfg, workers, actions[..|actions| - 1]), actions[|actions| - 1], workers);
    }
  }

  /** The number of items before the request, or of all items when it is not queued. */
  function QueueIndex(queue: seq<Data>, tag: nat): (k: nat)
    ensures k <= |queue| && (k < |queue| ==> queue[k].tag == tag)
    ensures forall i :: 0 <= i < k ==> queue[i].tag != tag
  {
    if queue == [] || queue[0].tag == tag then 0 else 1 + QueueIndex(queue[1..], tag)
  }

  function Busy(worker: Worker): nat {
    match worker
    case Loaded(_) => 2
    case Called(_, _) => 1
    case _ => 0
  }

  predicate IsCalled(s: State, w: nat, tag: nat) {
    InHands(s, w, tag) && s.workers[w].Called?
  }

  ghost predicate Held(s: State, tag: nat) {
    exists w :: InHands(s, w, tag)
  }

  ghost predicate HeldCalled(s: State, tag: nat) {
    exists w :: IsCalled(s, w, tag)
  }

  /** How many steps of the server are left until the request is answered, the first worker doing all the work. */
  ghost function Distance(s: State, tag: nat): nat {
    if HeldCalled(s, tag) then 1 else if Held(s, tag) then 2 else QueueDistance(s, tag)
  }

  function QueueDistance(s: State, tag: nat): nat {
    var k := QueueIndex(s.queue, tag);
    3 + 3 * k + (if s.workers == [] then 0 else Busy(s.workers[0])) + if k == |s.queue| then 1 else 0
  }

  lemma {:induction false} CalledIsHeld(s: State, tag: nat)
    ensures HeldCalled(s, tag) ==> Held(s, tag)
  {
    if w :| IsCalled(s, w, tag) {
      assert InHands(s, w, tag);
    }
  }

  lemma {:induction false} UnheldDistance(s: State, tag: nat)
    requires !Held(s, tag)
    ensures Distance(s, tag) == QueueDistance(s, tag)
  {
    CalledIsHeld(s, tag);
    hide Held, HeldCalled;
  }

  /** A step of the server that leaves calls and posts as they are. */
  predicate Kept(s: State, s': State, name: string) {
    s'.calls == s.calls && s'.posted == s.posted && s'.stopped == s.stopped && name in s'.slots
  }

  /** The request has come nearer to its answer, or the answer lies in the channel. */
  ghost predicate Nearer(s: State, s': State, name: string, tag: nat) {
    && Kept(s, s', name)
    && (AnswerLies(s', name, tag) || (InPlay(s', tag) && Distance(s', tag) < Distance(s, tag)))
  }

  lemma {:induction false} CalledNearer(cfg: Config, s: State, name: string, tag: nat, w: nat)
    requires Served(cfg, s) && Asks(cfg, s, name, tag) && name in s.slots && IsCalled(s, w, tag)
    ensures Nearer(s, AnswerStep(cfg, s, w, true), name, tag)
  {
    var Called(item, outcome) := s.workers[w];
    assert Carries(cfg, s, item) && outcome == cfg.callback(Request(item));
    hide Name, Served, Carries, Request, CalledOnce, InHand, Distance, InPlay;
  }

  lemma {:induction false} LoadedNearer(cfg: Config, s: State, name: string, tag: nat, w: nat)
    requires Served(cfg, s) && name in s.slots && InHands(s, w, tag) && !HeldCalled(s, tag)
    ensures Nearer(s, CallBackStep(cfg, s, w, false), name, tag)
  {
    assert !IsCalled(s, w, tag);
    var s' := CallBackStep(cfg, s, w, false);
    assert Carries(cfg, s, s.workers[w].item);
    assert IsCalled(s', w, tag);
    assert Held(s, tag) && HeldCalled(s', tag);
    hide InHand, CalledOnce, Carries, Request, Held, HeldCalled;
  }

  lemma {:induction false} StillUnheld(s: State, s': State, w: nat, tag: nat)
    requires w < |s.workers| == |s'.workers| && s'.workers == s.workers[w := s'.workers[w]]
    ensures Held(s', tag) ==> InHands(s', w, tag) || Held(s, tag)
  {
    if v :| InHands(s', v, tag) {
      assert v != w ==> InHands(s, v, tag);
    }
  }

  /** A worker that gets on with another request leaves this one in the queue or the slot. */
  lemma {:induction false} WorkedNearer(s: State, s': State, name: string, tag: nat)
    requires Kept(s, s', name) && s'.queue == s.queue && s'.server == s.server
    requires s.workers != [] && |s'.workers| == |s.workers| && s'.workers == s.workers[0 := s'.workers[0]]
    requires !Held(s, tag) && !InHands(s', 0, tag) && InPlay(s, tag)
    requires Busy(s'.workers[0]) < Busy(s.workers[0])
    ensures Nearer(s, s', name, tag)
  {
    StillUnheld(s, s', 0, tag);
    UnheldDistance(s, tag);
    UnheldDistance(s', tag);
    hide Distance;
  }

  /** The first worker gets on with another request. */
  lemma {:induction false} BusyNearer(cfg: Config, s: State, name: string, tag: nat) returns (a: Action)
    requires Served(cfg, s) && !s.stopped && name in s.slots && s.workers != [] && InPlay(s, tag) && !Held(s, tag)
    requires s.workers[0].Loaded? || s.workers[0].Called?
    ensures OfServer(a) && Nearer(s, Step(cfg, s, a), name, tag)
  {
    assert !InHands(s, 0, tag);
    if s.workers[0].Loaded? {
      a := CallBack(0, false);
      assert Carries(cfg, s, s.workers[0].item);
    } else {
      a := Answer(0, false);
    }
    hide InHand, CalledOnce, Carries, Request, Answers, Answered, InPlay, Held, Nearer;
    WorkedNearer(s, Step(cfg, s, a), name, tag);
  }

  lemma {:induction false} QueueIndexRest(queue: seq<Data>, tag: nat)
    requires 0 < QueueIndex(queue, tag) < |queue|
    ensures QueueIndex(queue[1..], tag) == QueueIndex(queue, tag) - 1
  {
  }

  lemma {:induction false} TakeNearer(cfg: Config, s: State, name: string, tag: nat)
    requires !s.stopped && name in s.slots && s.workers != [] && s.workers[0].Idle?
    requires !Held(s, tag) && QueueIndex(s.queue, tag) < |s.queue|
    ensures Nearer(s, TakeStep(s, 0), name, tag)
  {
    var s', k := TakeStep(s, 0), QueueIndex(s.queue, tag);
    UnheldDistance(s, tag);
    if k == 0 {
      assert InHands(s', 0, tag);
      assert Held(s', tag) && InPlay(s', tag);
      hide Held, HeldCalled, InPlay;
    } else {
      StillUnheld(s, s', 0, tag);
      UnheldDistance(s', tag);
      QueueIndexRest(s.queue, tag);
      assert s'.queue[k - 1].tag == tag;
      hide Distance, Held;
    }
  }

  lemma {:induction false} QueueIndexAppend(queue: seq<Data>, d: Data)
    requires QueueIndex(queue, d.tag) == |queue|
    ensures QueueIndex(queue + [d], d.tag) == |queue|
  {
    assert (queue + [d])[|queue|] == d;
    assert forall i :: 0 <= i < |queue| ==> (queue + [d])[i] == queue[i];
  }

  lemma {:induction false} SameHeld(s: State, s': State, tag: nat)
    requires s'.workers == s.workers
    ensures Held(s', tag) <==> Held(s, tag)
  {
    if v :| InHands(s', v, tag) {
      assert InHands(s, v, tag);
    }
    if v :| InHands(s, v, tag) {
      assert InHands(s', v, tag);
    }
  }

  lemma {:induction false} PollNearer(s: State, name: string, tag: nat)
    requires !s.stopped && name in s.slots && !Held(s, tag) && QueueIndex(s.queue, tag) == |s.queue|
    requires s.server.hasRequest && s.server.tag == tag
    ensures Nearer(s, PollStep(s, true), name, tag)
  {
    var s' := PollStep(s, true);
    QueueIndexAppend(s.queue, s.server);
    assert s'.queue[|s.queue|].tag == tag;
    SameHeld(s, s', tag);
    UnheldDistance(s, tag);
    UnheldDistance(s', tag);
    hide Distance, Held;
  }

  predicate OfServer(a: Action) {
    a.PollServer? || a.Take? || a.CallBack? || a.Answer?
  }

  lemma {:induction false} UnheldIsRunning(s: State, tag: nat)
    requires InPlay(s, tag) && !Held(s, tag)
    ensures !s.stopped
  {
  }

  /** A request in play that no worker holds and that is not queued stands in the slot. */
  lemma {:induction false} InPlayElsewhere(s: State, tag: nat)
    requires InPlay(s, tag) && !Held(s, tag) && QueueIndex(s.queue, tag) == |s.queue|
    ensures s.server.hasRequest && s.server.tag == tag
  {
  }

  lemma {:induction false} SomeNearer(cfg: Config, s: State, name: string, tag: nat) returns (a: Action)
    requires Served(cfg, s) && s.workers != [] && (s.stopped || !s.workers[0].Exited?)
    requires Asks(cfg, s, name, tag) && InPlay(s, tag) && name in s.slots
    ensures OfServer(a) && Nearer(s, Step(cfg, s, a), name, tag)
  {
    hide Served, Nearer, Asks, InPlay, AnswerStep, CallBackStep, TakeStep, PollStep;
    if !Held(s, tag) {
      UnheldIsRunning(s, tag);
    }
    if HeldCalled(s, tag) {
      var w: nat :| IsCalled(s, w, tag);
      a := Answer(w, true);
      CalledNearer(cfg, s, name, tag, w);
    } else if Held(s, tag) {
      var w: nat :| InHands(s, w, tag);
      a := CallBack(w, false);
      LoadedNearer(cfg, s, name, tag, w);
    } else if s.workers[0].Loaded? || s.workers[0].Called? {
      a := BusyNearer(cfg, s, name, tag);
    } else if QueueIndex(s.queue, tag) < |s.queue| {
      a := Take(0);
      TakeNearer(cfg, s, name, tag);
    } else {
      a := PollServer(true);
      InPlayElsewhere(s, tag);
      PollNearer(s, name, tag);
    }
  }

  lemma {:induction false} ServerReady(cfg: Config, workers: nat, actions: seq<Action>)
    requires workers > 0
    ensures var s := Run(cfg, workers, actions);
      s.workers != [] && (s.stopped || !s.workers[0].Exited?) && Served(cfg, s)
  {
    hide Run, Served;
    AlwaysReady(cfg, workers, actions);
    AtMostOnce(cfg, workers, actions);
  }

  /** The server alone can bring the answer to the channel. */
  lemma {:induction false} BringAnswer(cfg: Config, workers: nat, actions: seq<Action>, name: string, tag: nat)
      returns (more: seq<Action>)
    requires var s := Run(cfg, workers, actions); workers > 0 && name in s.slots
    requires Outstanding(cfg, Run(cfg, workers, actions), name, tag)
    ensures forall a :: a in more ==> OfServer(a)
    ensures var s' := Run(cfg, workers, actions + more);
      Kept(Run(cfg, workers, actions), s', name) && AnswerLies(s', name, tag)
    decreases Distance(Run(cfg, workers, actions), tag)
  {
    hide Run, Step, Served, InPlay, AnswerLies, Distance;
    var s := Run(cfg, workers, actions);
    ServerReady(cfg, workers, actions);
    if AnswerLies(s, name, tag) {
      more := [];
      assert actions + more == actions;
    } else {
      var a := SomeNearer(cfg, s, name, tag);
      RunMore(cfg, workers, actions, a);
      if AnswerLies(Step(cfg, s, a), name, tag) {
        more := [a];
      } else {
        var rest := BringAnswer(cfg, workers, actions + [a], name, tag);
        more := [a] + rest;
        assert actions + more == (actions + [a]) + rest;
      }
    }
  }

  // ----- The condition is exact

  /** Call c took the answer to the request of another call. */
  predicate Misrouted(s: State, c: nat) {
    && c < |s.calls| && s.calls[c].phase.Succeeded?
    && s.calls[c].phase.tag < |s.posted| && s.posted[s.calls[c].phase.tag] != c
  }

  /** The server or call c acts. */
  predicate Mine(a: Action, c: nat) {
    OfServer(a) || (a.TryPost? && a.c == c) || (a.TryReceive? && a.c == c)
  }

  predicate SameOthers(s: State, s': State, c: nat) {
    |s'.calls| == |s.calls| && forall d :: 0 <= d < |s.calls| && d != c ==> s'.calls[d] == s.calls[d]
  }

  lemma {:induction false} PostKeepsOthers(cfg: Config, s: State, c: nat, isOpen: bool)
    ensures SameOthers(s, TryPostStep(cfg, s, c, isOpen), c)
  {
    hide Name, Posted, CanPost;
  }

  lemma {:induction false} ReceiveKeepsOthers(cfg: Config, s: State, c: nat, isOpen: bool)
    ensures SameOthers(s, TryReceiveStep(cfg, s, c, isOpen), c)
  {
    hide Name, Response, HasAnswer;
  }

  lemma {:induction false} MineKeepsOthers(cfg: Config, s: State, a: Action, c: nat)
    requires Mine(a, c)
    ensures SameOthers(s, Step(cfg, s, a), c)
  {
    match a
    case TryPost(_, isOpen) => PostKeepsOthers(cfg, s, c, isOpen);
    case TryReceive(_, isOpen) => ReceiveKeepsOthers(cfg, s, c, isOpen);
    case _ => hide TryPostStep, TryReceiveStep, Name, Cleared, Answered, Answers, Request;
  }

  /** While only the server and the call act, a call that is alone stays alone. */
  lemma {:induction false} MineStaysAlone(
      cfg: Config, workers: nat, before: seq<Action>, more: seq<Action>, c: nat)
    requires Alone(cfg, Run(cfg, workers, before), c) && forall a :: a in more ==> Mine(a, c)
    ensures Alone(cfg, Run(cfg, workers, before + more), c)
    decreases |more|
  {
    hide Run, Mine, Step, Name, Live;
    if more == [] {
      assert before + more == before;
    } else {
      var front, a := more[..|more| - 1], more[|more| - 1];
      MineStaysAlone(cfg, workers, before, front, c);
      var s := Run(cfg, workers, before + front);
      MineKeepsOthers(cfg, s, a, c);
      StepExtends(cfg, s, a);
      SameName(cfg, s, Step(cfg, s, a), c);
      assert (before + front) + [a] == before + more;
      RunMore(cfg, workers, before + front, a);
    }
  }

  lemma {:induction false} MineIsAloneThroughout(
      cfg: Config, workers: nat, before: seq<Action>, more: seq<Action>, c: nat)
    requires Alone(cfg, Run(cfg, workers, before), c) && forall a :: a in more ==> Mine(a, c)
    ensures AloneThroughout(cfg, workers, before, more, c)
  {
    hide Run, Mine, Alone, Live;
    forall k | 0 <= k <= |more|
      ensures AloneIfLive(cfg, Run(cfg, workers, before + more[..k]), c)
    {
      MineStaysAlone(cfg, workers, before, more[..k], c);
      AloneHasCall(cfg, Run(cfg, workers, before + more[..k]), c);
    }
  }

  lemma {:induction false} AloneHasCall(cfg: Config, s: State, c: nat)
    ensures Alone(cfg, s, c) ==> c < |s.calls|
  {
  }

  /** The call can go on: it runs, it has attempts left, and its channel is there. */
  predicate CanGoOn(cfg: Config, s: State, c: nat) {
    c < |s.calls| && Live(s.calls[c]) && s.calls[c].polls < s.calls[c].budget && Name(cfg, s.calls[c]) in s.slots
  }

  /** After a poll that empties the slot, the call posts and waits. */
  lemma {:induction false} CallPosts(cfg: Config, s: State, workers: nat, c: nat)
    requires Ready(s, workers) && CanGoOn(cfg, s, c) && s.calls[c].phase.Posting? && !s.server.hasRequest
    ensures var s' := TryPostStep(cfg, s, c, true);
      && |s'.calls| == |s.calls| && s'.calls[c].phase.Waiting? && s'.calls[c].polls < s'.calls[c].budget
      && s'.posted == s.posted + [c] && s'.slots == s.slots && s'.queue == s.queue && s'.workers == s.workers
      && s'.stopped == s.stopped
  {
    hide Name;
  }

  lemma {:induction false} StaysOutstanding(cfg: Config, s: State, s': State, name: string, tag: nat)
    requires Outstanding(cfg, s, name, tag) && Extends(s, s') && s'.slots == s.slots && s'.workers == s.workers
    requires !s.server.hasRequest && s'.queue == s.queue && s'.stopped == s.stopped
    ensures Outstanding(cfg, s', name, tag)
  {
    hide Name, HasAnswer;
    SameName(cfg, s, s', s.posted[tag]);
    if w :| InHands(s, w, tag) {
      assert InHands(s', w, tag);
    }
  }

  lemma {:induction false} PollKeepsOutstanding(cfg: Config, s: State, name: string, tag: nat)
    requires Outstanding(cfg, s, name, tag)
    ensures var s' := PollStep(s, true);
      && Outstanding(cfg, s', name, tag) && !s'.server.hasRequest && s'.calls == s.calls && s'.slots == s.slots
      && s'.posted == s.posted && s'.stopped == s.stopped
  {
    hide Name, HasAnswer;
    var s' := PollStep(s, true);
    if s.server.hasRequest {
      assert s'.queue[|s.queue|] == s.server;
    }
    if w :| InHands(s, w, tag) {
      assert InHands(s', w, tag);
    }
    if i :| 0 <= i < |s.queue| && s.queue[i].tag == tag {
      assert s'.queue[i].tag == tag;
    }
  }

  /** First the slot is emptied and the call posts; the foreign request stays outstanding. */
  lemma {:induction false} PostsBehind(cfg: Config, workers: nat, actions: seq<Action>, c: nat, tag: nat)
      returns (more: seq<Action>)
    requires var s := Run(cfg, workers, actions);
      CanGoOn(cfg, s, c) && s.calls[c].phase.Posting? && Foreign(cfg, s, c, tag)
    ensures more == [PollServer(true), TryPost(c, true)]
    ensures var s' := Run(cfg, workers, actions + more);
      CanGoOn(cfg, s', c) && s'.calls[c].phase.Waiting? && Foreign(cfg, s', c, tag)
  {
    hide Run;
    more := [PollServer(true), TryPost(c, true)];
    var s := Run(cfg, workers, actions);
    AlwaysReady(cfg, workers, actions);
    RunMore(cfg, workers, actions, PollServer(true));
    RunMore(cfg, workers, actions + [PollServer(true)], TryPost(c, true));
    assert actions + more == actions + [PollServer(true)] + [TryPost(c, true)];
    var s1 := PollStep(s, true);
    var name := Name(cfg, s.calls[c]);
    PollKeepsOutstanding(cfg, s, name, tag);
    StepReady(cfg, s, PollServer(true), workers);
    CallPosts(cfg, s1, workers, c);
    var s2 := TryPostStep(cfg, s1, c, true);
    StepExtends(cfg, s1, TryPost(c, true));
    StaysOutstanding(cfg, s1, s2, name, tag);
    SameName(cfg, s1, s2, c);
    hide Outstanding, Ready, Name, PollStep, TryPostStep;
    assert s2.posted[tag] == s1.posted[tag] by { OutstandingIsPosted(cfg, s1, name, tag); }
  }

  lemma {:induction false} ReceivesForeign(cfg: Config, s: State, c: nat, tag: nat)
    requires Routed(cfg, s) && c < |s.calls| && s.calls[c].phase.Waiting? && s.calls[c].polls < s.calls[c].budget
    requires AnswerLies(s, Name(cfg, s.calls[c]), tag) && tag < |s.posted| && s.posted[tag] != c
    ensures Misrouted(TryReceiveStep(cfg, s, c, true), c)
  {
    var name := Name(cfg, s.calls[c]);
    assert s.slots[name].responseSize <= INLINE_BYTES;
    hide Name, Response, HasAnswer;
    TryReceiveReceives(cfg, s, c, true);
  }

  /** A foreign request that is outstanding can make the call return true with its answer. */
  lemma {:induction false} ForeignTaken(cfg: Config, workers: nat, actions: seq<Action>, c: nat, tag: nat)
      returns (more: seq<Action>)
    requires var s := Run(cfg, workers, actions); workers > 0 && CanGoOn(cfg, s, c) && Foreign(cfg, s, c, tag)
    ensures forall a :: a in more ==> Mine(a, c)
    ensures Misrouted(Run(cfg, workers, actions + more), c)
  {
    hide Run, InPlay, AnswerLies, Name, Misrouted;
    var post := [];
    if Run(cfg, workers, actions).calls[c].phase.Posting? {
      post := PostsBehind(cfg, workers, actions, c, tag);
    } else {
      assert actions + post == actions;
    }
    var posted := actions + post;
    var s := Run(cfg, workers, posted);
    var name := Name(cfg, s.calls[c]);
    var bring := BringAnswer(cfg, workers, posted, name, tag);
    var s' := Run(cfg, workers, posted + bring);
    Routing(cfg, workers, posted + bring);
    ReceivesForeign(cfg, s', c, tag);
    RunMore(cfg, workers, posted + bring, TryReceive(c, true));
    more := post + bring + [TryReceive(c, true)];
    assert actions + more == posted + bring + [TryReceive(c, true)];
  }

  lemma {:induction false} OwnIsNotMisrouted(cfg: Config, s: State, c: nat)
    requires OwnResult(cfg, s, c)
    ensures !Misrouted(s, c)
  {
  }

  /** The call has not succeeded and cannot go on. */
  predicate Stuck(cfg: Config, s: State, c: nat) {
    c < |s.calls| && !s.calls[c].phase.Succeeded? && !CanGoOn(cfg, s, c)
  }

  /** Only a call that starts opens a channel. */
  lemma {:induction false} StepSlots(cfg: Config, s: State, a: Action, name: string)
    ensures var s' := Step(cfg, s, a);
      name in s'.slots ==>
        || name in s.slots
        || (|s'.calls| == |s.calls| + 1 && s'.calls[|s.calls|].phase.Posting? && Name(cfg, s'.calls[|s.calls|]) == name)
  {
    if a.TryReceive? {
      hide Name, Response, HasAnswer;
    } else {
      hide Name, Posted, Cleared, Answered, Answers, Request, CanPost, TryReceiveStep;
    }
  }

  predicate OutOfAttempts(s: State, c: nat) {
    c < |s.calls| && s.calls[c].polls >= s.calls[c].budget
  }

  lemma {:induction false} PostOutOfAttempts(cfg: Config, s: State, b: nat, isOpen: bool, c: nat)
    requires OutOfAttempts(s, c)
    ensures OutOfAttempts(TryPostStep(cfg, s, b, isOpen), c)
  {
    hide Name, Posted, CanPost;
  }

  lemma {:induction false} ReceiveOutOfAttempts(cfg: Config, s: State, b: nat, isOpen: bool, c: nat)
    requires OutOfAttempts(s, c)
    ensures var s' := TryReceiveStep(cfg, s, b, isOpen);
      OutOfAttempts(s', c) && (Live(s.calls[c]) ==> !s'.calls[c].phase.Succeeded?)
  {
    hide Name, Response, HasAnswer;
  }

  /** A call that is out of attempts stays so, and does not succeed. */
  lemma {:induction false} StepOutOfAttempts(cfg: Config, s: State, a: Action, c: nat)
    requires OutOfAttempts(s, c)
    ensures var s' := Step(cfg, s, a);
      OutOfAttempts(s', c) && (Live(s.calls[c]) ==> !s'.calls[c].phase.Succeeded?)
  {
    match a
    case TryReceive(b, isOpen) =>
      ReceiveOutOfAttempts(cfg, s, b, isOpen, c);
    case TryPost(b, isOpen) =>
      PostOutOfAttempts(cfg, s, b, isOpen, c);
      OtherPhase(cfg, s, a, c);
    case _ =>
      hide Name, Answered, Answers, Request, Cleared, TryReceiveStep, TryPostStep;
  }

  lemma {:induction false} StepStuck(cfg: Config, s: State, a: Action, c: nat)
    requires Stuck(cfg, s, c) && AloneIfLive(cfg, Step(cfg, s, a), c)
    ensures Stuck(cfg, Step(cfg, s, a), c)
  {
    var s' := Step(cfg, s, a);
    StepPhase(cfg, s, a, c);
    StepSlots(cfg, s, a, Name(cfg, s.calls[c]));
    StepExtends(cfg, s, a);
    SameName(cfg, s, s', c);
    if OutOfAttempts(s, c) {
      StepOutOfAttempts(cfg, s, a, c);
    }
    hide Step, Name, HasAnswer, Response;
  }

  lemma {:induction false} StaysStuck(cfg: Config, workers: nat, before: seq<Action>, more: seq<Action>, c: nat)
    requires Stuck(cfg, Run(cfg, workers, before), c) && AloneThroughout(cfg, workers, before, more, c)
    ensures Stuck(cfg, Run(cfg, workers, before + more), c)
    decreases |more|
  {
    hide Run, Step, Stuck, AloneIfLive;
    if more == [] {
      assert before + more == before;
    } else {
      var m := |more| - 1;
      var front := more[..m];
      assert forall k :: 0 <= k <= m ==> front[..k] == more[..k];
      StaysStuck(cfg, workers, before, front, c);
      assert (before + front) + [more[m]] == before + more && more[..|more|] == more;
      RunMore(cfg, workers, before + front, more[m]);
      StepStuck(cfg, Run(cfg, workers, before + front), more[m], c);
    }
  }

  lemma {:induction false} StuckIsNotMisrouted(cfg: Config, s: State, c: nat)
    requires Stuck(cfg, s, c)
    ensures !Misrouted(s, c)
  {
  }

  /** A running call that cannot go on, or finds nothing foreign, takes no answer but its own. */
  lemma {:induction false} NeverMisrouted(cfg: Config, workers: nat, before: seq<Action>, more: seq<Action>, c: nat)
    requires var s := Run(cfg, workers, before);
      c < |s.calls| && Live(s.calls[c]) && (!CanGoOn(cfg, s, c) || NoForeign(cfg, s, c))
    requires AloneThroughout(cfg, workers, before, more, c)
    ensures !Misrouted(Run(cfg, workers, before + more), c)
  {
    hide Run, AloneThroughout, Misrouted, NoForeign, CanGoOn;
    if CanGoOn(cfg, Run(cfg, workers, before), c) {
      RoutedAlone(cfg, workers, before, more, c);
      OwnIsNotMisrouted(cfg, Run(cfg, workers, before + more), c);
    } else {
      StaysStuck(cfg, workers, before, more, c);
      StuckIsNotMisrouted(cfg, Run(cfg, workers, before + more), c);
    }
  }

  /**
  A running call that is alone under its name can come to return true with the answer to another call's request
  exactly when it has attempts left, its channel is there and such a request is outstanding under the name.
  */
  lemma {:induction false} MisroutingExactly(cfg: Config, workers: nat, before: seq<Action>, c: nat)
    requires var s := Run(cfg, workers, before);
      workers > 0 && c < |s.calls| && Live(s.calls[c]) && Alone(cfg, s, c)
    ensures var s := Run(cfg, workers, before);
      (exists more ::
        AloneThroughout(cfg, workers, before, more, c) && Misrouted(Run(cfg, workers, before + more), c))
      <==> CanGoOn(cfg, s, c) && !NoForeign(cfg, s, c)
  {
    hide Run, AloneThroughout, Misrouted, Foreign, CanGoOn, Live, Alone;
    var s := Run(cfg, workers, before);
    if CanGoOn(cfg, s, c) && !NoForeign(cfg, s, c) {
      var tag: nat :| Foreign(cfg, s, c, tag);
      var more := ForeignTaken(cfg, workers, before, c, tag);
      MineIsAloneThroughout(cfg, workers, before, more, c);
    } else {
      forall more | AloneThroughout(cfg, workers, before, more, c)
        ensures !Misrouted(Run(cfg, workers, before + more), c)
      {
        NeverMisrouted(cfg, workers, before, more, c);
      }
    }
  }

  // ----- One answer for each request

  predicate Returned(s: State, c: int) {
    0 <= c < |s.calls| && s.calls[c].phase.Succeeded?
  }

  /** A request that was answered is with no worker, and one that a call took back lies in no channel. */
  ghost predicate AnsweredOnce(s: State) {
    && (forall w, v :: 0 <= w < v < |s.workers| && s.workers[w].Called? && s.workers[v].Called? ==>
        s.workers[w].item.tag != s.workers[v].item.tag)
    && (forall w, n :: 0 <= w < |s.workers| && s.workers[w].Called? && n in s.slots && HasAnswer(s.slots[n]) ==>
        s.workers[w].item.tag != s.slots[n].tag)
    && (forall w, c :: 0 <= w < |s.workers| && s.workers[w].Called? && Returned(s, c) ==>
        s.workers[w].item.tag != s.calls[c].phase.tag)
    && (forall n, c :: n in s.slots && HasAnswer(s.slots[n]) && Returned(s, c) ==>
        s.slots[n].tag != s.calls[c].phase.tag)
  }

  /** Answers and results belong to requests that were called back. */
  lemma {:induction false} AnswersWereCalled(cfg: Config, s: State)
    requires Routed(cfg, s)
    ensures forall n :: n in s.slots && HasAnswer(s.slots[n]) ==> WasCalled(s.called, s.slots[n].tag)
    ensures forall c :: 0 <= c < |s.calls| && s.calls[c].phase.Succeeded? ==> WasCalled(s.called, s.calls[c].phase.tag)
  {
    hide WasCalled, Name, IsReply, Response, HasAnswer;
  }

  lemma {:induction false} CallBackAnswersOnce(cfg: Config, s: State, w: nat, sawStop: bool)
    requires AnsweredOnce(s) && Served(cfg, s) && Routed(cfg, s)
    ensures AnsweredOnce(CallBackStep(cfg, s, w, sawStop))
  {
    AnswersWereCalled(cfg, s);
    hide Routed, CalledOnce, Carries, WasTaken, WasCalled, Request, HasAnswer;
  }

  lemma {:induction false} AnswerAnswersOnce(cfg: Config, s: State, w: nat, isOpen: bool)
    requires AnsweredOnce(s)
    ensures AnsweredOnce(AnswerStep(cfg, s, w, isOpen))
  {
    hide Answers;
  }

  lemma {:induction false} SlotNames(cfg: Config, s: State, n: string, m: string)
    requires Routed(cfg, s) && n in s.slots && m in s.slots && HasAnswer(s.slots[n]) && HasAnswer(s.slots[m])
    ensures s.slots[n].tag == s.slots[m].tag ==> n == m
  {
    hide Name, IsReply, Response, HasAnswer, WasCalled;
  }

  lemma {:induction false} ReceiveAnswersOnce(cfg: Config, s: State, c: nat, isOpen: bool)
    requires AnsweredOnce(s) && Routed(cfg, s)
    ensures AnsweredOnce(TryReceiveStep(cfg, s, c, isOpen))
  {
    hide Name, Response, HasAnswer, Routed, Receives, TryReceiveStep;
    var s' := TryReceiveStep(cfg, s, c, isOpen);
    CallsOnlyReceive(cfg, s, c, isOpen);
    if Receives(cfg, s, c, isOpen) {
      TryReceiveReceives(cfg, s, c, isOpen);
      ReceivesHasAnswer(cfg, s, c, isOpen);
      var name := Name(cfg, s.calls[c]);
      forall n | n in s'.slots && HasAnswer(s'.slots[n])
        ensures s'.slots[n].tag != s.slots[name].tag
      {
        SlotNames(cfg, s, n, name);
      }
    } else {
      TryReceiveDoesNot(cfg, s, c, isOpen);
    }
  }

  lemma {:induction false} CallsOnlyReceive(cfg: Config, s: State, c: nat, isOpen: bool)
    ensures TryReceiveStep(cfg, s, c, isOpen).workers == s.workers
  {
    hide Name, Response, HasAnswer;
  }

  lemma {:induction false} ReceivesHasAnswer(cfg: Config, s: State, c: nat, isOpen: bool)
    requires Receives(cfg, s, c, isOpen)
    ensures c < |s.calls|
    ensures var name := Name(cfg, s.calls[c]); name in s.slots && HasAnswer(s.slots[name])
  {
    hide Name, HasAnswer;
  }

  /** A step that answers nothing. */
  lemma {:induction false} QuietAnswersOnce(s: State, s': State)
    requires AnsweredOnce(s) && |s'.workers| == |s.workers|
    requires forall w :: 0 <= w < |s.workers| && s'.workers[w].Called? ==> s'.workers[w] == s.workers[w]
    requires forall n :: n in s'.slots && HasAnswer(s'.slots[n]) ==> n in s.slots && s'.slots[n] == s.slots[n]
    requires forall c :: Returned(s', c) ==> Returned(s, c) && s'.calls[c].phase == s.calls[c].phase
    ensures AnsweredOnce(s')
  {
    hide HasAnswer, Returned;
  }

  lemma {:induction false} StartAnswersOnce(cfg: Config, s: State, pid: nat, payload: Bytes, budget: int)
    requires AnsweredOnce(s)
    ensures AnsweredOnce(StartStep(cfg, s, pid, payload, budget))
  {
    hide Name, AnsweredOnce;
    QuietAnswersOnce(s, StartStep(cfg, s, pid, payload, budget));
  }

  lemma {:induction false} PostAnswersOnce(cfg: Config, s: State, c: nat, isOpen: bool)
    requires AnsweredOnce(s)
    ensures AnsweredOnce(TryPostStep(cfg, s, c, isOpen))
  {
    hide Name, AnsweredOnce, Posted, CanPost, HasAnswer;
    QuietAnswersOnce(s, TryPostStep(cfg, s, c, isOpen));
  }

  lemma {:induction false} TakeAnswersOnce(s: State, w: nat)
    requires AnsweredOnce(s)
    ensures AnsweredOnce(TakeStep(s, w))
  {
    hide AnsweredOnce, HasAnswer, Returned;
    assert forall c :: Returned(TakeStep(s, w), c) <==> Returned(s, c) by { SameReturned(s, TakeStep(s, w)); }
    QuietAnswersOnce(s, TakeStep(s, w));
  }

  lemma {:induction false} SameReturned(s: State, s': State)
    ensures s'.calls == s.calls ==> forall c :: Returned(s', c) <==> Returned(s, c)
  {
  }

  lemma {:induction false} PollAnswersOnce(s: State, senderAlive: bool)
    requires AnsweredOnce(s)
    ensures AnsweredOnce(PollStep(s, senderAlive)) && AnsweredOnce(s.(stopped := true))
  {
    hide AnsweredOnce, HasAnswer;
    QuietAnswersOnce(s, PollStep(s, senderAlive));
    QuietAnswersOnce(s, s.(stopped := true));
  }

  lemma {:induction false} StepAnswersOnce(cfg: Config, s: State, a: Action)
    requires AnsweredOnce(s) && Served(cfg, s) && Routed(cfg, s)
    ensures AnsweredOnce(Step(cfg, s, a))
  {
    hide AnsweredOnce, Served, Routed, StartStep, TryPostStep, PollStep, TakeStep, CallBackStep, AnswerStep,
      TryReceiveStep;
    match a
    case CallBack(w, sawStop) => CallBackAnswersOnce(cfg, s, w, sawStop);
    case Answer(w, isOpen) => AnswerAnswersOnce(cfg, s, w, isOpen);
    case TryReceive(c, isOpen) => ReceiveAnswersOnce(cfg, s, c, isOpen);
    case Start(pid, payload, budget) => StartAnswersOnce(cfg, s, pid, payload, budget);
    case TryPost(c, isOpen) => PostAnswersOnce(cfg, s, c, isOpen);
    case PollServer(senderAlive) => PollAnswersOnce(s, senderAlive);
    case Take(w) => TakeAnswersOnce(s, w);
    case Stop => PollAnswersOnce(s, true);
  }

  lemma {:induction false} AlwaysAnsweredOnce(cfg: Config, workers: nat, actions: seq<Action>)
    ensures AnsweredOnce(Run(cfg, workers, actions))
    decreases |actions|
  {
    hide Step, Served, Routed;
    if actions != [] {
      hide AnsweredOnce;
      var before := actions[..|actions| - 1];
      AlwaysAnsweredOnce(cfg, workers, before);
      AtMostOnce(cfg, workers, before);
      Routing(cfg, workers, before);
      StepAnswersOnce(cfg, Run(cfg, workers, before), actions[|actions| - 1]);
    }
  }

  /** What was dequeued is neither queued nor in the slot. */
  lemma {:induction false} TakenIsGone(cfg: Config, s: State, tag: nat)
    requires Conserved(cfg, s) && WasTaken(s.taken, tag)
    ensures forall i :: 0 <= i < |s.queue| ==> s.queue[i].tag != tag
    ensures s.server.hasRequest ==> s.server.tag != tag
  {
    hide Carries;
    SurvivorsSorted(|s.posted|, s.dropped);
    var p := Pipeline(s);
    var j :| 0 <= j < |s.taken| && s.taken[j].tag == tag;
    assert p[j] == s.taken[j];
    forall k | |s.taken| <= k < |p|
      ensures p[k].tag != tag
    {
      assert Tags(p)[j] < Tags(p)[k];
    }
    forall i | 0 <= i < |s.queue|
      ensures s.queue[i].tag != tag
    {
      assert p[|s.taken| + i] == s.queue[i];
    }
    assert s.server.hasRequest ==> p[|s.taken| + |s.queue|] == s.server;
  }

  /** The request of a call that returned true is no longer outstanding. */
  lemma {:induction false} ResultIsLast(cfg: Config, s: State, b: nat, name: string)
    requires Sound(cfg, s) && AnsweredOnce(s) && b < |s.calls| && s.calls[b].phase.Succeeded?
    ensures !Outstanding(cfg, s, name, s.calls[b].phase.tag)
  {
    var tag := s.calls[b].phase.tag;
    assert WasCalled(s.called, tag) by {
      hide WasCalled, Conserved, Served, PostedOnce;
      AnswersWereCalled(cfg, s);
    }
    assert WasTaken(s.taken, tag) by {
      hide Conserved, InHand, Routed, PostedOnce, WasTaken;
      var i :| 0 <= i < |s.called| && s.called[i].tag == tag;
      assert WasTaken(s.taken, s.called[i].tag);
    }
    hide PostedOnce, Routed, CalledOnce, WasTaken, Carries, WasCalled, Asks, HasAnswer;
    TakenIsGone(cfg, s, tag);
    hide Conserved;
    forall w: nat
      ensures !InHands(s, w, tag)
    {
    }
  }

  // ----- Calls one after the other

  /** A call starts only when the earlier calls of its name have ended. */
  predicate InSequence(cfg: Config, s: State) {
    forall b, c :: 0 <= b < c < |s.calls| && Name(cfg, s.calls[b]) == Name(cfg, s.calls[c]) ==> !Live(s.calls[b])
  }

  ghost predicate AlwaysInSequence(cfg: Config, workers: nat, actions: seq<Action>) {
    forall k :: 0 <= k <= |actions| ==> InSequence(cfg, Run(cfg, workers, actions[..k]))
  }

  /** The earlier calls of the name returned true or never posted. */
  predicate EarlierAnswered(cfg: Config, s: State, c: nat) {
    c < |s.calls| && forall b :: 0 <= b < c && Name(cfg, s.calls[b]) == Name(cfg, s.calls[c]) ==>
      s.calls[b].phase.Succeeded? || b !in s.posted
  }

  ghost predicate AllClean(cfg: Config, s: State) {
    forall c :: 0 <= c < |s.calls| && EarlierAnswered(cfg, s, c) ==> Clean(cfg, s, c)
  }

  lemma {:induction false} SequenceIsAlone(cfg: Config, s: State, c: nat)
    requires InSequence(cfg, s) && c < |s.calls| && Live(s.calls[c])
    ensures Alone(cfg, s, c)
  {
    hide Name, Live;
  }

  lemma {:induction false} EarlierStay(cfg: Config, s: State, a: Action, c: nat)
    requires InSequence(cfg, s) && c < |s.calls| && EarlierAnswered(cfg, Step(cfg, s, a), c)
    ensures EarlierAnswered(cfg, s, c)
  {
    var s' := Step(cfg, s, a);
    StepExtends(cfg, s, a);
    forall b | 0 <= b < c && Name(cfg, s.calls[b]) == Name(cfg, s.calls[c])
      ensures s.calls[b].phase.Succeeded? || b !in s.posted
    {
      StepPhase(cfg, s, a, b);
      SameName(cfg, s, s', b);
      SameName(cfg, s, s', c);
      hide Step, Name, Live, Takes;
      assert b in s.posted ==> b in s'.posted;
    }
  }

  lemma {:induction false} StartAppends(cfg: Config, s: State, pid: nat, payload: Bytes, budget: int)
    ensures var s' := StartStep(cfg, s, pid, payload, budget);
      s'.posted == s.posted && s.calls <= s'.calls && |s'.calls| <= |s.calls| + 1
    ensures var s' := StartStep(cfg, s, pid, payload, budget);
      |s'.calls| == |s.calls| + 1 ==> s'.calls[|s.calls|].phase.Posting?
  {
    hide Name;
  }

  /** The last call, still to post, finds nothing outstanding when the earlier calls of its name are clean. */
  lemma {:induction false} NewIsClean(cfg: Config, s: State, c: nat)
    requires Sound(cfg, s) && AnsweredOnce(s) && |s.calls| == c + 1 && s.calls[c].phase.Posting?
    requires EarlierAnswered(cfg, s, c)
    requires forall b :: 0 <= b < c && Name(cfg, s.calls[b]) == Name(cfg, s.calls[c]) ==> OwnResult(cfg, s, b)
    ensures Clean(cfg, s, c)
  {
    hide Conserved, Served, Routed, AnsweredOnce, Name, Replies, InPlay, AnswerLies, IsReply;
    var name := Name(cfg, s.calls[c]);
    forall tag: nat
      ensures !Foreign(cfg, s, c, tag)
    {
      if Asks(cfg, s, name, tag) && s.posted[tag] != c {
        var b := s.posted[tag];
        assert b in s.posted;
        assert s.calls[b].phase.Succeeded? && s.calls[b].phase.tag == tag;
        ResultIsLast(cfg, s, b, name);
      }
    }
  }

  lemma {:induction false} EarlierOfEarlier(cfg: Config, s: State, c: nat, b: nat)
    requires EarlierAnswered(cfg, s, c) && b < c && Name(cfg, s.calls[b]) == Name(cfg, s.calls[c])
    ensures EarlierAnswered(cfg, s, b)
  {
  }

  lemma {:induction false} StepAllClean(cfg: Config, s: State, a: Action)
    requires Sound(cfg, s) && InSequence(cfg, s) && AllClean(cfg, s)
    requires Sound(cfg, Step(cfg, s, a)) && AnsweredOnce(Step(cfg, s, a))
    ensures AllClean(cfg, Step(cfg, s, a))
  {
    hide Step, Sound, AnsweredOnce, Clean, InSequence, EarlierAnswered, Alone, Live;
    var s' := Step(cfg, s, a);
    forall c | 0 <= c < |s.calls| && EarlierAnswered(cfg, s', c)
      ensures Clean(cfg, s', c)
    {
      EarlierStay(cfg, s, a, c);
      if Live(s.calls[c]) {
        SequenceIsAlone(cfg, s, c);
      }
      StepClean(cfg, s, a, c);
    }
    var c := |s.calls|;
    StepStarts(cfg, s, a);
    if |s'.calls| > c && EarlierAnswered(cfg, s', c) {
      forall b | 0 <= b < c && Name(cfg, s'.calls[b]) == Name(cfg, s'.calls[c])
        ensures OwnResult(cfg, s', b)
      {
        EarlierOfEarlier(cfg, s', c, b);
        assert Clean(cfg, s', b);
        CleanIsOwn(cfg, s', b);
      }
      hide Name, OwnResult;
      NewIsClean(cfg, s', c);
    }
  }

  lemma {:induction false} CleanIsOwn(cfg: Config, s: State, c: nat)
    requires Clean(cfg, s, c)
    ensures OwnResult(cfg, s, c)
  {
  }

  lemma {:induction false} StepStarts(cfg: Config, s: State, a: Action)
    ensures var s' := Step(cfg, s, a);
      |s'.calls| == |s.calls| || (|s'.calls| == |s.calls| + 1 && s'.calls[|s.calls|].phase.Posting?)
  {
    if a.Start? {
      StartAppends(cfg, s, a.pid, a.payload, a.budget);
    }
    hide StartStep, Name, Posted, Cleared, Answered, Answers, Request, Response, HasAnswer, CanPost;
  }

  lemma {:induction false} SequenceIsClean(cfg: Config, workers: nat, actions: seq<Action>)
    requires AlwaysInSequence(cfg, workers, actions)
    ensures AllClean(cfg, Run(cfg, workers, actions))
    decreases |actions|
  {
    hide Step, Sound, AnsweredOnce, Clean, InSequence;
    if actions != [] {
      hide AllClean, Run;
      var m := |actions| - 1;
      var before, a := actions[..m], actions[m];
      assert forall k :: 0 <= k <= m ==> before[..k] == actions[..k];
      SequenceIsClean(cfg, workers, before);
      AlwaysSound(cfg, workers, before);
      assert before + [a] == actions && actions[..m] == before;
      RunMore(cfg, workers, before, a);
      AlwaysSound(cfg, workers, actions);
      AlwaysAnsweredOnce(cfg, workers, actions);
      StepAllClean(cfg, Run(cfg, workers, before), a);
    }
  }

  /**
  Calls of one name that run one after the other are routed right, however names are formed, as long as the
  earlier ones returned true or never posted.
  */
  lemma {:induction false} SequenceIsRouted(cfg: Config, workers: nat, actions: seq<Action>, c: nat)
    requires AlwaysInSequence(cfg, workers, actions) && EarlierAnswered(cfg, Run(cfg, workers, actions), c)
    ensures OwnResult(cfg, Run(cfg, workers, actions), c)
  {
    hide Run, EarlierAnswered, Clean, AlwaysInSequence;
    SequenceIsClean(cfg, workers, actions);
    EarlierHasCall(cfg, Run(cfg, workers, actions), c);
    CleanIsOwn(cfg, Run(cfg, workers, actions), c);
  }

  lemma {:induction false} EarlierHasCall(cfg: Config, s: State, c: nat)
    requires EarlierAnswered(cfg, s, c)
    ensures c < |s.calls|
  {
  }
}
