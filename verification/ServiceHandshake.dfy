/**
The start-up and control handshake of a Windows service. The main thread starts the dispatcher and later runs
the event loop, serviceMain runs on a thread of the system, and every call of handler waits on one shared
condition for the event loop. Each semaphore, mutex and condition operation is one step; a run is a list of
actions, and an action that is not possible changes nothing.
*/
module ServiceHandshake {

  import opened Wrappers

  // ----- Control codes, states and callbacks

  const CONTROL_STOP := 1
  const CONTROL_PAUSE := 2
  const CONTROL_CONTINUE := 3
  const CONTROL_SHUTDOWN := 5
  const STARTUP := 256

  datatype Status = Unset | StartPending | Running | StopPending | Stopped | PausePending | Paused | ContinuePending

  datatype Callback = Start | Stop | Pause | Resume | ProcessCommand(number: nat) | Ignore

  /** The event that handler posts for a control, if it posts one. */
  function EventFor(code: nat): Option<nat> {
    if code == STARTUP || code == CONTROL_STOP || code == CONTROL_PAUSE || code == CONTROL_CONTINUE then Some(code)
    else if code == CONTROL_SHUTDOWN then Some(CONTROL_STOP)
    else if 128 <= code <= 255 then Some(code)
    else None
  }

  function CallbackFor(event: nat): Callback {
    if event == STARTUP then Start
    else if event == CONTROL_STOP then Stop
    else if event == CONTROL_PAUSE then Pause
    else if event == CONTROL_CONTINUE then Resume
    else if 128 <= event <= 255 then ProcessCommand(event - 128)
    else Ignore
  }

  /** The states that handler sets before it posts and after it was woken. */
  function Before(code: nat): Option<Status> {
    if code == STARTUP then Some(StartPending)
    else if code == CONTROL_STOP then Some(StopPending)
    else if code == CONTROL_PAUSE then Some(PausePending)
    else if code == CONTROL_CONTINUE then Some(ContinuePending)
    else None
  }

  function After(code: nat): Option<Status> {
    if code == STARTUP || code == CONTROL_CONTINUE then Some(Running)
    else if code == CONTROL_PAUSE then Some(Paused)
    else None
  }

  // ----- The state

  /** The main thread, in the order of QtServiceBasePrivate::start; the five from Idle on are the event loop. */
  datatype Main =
    | WaitingForArgs | ArgsAnnounced | ArgsTaken | AppCreated | HandlerCreated
    | Idle | Dispatching | CallbackDone | MutexHeld | AllWoken
    | LoopLeft | StoppedSet | Finished | GaveUp

  datatype ServiceMain = NotCalled | Filling | Released | Admitted | Registered | StartupCalled | Refused

  datatype Dispatcher = Undecided | Serving | Failed | FailureAnnounced

  datatype Phase = Entered | Locked | Posted | Waiting | Woken | Answered | Unlocked | Done

  /**
  One call of handler. event is the number of the event it posted, and ahead how many posted events had not
  yet woken their waiters by then; wokenBy is the number of the event whose wake-up ended its wait.
  */
  datatype Call = Call(code: nat, phase: Phase, event: Option<nat>, ahead: nat, wokenBy: Option<nat>)

  datatype Holder = Free | MainThread | Handler(call: nat)

  /** A state set by a call after its wait, when so many callbacks had run. */
  datatype Report = Report(status: Status, call: nat, callbacksRun: nat)

  /** A posted event: who posted it, and whether the controller handler existed. */
  datatype Event = Event(code: nat, call: nat, receiverExists: bool, loopLeft: bool)

  /** Events are numbered in posting order: those from taken on are queued, those below awoken are dealt with. */
  datatype State = State(
    main: Main, service: ServiceMain, dispatcher: Dispatcher,
    startSemaphore: nat, startSemaphore2: nat,
    serviceArgs: seq<string>, argsRead: Option<seq<string>>, controllerHandler: bool,
    mutex: Holder, calls: seq<Call>,
    events: seq<Event>, taken: nat, awoken: nat, callbacks: seq<Callback>,
    status: Status, reports: seq<Report>)

  function Initial(): State {
    State(
      WaitingForArgs, NotCalled, Undecided, 0, 0, [], None, false, Free, [], [], 0, 0, [], Unset, [])
  }

  datatype Action =
    | DispatcherServes | DispatcherFails | AnnounceFailure
    | FillArg | ReleaseArgs | AcquireReady | Register(success: bool) | CallStartup
    | Control(code: nat)
    | AcquireArgs | TimeOut | TakeArgs | CreateApp(success: bool) | CreateHandler | ReleaseReady
    | TakeEvent | RunCallback | LockMain | WakeAll | UnlockMain
    | LeaveLoop | SetStopped | DeleteHandler
    | Lock(call: nat) | Post(call: nat) | Wait(call: nat) | Wake(call: nat) | Unlock(call: nat)
    | ReportCurrent(call: nat)

  // ----- The steps

  predicate InLoop(main: Main) {
    main == Idle || main == Dispatching || main == CallbackDone || main == MutexHeld || main == AllWoken
  }

  predicate PastLoop(main: Main) {
    main == LoopLeft || main == StoppedSet || main == Finished
  }

  function NewCall(code: nat): Call {
    Call(code, Entered, None, 0, None)
  }

  function DispatcherStep(s: State, a: Action): State {
    match a
    case DispatcherServes => if s.dispatcher.Undecided? then s.(dispatcher := Serving, service := Filling) else s
    case DispatcherFails => if s.dispatcher.Undecided? then s.(dispatcher := Failed) else s
    case AnnounceFailure =>
      if s.dispatcher.Failed? then s.(dispatcher := FailureAnnounced, startSemaphore := s.startSemaphore + 1) else s
    case _ => s
  }

  function ServiceMainStep(args: seq<string>, s: State, a: Action): State {
    match a
    case FillArg =>
      if s.service.Filling? && |s.serviceArgs| < |args|
      then s.(serviceArgs := s.serviceArgs + [args[|s.serviceArgs|]]) else s
    case ReleaseArgs =>
      if s.service.Filling? && |s.serviceArgs| >= |args|
      then s.(service := Released, startSemaphore := s.startSemaphore + 1) else s
    case AcquireReady =>
      if s.service.Released? && s.startSemaphore2 > 0
      then s.(service := Admitted, startSemaphore2 := s.startSemaphore2 - 1) else s
    case Register(success) => if s.service.Admitted? then s.(service := if success then Registered else Refused) else s
    case CallStartup =>
      if s.service.Registered? then s.(service := StartupCalled, calls := s.calls + [NewCall(STARTUP)]) else s
    case _ => s
  }

  /** The system may send controls as soon as the handler is registered. */
  function ControlStep(s: State, a: Action): State {
    match a
    case Control(code) =>
      if (s.service.Registered? || s.service.StartupCalled?) && code < STARTUP
      then s.(calls := s.calls + [NewCall(code)]) else s
    case _ => s
  }

  function MainStep(s: State, a: Action): State {
    match a
    case AcquireArgs =>
      if s.main.WaitingForArgs? && s.startSemaphore > 0
      then s.(main := ArgsAnnounced, startSemaphore := s.startSemaphore - 1) else s
    case TimeOut => if s.main.WaitingForArgs? then s.(main := GaveUp) else s
    case TakeArgs =>
      if !s.main.ArgsAnnounced? then s
      else if s.dispatcher.Failed? || s.dispatcher.FailureAnnounced? then s.(main := GaveUp)
      else s.(main := ArgsTaken, argsRead := Some(s.serviceArgs))
    case CreateApp(success) => if s.main.ArgsTaken? then s.(main := if success then AppCreated else GaveUp) else s
    case CreateHandler => if s.main.AppCreated? then s.(main := HandlerCreated, controllerHandler := true) else s
    case ReleaseReady =>
      if s.main.HandlerCreated? then s.(main := Idle, startSemaphore2 := s.startSemaphore2 + 1) else s
    case LeaveLoop => if s.main.Idle? then s.(main := LoopLeft) else s
    case SetStopped => if s.main.LoopLeft? then s.(main := StoppedSet, status := Stopped) else s
    case DeleteHandler => if s.main.StoppedSet? then s.(main := Finished, controllerHandler := false) else s
    case _ => s
  }

  function WokenFrom(call: Call, event: nat): Call {
    if call.phase.Waiting? then call.(phase := Woken, wokenBy := Some(event)) else call
  }

  function AllWokenUp(s: State): State {
    s.(main := AllWoken, awoken := s.awoken + 1,
       calls := seq(|s.calls|, i requires 0 <= i < |s.calls| => WokenFrom(s.calls[i], s.awoken)))
  }

  /** handleCustomEvent: the callback of the event's code, then a wake-up of every waiting call. */
  function LoopStep(s: State, a: Action): State {
    match a
    case TakeEvent => if s.main.Idle? && s.taken < |s.events| then s.(main := Dispatching, taken := s.taken + 1) else s
    case RunCallback =>
      if s.main.Dispatching? && 0 < s.taken <= |s.events|
      then s.(main := CallbackDone, callbacks := s.callbacks + [CallbackFor(s.events[s.taken - 1].code)]) else s
    case LockMain => if s.main.CallbackDone? && s.mutex.Free? then s.(main := MutexHeld, mutex := MainThread) else s
    case WakeAll =>
      if s.main.MutexHeld? then AllWokenUp(s) else s
    case UnlockMain => if s.main.AllWoken? then s.(main := Idle, mutex := Free) else s
    case _ => s
  }

  predicate At(s: State, i: nat, phase: Phase) {
    i < |s.calls| && s.calls[i].phase == phase
  }

  function InPhase(s: State, i: nat, phase: Phase): State
    requires i < |s.calls|
  {
    s.(calls := s.calls[i := s.calls[i].(phase := phase)])
  }

  function PostEvent(s: State, i: nat): State
    requires i < |s.calls|
  {
    var code := s.calls[i].code;
    var pending := if Before(code).Some? then s.(status := Before(code).value) else s;
    match EventFor(code)
    case None => InPhase(pending, i, Answered)
    case Some(event) =>
      var ahead := if s.awoken <= |s.events| then |s.events| - s.awoken else 0;
      pending.(events := s.events + [Event(event, i, s.controllerHandler, PastLoop(s.main))],
               calls := s.calls[i := s.calls[i].(phase := Posted, event := Some(|s.events|), ahead := ahead)])
  }

  function Answer(s: State, i: nat): State
    requires i < |s.calls|
  {
    var s' := InPhase(s, i, Answered).(mutex := Handler(i));
    match After(s.calls[i].code)
    case None => s'
    case Some(status) => s'.(status := status, reports := s.reports + [Report(status, i, |s.callbacks|)])
  }

  /** One call of handler, from taking the mutex to reporting the current state. */
  function HandlerStep(s: State, a: Action): State {
    match a
    case Lock(i) => if At(s, i, Entered) && s.mutex.Free? then InPhase(s, i, Locked).(mutex := Handler(i)) else s
    case Post(i) => if At(s, i, Locked) then PostEvent(s, i) else s
    case Wait(i) => if At(s, i, Posted) then InPhase(s, i, Waiting).(mutex := Free) else s
    case Wake(i) => if At(s, i, Woken) && s.mutex.Free? then Answer(s, i) else s
    case Unlock(i) => if At(s, i, Answered) then InPhase(s, i, Unlocked).(mutex := Free) else s
    case ReportCurrent(i) => if At(s, i, Unlocked) then InPhase(s, i, Done) else s
    case _ => s
  }

  function Step(args: seq<string>, s: State, a: Action): State {
    if a.DispatcherServes? || a.DispatcherFails? || a.AnnounceFailure? then DispatcherStep(s, a)
    else if a.FillArg? || a.ReleaseArgs? || a.AcquireReady? || a.Register? || a.CallStartup?
    then ServiceMainStep(args, s, a)
    else if a.Control? then ControlStep(s, a)
    else if a.TakeEvent? || a.RunCallback? || a.LockMain? || a.WakeAll? || a.UnlockMain? then LoopStep(s, a)
    else if a.Lock? || a.Post? || a.Wait? || a.Wake? || a.Unlock? || a.ReportCurrent? then HandlerStep(s, a)
    else MainStep(s, a)
  }

  function RunFrom(args: seq<string>, s: State, actions: seq<Action>): State {
    if actions == [] then s
    else Step(args, RunFrom(args, s, actions[..|actions| - 1]), actions[|actions| - 1])
  }

  function Run(args: seq<string>, actions: seq<Action>): State {
    RunFrom(args, Initial(), actions)
  }

  // ----- The semaphores

  function Bit(b: bool): nat {
    if b then 1 else 0
  }

  predicate ArgsReleased(s: State) {
    !s.service.NotCalled? && !s.service.Filling?
  }

  predicate ReadyAcquired(s: State) {
    s.service.Admitted? || s.service.Registered? || s.service.StartupCalled? || s.service.Refused?
  }

  /** Every release of a semaphore is a permit still there or one acquisition. */
  predicate Permits(s: State) {
    && s.startSemaphore <= Bit(ArgsReleased(s)) + Bit(s.dispatcher.FailureAnnounced?)
    && (s.main.WaitingForArgs? ==> s.startSemaphore == Bit(ArgsReleased(s)) + Bit(s.dispatcher.FailureAnnounced?))
    && (!s.main.WaitingForArgs? && !s.main.GaveUp? ==>
        s.startSemaphore + 1 == Bit(ArgsReleased(s)) + Bit(s.dispatcher.FailureAnnounced?))
    && s.startSemaphore2 + Bit(ReadyAcquired(s)) == Bit(InLoop(s.main) || PastLoop(s.main))
    && (s.dispatcher.Serving? <==> !s.service.NotCalled?)
  }

  /** The arguments are complete when they are announced, and main reads nothing else. */
  predicate ArgsComplete(args: seq<string>, s: State) {
    && s.serviceArgs <= args
    && (ArgsReleased(s) ==> s.serviceArgs == args)
    && (s.argsRead.Some? ==> s.argsRead.value == args)
    && (s.argsRead.Some? <== !s.main.WaitingForArgs? && !s.main.ArgsAnnounced? && !s.main.GaveUp?)
  }

  /** The controller handler exists from its creation to its deletion, and calls come only in or after the loop. */
  predicate ReceiverReady(s: State) {
    && (s.controllerHandler <==> s.main.HandlerCreated? || InLoop(s.main) || s.main.LoopLeft? || s.main.StoppedSet?)
    && (s.calls != [] ==> s.service.Registered? || s.service.StartupCalled?)
    && (forall e :: 0 <= e < |s.events| ==>
        (!s.events[e].loopLeft ==> s.events[e].receiverExists) && (!s.events[e].receiverExists ==> s.main.Finished?))
  }

  predicate Started(args: seq<string>, s: State) {
    Permits(s) && ArgsComplete(args, s) && ReceiverReady(s)
  }

  lemma {:induction false} DispatcherStarts(args: seq<string>, s: State, a: Action)
    requires Started(args, s)
    ensures Started(args, DispatcherStep(s, a))
  {
  }

  lemma {:induction false} ServiceMainStarts(args: seq<string>, s: State, a: Action)
    requires Started(args, s)
    ensures Started(args, ServiceMainStep(args, s, a))
  {
  }

  lemma {:induction false} ControlStarts(args: seq<string>, s: State, a: Action)
    requires Started(args, s)
    ensures Started(args, ControlStep(s, a))
  {
  }

  lemma {:induction false} MainStarts(args: seq<string>, s: State, a: Action)
    requires Started(args, s)
    ensures Started(args, MainStep(s, a))
  {
    MainPermits(s, a);
    MainReceives(s, a);
    hide ReceiverReady;
    MainArgs(args, s, a);
    hide Permits, ArgsComplete, MainStep;
  }

  lemma {:induction false} MainPermits(s: State, a: Action)
    requires Permits(s)
    ensures Permits(MainStep(s, a))
  {
  }

  lemma {:induction false} MainReceives(s: State, a: Action)
    requires ReceiverReady(s)
    ensures ReceiverReady(MainStep(s, a))
  {
  }

  lemma {:induction false} MainArgs(args: seq<string>, s: State, a: Action)
    requires Permits(s) && ArgsComplete(args, s)
    ensures ArgsComplete(args, MainStep(s, a))
  {
  }

  lemma {:induction false} LoopStarts(args: seq<string>, s: State, a: Action)
    requires Started(args, s)
    ensures Started(args, LoopStep(s, a))
  {
  }

  lemma {:induction false} PostingStarts(args: seq<string>, s: State, i: nat)
    requires Started(args, s) && i < |s.calls|
    ensures Started(args, PostEvent(s, i))
  {
    hide EventFor, Before;
  }

  predicate SameStart(s: State, s': State) {
    && s'.main == s.main && s'.service == s.service && s'.dispatcher == s.dispatcher
    && s'.startSemaphore == s.startSemaphore && s'.startSemaphore2 == s.startSemaphore2
    && s'.serviceArgs == s.serviceArgs && s'.argsRead == s.argsRead && s'.controllerHandler == s.controllerHandler
  }

  lemma {:induction false} HandlerKeepsStart(s: State, a: Action)
    ensures SameStart(s, HandlerStep(s, a))
    ensures (a.Post? && At(s, a.call, Locked)) || HandlerStep(s, a).events == s.events
    ensures |HandlerStep(s, a).calls| == |s.calls|
  {
    hide EventFor, Before, After;
  }

  lemma {:induction false} SameStartStarts(args: seq<string>, s: State, s': State)
    requires Started(args, s) && SameStart(s, s') && s'.events == s.events && |s'.calls| == |s.calls|
    ensures Started(args, s')
  {
  }

  lemma {:induction false} HandlerStarts(args: seq<string>, s: State, a: Action)
    requires Started(args, s)
    ensures Started(args, HandlerStep(s, a))
  {
    HandlerKeepsStart(s, a);
    if a.Post? && At(s, a.call, Locked) {
      hide PostEvent, Started;
      PostingStarts(args, s, a.call);
    } else {
      hide HandlerStep, Started, SameStart;
      SameStartStarts(args, s, HandlerStep(s, a));
    }
  }

  lemma {:induction false} StepStarts(args: seq<string>, s: State, a: Action)
    requires Started(args, s)
    ensures Started(args, Step(args, s, a))
  {
    hide Started;
    hide DispatcherStep, ServiceMainStep, ControlStep, MainStep, LoopStep, HandlerStep;
    DispatcherStarts(args, s, a);
    ServiceMainStarts(args, s, a);
    ControlStarts(args, s, a);
    MainStarts(args, s, a);
    LoopStarts(args, s, a);
    HandlerStarts(args, s, a);
  }

  // ----- The mutex, the events and the calls

  predicate HoldsMutex(phase: Phase) {
    phase.Locked? || phase.Posted? || phase.Answered?
  }

  predicate OneHolder(s: State) {
    && (s.mutex.MainThread? <==> s.main.MutexHeld? || s.main.AllWoken?)
    && (s.mutex.Handler? ==> s.mutex.call < |s.calls| && HoldsMutex(s.calls[s.mutex.call].phase))
    && (forall i :: 0 <= i < |s.calls| && HoldsMutex(s.calls[i].phase) ==> s.mutex == Handler(i))
  }

  /** At most one event is taken and not yet dealt with, and the callbacks are those of the events, in order. */
  predicate InOrder(s: State) {
    && s.taken == s.awoken + Bit(s.main.Dispatching? || s.main.CallbackDone? || s.main.MutexHeld?)
    && s.taken == |s.callbacks| + Bit(s.main.Dispatching?)
    && s.taken <= |s.events|
    && (forall e :: 0 <= e < |s.callbacks| ==> s.callbacks[e] == CallbackFor(s.events[e].code))
  }

  predicate OwnsEvent(events: seq<Event>, i: nat, call: Call) {
    && EventFor(call.code).Some? && call.event.Some? && call.ahead <= call.event.value < |events|
    && events[call.event.value].call == i && events[call.event.value].code == EventFor(call.code).value
  }

  predicate WokenFirst(awoken: nat, call: Call) {
    call.event.Some? && call.wokenBy.Some? && call.wokenBy.value == call.event.value - call.ahead < awoken
  }

  /** The first wake-up after a call posted is the one for the event that was ahead most of all. */
  predicate CallTracked(events: seq<Event>, awoken: nat, i: nat, call: Call) {
    match call.phase
    case Entered => call.event.None? && call.wokenBy.None?
    case Locked => call.event.None? && call.wokenBy.None?
    case Posted => OwnsEvent(events, i, call) && call.wokenBy.None? && call.event.value - call.ahead == awoken
    case Waiting => OwnsEvent(events, i, call) && call.wokenBy.None? && call.event.value - call.ahead == awoken
    case Woken => OwnsEvent(events, i, call) && WokenFirst(awoken, call)
    case _ =>
      if EventFor(call.code).None? then call.event.None? && call.wokenBy.None?
      else OwnsEvent(events, i, call) && WokenFirst(awoken, call)
  }

  predicate AllTracked(s: State) {
    && (forall i :: 0 <= i < |s.calls| ==> CallTracked(s.events, s.awoken, i, s.calls[i]))
    && (forall e :: 0 <= e < |s.events| ==> s.events[e].call < |s.calls| && s.calls[s.events[e].call].event == Some(e))
  }

  predicate HasAnswered(phase: Phase) {
    phase.Answered? || phase.Unlocked? || phase.Done?
  }

  predicate ReportFollows(report: Report, call: Call) {
    && HasAnswered(call.phase) && After(call.code) == Some(report.status)
    && call.wokenBy.Some? && call.wokenBy.value < report.callbacksRun
  }

  /** A state is reported after the callback of the event that woke the call. */
  predicate ReportsFollow(s: State) {
    forall r :: 0 <= r < |s.reports| ==>
      && s.reports[r].call < |s.calls| && s.reports[r].callbacksRun <= |s.callbacks|
      && ReportFollows(s.reports[r], s.calls[s.reports[r].call])
  }

  predicate Tracked(s: State) {
    OneHolder(s) && InOrder(s) && AllTracked(s) && ReportsFollow(s)
  }

  lemma {:induction false} DispatcherTracks(s: State, a: Action)
    requires Tracked(s)
    ensures Tracked(DispatcherStep(s, a))
  {
  }

  lemma {:induction false} ServiceMainTracks(args: seq<string>, s: State, a: Action)
    requires Tracked(s)
    ensures Tracked(ServiceMainStep(args, s, a))
  {
  }

  lemma {:induction false} ControlTracks(s: State, a: Action)
    requires Tracked(s)
    ensures Tracked(ControlStep(s, a))
  {
  }

  lemma {:induction false} MainTracks(s: State, a: Action)
    requires Tracked(s)
    ensures Tracked(MainStep(s, a))
  {
    hide CallTracked, ReportFollows, CallbackFor, HoldsMutex;
  }

  lemma {:induction false} ReportsStay(s: State, s': State)
    requires ReportsFollow(s) && s'.reports == s.reports && |s.calls| <= |s'.calls| && |s.callbacks| <= |s'.callbacks|
    requires forall i :: 0 <= i < |s.calls| && HasAnswered(s.calls[i].phase) ==>
      HasAnswered(s'.calls[i].phase) && s'.calls[i].code == s.calls[i].code && s'.calls[i].wokenBy == s.calls[i].wokenBy
    ensures ReportsFollow(s')
  {
    hide After;
  }

  lemma {:induction false} WakingTracks(s: State)
    requires Tracked(s) && s.main.MutexHeld?
    ensures Tracked(AllWokenUp(s))
  {
    hide EventFor, CallbackFor, After;
    WakingTracksCalls(s);
    assert forall i :: 0 <= i < |s.calls| ==> AllWokenUp(s).calls[i] == WokenFrom(s.calls[i], s.awoken);
    ReportsStay(s, AllWokenUp(s));
    hide CallTracked, ReportsFollow;
  }

  lemma {:induction false} WakingTracksCalls(s: State)
    requires OneHolder(s) && AllTracked(s) && s.main.MutexHeld?
    ensures AllTracked(AllWokenUp(s))
  {
    hide CallTracked;
    var s' := AllWokenUp(s);
    forall i | 0 <= i < |s.calls|
      ensures CallTracked(s'.events, s'.awoken, i, s'.calls[i])
    {
      WakingTracksCall(s.events, s.awoken, i, s.calls[i]);
    }
  }

  lemma {:induction false} WakingTracksCall(events: seq<Event>, awoken: nat, i: nat, call: Call)
    requires CallTracked(events, awoken, i, call) && !HoldsMutex(call.phase)
    ensures CallTracked(events, awoken + 1, i, WokenFrom(call, awoken))
  {
    hide EventFor;
  }

  lemma {:induction false} LoopTracks(s: State, a: Action)
    requires Tracked(s)
    ensures Tracked(LoopStep(s, a))
  {
    hide CallTracked, AllWokenUp, EventFor, CallbackFor, After;
    if a.WakeAll? && s.main.MutexHeld? {
      WakingTracks(s);
    }
  }

  lemma {:induction false} PostingKeepsTracked(events: seq<Event>, e: Event, awoken: nat, i: nat, call: Call)
    requires CallTracked(events, awoken, i, call)
    ensures CallTracked(events + [e], awoken, i, call)
  {
    hide EventFor;
  }

  lemma {:induction false} PostingTracksCalls(s: State, i: nat)
    requires InOrder(s) && AllTracked(s) && At(s, i, Locked)
    ensures AllTracked(PostEvent(s, i))
  {
    hide CallbackFor, Before, CallTracked, EventFor;
    var s', code := PostEvent(s, i), s.calls[i].code;
    assert s.calls[i].event.None? && s.calls[i].wokenBy.None? by { UnfoldTracked(s, i); }
    forall k | 0 <= k < |s.calls|
      ensures CallTracked(s'.events, s'.awoken, k, s'.calls[k])
    {
      if k == i {
        PostedIsTracked(s, i);
      } else if EventFor(code).Some? {
        PostingKeepsTracked(s.events, s'.events[|s.events|], s.awoken, k, s.calls[k]);
      }
    }
  }

  lemma {:induction false} UnfoldTracked(s: State, i: nat)
    requires AllTracked(s) && i < |s.calls|
    ensures CallTracked(s.events, s.awoken, i, s.calls[i])
    ensures s.calls[i].phase.Locked? ==> s.calls[i].event.None? && s.calls[i].wokenBy.None?
  {
  }

  lemma {:induction false} PostedIsTracked(s: State, i: nat)
    requires InOrder(s) && At(s, i, Locked) && s.calls[i].event.None? && s.calls[i].wokenBy.None?
    ensures var s' := PostEvent(s, i); CallTracked(s'.events, s'.awoken, i, s'.calls[i])
  {
    hide EventFor, Before;
  }

  lemma {:induction false} PostingTracks(s: State, i: nat)
    requires Tracked(s) && At(s, i, Locked)
    ensures Tracked(PostEvent(s, i))
  {
    hide CallbackFor, Before, After, EventFor, CallTracked;
    PostingTracksCalls(s, i);
    ReportsStay(s, PostEvent(s, i));
    hide ReportsFollow, AllTracked;
  }

  lemma {:induction false} AnsweringTracks(s: State, i: nat)
    requires Tracked(s) && At(s, i, Woken) && s.mutex.Free?
    ensures Tracked(Answer(s, i))
  {
    assert CallTracked(s.events, s.awoken, i, s.calls[i]);
    assert WokenFirst(s.awoken, s.calls[i]);
    hide OwnsEvent;
    RephasedTracks(s, i, Answered);
    hide CallbackFor, Before, EventFor, CallTracked;
    AnsweringReports(s, i);
    AnsweringHolds(s, i);
    hide After, ReportsFollow, OneHolder, InOrder, WokenFirst;
  }

  lemma {:induction false} AnsweringHolds(s: State, i: nat)
    requires OneHolder(s) && InOrder(s) && At(s, i, Woken) && s.mutex.Free?
    ensures OneHolder(Answer(s, i)) && InOrder(Answer(s, i))
  {
    hide After, CallbackFor;
  }

  lemma {:induction false} AnsweringReports(s: State, i: nat)
    requires ReportsFollow(s) && InOrder(s) && At(s, i, Woken) && WokenFirst(s.awoken, s.calls[i])
    ensures ReportsFollow(Answer(s, i))
  {
    hide After, CallbackFor;
    ReportsStay(s, InPhase(s, i, Answered));
  }

  /** A new phase that asks the same of a call. */
  lemma {:induction false} RephasedTracks(s: State, i: nat, phase: Phase)
    requires AllTracked(s) && i < |s.calls|
    requires var was := s.calls[i].phase;
      || (was.Entered? && phase.Locked?) || (was.Posted? && phase.Waiting?) || (was.Woken? && phase.Answered?)
      || (HasAnswered(was) && HasAnswered(phase))
    ensures AllTracked(InPhase(s, i, phase))
  {
    hide EventFor;
  }

  lemma {:induction false} PostingHolds(s: State, i: nat)
    requires OneHolder(s) && InOrder(s) && At(s, i, Locked)
    ensures OneHolder(PostEvent(s, i)) && InOrder(PostEvent(s, i))
  {
    hide EventFor, CallbackFor, Before;
  }

  lemma {:induction false} OthersKeepOrder(s: State, a: Action)
    requires InOrder(s) && (a.Post? ==> !At(s, a.call, Locked))
    ensures InOrder(HandlerStep(s, a))
  {
    hide CallbackFor, After;
  }

  lemma {:induction false} HandlerHolds(s: State, a: Action)
    requires OneHolder(s) && InOrder(s)
    ensures OneHolder(HandlerStep(s, a)) && InOrder(HandlerStep(s, a))
  {
    hide PostEvent, CallbackFor, After;
    if a.Post? && At(s, a.call, Locked) {
      PostingHolds(s, a.call);
    } else {
      OthersKeepOrder(s, a);
      hide InOrder;
    }
  }

  lemma {:induction false} HandlerTracks(s: State, a: Action)
    requires Tracked(s)
    ensures Tracked(HandlerStep(s, a))
  {
    hide PostEvent, Answer, EventFor, CallbackFor, After, CallTracked, ReportsFollow;
    HandlerHolds(s, a);
    hide OneHolder, InOrder;
    match a
    case Post(i) => if At(s, i, Locked) { PostingTracks(s, i); }
    case Wake(i) => if At(s, i, Woken) && s.mutex.Free? { AnsweringTracks(s, i); }
    case Lock(i) =>
      if At(s, i, Entered) && s.mutex.Free? { RephasedTracks(s, i, Locked); ReportsStay(s, HandlerStep(s, a)); }
    case Wait(i) => if At(s, i, Posted) { RephasedTracks(s, i, Waiting); ReportsStay(s, HandlerStep(s, a)); }
    case Unlock(i) => if At(s, i, Answered) { RephasedTracks(s, i, Unlocked); ReportsStay(s, HandlerStep(s, a)); }
    case ReportCurrent(i) => if At(s, i, Unlocked) { RephasedTracks(s, i, Done); ReportsStay(s, HandlerStep(s, a)); }
    case _ =>
  }

  lemma {:induction false} StepTracks(args: seq<string>, s: State, a: Action)
    requires Tracked(s)
    ensures Tracked(Step(args, s, a))
  {
    hide Tracked;
    hide DispatcherStep, ServiceMainStep, ControlStep, MainStep, LoopStep, HandlerStep;
    DispatcherTracks(s, a);
    ServiceMainTracks(args, s, a);
    ControlTracks(s, a);
    MainTracks(s, a);
    LoopTracks(s, a);
    HandlerTracks(s, a);
  }

  // ----- What holds in every run

  lemma {:induction false} AlwaysTracked(args: seq<string>, actions: seq<Action>)
    ensures Started(args, Run(args, actions)) && Tracked(Run(args, actions))
  {
    hide Step;
    if actions == [] {
      hide Started, Tracked;
      EmptyIsStarted(args, Initial());
      EmptyIsTracked(Initial());
    } else {
      hide Started, Tracked;
      var before := actions[..|actions| - 1];
      AlwaysTracked(args, before);
      StepStarts(args, Run(args, before), actions[|actions| - 1]);
      StepTracks(args, Run(args, before), actions[|actions| - 1]);
    }
  }

  lemma {:induction false} EmptyIsStarted(args: seq<string>, s: State)
    requires s.main.WaitingForArgs? && s.service.NotCalled? && s.dispatcher.Undecided?
    requires s.startSemaphore == s.startSemaphore2 == 0
    requires s.serviceArgs == [] && s.argsRead.None? && !s.controllerHandler && s.calls == [] && s.events == []
    ensures Started(args, s)
  {
    assert |s.serviceArgs| == |s.calls| == |s.events| == 0;
  }

  lemma {:induction false} EmptyIsTracked(s: State)
    requires s.main.WaitingForArgs? && s.mutex.Free?
    requires s.calls == [] && s.events == [] && s.callbacks == [] && s.reports == []
    requires s.taken == s.awoken == 0
    ensures Tracked(s)
  {
    hide CallTracked, ReportFollows, CallbackFor, HoldsMutex;
    assert |s.calls| == |s.events| == |s.callbacks| == |s.reports| == 0;
  }

  /**
  An event posted before the loop is left goes to an existing controller handler, an event without a receiver
  is posted only after main deleted it, and main reads the arguments only when they are complete.
  */
  lemma {:induction false} HandshakeHolds(args: seq<string>, actions: seq<Action>)
    ensures var s := Run(args, actions);
      && (forall e :: 0 <= e < |s.events| && !s.events[e].loopLeft ==> s.events[e].receiverExists)
      && (forall e :: 0 <= e < |s.events| && !s.events[e].receiverExists ==> s.main.Finished?)
      && (s.argsRead.Some? ==> s.argsRead.value == args)
      && (s.controllerHandler ==> s.argsRead.Some?)
  {
    AlwaysTracked(args, actions);
    hide Tracked, RunFrom;
  }

  predicate WasWoken(call: Call) {
    call.wokenBy.Some?
  }

  /**
  A call is woken by its own event exactly when no other event was still to wake its waiters when the call
  posted; otherwise it is woken by the event of another call. A call that was not yet woken has its event
  still to come, so no wake-up is lost.
  */
  lemma {:induction false} WokenByOwnExactly(args: seq<string>, actions: seq<Action>, i: nat)
    requires i < |Run(args, actions).calls| && Run(args, actions).calls[i].event.Some?
    ensures var s := Run(args, actions);
      var call := s.calls[i];
      && call.event.value < |s.events| && s.events[call.event.value].call == i
      && (!WasWoken(call) ==> call.event.value >= s.awoken)
      && (WasWoken(call) ==>
          && call.wokenBy.value <= call.event.value
          && (call.wokenBy == call.event <==> call.ahead == 0)
          && (call.ahead > 0 ==> s.events[call.wokenBy.value].call != i))
  {
    AlwaysTracked(args, actions);
    hide RunFrom, Started;
    var s := Run(args, actions);
    UnfoldTracked(s, i);
  }

  /** The callback of a call's own event is among the first n that ran. */
  predicate OwnCallbackAmong(s: State, i: nat, n: nat)
    requires i < |s.calls| && n <= |s.callbacks|
  {
    EventFor(s.calls[i].code).Some? && s.calls[i].event.Some? && s.calls[i].event.value < n
      && s.callbacks[s.calls[i].event.value] == CallbackFor(EventFor(s.calls[i].code).value)
  }

  /**
  A state that a call sets after its wait is reported once the call's own callback has run, if no other event
  was pending when the call posted. So START_PENDING turns to RUNNING only after the start callback.
  */
  lemma {:induction false} ReportsAreTrue(args: seq<string>, actions: seq<Action>, r: nat)
    requires r < |Run(args, actions).reports|
    ensures var s := Run(args, actions);
      var Report(status, i, n) := s.reports[r];
      && i < |s.calls| && n <= |s.callbacks| && After(s.calls[i].code) == Some(status)
      && (s.calls[i].ahead == 0 ==> OwnCallbackAmong(s, i, n))
      && (s.calls[i].ahead == 0 && s.calls[i].code == STARTUP ==> Start in s.callbacks[..n])
  {
    AlwaysTracked(args, actions);
    hide RunFrom, Started;
    var s := Run(args, actions);
    assert ReportFollows(s.reports[r], s.calls[s.reports[r].call]);
    UnfoldTracked(s, s.reports[r].call);
    var call := s.calls[s.reports[r].call];
    if call.ahead == 0 {
      assert s.callbacks[call.event.value] == s.callbacks[..s.reports[r].callbacksRun][call.event.value];
    }
  }

  // ----- One call in flight

  predicate AtMostOneActive(s: State) {
    forall i, k :: 0 <= i < k < |s.calls| ==> s.calls[i].phase.Done? || s.calls[k].phase.Done?
  }

  ghost predicate OneInFlight(args: seq<string>, actions: seq<Action>) {
    forall n :: 0 <= n <= |actions| ==> AtMostOneActive(Run(args, actions[..n]))
  }

  /** Nothing was ever ahead of a call, and pending events belong to calls that wait for them. */
  predicate Alone(s: State) {
    && (forall i :: 0 <= i < |s.calls| ==> s.calls[i].ahead == 0)
    && (forall e :: s.awoken <= e < |s.events| ==>
        s.events[e].call < |s.calls| && Awaits(s.calls[s.events[e].call].phase))
  }

  predicate Awaits(phase: Phase) {
    phase.Posted? || phase.Waiting?
  }

  lemma {:induction false} PendingCallsDiffer(s: State)
    requires AllTracked(s)
    ensures forall e, f :: 0 <= e < f < |s.events| ==> s.events[e].call != s.events[f].call
  {
    hide CallTracked;
  }

  lemma {:induction false} LoopAlone(s: State, a: Action)
    requires Tracked(s) && AtMostOneActive(s) && Alone(s)
    ensures Alone(LoopStep(s, a))
  {
    hide CallTracked, ReportsFollow, OneHolder, CallbackFor;
    PendingCallsDiffer(s);
    assert s.awoken < |s.events| ==> Awaits(s.calls[s.events[s.awoken].call].phase);
  }

  lemma {:induction false} PendingIsActive(s: State)
    requires Alone(s)
    ensures s.awoken < |s.events| ==> exists c :: 0 <= c < |s.calls| && Awaits(s.calls[c].phase)
  {
    assert s.awoken < |s.events| ==> Awaits(s.calls[s.events[s.awoken].call].phase);
  }

  lemma {:induction false} NothingPending(s: State, i: nat)
    requires AtMostOneActive(s) && Alone(s) && At(s, i, Locked)
    ensures s.awoken >= |s.events|
  {
    PendingIsActive(s);
    hide Alone;
  }

  lemma {:induction false} PostingAlone(s: State, i: nat)
    requires AtMostOneActive(s) && Alone(s) && InOrder(s) && At(s, i, Locked)
    ensures Alone(PostEvent(s, i))
  {
    hide CallbackFor, Before, EventFor;
    NothingPending(s, i);
    hide AtMostOneActive;
  }

  lemma {:induction false} HandlerAlone(s: State, a: Action)
    requires Tracked(s) && AtMostOneActive(s) && Alone(s)
    ensures Alone(HandlerStep(s, a))
  {
    hide CallTracked, ReportsFollow, OneHolder, CallbackFor, After, Before, PostEvent;
    if a.Post? && At(s, a.call, Locked) {
      PostingAlone(s, a.call);
    }
    hide AtMostOneActive, AllTracked;
  }

  lemma {:induction false} OthersAlone(args: seq<string>, s: State, a: Action)
    requires Alone(s)
    ensures Alone(DispatcherStep(s, a)) && Alone(MainStep(s, a))
    ensures Alone(ServiceMainStep(args, s, a)) && Alone(ControlStep(s, a))
  {
    assert Alone(DispatcherStep(s, a)) && Alone(MainStep(s, a)) by { hide ServiceMainStep, ControlStep; }
    CallsAlone(args, s, a);
    hide Alone, DispatcherStep, MainStep, ServiceMainStep, ControlStep;
  }

  lemma {:induction false} CallsAlone(args: seq<string>, s: State, a: Action)
    requires Alone(s)
    ensures Alone(ServiceMainStep(args, s, a)) && Alone(ControlStep(s, a))
  {
  }

  lemma {:induction false} StepAlone(args: seq<string>, s: State, a: Action)
    requires Tracked(s) && AtMostOneActive(s) && Alone(s)
    ensures Alone(Step(args, s, a))
  {
    LoopAlone(s, a);
    HandlerAlone(s, a);
    hide LoopStep, HandlerStep, Tracked, AtMostOneActive;
    OthersAlone(args, s, a);
    hide DispatcherStep, ServiceMainStep, ControlStep, MainStep, Alone;
  }

  /** With one call of handler in flight at a time, every call is woken by its own event. */
  lemma {:induction false} OneInFlightIsAlone(args: seq<string>, actions: seq<Action>)
    requires OneInFlight(args, actions)
    ensures Alone(Run(args, actions))
  {
    hide Step, Tracked, Started, AtMostOneActive;
    if actions != [] {
      var before := actions[..|actions| - 1];
      assert before[..|before|] == before && actions[..|before|] == before;
      assert forall n :: 0 <= n <= |before| ==> before[..n] == actions[..n];
      OneInFlightIsAlone(args, before);
      AlwaysTracked(args, before);
      StepAlone(args, Run(args, before), actions[|actions| - 1]);
    }
  }

  /** So with one call in flight every report is true. */
  lemma {:induction false} OneInFlightReportsTrue(args: seq<string>, actions: seq<Action>, r: nat)
    requires OneInFlight(args, actions) && r < |Run(args, actions).reports|
    ensures var s := Run(args, actions);
      var Report(status, i, n) := s.reports[r];
      && i < |s.calls| && n <= |s.callbacks| && OwnCallbackAmong(s, i, n)
      && (s.calls[i].code == STARTUP ==> Start in s.callbacks[..n])
  {
    hide Run, OneInFlight;
    OneInFlightIsAlone(args, actions);
    ReportsAreTrue(args, actions, r);
    var s := Run(args, actions);
    assert s.calls[s.reports[r].call].ahead == 0;
  }

  // ----- What a control does to the service

  /** The code of a call whose event ran the callback, whatever other calls there are. */
  predicate RanFor(callback: Callback, code: nat) {
    && (callback == Start <==> code == 256)
    && (callback == Stop <==> code == 1 || code == 5)
    && (callback == Pause <==> code == 2)
    && (callback == Resume <==> code == 3)
    && (callback.ProcessCommand? <==> 128 <= code <= 255)
    && (callback.ProcessCommand? ==> callback.number == code - 128)
    && callback != Ignore
  }

  lemma {:induction false} EventsRun(code: nat)
    requires EventFor(code).Some?
    ensures RanFor(CallbackFor(EventFor(code).value), code)
  {
  }

  /** Every callback that ran was asked for by exactly one call, with a code that asks for it. */
  lemma {:induction false} CallbacksAsked(args: seq<string>, actions: seq<Action>, e: nat)
    requires e < |Run(args, actions).callbacks|
    ensures var s := Run(args, actions);
      && e < |s.events| && s.events[e].call < |s.calls|
      && (forall i :: 0 <= i < |s.calls| ==> (s.calls[i].event == Some(e) <==> i == s.events[e].call))
      && RanFor(s.callbacks[e], s.calls[s.events[e].call].code)
  {
    AlwaysTracked(args, actions);
    hide RunFrom, Started, RanFor, EventFor, CallbackFor;
    var s := Run(args, actions);
    var i := s.events[e].call;
    UnfoldTracked(s, i);
    EventsRun(s.calls[i].code);
    forall k | 0 <= k < |s.calls| && s.calls[k].event == Some(e)
      ensures k == i
    {
      UnfoldTracked(s, k);
    }
  }

  /** A call whose event has been dealt with ran the callback of its own control. */
  lemma {:induction false} ControlsRan(args: seq<string>, actions: seq<Action>, i: nat)
    requires i < |Run(args, actions).calls| && Run(args, actions).calls[i].event.Some?
    requires Run(args, actions).calls[i].event.value < |Run(args, actions).callbacks|
    ensures var s := Run(args, actions); RanFor(s.callbacks[s.calls[i].event.value], s.calls[i].code)
  {
    hide Run;
    CallbacksAsked(args, actions, Run(args, actions).calls[i].event.value);
  }

  predicate Asks(code: nat) {
    code == 256 || code == 1 || code == 2 || code == 3 || code == 5 || 128 <= code <= 255
  }

  /** A call that is past its lock has posted an event exactly when its control is one that the service knows. */
  lemma {:induction false} PostsExactly(args: seq<string>, actions: seq<Action>, i: nat)
    requires i < |Run(args, actions).calls|
    ensures var call := Run(args, actions).calls[i];
      call.event.Some? <==> !call.phase.Entered? && !call.phase.Locked? && Asks(call.code)
  {
    AlwaysTracked(args, actions);
    hide RunFrom, Started;
    UnfoldTracked(Run(args, actions), i);
  }

  lemma {:induction false} RunLast(args: seq<string>, actions: seq<Action>, a: Action)
    ensures Run(args, actions + [a]) == Step(args, Run(args, actions), a)
  {
    hide Step;
    assert (actions + [a])[..|actions|] == actions;
  }

  /** What is shown while a call with this code waits. */
  function ShownBefore(code: nat, shown: Status): Status {
    if code == 256 then StartPending
    else if code == 1 then StopPending
    else if code == 2 then PausePending
    else if code == 3 then ContinuePending
    else shown
  }

  /** The state shown changes only as a call posts, as it wakes, and as the application ends. */
  lemma {:induction false} StatusExactly(args: seq<string>, actions: seq<Action>, a: Action)
    ensures var s, s' := Run(args, actions), Run(args, actions + [a]);
      s'.status ==
        if a.Post? && At(s, a.call, Locked) then ShownBefore(s.calls[a.call].code, s.status)
        else if a.Wake? && At(s, a.call, Woken) && s.mutex.Free? then
          var code := s.calls[a.call].code;
          if code == 2 then Paused else if code == 256 || code == 3 then Running else s.status
        else if a == SetStopped && s.main.LoopLeft? then Stopped
        else s.status
  {
    hide Run;
    RunLast(args, actions, a);
    if a.Post? || a.Wake? {
      HandlerStatus(Run(args, actions), a);
    } else if a.Lock? || a.Wait? || a.Unlock? || a.ReportCurrent? {
      hide PostEvent, Answer;
    } else {
      hide HandlerStep, CallbackFor;
    }
  }

  lemma {:induction false} HandlerStatus(s: State, a: Action)
    requires a.Post? || a.Wake?
    ensures HandlerStep(s, a).status ==
      if a.Post? && At(s, a.call, Locked) then ShownBefore(s.calls[a.call].code, s.status)
      else if a.Wake? && At(s, a.call, Woken) && s.mutex.Free? then
        var code := s.calls[a.call].code;
        if code == 2 then Paused else if code == 256 || code == 3 then Running else s.status
      else s.status
  {
    hide EventFor;
  }

  /** A report of Paused comes from a pause control, one of Running from the start-up or a continue control. */
  lemma {:induction false} ReportsTell(args: seq<string>, actions: seq<Action>, r: nat)
    requires r < |Run(args, actions).reports|
    ensures var s := Run(args, actions);
      var report := s.reports[r];
      && report.call < |s.calls|
      && var code := s.calls[report.call].code;
        (report.status == Paused && code == 2) || (report.status == Running && (code == 256 || code == 3))
  {
    hide RunFrom;
    ReportsAreTrue(args, actions, r);
  }

  /** What a call reports after its wait. */
  function ReportsOf(i: nat, code: nat, callbacksRun: nat): seq<Report> {
    if code == 2 then [Report(Paused, i, callbacksRun)]
    else if code == 256 || code == 3 then [Report(Running, i, callbacksRun)]
    else []
  }

  lemma {:induction false} WakeReports(s: State, i: nat)
    requires At(s, i, Woken) && s.mutex.Free?
    ensures var s' := HandlerStep(s, Wake(i));
      && At(s', i, Answered) && s'.callbacks == s.callbacks && s'.events == s.events
      && s'.reports == s.reports + ReportsOf(i, s.calls[i].code, |s.callbacks|)
  {
    assert s.reports + [] == s.reports;
  }

  lemma {:induction false} AnsweredEnds(s: State, i: nat)
    requires At(s, i, Answered)
    ensures var s' := HandlerStep(HandlerStep(s, Unlock(i)), ReportCurrent(i));
      && At(s', i, Done) && s'.mutex.Free?
      && s'.callbacks == s.callbacks && s'.events == s.events && s'.reports == s.reports
  {
    assert At(HandlerStep(s, Unlock(i)), i, Unlocked);
  }

  /** A woken call takes the mutex, reports what its control asks for, and ends. */
  lemma {:induction false} WokenEnds(args: seq<string>, s: State, i: nat)
    requires At(s, i, Woken) && s.mutex.Free?
    ensures var s' := RunFrom(args, s, [Wake(i), Unlock(i), ReportCurrent(i)]);
      && At(s', i, Done) && s'.mutex.Free? && s'.callbacks == s.callbacks && s'.events == s.events
      && s'.reports == s.reports + ReportsOf(i, s.calls[i].code, |s.callbacks|)
  {
    hide HandlerStep, ReportsOf, RunFrom, At;
    var s1 := HandlerStep(s, Wake(i));
    WakeReports(s, i);
    AnsweredEnds(s1, i);
    assert [Wake(i)] + ([Unlock(i)] + [ReportCurrent(i)]) == [Wake(i), Unlock(i), ReportCurrent(i)];
    RunSplits(args, s, [Wake(i)], [Unlock(i)] + [ReportCurrent(i)]);
    RunSplits(args, s1, [Unlock(i)], [ReportCurrent(i)]);
    RunOne(args, s, Wake(i));
    RunOne(args, s1, Unlock(i));
    RunOne(args, HandlerStep(s1, Unlock(i)), ReportCurrent(i));
  }

  /** A service whose arguments do not come in time, or without a dispatcher or an application, gives up. */
  lemma {:induction false} GivesUpExactly(args: seq<string>, actions: seq<Action>, a: Action)
    ensures var s, s' := Run(args, actions), Run(args, actions + [a]);
      s'.main.GaveUp? <==>
        || s.main.GaveUp?
        || (a == TimeOut && s.main.WaitingForArgs?)
        || (a == TakeArgs && s.main.ArgsAnnounced? && (s.dispatcher.Failed? || s.dispatcher.FailureAnnounced?))
        || (a == CreateApp(false) && s.main.ArgsTaken?)
  {
    hide Run;
    RunLast(args, actions, a);
    hide HandlerStep, CallbackFor;
    GivesUp(Run(args, actions), a);
  }

  lemma {:induction false} GivesUp(s: State, a: Action)
    ensures HandlerStep(s, a).main == s.main
  {
    hide EventFor, Before, After;
  }

  predicate Announced(s: State) {
    s.dispatcher.FailureAnnounced? || s.service.Released?
  }

  lemma {:induction false} AnnouncedGoesOn(args: seq<string>, s: State)
    requires Permits(s) && ArgsComplete(args, s) && s.main.WaitingForArgs? && Announced(s)
    ensures var s' := MainStep(MainStep(s, AcquireArgs), TakeArgs);
      if s.dispatcher.FailureAnnounced? then s'.main.GaveUp?
      else s'.main.ArgsTaken? && s'.argsRead == Some(args)
  {
  }

  /** Whatever the main thread waits for reaches it: complete arguments let it go on, a failure makes it give up. */
  lemma {:induction false} StartGoesOn(args: seq<string>, actions: seq<Action>)
    requires Run(args, actions).main.WaitingForArgs? && Announced(Run(args, actions))
    ensures var s, s' := Run(args, actions), Run(args, actions + [AcquireArgs] + [TakeArgs]);
      if s.dispatcher.FailureAnnounced? then s'.main.GaveUp?
      else s'.main.ArgsTaken? && s'.argsRead == Some(args)
  {
    hide Run, MainStep;
    AlwaysTracked(args, actions);
    RunLast(args, actions, AcquireArgs);
    RunLast(args, actions + [AcquireArgs], TakeArgs);
    hide Tracked, ReceiverReady;
    AnnouncedGoesOn(args, Run(args, actions));
  }

  lemma {:induction false} DispatcherGivesUp(s: State)
    requires s.dispatcher.Undecided?
    ensures var s' := DispatcherStep(DispatcherStep(s, DispatcherFails), AnnounceFailure);
      s'.dispatcher.FailureAnnounced? && s'.main == s.main
  {
  }

  /** When the dispatcher cannot start, the main thread gets to know, and gives up. */
  lemma {:induction false} FailureGivesUp(args: seq<string>, actions: seq<Action>)
    requires Run(args, actions).main.WaitingForArgs? && Run(args, actions).dispatcher.Undecided?
    ensures Run(args, actions + [DispatcherFails] + [AnnounceFailure] + [AcquireArgs] + [TakeArgs]).main.GaveUp?
  {
    hide Run, DispatcherStep;
    RunLast(args, actions, DispatcherFails);
    RunLast(args, actions + [DispatcherFails], AnnounceFailure);
    DispatcherGivesUp(Run(args, actions));
    StartGoesOn(args, actions + [DispatcherFails] + [AnnounceFailure]);
  }

  /** Then nothing ever runs: no call is taken, and the handler of events is not created. */
  lemma {:induction false} NothingAfterGivingUp(args: seq<string>, actions: seq<Action>)
    requires Run(args, actions).main.GaveUp?
    ensures var s := Run(args, actions);
      s.calls == [] && s.events == [] && s.callbacks == [] && s.reports == [] && !s.controllerHandler
  {
    AlwaysTracked(args, actions);
    hide RunFrom;
    var s := Run(args, actions);
    assert |s.events| > 0 ==> s.events[0].call < |s.calls|;
    assert |s.reports| > 0 ==> s.reports[0].call < |s.calls|;
  }

  /** A call of handler begins exactly with the start-up, or with a control once the handler is registered. */
  lemma {:induction false} CallsBeginExactly(args: seq<string>, actions: seq<Action>, a: Action)
    ensures var s, s' := Run(args, actions), Run(args, actions + [a]);
      && (s'.service.Registered? <==>
          (s.service.Registered? && a != CallStartup) || (s.service.Admitted? && a == Register(true)))
      && |s'.calls| == |s.calls| +
        (if (s.service.Registered? && a == CallStartup)
           || ((s.service.Registered? || s.service.StartupCalled?) && a.Control? && a.code < 256) then 1 else 0)
      && (forall i :: 0 <= i < |s.calls| ==> s'.calls[i].code == s.calls[i].code)
      && (|s'.calls| > |s.calls| ==>
          s'.calls[|s.calls|] == Call(if a.Control? then a.code else 256, Entered, None, 0, None))
  {
    hide Run;
    RunLast(args, actions, a);
    AlwaysTracked(args, actions);
    hide Tracked, ArgsComplete, ReceiverReady;
    var s := Run(args, actions);
    KeepsCodes(s, a);
    hide HandlerStep;
    LoopKeepsCodes(s, a);
    hide LoopStep;
  }

  predicate SameCodes(s: State, s': State) {
    && |s'.calls| == |s.calls| && s'.service == s.service
    && forall i :: 0 <= i < |s.calls| ==> s'.calls[i].code == s.calls[i].code
  }

  lemma {:induction false} KeepsCodes(s: State, a: Action)
    ensures SameCodes(s, HandlerStep(s, a))
  {
    hide EventFor, Before, After;
  }

  lemma {:induction false} LoopKeepsCodes(s: State, a: Action)
    ensures SameCodes(s, LoopStep(s, a))
  {
    hide CallbackFor;
  }

  // ----- Who can still be woken

  lemma {:induction false} RunSplits(args: seq<string>, s: State, front: seq<Action>, back: seq<Action>)
    ensures RunFrom(args, s, front + back) == RunFrom(args, RunFrom(args, s, front), back)
  {
    hide Step;
    if back == [] {
      assert front + back == front;
    } else {
      var all := front + back;
      assert all[..|all| - 1] == front + back[..|back| - 1];
      RunSplits(args, s, front, back[..|back| - 1]);
    }
  }

  lemma {:induction false} RunOne(args: seq<string>, s: State, a: Action)
    ensures RunFrom(args, s, [a]) == Step(args, s, a)
  {
    hide Step;
    assert [a][..0] == [];
  }

  /** The step that brings the next wake-up nearer. */
  function Nearer(s: State): Action {
    if s.mutex.Handler? then
      var i := s.mutex.call;
      if At(s, i, Locked) then Post(i) else if At(s, i, Posted) then Wait(i) else Unlock(i)
    else if s.main.Idle? then TakeEvent
    else if s.main.Dispatching? then RunCallback
    else if s.main.CallbackDone? then LockMain
    else if s.main.MutexHeld? then WakeAll
    else UnlockMain
  }

  function MainDistance(main: Main): nat {
    if main.AllWoken? then 5
    else if main.Idle? then 4
    else if main.Dispatching? then 3
    else if main.CallbackDone? then 2
    else 1
  }

  function MutexDistance(s: State): nat {
    if !s.mutex.Handler? then 0 else if At(s, s.mutex.call, Locked) then 2 else 1
  }

  lemma {:induction false} NearerHandler(s: State, i: nat)
    requires Tracked(s) && InLoop(s.main) && At(s, i, Waiting) && s.mutex.Handler?
    ensures var s' := HandlerStep(s, Nearer(s));
      At(s', i, Waiting) && s'.main == s.main && MutexDistance(s') < MutexDistance(s)
  {
    hide CallTracked, ReportsFollow, InOrder, EventFor, Before;
    assert HoldsMutex(s.calls[s.mutex.call].phase) && s.mutex.call != i;
  }

  /** The loop has just woken everyone, and call i was among them. */
  predicate JustWoken(s: State, i: nat) {
    s.main.AllWoken? && At(s, i, Woken) && s.awoken > 0 && s.calls[i].wokenBy == Some(s.awoken - 1)
  }

  lemma {:induction false} NearerMain(s: State, i: nat)
    requires OneHolder(s) && InOrder(s) && s.awoken < |s.events| && InLoop(s.main)
    requires At(s, i, Waiting) && !s.mutex.Handler?
    ensures var s' := LoopStep(s, Nearer(s));
      if s.main.MutexHeld? then JustWoken(s', i)
      else s'.calls == s.calls && InLoop(s'.main) && MainDistance(s'.main) < MainDistance(s.main)
  {
    hide EventFor, CallbackFor, HoldsMutex;
  }

  lemma {:induction false} WaitingIsPending(s: State, i: nat)
    requires InOrder(s) && AllTracked(s) && At(s, i, Waiting)
    ensures s.awoken < |s.events|
  {
    UnfoldTracked(s, i);
  }

  lemma {:induction false} WaitingPending(s: State, i: nat)
    requires Tracked(s) && At(s, i, Waiting)
    ensures OneHolder(s) && InOrder(s) && s.awoken < |s.events|
  {
    hide OneHolder, InOrder, AllTracked;
    WaitingIsPending(s, i);
  }

  /** While the event loop runs, a waiting call is some steps from its wake-up, whatever the others do. */
  lemma {:induction false} WaitEnds(args: seq<string>, s: State, i: nat) returns (more: seq<Action>)
    requires Tracked(s) && InLoop(s.main) && At(s, i, Waiting)
    ensures JustWoken(RunFrom(args, s, more), i) && Tracked(RunFrom(args, s, more))
    decreases MainDistance(s.main), MutexDistance(s)
  {
    hide Tracked, LoopStep, HandlerStep;
    var a := Nearer(s);
    var s' := Step(args, s, a);
    RunOne(args, s, a);
    StepTracks(args, s, a);
    if s.mutex.Handler? {
      NearerHandler(s, i);
      var rest := WaitEnds(args, s', i);
      more := [a] + rest;
      RunSplits(args, s, [a], rest);
    } else {
      WaitingPending(s, i);
      NearerMain(s, i);
      if s.main.MutexHeld? {
        more := [a];
      } else {
        var rest := WaitEnds(args, s', i);
        more := [a] + rest;
        RunSplits(args, s, [a], rest);
      }
    }
  }

  lemma {:induction false} HandlerStuck(s: State, a: Action, i: nat)
    requires At(s, i, Waiting)
    ensures HandlerStep(s, a).main == s.main && At(HandlerStep(s, a), i, Waiting)
  {
    hide EventFor, Before, After;
  }

  lemma {:induction false} StepStuck(args: seq<string>, s: State, a: Action, i: nat)
    requires PastLoop(s.main) && At(s, i, Waiting)
    ensures PastLoop(Step(args, s, a).main) && At(Step(args, s, a), i, Waiting)
  {
    HandlerStuck(s, a, i);
    hide HandlerStep, CallbackFor;
  }

  lemma {:induction false} StuckForGood(args: seq<string>, s: State, more: seq<Action>, i: nat)
    requires PastLoop(s.main) && At(s, i, Waiting)
    ensures PastLoop(RunFrom(args, s, more).main) && At(RunFrom(args, s, more), i, Waiting)
  {
    hide Step, At, PastLoop;
    if more != [] {
      StuckForGood(args, s, more[..|more| - 1], i);
      StepStuck(args, RunFrom(args, s, more[..|more| - 1]), more[|more| - 1], i);
    }
  }

  /** A waiting call can still be woken exactly while the event loop runs. */
  lemma {:induction false} WakeableExactly(args: seq<string>, actions: seq<Action>, i: nat)
    requires At(Run(args, actions), i, Waiting)
    ensures (exists more :: At(Run(args, actions + more), i, Woken)) <==> InLoop(Run(args, actions).main)
  {
    hide RunFrom;
    var s := Run(args, actions);
    AlwaysTracked(args, actions);
    assert InLoop(s.main) || PastLoop(s.main);
    hide Tracked, Started;
    if InLoop(s.main) {
      var more := WaitEnds(args, s, i);
      RunSplits(args, Initial(), actions, more);
      assert At(Run(args, actions + more), i, Woken);
    } else {
      forall more
        ensures !At(Run(args, actions + more), i, Woken)
      {
        StuckForGood(args, s, more, i);
        RunSplits(args, Initial(), actions, more);
      }
    }
  }

  // ----- Who can still report too early

  /** Once a call has posted, its code, its event and what was ahead of it stay. */
  predicate SamePost(s: State, s': State, i: nat) {
    i < |s.calls| && s.calls[i].event.Some? ==>
      && i < |s'.calls| && s'.calls[i].code == s.calls[i].code
      && s'.calls[i].event == s.calls[i].event && s'.calls[i].ahead == s.calls[i].ahead
  }

  lemma {:induction false} LoopKeepsPost(s: State, a: Action, i: nat)
    ensures SamePost(s, LoopStep(s, a), i)
  {
    hide CallbackFor;
  }

  lemma {:induction false} MainKeepsPost(s: State, a: Action, i: nat)
    ensures SamePost(s, MainStep(s, a), i) && SamePost(s, DispatcherStep(s, a), i)
  {
  }

  lemma {:induction false} CallingKeepsPost(args: seq<string>, s: State, a: Action, i: nat)
    ensures SamePost(s, ServiceMainStep(args, s, a), i) && SamePost(s, ControlStep(s, a), i)
  {
  }

  lemma {:induction false} StepKeepsPost(args: seq<string>, s: State, a: Action, i: nat)
    requires AllTracked(s)
    ensures SamePost(s, Step(args, s, a), i)
  {
    hide AllTracked, SamePost, DispatcherStep, ServiceMainStep, ControlStep, MainStep, LoopStep, HandlerStep;
    HandlerKeepsPost(s, a, i);
    LoopKeepsPost(s, a, i);
    MainKeepsPost(s, a, i);
    CallingKeepsPost(args, s, a, i);
  }

  lemma {:induction false} PostingKeepsPost(s: State, k: nat, i: nat)
    requires AllTracked(s) && At(s, k, Locked)
    ensures SamePost(s, PostEvent(s, k), i)
  {
    UnfoldTracked(s, k);
    hide CallTracked, AllTracked, EventFor, Before;
  }

  lemma {:induction false} AnsweringKeepsPost(s: State, k: nat, i: nat)
    requires k < |s.calls|
    ensures SamePost(s, Answer(s, k), i)
  {
    hide After;
  }

  lemma {:induction false} HandlerKeepsPost(s: State, a: Action, i: nat)
    requires AllTracked(s)
    ensures SamePost(s, HandlerStep(s, a), i)
  {
    hide AllTracked, PostEvent, Answer;
    if a.Post? && At(s, a.call, Locked) {
      PostingKeepsPost(s, a.call, i);
    } else if a.Wake? && At(s, a.call, Woken) {
      AnsweringKeepsPost(s, a.call, i);
    }
  }

  lemma {:induction false} RunKeepsPost(args: seq<string>, s: State, more: seq<Action>, i: nat)
    requires Tracked(s)
    ensures Tracked(RunFrom(args, s, more)) && SamePost(s, RunFrom(args, s, more), i)
  {
    hide Step, Tracked;
    if more != [] {
      var before := more[..|more| - 1];
      RunKeepsPost(args, s, before, i);
      StepTracks(args, RunFrom(args, s, before), more[|more| - 1]);
      assert AllTracked(RunFrom(args, s, before)) by { TrackedParts(RunFrom(args, s, before)); }
      StepKeepsPost(args, RunFrom(args, s, before), more[|more| - 1], i);
    }
  }

  lemma {:induction false} TrackedParts(s: State)
    requires Tracked(s)
    ensures OneHolder(s) && InOrder(s) && AllTracked(s)
  {
    hide OneHolder, InOrder, AllTracked, ReportsFollow;
  }

  /** A state that call i sets after its wait is reported before the callback of the call's own event has run. */
  ghost predicate ReportsEarly(s: State, i: nat) {
    && i < |s.calls| && s.calls[i].event.Some?
    && exists r :: 0 <= r < |s.reports| && s.reports[r].call == i && s.reports[r].callbacksRun <= s.calls[i].event.value
  }

  lemma {:induction false} MainUnlocks(args: seq<string>, s: State)
    requires s.main.AllWoken?
    ensures Step(args, s, UnlockMain) == s.(main := Idle, mutex := Free)
  {
  }

  lemma {:induction false} CallWakes(args: seq<string>, s: State, i: nat)
    requires At(s, i, Woken) && s.mutex.Free?
    ensures Step(args, s, Wake(i)) == Answer(s, i)
  {
    hide Answer;
  }

  lemma {:induction false} AnswersEarly(s: State, i: nat)
    requires i < |s.calls| && s.calls[i].event.Some? && |s.callbacks| <= s.calls[i].event.value
    requires After(s.calls[i].code).Some?
    ensures ReportsEarly(Answer(s, i), i)
  {
    hide After;
    var s' := Answer(s, i);
    assert s'.reports[|s.reports|] == Report(After(s.calls[i].code).value, i, |s.callbacks|);
  }

  lemma {:induction false} WokenCounts(s: State, i: nat)
    requires Tracked(s) && JustWoken(s, i)
    ensures s.calls[i].event.Some? && |s.callbacks| == s.awoken
    ensures s.calls[i].ahead > 0 ==> s.awoken <= s.calls[i].event.value
  {
    TrackedParts(s);
    hide Tracked, OneHolder;
    UnfoldTracked(s, i);
    hide AllTracked;
  }

  /** When the loop has woken everyone, the woken call can be the first to get the mutex. */
  lemma {:induction false} WokenReports(args: seq<string>, s: State, i: nat)
    requires Tracked(s) && JustWoken(s, i) && After(s.calls[i].code).Some? && s.calls[i].ahead > 0
    ensures ReportsEarly(Step(args, Step(args, s, UnlockMain), Wake(i)), i)
  {
    hide Tracked, After, Step, Answer, ReportsEarly;
    WokenCounts(s, i);
    MainUnlocks(args, s);
    var s' := s.(main := Idle, mutex := Free);
    CallWakes(args, s', i);
    AnswersEarly(s', i);
  }

  lemma {:induction false} EarlyContinuation(args: seq<string>, s: State, i: nat) returns (more: seq<Action>)
    requires Tracked(s) && InLoop(s.main) && At(s, i, Waiting)
    requires After(s.calls[i].code).Some? && s.calls[i].ahead > 0
    ensures ReportsEarly(RunFrom(args, s, more), i)
  {
    assert s.calls[i].event.Some? by { UnfoldTracked(s, i); }
    hide Tracked, Step, ReportsEarly;
    var wait := WaitEnds(args, s, i);
    RunKeepsPost(args, s, wait, i);
    var s' := RunFrom(args, s, wait);
    WokenReports(args, s', i);
    more := wait + [UnlockMain] + [Wake(i)];
    RunSplits(args, s, wait + [UnlockMain], [Wake(i)]);
    RunSplits(args, s, wait, [UnlockMain]);
    RunOne(args, s', UnlockMain);
    RunOne(args, Step(args, s', UnlockMain), Wake(i));
  }

  lemma {:induction false} AloneReportsLate(s: State, i: nat)
    requires Tracked(s) && i < |s.calls| && s.calls[i].ahead == 0
    ensures !ReportsEarly(s, i)
  {
    UnfoldTracked(s, i);
    hide OneHolder, InOrder, AllTracked, EventFor, After;
    forall r | 0 <= r < |s.reports| && s.reports[r].call == i
      ensures s.calls[i].event.Some? ==> s.reports[r].callbacksRun > s.calls[i].event.value
    {
      assert ReportFollows(s.reports[r], s.calls[i]);
    }
  }

  /**
  While the event loop runs, a waiting call that will set a state can still come to report it before its own
  callback ran exactly when an event was ahead of its own.
  */
  lemma {:induction false} EarlyReportExactly(args: seq<string>, actions: seq<Action>, i: nat)
    requires At(Run(args, actions), i, Waiting) && InLoop(Run(args, actions).main)
    requires After(Run(args, actions).calls[i].code).Some?
    ensures (exists more :: ReportsEarly(Run(args, actions + more), i)) <==> Run(args, actions).calls[i].ahead > 0
  {
    hide RunFrom;
    AlwaysTracked(args, actions);
    var s := Run(args, actions);
    if s.calls[i].ahead > 0 {
      hide Tracked, ReportsEarly;
      var more := EarlyContinuation(args, s, i);
      RunSplits(args, Initial(), actions, more);
      assert ReportsEarly(Run(args, actions + more), i);
    } else {
      assert s.calls[i].event.Some? by { UnfoldTracked(s, i); }
      hide Tracked, ReportsEarly;
      forall more
        ensures !ReportsEarly(Run(args, actions + more), i)
      {
        RunSplits(args, Initial(), actions, more);
        RunKeepsPost(args, s, more, i);
        AloneReportsLate(RunFrom(args, s, more), i);
      }
    }
  }

  // ----- Two calls in flight, and a control after the loop

  lemma {:induction false} RunFour(args: seq<string>, s: State, a: Action, b: Action, c: Action, d: Action)
    ensures RunFrom(args, s, [a, b, c, d]) == Step(args, Step(args, Step(args, Step(args, s, a), b), c), d)
  {
    hide Step;
    RunOne(args, s, a);
    assert [a, b][..1] == [a] && [a, b, c][..2] == [a, b] && [a, b, c, d][..3] == [a, b, c];
    assert RunFrom(args, s, [a, b]) == Step(args, RunFrom(args, s, [a]), b);
    assert RunFrom(args, s, [a, b, c]) == Step(args, RunFrom(args, s, [a, b]), c);
  }

  function StartUp(): seq<Action> {
    [DispatcherServes, ReleaseArgs, AcquireArgs, TakeArgs]
    + [CreateApp(true), CreateHandler, ReleaseReady, AcquireReady]
  }

  function Up(): State {
    State(Idle, Admitted, Serving, 0, 0, [], Some([]), true, Free, [], [], 0, 0, [], Unset, [])
  }

  function ArgsIn(): State {
    Up().(main := ArgsTaken, service := Released, controllerHandler := false)
  }

  function ArgsOut(): State {
    Initial().(dispatcher := Serving, service := Released, startSemaphore := 1)
  }

  lemma {:induction false} ReleasesArgs()
    ensures Step([], Step([], Initial(), DispatcherServes), ReleaseArgs) == ArgsOut()
  {
  }

  lemma {:induction false} StartsUpTo()
    ensures Step([], Step([], Step([], Step([], Initial(), DispatcherServes), ReleaseArgs), AcquireArgs), TakeArgs)
      == ArgsIn()
  {
    ReleasesArgs();
  }

  lemma {:induction false} StartsUpFrom()
    ensures Step([], Step([], Step([], Step([], ArgsIn(), CreateApp(true)), CreateHandler), ReleaseReady), AcquireReady)
      == Up()
  {
  }

  lemma {:induction false} StartsUp()
    ensures Run([], StartUp()) == Up()
  {
    hide Step, Initial, ArgsIn, Up, RunFrom;
    RunFour([], Initial(), DispatcherServes, ReleaseArgs, AcquireArgs, TakeArgs);
    RunFour([], ArgsIn(), CreateApp(true), CreateHandler, ReleaseReady, AcquireReady);
    StartsUpTo();
    StartsUpFrom();
    RunSplits([], Initial(), [DispatcherServes, ReleaseArgs, AcquireArgs, TakeArgs],
              [CreateApp(true), CreateHandler, ReleaseReady, AcquireReady]);
  }

  /** A pause control comes between the registration and the start-up call; both post and wait. */
  function BothWaiting(): seq<Action> {
    [Register(true), Control(CONTROL_PAUSE), Lock(0), Post(0)] + [Wait(0), CallStartup, Lock(1), Post(1)]
  }

  function OneWakes(): seq<Action> {
    [Wait(1), TakeEvent, RunCallback, LockMain] + [WakeAll, UnlockMain, Wake(1), Unlock(1)]
  }

  function PausePosted(): State {
    Up().(service := Registered, mutex := Handler(0), status := PausePending,
          calls := [Call(CONTROL_PAUSE, Posted, Some(0), 0, None)], events := [Event(CONTROL_PAUSE, 0, true, false)])
  }

  function StartupPosted(): State {
    PausePosted().(service := StartupCalled, mutex := Handler(1), status := StartPending,
      calls := [Call(CONTROL_PAUSE, Waiting, Some(0), 0, None), Call(STARTUP, Posted, Some(1), 1, None)],
      events := [Event(CONTROL_PAUSE, 0, true, false), Event(STARTUP, 1, true, false)])
  }

  function PauseRan(): State {
    StartupPosted().(main := MutexHeld, mutex := MainThread, taken := 1, callbacks := [Pause],
      calls := [Call(CONTROL_PAUSE, Waiting, Some(0), 0, None), Call(STARTUP, Waiting, Some(1), 1, None)])
  }

  function StartupAnswered(): State {
    PauseRan().(main := Idle, mutex := Free, awoken := 1, status := Running, reports := [Report(Running, 1, 1)],
      calls := [Call(CONTROL_PAUSE, Woken, Some(0), 0, Some(0)), Call(STARTUP, Unlocked, Some(1), 1, Some(0))])
  }

  lemma {:induction false} ToPausePosted()
    ensures Step([], Step([], Step([], Step([], Up(), Register(true)), Control(CONTROL_PAUSE)), Lock(0)), Post(0))
      == PausePosted()
  {
    var s := Step([], Step([], Step([], Up(), Register(true)), Control(CONTROL_PAUSE)), Lock(0));
    assert s == Up().(service := Registered, mutex := Handler(0),
                      calls := [Call(CONTROL_PAUSE, Locked, None, 0, None)]);
  }

  lemma {:induction false} ToStartupPosted()
    ensures Step([], Step([], Step([], Step([], PausePosted(), Wait(0)), CallStartup), Lock(1)), Post(1))
      == StartupPosted()
  {
    var s := Step([], Step([], PausePosted(), Wait(0)), CallStartup);
    assert s == PausePosted().(service := StartupCalled, mutex := Free,
      calls := [Call(CONTROL_PAUSE, Waiting, Some(0), 0, None), Call(STARTUP, Entered, None, 0, None)]);
    var s' := Step([], s, Lock(1));
    assert s' == s.(mutex := Handler(1), calls := [s.calls[0], Call(STARTUP, Locked, None, 0, None)]);
  }

  lemma {:induction false} ToPauseRan()
    ensures Step([], Step([], Step([], Step([], StartupPosted(), Wait(1)), TakeEvent), RunCallback), LockMain)
      == PauseRan()
  {
    var s := Step([], StartupPosted(), Wait(1));
    assert s == StartupPosted().(mutex := Free, calls := PauseRan().calls);
  }

  function BothWoken(): State {
    PauseRan().(main := Idle, mutex := Free, awoken := 1,
      calls := [Call(CONTROL_PAUSE, Woken, Some(0), 0, Some(0)), Call(STARTUP, Woken, Some(1), 1, Some(0))])
  }

  lemma {:induction false} ToBothWoken()
    ensures Step([], Step([], PauseRan(), WakeAll), UnlockMain) == BothWoken()
  {
  }

  lemma {:induction false} FromBothWoken()
    ensures Step([], Step([], BothWoken(), Wake(1)), Unlock(1)) == StartupAnswered()
  {
    var s := Step([], BothWoken(), Wake(1));
    assert s.calls == [BothWoken().calls[0], Call(STARTUP, Answered, Some(1), 1, Some(0))];
  }

  /** With two calls in flight RUNNING is reported while the pause callback is the only one that ran. */
  lemma {:induction false} RunningBeforeStart()
    ensures Run([], StartUp() + BothWaiting() + OneWakes()) == StartupAnswered()
    ensures var s := StartupAnswered();
      && s.reports == [Report(Running, 1, 1)] && s.calls[1].code == STARTUP
      && s.callbacks == [Pause] && Start !in s.callbacks
  {
    StartsUp();
    hide Step, RunFrom;
    RunSplits([], Initial(), StartUp() + BothWaiting(), OneWakes());
    RunSplits([], Initial(), StartUp(), BothWaiting());
    assert RunFrom([], Up(), BothWaiting()) == StartupPosted() by {
      RunSplits([], Up(), [Register(true), Control(CONTROL_PAUSE), Lock(0), Post(0)],
                [Wait(0), CallStartup, Lock(1), Post(1)]);
      RunFour([], Up(), Register(true), Control(CONTROL_PAUSE), Lock(0), Post(0));
      RunFour([], PausePosted(), Wait(0), CallStartup, Lock(1), Post(1));
      ToPausePosted();
      ToStartupPosted();
    }
    assert RunFrom([], StartupPosted(), OneWakes()) == StartupAnswered() by {
      RunSplits([], StartupPosted(), [Wait(1), TakeEvent, RunCallback, LockMain],
                [WakeAll, UnlockMain, Wake(1), Unlock(1)]);
      RunFour([], StartupPosted(), Wait(1), TakeEvent, RunCallback, LockMain);
      RunFour([], PauseRan(), WakeAll, UnlockMain, Wake(1), Unlock(1));
      ToPauseRan();
      ToBothWoken();
      FromBothWoken();
    }
  }

  function Ended(): State {
    Up().(main := Finished, service := Registered, controllerHandler := false, status := Stopped)
  }

  function LateControl(): seq<Action> {
    [Register(true), LeaveLoop, SetStopped, DeleteHandler] + [Control(CONTROL_STOP), Lock(0), Post(0), Wait(0)]
  }

  lemma {:induction false} ToEnded()
    ensures Step([], Step([], Step([], Step([], Up(), Register(true)), LeaveLoop), SetStopped), DeleteHandler)
      == Ended()
  {
  }

  lemma {:induction false} StopArrives()
    ensures Step([], Ended(), Control(CONTROL_STOP)) == Ended().(calls := [NewCall(CONTROL_STOP)])
  {
  }

  lemma {:induction false} StopLocks()
    ensures Step([], Step([], Ended(), Control(CONTROL_STOP)), Lock(0))
      == Ended().(mutex := Handler(0), calls := [Call(CONTROL_STOP, Locked, None, 0, None)])
  {
    StopArrives();
    hide ControlStep, MainStep, LoopStep, ServiceMainStep, DispatcherStep;
  }

  lemma {:induction false} StopPosts()
    ensures Step([], Ended().(mutex := Handler(0), calls := [Call(CONTROL_STOP, Locked, None, 0, None)]), Post(0))
      == Ended().(mutex := Handler(0), status := StopPending, events := [Event(CONTROL_STOP, 0, false, true)],
                  calls := [Call(CONTROL_STOP, Posted, Some(0), 0, None)])
  {
  }

  lemma {:induction false} StopAfterEnd()
    ensures var s := Step([], Step([], Step([], Step([], Ended(), Control(CONTROL_STOP)), Lock(0)), Post(0)), Wait(0));
      s.events == [Event(CONTROL_STOP, 0, false, true)] && At(s, 0, Waiting) && s.main.Finished?
  {
    StopLocks();
    StopPosts();
    hide PostEvent;
  }

  /** A control after the end is posted to no receiver, and its call waits for good. */
  lemma {:induction false} LateControlHangs()
    ensures var s := Run([], StartUp() + LateControl());
      s.events == [Event(CONTROL_STOP, 0, false, true)] && At(s, 0, Waiting)
    ensures forall more :: !At(Run([], StartUp() + LateControl() + more), 0, Woken)
  {
    StartsUp();
    hide Step, RunFrom;
    RunSplits([], Initial(), StartUp(), LateControl());
    RunSplits([], Up(), [Register(true), LeaveLoop, SetStopped, DeleteHandler],
              [Control(CONTROL_STOP), Lock(0), Post(0), Wait(0)]);
    RunFour([], Up(), Register(true), LeaveLoop, SetStopped, DeleteHandler);
    RunFour([], Ended(), Control(CONTROL_STOP), Lock(0), Post(0), Wait(0));
    ToEnded();
    StopAfterEnd();
    WakeableExactly([], StartUp() + LateControl(), 0);
  }
}
