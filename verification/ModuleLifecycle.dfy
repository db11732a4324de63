/**
The life cycle of a module: four calls, each guarded by the module's state and by a flag that is up while
a hook runs, so that a hook that calls back into its own module changes nothing.
*/
module ModuleLifecycle {

  datatype State = NotInitialized | Initialized | Started | Stopped | Finalized

  datatype Hook = Init | Start | Stop | Final

  /** What a hook does: calls on its own module, each with the hook body it would run, then a result. */
  datatype Script = Return(success: bool) | Call(hook: Hook, body: Script, rest: Script)

  /** The guards of the four calls, as the states that they refuse. */
  predicate Refused(state: State, hook: Hook) {
    match hook
    case Init => state == Initialized || state == Started || state == Stopped
    case Start => state == NotInitialized || state == Started || state == Finalized
    case Stop => state == NotInitialized || state == Initialized || state == Finalized
    case Final => state != Stopped
  }

  function StateAfter(hook: Hook): State {
    match hook
    case Init => Initialized
    case Start => Started
    case Stop => Stopped
    case Final => Finalized
  }

  /** A module together with the hooks that were entered so far. */
  datatype Status = Status(state: State, isRunning: bool, trace: seq<Hook>)

  const CREATED := Status(NotInitialized, false, [])

  function Called(s: Status, hook: Hook, body: Script): (Status, bool)
    decreases body, 1
  {
    if s.isRunning || Refused(s.state, hook) then (s, false)
    else
      var (s', success) := Performed(s.(isRunning := true, trace := s.trace + [hook]), body);
      (s'.(state := StateAfter(hook), isRunning := false), success)
  }

  function Performed(s: Status, body: Script): (Status, bool)
    decreases body, 0
  {
    match body
    case Return(success) => (s, success)
    case Call(hook, inner, rest) => Performed(Called(s, hook, inner).0, rest)
  }

  // ----- The module itself

  class Module {
    var state: State
    var isRunning: bool
    ghost var trace: seq<Hook>

    ghost function Now(): Status
      reads this
    {
      Status(state, isRunning, trace)
    }

    constructor ()
      ensures Now() == CREATED
    {
      state, isRunning, trace := NotInitialized, false, [];
    }

    method ModuleInit(body: Script) returns (success: bool)
      modifies this
      ensures (Now(), success) == Called(old(Now()), Init, body)
      decreases body, 2
    {
      if isRunning || state == Initialized || state == Started || state == Stopped {
        return false;
      }
      isRunning := true;
      success := Enter(Init, body);
      state := Initialized;
      isRunning := false;
    }

    method ModuleStart(body: Script) returns (success: bool)
      modifies this
      ensures (Now(), success) == Called(old(Now()), Start, body)
      decreases body, 2
    {
      if isRunning || state == NotInitialized || state == Started || state == Finalized {
        return false;
      }
      isRunning := true;
      success := Enter(Start, body);
      state := Started;
      isRunning := false;
    }

    method ModuleStop(body: Script) returns (success: bool)
      modifies this
      ensures (Now(), success) == Called(old(Now()), Stop, body)
      decreases body, 2
    {
      if isRunning || state == NotInitialized || state == Initialized || state == Finalized {
        return false;
      }
      isRunning := true;
      success := Enter(Stop, body);
      state := Stopped;
      isRunning := false;
    }

    method ModuleFinal(body: Script) returns (success: bool)
      modifies this
      ensures (Now(), success) == Called(old(Now()), Final, body)
      decreases body, 2
    {
      if isRunning || state != Stopped {
        return false;
      }
      isRunning := true;
      success := Enter(Final, body);
      state := Finalized;
      isRunning := false;
    }

    /** A virtual call: the hook's script, with its calls back into this module. */
    method Enter(hook: Hook, body: Script) returns (success: bool)
      modifies this
      ensures (Now(), success) == Performed(old(Now()).(trace := old(trace) + [hook]), body)
      decreases body, 1
    {
      trace := trace + [hook];
      success := Perform(body);
    }

    method Perform(body: Script) returns (success: bool)
      modifies this
      ensures (Now(), success) == Performed(old(Now()), body)
      decreases body, 0
    {
      match body
      case Return(result) => success := result;
      case Call(hook, inner, rest) =>
        match hook {
          case Init => var _ := ModuleInit(inner);
          case Start => var _ := ModuleStart(inner);
          case Stop => var _ := ModuleStop(inner);
          case Final => var _ := ModuleFinal(inner);
        }
        success := Perform(rest);
    }
  }

  // ----- Re-entrant calls

  function Outcome(body: Script): bool {
    match body
    case Return(success) => success
    case Call(_, _, rest) => Outcome(rest)
  }

  lemma {:induction false} ReentryChangesNothing(s: Status, body: Script)
    requires s.isRunning
    ensures Performed(s, body) == (s, Outcome(body))
    ensures forall hook, inner :: Called(s, hook, inner) == (s, false)
  {
    if body.Call? {
      ReentryChangesNothing(s, body.rest);
    }
  }

  /**
  A call that is not refused enters its hook once, moves on even when the hook fails, and reports the hook's
  result.
  */
  lemma {:induction false} CallEntersOneHook(s: Status, hook: Hook, body: Script)
    requires !s.isRunning
    ensures Called(s, hook, body) ==
      if Refused(s.state, hook) then (s, false)
      else (Status(StateAfter(hook), false, s.trace + [hook]), Outcome(body))
  {
    if !Refused(s.state, hook) {
      ReentryChangesNothing(s.(isRunning := true, trace := s.trace + [hook]), body);
    }
  }

  // ----- Runs

  datatype TopCall = TopCall(hook: Hook, body: Script)

  function Run(calls: seq<TopCall>): Status {
    if calls == [] then CREATED
    else
      var last := calls[|calls| - 1];
      Called(Run(calls[..|calls| - 1]), last.hook, last.body).0
  }

  function StateOf(trace: seq<Hook>): State {
    if trace == [] then NotInitialized else StateAfter(trace[|trace| - 1])
  }

  /** Each hook may follow the one before it. */
  predicate Chained(trace: seq<Hook>) {
    forall i :: 0 <= i < |trace| ==> !Refused(StateOf(trace[..i]), trace[i])
  }

  lemma {:induction false} ChainedAppend(trace: seq<Hook>, hook: Hook)
    ensures Chained(trace + [hook]) <==> Chained(trace) && !Refused(StateOf(trace), hook)
  {
    var longer := trace + [hook];
    assert longer[..|trace|] == trace && longer[|trace|] == hook;
    assert forall i :: 0 <= i < |trace| ==> longer[..i] == trace[..i] && longer[i] == trace[i];
  }

  lemma {:induction false} RunsAreChained(calls: seq<TopCall>)
    ensures var s := Run(calls); !s.isRunning && s.state == StateOf(s.trace) && Chained(s.trace)
  {
    if calls != [] {
      var before, last := calls[..|calls| - 1], calls[|calls| - 1];
      RunsAreChained(before);
      CallEntersOneHook(Run(before), last.hook, last.body);
      ChainedAppend(Run(before).trace, last.hook);
    }
  }

  function Plain(trace: seq<Hook>): seq<TopCall> {
    seq(|trace|, i requires 0 <= i < |trace| => TopCall(trace[i], Return(true)))
  }

  lemma {:induction false} ChainedTracesRun(trace: seq<Hook>)
    requires Chained(trace)
    ensures Run(Plain(trace)) == Status(StateOf(trace), false, trace)
  {
    hide Chained, Called;
    if trace != [] {
      var before, last := trace[..|trace| - 1], trace[|trace| - 1];
      assert trace == before + [last];
      ChainedAppend(before, last);
      ChainedTracesRun(before);
      assert Plain(trace)[..|trace| - 1] == Plain(before);
      CallEntersOneHook(Run(Plain(before)), last, Return(true));
    }
  }

  // ----- The language of hook traces: (init, (start, stop+)+, final) repeated

  function Stops(n: nat): seq<Hook> {
    seq(n, _ => Stop)
  }

  /** Each number is a start followed by that many stops. */
  function Rounds(stops: seq<nat>): seq<Hook> {
    if stops == [] then [] else Rounds(stops[..|stops| - 1]) + [Start] + Stops(stops[|stops| - 1])
  }

  predicate Positive(stops: seq<nat>) {
    forall i :: 0 <= i < |stops| ==> stops[i] > 0
  }

  predicate Lives(lives: seq<seq<nat>>) {
    forall i :: 0 <= i < |lives| ==> lives[i] != [] && Positive(lives[i])
  }

  function History(lives: seq<seq<nat>>): seq<Hook> {
    if lives == [] then [] else History(lives[..|lives| - 1]) + [Init] + Rounds(lives[|lives| - 1]) + [Final]
  }

  ghost predicate BeginsHistory(trace: seq<Hook>) {
    exists lives :: Lives(lives) && trace <= History(lives)
  }

  lemma {:induction false} StopsChain(trace: seq<Hook>, n: nat)
    requires Chained(trace) && StateOf(trace) == Started
    ensures Chained(trace + Stops(n)) && (n > 0 ==> StateOf(trace + Stops(n)) == Stopped)
  {
    if n == 0 {
      assert trace + Stops(0) == trace;
    } else {
      StopsChain(trace, n - 1);
      assert trace + Stops(n) == (trace + Stops(n - 1)) + [Stop];
      if n == 1 {
        assert trace + Stops(0) == trace;
      }
      ChainedAppend(trace + Stops(n - 1), Stop);
    }
  }

  lemma {:induction false} RoundsChain(trace: seq<Hook>, stops: seq<nat>)
    requires Chained(trace) && StateOf(trace) == Initialized && Positive(stops)
    ensures Chained(trace + Rounds(stops))
    ensures StateOf(trace + Rounds(stops)) == if stops == [] then Initialized else Stopped
  {
    hide Chained;
    if stops == [] {
      assert trace + [] == trace;
    } else {
      var before, last := stops[..|stops| - 1], stops[|stops| - 1];
      RoundsChain(trace, before);
      var started := trace + Rounds(before) + [Start];
      ChainedAppend(trace + Rounds(before), Start);
      StopsChain(started, last);
      assert trace + Rounds(stops) == started + Stops(last);
    }
  }

  lemma {:induction false} NothingChained()
    ensures Chained([])
  {
  }

  lemma {:induction false} HistoriesChain(lives: seq<seq<nat>>)
    requires Lives(lives)
    ensures Chained(History(lives))
    ensures StateOf(History(lives)) == NotInitialized || StateOf(History(lives)) == Finalized
  {
    hide Chained, Rounds;
    if lives == [] {
      assert Chained([]) by { NothingChained(); }
    } else {
      var before, last := lives[..|lives| - 1], lives[|lives| - 1];
      HistoriesChain(before);
      ChainedAppend(History(before), Init);
      var begun := History(before) + [Init];
      RoundsChain(begun, last);
      ChainedAppend(begun + Rounds(last), Final);
      assert History(lives) == (begun + Rounds(last)) + [Final];
    }
  }

  lemma {:induction false} PrefixesChain(trace: seq<Hook>, whole: seq<Hook>)
    requires Chained(whole) && trace <= whole
    ensures Chained(trace)
  {
    forall i | 0 <= i < |trace| ensures !Refused(StateOf(trace[..i]), trace[i]) {
      assert trace[..i] == whole[..i];
    }
  }

  /** A chained trace is some whole lives and then the beginning of one. */
  ghost predicate Parsed(trace: seq<Hook>, lives: seq<seq<nat>>, stops: seq<nat>) {
    && Lives(lives)
    && Positive(stops)
    && match StateOf(trace)
       case NotInitialized => trace == History(lives)
       case Finalized => trace == History(lives)
       case Initialized => trace == History(lives) + [Init]
       case Started => trace == History(lives) + [Init] + Rounds(stops) + [Start]
       case Stopped => stops != [] && trace == History(lives) + [Init] + Rounds(stops)
  }

  lemma {:induction false} ParseStop(trace: seq<Hook>, lives: seq<seq<nat>>, stops: seq<nat>) returns (stops': seq<nat>)
    requires Parsed(trace, lives, stops) && (StateOf(trace) == Started || StateOf(trace) == Stopped)
    ensures Parsed(trace + [Stop], lives, stops')
  {
    hide Lives, History;
    if StateOf(trace) == Started {
      stops' := stops + [1];
      assert stops'[..|stops|] == stops;
      assert Stops(1) == [Stop];
    } else {
      var n := |stops| - 1;
      stops' := stops[..n] + [stops[n] + 1];
      assert stops'[..n] == stops[..n];
      assert Stops(stops[n] + 1) == Stops(stops[n]) + [Stop];
    }
  }

  lemma {:induction false} ParseFinal(trace: seq<Hook>, lives: seq<seq<nat>>, stops: seq<nat>)
    requires Parsed(trace, lives, stops) && StateOf(trace) == Stopped
    ensures Parsed(trace + [Final], lives + [stops], [])
  {
    hide Rounds;
    assert (lives + [stops])[..|lives|] == lives;
  }

  lemma {:induction false} ParseStart(trace: seq<Hook>, lives: seq<seq<nat>>, stops: seq<nat>)
    requires Parsed(trace, lives, stops) && (StateOf(trace) == Initialized || StateOf(trace) == Stopped)
    ensures Parsed(trace + [Start], lives, if StateOf(trace) == Initialized then [] else stops)
  {
    hide Lives, History;
    assert Rounds([]) == [];
  }

  lemma {:induction false} Parse(trace: seq<Hook>) returns (lives: seq<seq<nat>>, stops: seq<nat>)
    requires Chained(trace)
    ensures Parsed(trace, lives, stops)
  {
    hide Chained, Rounds;
    lives, stops := [], [];
    if trace != [] {
      hide History;
      var before, last := trace[..|trace| - 1], trace[|trace| - 1];
      assert trace == before + [last];
      ChainedAppend(before, last);
      lives, stops := Parse(before);
      match last {
        case Init =>
          stops := [];
        case Start =>
          ParseStart(before, lives, stops);
          stops := if StateOf(before) == Initialized then [] else stops;
        case Stop =>
          stops := ParseStop(before, lives, stops);
        case Final =>
          ParseFinal(before, lives, stops);
          lives, stops := lives + [stops], [];
      }
    }
  }

  /** What completes a life from each state. */
  function Completion(state: State): seq<Hook> {
    match state
    case NotInitialized => []
    case Finalized => []
    case Initialized => [Start, Stop, Final]
    case Started => [Stop, Final]
    case Stopped => [Final]
  }

  lemma {:induction false} ChainedCompletes(trace: seq<Hook>)
    requires Chained(trace)
    ensures Chained(trace + Completion(StateOf(trace)))
    ensures var s := StateOf(trace + Completion(StateOf(trace))); s == NotInitialized || s == Finalized
    decreases |Completion(StateOf(trace))|
  {
    hide Chained;
    var rest := Completion(StateOf(trace));
    if rest == [] {
      assert trace + rest == trace;
    } else {
      ChainedAppend(trace, rest[0]);
      ChainedCompletes(trace + [rest[0]]);
      assert trace + rest == (trace + [rest[0]]) + rest[1..];
    }
  }

  /** The hook traces of runs are exactly the beginnings of histories, whatever the hooks return and call. */
  lemma {:induction false} TracesExactly(trace: seq<Hook>)
    ensures (exists calls :: Run(calls).trace == trace) <==> BeginsHistory(trace)
  {
    if calls :| Run(calls).trace == trace {
      RunsAreChained(calls);
      ChainedCompletes(trace);
      var whole := trace + Completion(StateOf(trace));
      var lives, _ := Parse(whole);
      assert trace <= whole == History(lives);
    }
    if BeginsHistory(trace) {
      var lives :| Lives(lives) && trace <= History(lives);
      HistoriesChain(lives);
      PrefixesChain(trace, History(lives));
      ChainedTracesRun(trace);
    }
  }

  function Occurrences(hook: Hook, trace: seq<Hook>): nat {
    multiset(trace)[hook]
  }

  /** At any time at most one more init than finals, and exactly one more while the module is alive. */
  lemma {:induction false} InitsMinusFinals(calls: seq<TopCall>)
    ensures var s := Run(calls);
      Occurrences(Init, s.trace) - Occurrences(Final, s.trace)
        == if s.state == NotInitialized || s.state == Finalized then 0 else 1
  {
    hide Chained, Called;
    if calls != [] {
      var before, last := calls[..|calls| - 1], calls[|calls| - 1];
      InitsMinusFinals(before);
      RunsAreChained(before);
      CallEntersOneHook(Run(before), last.hook, last.body);
    }
  }

  /** A final hook comes right after a stop hook, and a stop hook only after its module's start hook. */
  lemma {:induction false} FinalFollowsStop(calls: seq<TopCall>, i: nat)
    requires i < |Run(calls).trace|
    ensures var t := Run(calls).trace;
      && (t[i] == Final ==> i > 0 && t[i - 1] == Stop)
      && (t[i] == Stop ==> i > 0 && (t[i - 1] == Stop || t[i - 1] == Start))
      && (t[i] == Init <==> i == 0 || t[i - 1] == Final)
  {
    RunsAreChained(calls);
    var t := Run(calls).trace;
    if i > 0 {
      assert t[..i][i - 1] == t[i - 1];
    }
  }
}
