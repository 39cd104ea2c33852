/** The auto-fix turn controller of `main`, as functions of the external
    services: one user turn fetches suggestions, runs each suggested command
    through the danger filter, port negotiation and the shell, asks once for
    fixes after each failing command and runs the fixes until the first one
    fails, and finally appends one segment to the conversation history.

    Everything the controller observes from outside comes from `Services`.
    Each service is a function of the trace of everything that happened
    before the call, so a service may answer differently every time. */
module AutoFix {
  import opened Wrappers
  import opened Text
  import opened DangerFilter
  import opened PortNegotiator
  import opened Service

  /** Whether a command came from the turn's suggestions or from a fix reply. */
  datatype Phase = Suggested | Fix

  /** What the controller did, in order. */
  datatype Event =
    | Asked(request: string, history: string)
    | Skipped(phase: Phase, command: string)
    | Ran(phase: Phase, original: string, command: string, result: ExecResult)

  /** The oracles: the suggestion service, the shell, and the two port probes. */
  datatype Services = Services(
    suggest: (seq<Event>, string, string) -> Option<Reply>,
    shell: (seq<Event>, string) -> ShellOutcome,
    inUse: seq<Event> -> nat -> bool,
    freePort: seq<Event> -> nat)

  function Last(t: seq<Event>): Event
    requires |t| > 0
  {
    t[|t| - 1]
  }

  /** A command that ran and exited nonzero. */
  predicate Failed(e: Event) { e.Ran? && e.result.code != 0 }

  /** A command event (not a fetch) of the given phase. */
  predicate InPhase(e: Event, p: Phase) { !e.Asked? && e.phase == p }

  /** The command as suggested, before port negotiation. */
  function Subject(e: Event): string
    requires !e.Asked?
  {
    if e.Skipped? then e.command else e.original
  }

  /** One command: skipped if flagged dangerous; otherwise port-negotiated
      and run. */
  function Attempt(env: Services, t: seq<Event>, phase: Phase, command: string): (r: seq<Event>)
    ensures |r| == |t| + 1 && r[..|t|] == t
    ensures InPhase(Last(r), phase) && Subject(Last(r)) == command
    ensures Last(r).Ran? <==> !IsCommandDangerous(command)
  {
    if IsCommandDangerous(command) then t + [Skipped(phase, command)]
    else
      var adjusted := AdjustPort(command, env.inUse(t), env.freePort(t));
      t + [Ran(phase, command, adjusted, RunResult(env.shell(t, adjusted)))]
  }

  /** The fix commands, in order, up to and including the first that fails. */
  function FixLoop(env: Services, t: seq<Event>, fixes: seq<Suggestion>): seq<Event>
    decreases |fixes|
  {
    if fixes == [] then t
    else
      var t1 := Attempt(env, t, Fix, CommandOf(fixes[0]));
      if Failed(Last(t1)) then t1 else FixLoop(env, t1, fixes[1..])
  }

  /** The single fix round after a failed command: one fetch quoting the
      command as it ran and its stderr, then the fix commands. A falsy reply
      ends the round. */
  function FixRound(env: Services, t: seq<Event>, command: string, stderr: string, history: string): seq<Event> {
    var request := FixRequest(command, stderr);
    var data := env.suggest(t, request, history);
    var t1 := t + [Asked(request, history)];
    if Falsy(data) then t1 else FixLoop(env, t1, CommandsOf(data.value))
  }

  /** One suggested command and, when it ran and failed, its fix round. */
  function Step(env: Services, t: seq<Event>, command: string, history: string): seq<Event> {
    var t1 := Attempt(env, t, Suggested, command);
    var last := Last(t1);
    if Failed(last) then FixRound(env, t1, last.command, last.result.stderr, history) else t1
  }

  /** The suggested commands, in order, each followed by a fix round when it
      fails. */
  function MainLoop(env: Services, t: seq<Event>, commands: seq<Suggestion>, history: string): seq<Event>
    decreases |commands|
  {
    if commands == [] then t
    else MainLoop(env, Step(env, t, CommandOf(commands[0]), history), commands[1..], history)
  }

  /** `user_input.lower() in ["exit", "quit"]` */
  predicate IsExit(input: string) {
    Lower(input) == "exit" || Lower(input) == "quit"
  }

  /** The input is compared whole, with no stripping: it ends the session
      exactly when it has four characters that spell `exit` or `quit` in
      either letter case. */
  lemma ExitIff(input: string)
    ensures IsExit(input) <==>
      |input| == 4 &&
      ((forall i :: 0 <= i < 4 ==> LowerChar(input[i]) == "exit"[i]) ||
       (forall i :: 0 <= i < 4 ==> LowerChar(input[i]) == "quit"[i]))
  {
    if |input| == 4 {
      var low := Lower(input);
      assert (forall i :: 0 <= i < 4 ==> low[i] == "exit"[i]) <==> low == "exit";
      assert (forall i :: 0 <= i < 4 ==> low[i] == "quit"[i]) <==> low == "quit";
    }
  }

  /** `Quit` and `EXIT` end the session; `exit ` with a trailing blank does
      not. */
  lemma ExitExamples()
    ensures IsExit("Quit") && IsExit("EXIT") && !IsExit("exit ")
  {
    ExitIff("Quit");
    ExitIff("EXIT");
  }

  datatype TurnResult = TurnResult(stop: bool, trace: seq<Event>, history: string)

  /** One pass of the `while True` loop of `main`. */
  function Turn(env: Services, t: seq<Event>, history: string, input: string): TurnResult {
    if IsExit(input) then TurnResult(true, t, history)
    else
      var data := env.suggest(t, input, history);
      var t1 := t + [Asked(input, history)];
      if Falsy(data) then TurnResult(false, t1, history)
      else
        var reply := data.value;
        TurnResult(false, MainLoop(env, t1, CommandsOf(reply), history),
                   history + Segment(input, ExplanationOf(reply), CommandsOf(reply)))
  }

  datatype SessionResult = SessionResult(consumed: nat, trace: seq<Event>, history: string)

  /** `main` over a sequence of input lines: turns until `exit`/`quit` or the
      end of input; `consumed` counts the lines read. */
  function Session(env: Services, t: seq<Event>, history: string, inputs: seq<string>): SessionResult
    decreases |inputs|
  {
    if inputs == [] then SessionResult(0, t, history)
    else
      var o := Turn(env, t, history, inputs[0]);
      if o.stop then SessionResult(1, o.trace, o.history)
      else
        var rest := Session(env, o.trace, o.history, inputs[1..]);
        SessionResult(rest.consumed + 1, rest.trace, rest.history)
  }

  // ----- Observations of a trace -----

  /** The suggested commands handled so far, in order. */
  function Originals(t: seq<Event>): seq<string> {
    if t == [] then []
    else Originals(t[..|t| - 1]) + (if InPhase(Last(t), Suggested) then [Subject(Last(t))] else [])
  }

  /** How many fetches were made. */
  function Asks(t: seq<Event>): nat {
    if t == [] then 0 else Asks(t[..|t| - 1]) + (if Last(t).Asked? then 1 else 0)
  }

  /** How many suggested commands ran and failed. */
  function Failures(t: seq<Event>): nat {
    if t == [] then 0 else Failures(t[..|t| - 1]) + (if InPhase(Last(t), Suggested) && Failed(Last(t)) then 1 else 0)
  }

  /** The command texts of a list of suggestions. */
  function Texts(commands: seq<Suggestion>): seq<string> {
    seq(|commands|, i requires 0 <= i < |commands| => CommandOf(commands[i]))
  }

  /** Event `e`, happening after `before`, is what the policies allow: a
      skipped command was flagged; a command that ran was not flagged, ran in
      its port-negotiated form, and its result is the shell's. */
  predicate Justified(env: Services, before: seq<Event>, e: Event) {
    match e
    case Asked(_, _) => true
    case Skipped(_, c) => IsCommandDangerous(c)
    case Ran(_, o, c, res) =>
      !IsCommandDangerous(o) && c == AdjustPort(o, env.inUse(before), env.freePort(before)) &&
      res == RunResult(env.shell(before, c))
  }

  /** Every event of the trace is justified by what came before it. */
  ghost predicate Faithful(env: Services, t: seq<Event>) {
    forall i :: 0 <= i < |t| ==> Justified(env, t[..i], t[i])
  }

  // ----- The fix round -----

  /** The fix loop handles the fix commands in order, never fetches, and
      stops right after the first fix command that fails: only the last
      event can be a failure, and it stops early only because of one. */
  lemma {:induction false} FixLoopShape(env: Services, t: seq<Event>, fixes: seq<Suggestion>)
    ensures var r := FixLoop(env, t, fixes);
      |t| <= |r| <= |t| + |fixes| && r[..|t|] == t &&
      (forall i :: |t| <= i < |r| ==> InPhase(r[i], Fix) && Subject(r[i]) == CommandOf(fixes[i - |t|])) &&
      (forall i :: |t| <= i < |r| - 1 ==> !Failed(r[i])) &&
      (|r| < |t| + |fixes| ==> |t| < |r| && Failed(Last(r)))
    decreases |fixes|
  {
    if fixes != [] {
      var t1 := Attempt(env, t, Fix, CommandOf(fixes[0]));
      if !Failed(Last(t1)) {
        FixLoopShape(env, t1, fixes[1..]);
        var r := FixLoop(env, t1, fixes[1..]);
        assert r[..|t1|][..|t|] == r[..|t|];
        assert r[|t|] == t1[|t|];
      }
    }
  }

  /** A fix round makes exactly one fetch, first, with the fix request for
      the failed command; everything after it is a fix command. */
  lemma FixRoundShape(env: Services, t: seq<Event>, command: string, stderr: string, history: string)
    ensures var r := FixRound(env, t, command, stderr, history);
      |t| < |r| && r[..|t|] == t && r[|t|] == Asked(FixRequest(command, stderr), history) &&
      forall i :: |t| < i < |r| ==> InPhase(r[i], Fix)
  {
    var request := FixRequest(command, stderr);
    var data := env.suggest(t, request, history);
    var t1 := t + [Asked(request, history)];
    if !Falsy(data) {
      FixLoopShape(env, t1, CommandsOf(data.value));
      var r := FixLoop(env, t1, CommandsOf(data.value));
      assert r[..|t1|][..|t|] == r[..|t|];
      assert r[|t|] == t1[|t|];
    }
  }

  /** The observations of a trace extended by one event. */
  lemma CountsAppend(t: seq<Event>, e: Event)
    ensures Originals(t + [e]) == Originals(t) + (if InPhase(e, Suggested) then [Subject(e)] else [])
    ensures Asks(t + [e]) == Asks(t) + (if e.Asked? then 1 else 0)
    ensures Failures(t + [e]) == Failures(t) + (if InPhase(e, Suggested) && Failed(e) then 1 else 0)
  {
    assert (t + [e])[..|t|] == t;
  }

  /** Events of the fix phase change neither the suggested commands handled,
      nor the fetch count, nor the failure count. */
  lemma {:induction false} FixEventsUncounted(t: seq<Event>, r: seq<Event>)
    requires |t| <= |r| && r[..|t|] == t
    requires forall i :: |t| <= i < |r| ==> InPhase(r[i], Fix)
    ensures Originals(r) == Originals(t) && Asks(r) == Asks(t) && Failures(r) == Failures(t)
    decreases |r|
  {
    if |t| < |r| {
      var r' := r[..|r| - 1];
      assert r'[..|t|] == t;
      assert r == r' + [r[|r| - 1]];
      CountsAppend(r', r[|r| - 1]);
      forall i | |t| <= i < |r'| ensures InPhase(r'[i], Fix) { assert r'[i] == r[i]; }
      FixEventsUncounted(t, r');
    } else {
      assert r == r[..|t|];
    }
  }

  // ----- The suggested commands -----

  /** One step adds the suggested command's event; only when that command
      failed, its fix fetch follows at once, quoting the command as it ran
      and its stderr; everything after that is a fix command. */
  lemma StepShape(env: Services, t: seq<Event>, command: string, history: string)
    ensures var r := Step(env, t, command, history);
      |t| < |r| && r[..|t|] == t && InPhase(r[|t|], Suggested) && Subject(r[|t|]) == command &&
      (Failed(r[|t|]) ==> |t| + 1 < |r| && r[|t| + 1] == Asked(FixRequest(r[|t|].command, r[|t|].result.stderr), history)) &&
      (!Failed(r[|t|]) ==> r == Attempt(env, t, Suggested, command)) &&
      (forall i :: |t| + 1 < i < |r| ==> InPhase(r[i], Fix))
  {
    var t1 := Attempt(env, t, Suggested, command);
    var last := Last(t1);
    assert t1[|t|] == last;
    if Failed(last) {
      FixRoundShape(env, t1, last.command, last.result.stderr, history);
      var r := Step(env, t, command, history);
      assert r[..|t1|][..|t|] == r[..|t|];
      assert r[|t|] == r[..|t1|][|t|];
    }
  }

  /** One step records its suggested command, and fetches exactly when that
      command fails. */
  lemma StepCounts(env: Services, t: seq<Event>, command: string, history: string)
    ensures var r := Step(env, t, command, history);
      Originals(r) == Originals(t) + [command] && Asks(r) + Failures(t) == Asks(t) + Failures(r)
  {
    var t1 := Attempt(env, t, Suggested, command);
    var last := Last(t1);
    assert t1 == t + [last];
    CountsAppend(t, last);
    if Failed(last) {
      FixRoundShape(env, t1, last.command, last.result.stderr, history);
      FixEventsAfterFetch(t1, FixRound(env, t1, last.command, last.result.stderr, history));
    }
  }

  /** The suggested commands only add events: what happened before stays. */
  lemma {:induction false} MainLoopExtends(env: Services, t: seq<Event>, commands: seq<Suggestion>, history: string)
    ensures var r := MainLoop(env, t, commands, history);
      |t| <= |r| && r[..|t|] == t
    decreases |commands|
  {
    if commands != [] {
      var t2 := Step(env, t, CommandOf(commands[0]), history);
      StepShape(env, t, CommandOf(commands[0]), history);
      MainLoopExtends(env, t2, commands[1..], history);
      var r := MainLoop(env, t2, commands[1..], history);
      assert r[..|t|] == r[..|t2|][..|t|];
    }
  }

  /** Every suggested command is handled exactly once and in order, whether
      it is skipped, succeeds or fails: a failure and its fix round do not
      end the turn. */
  lemma {:induction false} MainLoopHandlesAll(env: Services, t: seq<Event>, commands: seq<Suggestion>, history: string)
    ensures Originals(MainLoop(env, t, commands, history)) == Originals(t) + Texts(commands)
    decreases |commands|
  {
    if commands != [] {
      var t2 := Step(env, t, CommandOf(commands[0]), history);
      StepCounts(env, t, CommandOf(commands[0]), history);
      MainLoopHandlesAll(env, t2, commands[1..], history);
      TextsCons(commands);
      var before, first, after := Originals(t), [CommandOf(commands[0])], Texts(commands[1..]);
      assert (before + first) + after == before + (first + after);
    }
  }

  lemma TextsCons(commands: seq<Suggestion>)
    requires commands != []
    ensures Texts(commands) == [CommandOf(commands[0])] + Texts(commands[1..])
  {
  }

  /** A fetch followed by fix events adds one fetch and nothing else that
      is counted. */
  lemma FixEventsAfterFetch(t: seq<Event>, r: seq<Event>)
    requires |t| < |r| && r[..|t|] == t && r[|t|].Asked?
    requires forall i :: |t| < i < |r| ==> InPhase(r[i], Fix)
    ensures Originals(r) == Originals(t) && Asks(r) == Asks(t) + 1 && Failures(r) == Failures(t)
  {
    var t1 := r[..|t| + 1];
    assert t1[..|t|] == t;
    FixEventsUncounted(t1, r);
  }

  /** Exactly one fix fetch per failing suggested command, and no other
      fetch, during the suggested commands of a turn. */
  lemma {:induction false} MainLoopFetchesPerFailure(env: Services, t: seq<Event>, commands: seq<Suggestion>, history: string)
    ensures var r := MainLoop(env, t, commands, history);
      Asks(r) + Failures(t) == Asks(t) + Failures(r)
    decreases |commands|
  {
    if commands != [] {
      StepCounts(env, t, CommandOf(commands[0]), history);
      MainLoopFetchesPerFailure(env, Step(env, t, CommandOf(commands[0]), history), commands[1..], history);
    }
  }

  /** Right after every suggested command that fails comes its fix fetch,
      quoting the command in the form it ran and its stderr, sent with the
      history of the turn. */
  lemma {:induction false} MainLoopFixFollowsFailure(env: Services, t: seq<Event>, commands: seq<Suggestion>, history: string)
    ensures var r := MainLoop(env, t, commands, history);
      forall i :: |t| <= i < |r| && InPhase(r[i], Suggested) && Failed(r[i]) ==>
        i + 1 < |r| && r[i + 1] == Asked(FixRequest(r[i].command, r[i].result.stderr), history)
    decreases |commands|
  {
    if commands != [] {
      var t2 := Step(env, t, CommandOf(commands[0]), history);
      StepShape(env, t, CommandOf(commands[0]), history);
      MainLoopFixFollowsFailure(env, t2, commands[1..], history);
      MainLoopExtends(env, t2, commands[1..], history);
      var r := MainLoop(env, t2, commands[1..], history);
      forall i | |t| <= i < |r| && InPhase(r[i], Suggested) && Failed(r[i])
        ensures i + 1 < |r| && r[i + 1] == Asked(FixRequest(r[i].command, r[i].result.stderr), history)
      {
        if i < |t2| {
          assert r[i] == t2[i] by { assert r[..|t2|][i] == r[i]; }
          if i == |t| {
            assert r[i + 1] == t2[i + 1] by { assert r[..|t2|][i + 1] == r[i + 1]; }
          }
        }
      }
    }
  }

  /** No suggested command is flagged dangerous. */
  predicate NoneDangerous(commands: seq<Suggestion>) {
    forall i :: 0 <= i < |commands| ==> !IsCommandDangerous(CommandOf(commands[i]))
  }

  /** No command event from index `k` on failed. */
  predicate NoFailureFrom(t: seq<Event>, k: nat) {
    forall i :: k <= i < |t| ==> !Failed(t[i])
  }

  /** When nothing is flagged and no command the loop runs fails, each
      suggested command runs exactly once, in order, exits with 0, and
      nothing else happens: no fix round and no fetch. */
  lemma {:induction false} MainLoopAllSucceed(env: Services, t: seq<Event>, commands: seq<Suggestion>, history: string)
    requires NoneDangerous(commands) && NoFailureFrom(MainLoop(env, t, commands, history), |t|)
    ensures var r := MainLoop(env, t, commands, history);
      |r| == |t| + |commands| && r[..|t|] == t &&
      forall i :: |t| <= i < |r| ==>
        r[i].Ran? && r[i].phase == Suggested && r[i].original == CommandOf(commands[i - |t|]) && r[i].result.code == 0
    decreases |commands|
  {
    if commands != [] {
      var t2 := Step(env, t, CommandOf(commands[0]), history);
      StepShape(env, t, CommandOf(commands[0]), history);
      var rest := commands[1..];
      MainLoopExtends(env, t2, rest, history);
      var r := MainLoop(env, t2, rest, history);
      assert r == MainLoop(env, t, commands, history);
      assert r[|t|] == r[..|t2|][|t|] == t2[|t|];
      assert t2 == Attempt(env, t, Suggested, CommandOf(commands[0]));
      assert NoneDangerous(rest) by {
        forall i | 0 <= i < |rest| ensures !IsCommandDangerous(CommandOf(rest[i])) {
          assert rest[i] == commands[i + 1];
        }
      }
      MainLoopAllSucceed(env, t2, rest, history);
      assert r[..|t|] == t by { assert r[..|t|] == r[..|t2|][..|t|]; }
      forall i | |t| <= i < |r|
        ensures r[i].Ran? && r[i].phase == Suggested && r[i].original == CommandOf(commands[i - |t|]) && r[i].result.code == 0
      {
        if i == |t| {
          assert r[i] == Last(t2);
        } else {
          assert rest[i - |t2|] == commands[i - |t|];
        }
      }
    }
  }

  // ----- Policies hold for every event -----

  lemma FaithfulAppend(env: Services, t: seq<Event>, e: Event)
    requires Faithful(env, t) && Justified(env, t, e)
    ensures Faithful(env, t + [e])
  {
    var r := t + [e];
    forall i | 0 <= i < |r| ensures Justified(env, r[..i], r[i]) {
      if i < |t| { assert r[..i] == t[..i]; } else { assert r[..i] == t; }
    }
  }

  lemma AttemptFaithful(env: Services, t: seq<Event>, phase: Phase, command: string)
    requires Faithful(env, t)
    ensures Faithful(env, Attempt(env, t, phase, command))
  {
    var r := Attempt(env, t, phase, command);
    assert r == t + [Last(r)];
    FaithfulAppend(env, t, Last(r));
  }

  lemma {:induction false} FixLoopFaithful(env: Services, t: seq<Event>, fixes: seq<Suggestion>)
    requires Faithful(env, t)
    ensures Faithful(env, FixLoop(env, t, fixes))
    decreases |fixes|
  {
    if fixes != [] {
      AttemptFaithful(env, t, Fix, CommandOf(fixes[0]));
      FixLoopFaithful(env, Attempt(env, t, Fix, CommandOf(fixes[0])), fixes[1..]);
    }
  }

  lemma StepFaithful(env: Services, t: seq<Event>, command: string, history: string)
    requires Faithful(env, t)
    ensures Faithful(env, Step(env, t, command, history))
  {
    var t1 := Attempt(env, t, Suggested, command);
    AttemptFaithful(env, t, Suggested, command);
    var last := Last(t1);
    if Failed(last) {
      var request := FixRequest(last.command, last.result.stderr);
      FaithfulAppend(env, t1, Asked(request, history));
      var data := env.suggest(t1, request, history);
      if !Falsy(data) {
        FixLoopFaithful(env, t1 + [Asked(request, history)], CommandsOf(data.value));
      }
    }
  }

  /** The controller never runs a flagged command, in the suggested commands
      or in a fix round; every command it runs is the port-negotiated form of
      a suggestion, run by the shell at that point. */
  lemma {:induction false} MainLoopFaithful(env: Services, t: seq<Event>, commands: seq<Suggestion>, history: string)
    requires Faithful(env, t)
    ensures Faithful(env, MainLoop(env, t, commands, history))
    decreases |commands|
  {
    if commands != [] {
      StepFaithful(env, t, CommandOf(commands[0]), history);
      MainLoopFaithful(env, Step(env, t, CommandOf(commands[0]), history), commands[1..], history);
    }
  }

  // ----- One turn -----

  /** `exit` or `quit`, in any letter case, ends the session and changes nothing. */
  lemma TurnExit(env: Services, t: seq<Event>, history: string, input: string)
    requires IsExit(input)
    ensures Turn(env, t, history, input) == TurnResult(true, t, history)
  {
  }

  /** A failed or empty initial fetch aborts the turn: no command runs and
      the history is unchanged. */
  lemma TurnAborted(env: Services, t: seq<Event>, history: string, input: string)
    requires !IsExit(input) && Falsy(env.suggest(t, input, history))
    ensures Turn(env, t, history, input) == TurnResult(false, t + [Asked(input, history)], history)
  {
  }

  /** What a turn with a reply evaluates to. */
  lemma TurnReplied(env: Services, t: seq<Event>, history: string, input: string)
    requires !IsExit(input) && !Falsy(env.suggest(t, input, history))
    ensures var reply := env.suggest(t, input, history).value;
      Turn(env, t, history, input) ==
        TurnResult(false, MainLoop(env, t + [Asked(input, history)], CommandsOf(reply), history),
                   history + Segment(input, ExplanationOf(reply), CommandsOf(reply)))
  {
  }

  /** A turn with a reply appends exactly one history segment after the old
      history and handles every suggested command once and in order. */
  lemma TurnCompleted(env: Services, t: seq<Event>, history: string, input: string)
    requires !IsExit(input) && !Falsy(env.suggest(t, input, history))
    ensures var reply := env.suggest(t, input, history).value;
      var o := Turn(env, t, history, input);
      !o.stop &&
      o.history == history + Segment(input, ExplanationOf(reply), CommandsOf(reply)) &&
      |t| < |o.trace| && o.trace[..|t| + 1] == t + [Asked(input, history)] &&
      Originals(o.trace) == Originals(t) + Texts(CommandsOf(reply))
  {
    var reply := env.suggest(t, input, history).value;
    var t1 := t + [Asked(input, history)];
    TurnReplied(env, t, history, input);
    var r := MainLoop(env, t1, CommandsOf(reply), history);
    MainLoopExtends(env, t1, CommandsOf(reply), history);
    assert |t1| == |t| + 1 && r[..|t| + 1] == t1;
    CountsAppend(t, Asked(input, history));
    MainLoopHandlesAll(env, t1, CommandsOf(reply), history);
  }

  /** A turn with a reply fetches once for the suggestions plus once per
      failing suggested command. */
  lemma TurnFetches(env: Services, t: seq<Event>, history: string, input: string)
    requires !IsExit(input) && !Falsy(env.suggest(t, input, history))
    ensures var o := Turn(env, t, history, input);
      Asks(o.trace) + Failures(t) == Asks(t) + 1 + Failures(o.trace)
  {
    var reply := env.suggest(t, input, history).value;
    var t1 := t + [Asked(input, history)];
    TurnReplied(env, t, history, input);
    CountsAppend(t, Asked(input, history));
    MainLoopFetchesPerFailure(env, t1, CommandsOf(reply), history);
  }

  /** With nothing flagged and no command of the turn failing, a turn is one
      fetch followed by exactly one run of each suggested command, in order,
      each exiting with 0. */
  lemma TurnAllSucceed(env: Services, t: seq<Event>, history: string, input: string)
    requires !IsExit(input) && !Falsy(env.suggest(t, input, history))
    requires NoneDangerous(CommandsOf(env.suggest(t, input, history).value))
    requires NoFailureFrom(Turn(env, t, history, input).trace, |t|)
    ensures var commands := CommandsOf(env.suggest(t, input, history).value);
      var r := Turn(env, t, history, input).trace;
      |r| == |t| + 1 + |commands| && r[..|t| + 1] == t + [Asked(input, history)] &&
      forall i :: |t| < i < |r| ==>
        r[i].Ran? && r[i].phase == Suggested && r[i].original == CommandOf(commands[i - |t| - 1]) && r[i].result.code == 0
  {
    TurnReplied(env, t, history, input);
    AllSucceedAfterFetch(env, t, Asked(input, history), CommandsOf(env.suggest(t, input, history).value), history);
  }

  /** `MainLoopAllSucceed` after the turn's fetch event `a`. */
  lemma AllSucceedAfterFetch(env: Services, t: seq<Event>, a: Event, commands: seq<Suggestion>, history: string)
    requires NoneDangerous(commands) && NoFailureFrom(MainLoop(env, t + [a], commands, history), |t|)
    ensures var r := MainLoop(env, t + [a], commands, history);
      |r| == |t| + 1 + |commands| && r[..|t| + 1] == t + [a] &&
      forall i :: |t| < i < |r| ==>
        r[i].Ran? && r[i].phase == Suggested && r[i].original == CommandOf(commands[i - |t| - 1]) && r[i].result.code == 0
  {
    var t1 := t + [a];
    assert |t1| == |t| + 1;
    var r := MainLoop(env, t1, commands, history);
    assert NoFailureFrom(r, |t1|);
    MainLoopAllSucceed(env, t1, commands, history);
    forall i | |t| < i < |r|
      ensures r[i].Ran? && r[i].phase == Suggested && r[i].original == CommandOf(commands[i - |t| - 1]) && r[i].result.code == 0
    {
      assert i - |t1| == i - |t| - 1;
    }
  }

  lemma TurnFaithful(env: Services, t: seq<Event>, history: string, input: string)
    requires Faithful(env, t)
    ensures Faithful(env, Turn(env, t, history, input).trace)
  {
    if !IsExit(input) {
      FaithfulAppend(env, t, Asked(input, history));
      var data := env.suggest(t, input, history);
      if !Falsy(data) {
        MainLoopFaithful(env, t + [Asked(input, history)], CommandsOf(data.value), history);
      }
    }
  }

  // ----- A session -----

  /** The history only grows: the old history is a prefix of the new one. */
  lemma {:induction false} SessionHistoryGrows(env: Services, t: seq<Event>, history: string, inputs: seq<string>)
    ensures var h := Session(env, t, history, inputs).history;
      |history| <= |h| && h[..|history|] == history
    decreases |inputs|
  {
    if inputs != [] {
      var o := Turn(env, t, history, inputs[0]);
      if !o.stop {
        SessionHistoryGrows(env, o.trace, o.history, inputs[1..]);
        var h := Session(env, o.trace, o.history, inputs[1..]).history;
        assert h[..|o.history|][..|history|] == h[..|history|];
      }
    }
  }

  /** The session reads input lines up to and including the first `exit` or
      `quit`, or all of them when there is none. */
  lemma {:induction false} SessionStopsAtExit(env: Services, t: seq<Event>, history: string, inputs: seq<string>)
    ensures var n := Session(env, t, history, inputs).consumed;
      n <= |inputs| &&
      (forall j :: 0 <= j < n - 1 ==> !IsExit(inputs[j])) &&
      (n < |inputs| ==> 0 < n && IsExit(inputs[n - 1])) &&
      (|inputs| > 0 ==> 0 < n)
    decreases |inputs|
  {
    if inputs != [] {
      var o := Turn(env, t, history, inputs[0]);
      if !o.stop {
        SessionStopsAtExit(env, o.trace, o.history, inputs[1..]);
        var n := Session(env, o.trace, o.history, inputs[1..]).consumed;
        forall j | 0 <= j < n ensures !IsExit(inputs[j]) {
          if j > 0 { assert inputs[j] == inputs[1..][j - 1]; }
        }
      }
    }
  }

  /** Over a whole session, no flagged command ever runs, and every command
      that runs is the port-negotiated form of a suggestion. */
  lemma {:induction false} SessionFaithful(env: Services, t: seq<Event>, history: string, inputs: seq<string>)
    requires Faithful(env, t)
    ensures Faithful(env, Session(env, t, history, inputs).trace)
    decreases |inputs|
  {
    if inputs != [] {
      TurnFaithful(env, t, history, inputs[0]);
      var o := Turn(env, t, history, inputs[0]);
      if !o.stop {
        SessionFaithful(env, o.trace, o.history, inputs[1..]);
      }
    }
  }
}
