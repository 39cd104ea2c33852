/** The interactive terminal of `main`: the conversation history and the
    record of what happened are fields updated in place, one user turn at a
    time, by loops that mirror the source's. Each method is proved to do
    exactly what the functions of `AutoFix` say. */
module Terminal {
  import opened Wrappers
  import opened Text
  import opened DangerFilter
  import opened PortNegotiator
  import opened Service
  import opened AutoFix

  class Terminal {
    /** The suggestion service, the shell and the port probes. */
    const env: Services
    /** `conversation_history` */
    var history: string
    /** Every fetch and every command handled so far, in order. */
    var trace: seq<Event>

    /** A new session starts with an empty history. */
    constructor(env: Services)
      ensures this.env == env && history == "" && trace == []
    {
      this.env := env;
      history := "";
      trace := [];
    }

    /** `get_llm_suggestions(request, conversation_history)`, recorded. */
    method Fetch(request: string) returns (data: Option<Reply>)
      modifies this
      ensures data == env.suggest(old(trace), request, history)
      ensures trace == old(trace) + [Asked(request, history)] && history == old(history)
    {
      data := env.suggest(trace, request, history);
      trace := trace + [Asked(request, history)];
    }

    /** One command of either loop: skipped when flagged dangerous, otherwise
        port-negotiated and run by the shell. `ran` says whether it ran; then
        `command` is the form that ran and `result` what the shell reported.
        When `ran` is false, `command` and `result` are placeholders that
        callers do not read: no command ran and nothing was reported. */
    method Handle(phase: Phase, original: string) returns (ran: bool, command: string, result: ExecResult)
      modifies this
      ensures trace == Attempt(env, old(trace), phase, original) && history == old(history)
      ensures ran <==> !IsCommandDangerous(original)
      ensures ran ==> Last(trace) == Ran(phase, original, command, result)
    {
      if IsCommandDangerous(original) {
        trace := trace + [Skipped(phase, original)];
        return false, original, ExecResult("", "", 0);
      }
      command := AdjustPort(original, env.inUse(trace), env.freePort(trace));
      result := RunResult(env.shell(trace, command));
      trace := trace + [Ran(phase, original, command, result)];
      ran := true;
    }

    /** The fix commands, in order, stopping after the first that fails. */
    method RunFixes(fixes: seq<Suggestion>)
      modifies this
      ensures trace == FixLoop(env, old(trace), fixes) && history == old(history)
    {
      ghost var t0 := trace;
      for j := 0 to |fixes|
        invariant history == old(history)
        invariant FixLoop(env, trace, fixes[j..]) == FixLoop(env, t0, fixes)
      {
        ghost var before := trace;
        assert fixes[j..][0] == fixes[j] && fixes[j..][1..] == fixes[j + 1..];
        var ran, command, result := Handle(Fix, CommandOf(fixes[j]));
        if ran && result.code != 0 {
          assert FixLoop(env, before, fixes[j..]) == trace;
          return;
        }
      }
    }

    /** One pass of the `while True` loop of `main`: `stop` is true for
        `exit`/`quit`; otherwise one fetch, the suggested commands with a fix
        round after each failure, and, when the fetch gave a reply, one new
        history segment. */
    method ProcessTurn(input: string) returns (stop: bool)
      modifies this
      ensures Turn(env, old(trace), old(history), input) == TurnResult(stop, trace, history)
    {
      if IsExit(input) {
        return true;
      }
      stop := false;
      var data := Fetch(input);
      if Falsy(data) {
        return;
      }
      var explanation := ExplanationOf(data.value);
      var commands := CommandsOf(data.value);
      ghost var t1 := trace;
      for i := 0 to |commands|
        invariant history == old(history)
        invariant MainLoop(env, trace, commands[i..], history) == MainLoop(env, t1, commands, history)
      {
        assert commands[i..][0] == commands[i] && commands[i..][1..] == commands[i + 1..];
        var ran, command, result := Handle(Suggested, CommandOf(commands[i]));
        if !ran {
          continue;
        }
        if result.code != 0 {
          var fixData := Fetch(FixRequest(command, result.stderr));
          if Falsy(fixData) {
            continue;
          }
          RunFixes(CommandsOf(fixData.value));
        }
      }
      history := history + Segment(input, explanation, commands);
    }

    /** `main` over the lines the user types: turns until `exit`/`quit` or
        the end of input; `consumed` counts the lines read. */
    method Run(inputs: seq<string>) returns (consumed: nat)
      modifies this
      ensures Session(env, old(trace), old(history), inputs) == SessionResult(consumed, trace, history)
    {
      consumed := 0;
      while consumed < |inputs|
        invariant consumed <= |inputs|
        invariant var s := Session(env, trace, history, inputs[consumed..]);
          Session(env, old(trace), old(history), inputs) == SessionResult(s.consumed + consumed, s.trace, s.history)
      {
        assert inputs[consumed..][0] == inputs[consumed] && inputs[consumed..][1..] == inputs[consumed + 1..];
        var stop := ProcessTurn(inputs[consumed]);
        consumed := consumed + 1;
        if stop {
          return;
        }
      }
    }
  }
}
