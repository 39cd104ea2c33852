/** The data exchanged with the two external collaborators: the replies of
    the suggestion service (`get_llm_suggestions`), the outcome of a shell
    command (`run_shell_command`), the text of a fix request and the history
    segment a completed turn appends. */
module Service {
  import opened Wrappers
  import opened Text

  /** One entry of the reply's `commands` list. A key the service left out
      is `None`; the caller reads it with `.get(key, "")`. */
  datatype Suggestion = Suggestion(command: Option<string>, explanation: Option<string>)

  /** A decoded JSON object from the service: the two keys the caller reads,
      and how many other keys it has (they only matter for truthiness). */
  datatype Reply = Reply(explanation: Option<string>, commands: Option<seq<Suggestion>>, otherKeys: nat)

  /** `not data`: no reply at all (the fetch failed) or an empty object. */
  predicate Falsy(data: Option<Reply>) {
    data.None? || (data.value.explanation.None? && data.value.commands.None? && data.value.otherKeys == 0)
  }

  function OrDefault<T>(o: Option<T>, default: T): T {
    match o
    case Some(v) => v
    case None => default
  }

  /** `cobj.get("command", "")` */
  function CommandOf(s: Suggestion): string { OrDefault(s.command, "") }

  /** `data.get("explanation", "")` */
  function ExplanationOf(r: Reply): string { OrDefault(r.explanation, "") }

  /** `data.get("commands", [])` */
  function CommandsOf(r: Reply): seq<Suggestion> { OrDefault(r.commands, []) }

  /** What the caller of `run_shell_command` sees: captured output and the
      exit code (0 is success). */
  datatype ExecResult = ExecResult(stdout: string, stderr: string, code: int)

  /** What the shell does with a command: it exits with some output, or it
      cannot be launched at all. */
  datatype ShellOutcome = Exited(stdout: string, stderr: string, code: int) | LaunchFailed(message: string)

  /** `run_shell_command`: a command that cannot be launched is reported as
      empty output, the error text on stderr and exit code 1, so it always
      counts as a failure. */
  function RunResult(o: ShellOutcome): (r: ExecResult)
    ensures o.LaunchFailed? ==> r == ExecResult("", o.message, 1)
    ensures r.code == 0 <==> o.Exited? && o.code == 0
  {
    match o
    case Exited(out, err, code) => ExecResult(out, err, code)
    case LaunchFailed(msg) => ExecResult("", msg, 1)
  }

  const FixRequestHead: string := "I tried to run '"
  const FixRequestMiddle: string := "' and got this error:\n"
  const FixRequestTail: string := "\nPlease provide a fix or alternative commands to solve the issue. Only respond with JSON."

  /** The request sent after a failure, quoting the command as it ran and
      its stderr. */
  function FixRequest(command: string, stderr: string): (r: string)
    ensures OccursAt(r, command, |FixRequestHead|)
    ensures OccursAt(r, stderr, |FixRequestHead| + |command| + |FixRequestMiddle|)
  {
    var r := FixRequestHead + command + FixRequestMiddle + stderr + FixRequestTail;
    assert r[|FixRequestHead|..|FixRequestHead| + |command|] == command;
    assert r[|FixRequestHead| + |command| + |FixRequestMiddle|..][..|stderr|] == stderr;
    r
  }

  /** A quoted value, as in `'ls -la'`. */
  function Quoted(s: string): string { "'" + s + "'" }

  /** One suggestion as a dictionary display, with the keys it has. */
  function RenderSuggestion(s: Suggestion): string {
    var fields :=
      (if s.command.Some? then ["'command': " + Quoted(s.command.value)] else []) +
      (if s.explanation.Some? then ["'explanation': " + Quoted(s.explanation.value)] else []);
    "{" + Join(fields) + "}"
  }

  /** Items separated by `", "`. */
  function Join(items: seq<string>): string {
    if items == [] then ""
    else if |items| == 1 then items[0]
    else items[0] + ", " + Join(items[1..])
  }

  /** The list of suggestions as it is written into the history. */
  function Render(commands: seq<Suggestion>): string {
    "[" + Join(seq(|commands|, i requires 0 <= i < |commands| => RenderSuggestion(commands[i]))) + "]"
  }

  const SegmentHead: string := "\nUser: "

  /** The text one completed turn appends to the conversation history. */
  function Segment(input: string, explanation: string, commands: seq<Suggestion>): (r: string)
    ensures |r| >= |SegmentHead| && r[..|SegmentHead|] == SegmentHead
    ensures OccursAt(r, input, |SegmentHead|)
  {
    var r := SegmentHead + input + "\nLLM Explanation: " + explanation + "\nCommands: " + Render(commands);
    assert r[|SegmentHead|..|SegmentHead| + |input|] == input;
    r
  }
}
