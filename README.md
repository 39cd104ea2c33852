# Smart Terminal auto-fix core, in Dafny

The Smart Terminal reads a request from the user and sends it to a
suggestion service together with the conversation history. The service
replies with an explanation and a list of shell commands. The terminal runs
those commands one by one:

- a command containing `rm -rf /`, in any letter case, is skipped;
- a `python -m http.server [PORT]` command whose port is busy is rewritten
  to use a free port;
- every other command runs as written.

When a suggested command fails, the terminal asks the service once for a
fix. It quotes the command as it ran and its stderr. It then runs the fix
commands until the first one that fails, and carries on with the rest of
the suggested commands. A turn that got a reply adds one segment to the
history. `exit` or `quit` ends the session.

The project has seven modules, one per concern:

- `Wrappers`: the `Option` type.
- `Text`: ASCII case folding, leftmost substring search, first-occurrence
  replacement, and decimal text and its value.
- `DangerFilter`: `is_command_dangerous`.
- `PortNegotiator`: `maybe_adjust_port_in_command`. The pattern match is
  computed the way `re.search` finds it (leftmost start, greedy whitespace
  runs). Lemmas connect it to a declarative description of what the
  pattern matches.
- `Service`: the data the collaborators exchange:
  - the service's reply, read with the `.get` defaults;
  - the result of a shell command;
  - the fix request text;
  - the history segment.
- `AutoFix`: the turn controller as functions of the external services. A
  turn produces a trace of events: fetches, skipped commands and commands
  that ran. The lemmas state what the controller promises about that trace
  and about the history.
- `Terminal`: the class `Terminal` with the fields `history` and `trace`.
  Its methods mirror the loops of `main` with `continue` and `break`. Each
  one is proved to update the state exactly as the `AutoFix` functions say.

The services are parameters of type `AutoFix.Services`:

- the suggestion service;
- the shell;
- "is this port in use?";
- "which port is free?".

Each one is a function of the trace of everything that happened before the
call, so it may answer differently on every call.

Two behaviours of the source are modelled as written:

- When the explicit port is busy, the replacement hits the leftmost
  occurrence of the port's digit text anywhere in the command. That
  occurrence can come before `http.server`, for example in
  `echo 8080; python -m http.server 8080`. `PortNegotiator.CollateralRewrite`
  proves this for that example.
- `python3 -m http.server` is not recognised, because the pattern needs
  whitespace right after `python`.

One behaviour is modelled corrected. A port above 65535 makes the source's
port probe raise an exception that nothing catches, so the program ends.
`PortNegotiator.AdjustPort` leaves such a command unchanged instead. See
"## Findings".

## Model

| member | source | states |
|---|---|---|
| Text.LowerChar | smart_terminal.py:99 | `lower()` of one character, ASCII letters only; no contract of its own: `DangerFilter.DangerousIgnoresCase` and `AutoFix.ExitIff` state what it means for the flag and the exit test |
| Text.Lower | smart_terminal.py:99 | `command.lower()` (also `user_input.lower()` at :137), ASCII letters only; no contract of its own: `DangerFilter.DangerousIff` states the flag over it, `DangerFilter.DangerousIgnoresCase` its case insensitivity |
| Text.Find | smart_terminal.py:100 | the substring test succeeds exactly when the pattern occurs somewhere, and reports the leftmost occurrence |
| Text.ReplaceFirst | smart_terminal.py:73 | a replacement with `count=1` splices the new text in at the leftmost occurrence only; with no occurrence the text is unchanged |
| Text.ReplaceFirstOfSlice | smart_terminal.py:73 | replacing the text of a slice hits its leftmost occurrence, which lies at or before the slice itself |
| Text.Decimal | smart_terminal.py:86 | `str(n)` of a non-negative number is a non-empty run of digits with no leading zero |
| Text.DigitsValue | smart_terminal.py:68 | `int(port_str)` of a digit run; no contract of its own: `DecimalRoundTrip` specifies it |
| Text.DecimalRoundTrip | smart_terminal.py:68 | `int(str(n)) == n` |
| Text.SkipWhile | smart_terminal.py:61 | a greedy scan covers a maximal run of matching characters |
| DangerFilter.IsCommandDangerous | smart_terminal.py:95-102 | `is_command_dangerous`; no contract of its own: `DangerousIff` and the lemmas below specify it |
| DangerFilter.DangerousIff | smart_terminal.py:95-102 | a command is flagged if and only if some window of it spells `rm -rf /`, letters in either case |
| DangerFilter.DangerousIgnoresCase | smart_terminal.py:99-100 | two commands equal up to letter case get the same verdict |
| DangerFilter.UpperCaseIsDangerous | smart_terminal.py:99-100 | `RM -RF /` is flagged |
| DangerFilter.SubdirectoryIsDangerous | smart_terminal.py:100 | `rm -rf /tmp` is flagged, since the test is a substring test |
| DangerFilter.ReorderedFlagsNotDangerous | smart_terminal.py:100 | `rm -fr /`, the same deletion with its flags reordered, is not flagged |
| PortNegotiator.MatchAt | smart_terminal.py:61-62 | the regular-expression engine's attempt of the mandatory part at one start index, with greedy `\s+`; no contract of its own: `MatchAtCorrect` specifies it |
| PortNegotiator.MatchAtCorrect | smart_terminal.py:61-62 | the scan at an index succeeds exactly when the mandatory part of the pattern matches there, and returns its end |
| PortNegotiator.MatchesUnique | smart_terminal.py:61 | a match starting at a given index has only one possible end, so greedy runs never need backtracking |
| PortNegotiator.PortGroup | smart_terminal.py:61-66 | the optional port group binds to whitespace followed by a maximal digit run, or it does not bind at all |
| PortNegotiator.PortGroupComplete | smart_terminal.py:61-66 | whenever the group can bind, the computed group is that binding |
| PortNegotiator.Search | smart_terminal.py:61-63 | `re.search` finds nothing exactly when the pattern matches nowhere; otherwise it finds the leftmost match and its port group |
| PortNegotiator.SearchFinds | smart_terminal.py:62-63 | the leftmost match is the one reported |
| PortNegotiator.AdjustPort | smart_terminal.py:50-93 | `maybe_adjust_port_in_command`, with the out-of-range port corrected; no contract of its own: the `Adjust*` lemmas below specify it, one per branch |
| PortNegotiator.AdjustPortAsWritten | smart_terminal.py:50-93 | `maybe_adjust_port_in_command` exactly as written: `None` stands for the uncaught `OverflowError` of the probe for a parsed port above 65535, and in every other case the result is `Some` of `AdjustPort`'s; no contract of its own: `AdjustOverlongPort`, `AdjustOutOfRangePort` and `LargePortEndsProgram` specify it |
| PortNegotiator.AdjustWithoutServer | smart_terminal.py:88-93 | a command without the server invocation is returned unchanged |
| PortNegotiator.AdjustFreeExplicitPort | smart_terminal.py:65-69 | an explicit port that is not in use leaves the command unchanged |
| PortNegotiator.AdjustBusyExplicitPort | smart_terminal.py:65-73 | with an explicit busy port that `int()` parses to at most 65535, only the leftmost occurrence of its digit text (at or before the port itself) becomes the free port's decimal text; all else is unchanged |
| PortNegotiator.AdjustOverlongPort | smart_terminal.py:66-77 | a port text of more than 4300 digits makes `int()` raise `ValueError`, which is caught; the command is returned unchanged |
| PortNegotiator.AdjustOutOfRangePort | smart_terminal.py:67-69 | a parsed port above 65535 leaves the command unchanged, where the source as written raises |
| PortNegotiator.LargePortEndsProgram | smart_terminal.py:69 | for `python -m http.server 70000`, the source as written raises from the port probe, and the corrected negotiation returns the command unchanged |
| PortNegotiator.AdjustFreeDefaultPort | smart_terminal.py:78-82 | no explicit port and 8000 not in use leaves the command unchanged |
| PortNegotiator.AdjustBusyDefaultPort | smart_terminal.py:78-86 | no explicit port and 8000 busy gives `command + " " + str(new_port)`, so the command is a strict prefix of the result |
| PortNegotiator.CollateralRewrite | smart_terminal.py:73 | in `echo 8080; python -m http.server 8080` with 8080 busy, the first `8080` is replaced and the server's own port is kept |
| PortNegotiator.Python3NotRecognised | smart_terminal.py:61-62 | `python3 -m http.server 8000` does not match and is never rewritten |
| Service.Falsy | smart_terminal.py:143-145 | `not llm_data` (also `not fix_data` at :184): no reply or an empty object; no contract of its own: `TurnAborted` specifies its use |
| Service.CommandOf | smart_terminal.py:154 | `cobj.get("command", "")` (also `fix_cmd_obj.get` at :194): a missing key reads as the empty command; no contract of its own: `AutoFix.MainLoopHandlesAll` states which texts are handled |
| Service.ExplanationOf | smart_terminal.py:147 | `llm_data.get("explanation", "")`: a missing key reads as empty; no contract of its own: used by `Service.Segment` |
| Service.CommandsOf | smart_terminal.py:148 | `llm_data.get("commands", [])` (also `fix_data.get` at :189): a missing key reads as no commands; no contract of its own: `AutoFix.TurnCompleted` and `AutoFix.FixLoopShape` state how the list is handled |
| Service.Render | smart_terminal.py:219 | the `{commands}` text of the history segment, a simplified `repr` of the list (see "## Left out"); no contract of its own: `Service.Segment` places it after `\nCommands: ` |
| Service.RunResult | smart_terminal.py:37-44 | a command that cannot be launched reports empty output, the error text and exit code 1; the result is success exactly when the process exited with 0 |
| Service.FixRequest | smart_terminal.py:179-182 | the fix request quotes the command after its fixed head and the stderr after the fixed middle |
| Service.Segment | smart_terminal.py:219 | each history segment starts with `\nUser: ` followed by the user's input |
| AutoFix.Attempt | smart_terminal.py:160-168 | one command adds one event of its phase about that command, and it runs exactly when it is not flagged |
| AutoFix.FixLoop | smart_terminal.py:193-216 | the fix-command loop; no contract of its own: `FixLoopShape` and `FixLoopFaithful` specify it |
| AutoFix.FixRound | smart_terminal.py:179-191 | the fix request, its fetch and the fix loop; no contract of its own: `FixRoundShape` specifies it |
| AutoFix.Step | smart_terminal.py:160-193 | one pass of the suggested-command loop; no contract of its own: `StepShape`, `StepCounts` and `StepFaithful` specify it |
| AutoFix.MainLoop | smart_terminal.py:153-216 | the suggested-command loop; no contract of its own: the `MainLoop*` lemmas specify it |
| AutoFix.IsExit | smart_terminal.py:137 | `user_input.lower() in ["exit", "quit"]`; no contract of its own: `TurnExit` specifies its use |
| AutoFix.ExitIff | smart_terminal.py:137 | the whole input, not stripped, ends the session exactly when it is four characters spelling `exit` or `quit` in either letter case |
| AutoFix.ExitExamples | smart_terminal.py:137 | `Quit` and `EXIT` end the session; `exit ` with a trailing blank does not |
| AutoFix.Turn | smart_terminal.py:136-219 | one pass of the main loop; no contract of its own: the `Turn*` lemmas specify it |
| AutoFix.Session | smart_terminal.py:135-139 | the main loop over the input lines; no contract of its own: the `Session*` lemmas specify it |
| AutoFix.FixLoopShape | smart_terminal.py:193-216 | fix commands are handled in order and never fetch; the loop stops right after the first failing fix and only then stops early |
| AutoFix.FixRoundShape | smart_terminal.py:179-193 | a fix round is one fetch with the fix request, sent with the turn's history, followed only by fix commands |
| AutoFix.StepShape | smart_terminal.py:160-193 | one pass of the loop body records the suggested command; exactly when that command failed, its fix fetch follows at once; after that come only fix commands |
| AutoFix.StepCounts | smart_terminal.py:160-186 | one pass of the loop body records its command once and fetches exactly when that command failed |
| AutoFix.MainLoopExtends | smart_terminal.py:153-216 | the suggested-command loop only appends to what happened before |
| AutoFix.MainLoopHandlesAll | smart_terminal.py:153-175 | every suggested command is handled exactly once and in order; a failure and its fix round do not end the turn |
| AutoFix.MainLoopFixFollowsFailure | smart_terminal.py:175-183 | right after each failing suggested command comes its fix fetch, quoting the port-adjusted command and its stderr |
| AutoFix.MainLoopFetchesPerFailure | smart_terminal.py:175-186 | the number of fetches equals the number of failing suggested commands |
| AutoFix.MainLoopAllSucceed | smart_terminal.py:153-175 | with nothing flagged and no command of the loop failing, each suggested command runs exactly once in list order with exit code 0, and nothing else happens: no fetch, no fix |
| AutoFix.AttemptFaithful | smart_terminal.py:160-168 | a skipped command was flagged; a command that ran was not flagged, ran in its port-adjusted form, and its result is the shell's |
| AutoFix.FixLoopFaithful | smart_terminal.py:199-206 | no flagged fix command runs, and each fix that runs is port-adjusted first |
| AutoFix.MainLoopFaithful | smart_terminal.py:153-206 | across the suggested commands and all fix rounds, no flagged command runs and every command that runs is port-adjusted |
| AutoFix.TurnExit | smart_terminal.py:137-139 | `exit` or `quit`, in any letter case, ends the session and changes nothing |
| AutoFix.TurnAborted | smart_terminal.py:142-145 | a missing or empty first reply makes one fetch, runs nothing and leaves the history unchanged |
| AutoFix.TurnCompleted | smart_terminal.py:142-219 | a turn with a reply appends exactly one segment after the old history, starts with its fetch and handles every suggested command in order |
| AutoFix.TurnFetches | smart_terminal.py:142-186 | a turn with a reply fetches once for the suggestions plus once per failing suggested command |
| AutoFix.TurnAllSucceed | smart_terminal.py:142-175 | with nothing flagged and no command of the turn failing, a turn is one fetch followed by one run of each suggested command, in order, each with exit code 0 |
| AutoFix.TurnFaithful | smart_terminal.py:135-219 | the policies hold for every event of a turn |
| AutoFix.SessionHistoryGrows | smart_terminal.py:219 | the history only grows: the old history is a prefix of the new one |
| AutoFix.SessionStopsAtExit | smart_terminal.py:135-139 | the session reads input up to and including the first `exit`/`quit`, or all of it |
| AutoFix.SessionFaithful | smart_terminal.py:135-219 | over a whole session, no flagged command runs and every command that runs is port-adjusted |
| Terminal.Terminal.constructor | smart_terminal.py:131 | a new terminal starts with an empty history and an empty trace |
| Terminal.Terminal.Fetch | smart_terminal.py:142 | a fetch sends the request with the current history and is recorded |
| Terminal.Terminal.Handle | smart_terminal.py:160-168 | the command is skipped when flagged; otherwise it is port-adjusted, run and recorded, exactly as `AutoFix.Attempt` says |
| Terminal.Terminal.RunFixes | smart_terminal.py:193-216 | the fix loop leaves the trace `AutoFix.FixLoop` describes and the history untouched; a flagged fix moves on because `Handle` reports it did not run (the `continue`), and the first failing fix returns early (the `break` at :216) |
| Terminal.Terminal.ProcessTurn | smart_terminal.py:136-219 | one pass of the main loop updates the trace and the history exactly as `AutoFix.Turn` says, and returns whether to stop |
| Terminal.Terminal.Run | smart_terminal.py:135-139 | the `while True` loop over the input lines ends as `AutoFix.Session` says |

## Left out

- All `print` output, and the welcome and goodbye messages: they change no state.
- `input()`: the lines are a sequence parameter. End of input ends the session, where the source would raise `EOFError`.
- The endpoint environment variable (smart_terminal.py:9), HTTP, the 30-second timeout and JSON decoding in `get_llm_suggestions`. The service is an oracle that returns no reply or a decoded object.
- Non-object JSON replies, and values of the wrong type under `explanation`, `commands` or `command`, are not modelled: every reply is an object of the expected shape.
- `subprocess.run` and the `strip()` of its output: the shell oracle returns the already-stripped output. Only the rule that a launch failure yields `("", message, 1)` is kept.
- Socket probing in `is_port_in_use` and `get_free_port`: both are oracles. Whether the new port can actually be bound is not modelled.
- PortNegotiator.AdjustPort: a port above 65535 is left unchanged. In the source the probe raises an `OverflowError` that nothing catches, so the program ends (see "## Findings"). `AdjustPortAsWritten` models that path, but the turn controller does not end the session on it.
- PortNegotiator.AdjustPort: the 4300-digit limit of `int()` is CPython's default, which the environment variable `PYTHONINTMAXSTRDIGITS` can change. An interpreter without the limit parses every digit run and probes its value. The model returns a command with more than 4300 port digits unchanged.
- Unicode behaviour of `\s`, `\d` and `str.lower()` is not modelled: all three are restricted to ASCII.
- Service.Render: a simplified rendering of the commands list in the history, not the exact Python `repr` (escaping of quotes and backslashes).
- local_model.py is not part of this model. It is a web endpoint that wraps a language-model library.

## Findings

| source | as written | input that shows it | evidently intended | confidence | as-written member | corrected member |
|---|---|---|---|---|---|---|
| smart_terminal.py:69 | `is_port_in_use(port)` is called with any parsed port. For a port above 65535, `bind` raises `OverflowError`. Neither `except socket.error` (:20) nor `except ValueError` (:75) catches it, so `main` ends. | `python -m http.server 70000` | a port that cannot be used is left alone, like one that cannot be parsed (:75-77); only `exit`/`quit` end the session | medium; not executed | PortNegotiator.LargePortEndsProgram | PortNegotiator.AdjustOutOfRangePort |
