# easybash / basher — a Dafny model of the pipeline helper

`Basher` is a thin wrapper around `subprocess.Popen`. It comes in two near-identical
versions: `easybash/basher.py` and `basher/basher.py`. It takes a shell-like command,
starts one process per pipeline stage, and chains each stage's output into the next
stage's input. It can then wait for the last stage, showing a two-frame spinner while
it waits. Afterwards it prints an `OK`/`--` status line and fills in `return_code`,
`return_bool`, `stdout` and `stderr`.

This project models that core as pure functions over immutable data:

- **Command normalisation.** `EasyBasher.CmdSanitizer` covers the first version. It
  refuses `>`, splits at `|` and tokenises each piece. `Basher.CmdSanitizer` and
  `Basher.PipesSanitizer` cover the second version. They accept `str` or a list of strings and
  fall back to the string's characters when tokenising fails. Tokenising is
  POSIX-mode `shlex.split` (`Shlex.Tokenize`), written as a state machine. It handles
  quotes, backslash escapes and the two errors `shlex.split` raises. `shlex.quote` and
  `shlex.join` are modelled as `Shlex.Quote` and `Shlex.JoinArgs`.
- **Pipeline wiring.** `Pipeline.Proc` records one `Popen` call: argv, working
  directory, stdin source, output pipe, stderr target and shell flag. No process is
  created. `Pipeline.ExecuteCommand` is the loop of `execute_command`, dead branch
  included. `Pipeline.Spawn`/`Pipeline.Chain` are the same loop written as a fold.
  Both are proved to produce the wiring `Pipeline.WiredAsPipeline` describes.
- **Waiting and results.** `Monitor.WaitFor` turns a sequence of abstract `poll()`
  answers into spinner frames and an exit code. `Collector.Descriptor` maps the exit
  code and the captured bytes to the result fields and the status line. Printing is an
  abstract trace of `Events.Event` values.
- **Whole constructions.** `EasyBasher.Invoke` and `Basher.Invoke` chain these steps in
  the order `__init__` runs them.
- **Command text.** `Commands.CmdToStr` rebuilds the command line that the debug report
  prints.

The environment is a parameter. `Collector.World` holds the terminal stage's PID, its
poll answers, and the bytes it would deliver. Decoding is a function argument
`decode: Bytes -> string`.

Behaviour of the code worth noting, which the model keeps:

- Output that is only whitespace gives `stdout == ""`, not `None`. The emptiness test
  looks at the bytes before stripping (`Collector.TextOf`).
- An empty command is not refused by sanitising. The `Popen([])` call that follows
  fails; see "## Left out".
- The failure line prints `--`, not `FAILED`.
- In the second version, a tokenisation failure does not raise. It prints a warning and
  uses `list(cmd)`.
- Later stages get no `cwd=`, so they run in the caller's directory (`Pipeline.PipeCommand`).
- The `stderr` field is always `None`, because the terminal stage's error stream is
  merged into its output.
- In the second version's debug report, a command without output prints the text
  `None`.

## Model

| member | source | states |
|---|---|---|
| PyText.Split | easybash/basher.py:86-87 | `cmd.split('\|')` yields at least one piece, and no piece contains `\|` |
| PyText.SplitCount | easybash/basher.py:86-87 | `cmd.split('\|')` yields one more piece than there are `\|` characters |
| PyText.JoinSplit | easybash/basher.py:87 | joining the pieces of a split with the separator gives the text back |
| PyText.SplitJoin | easybash/basher.py:87 | splitting the join of separator-free pieces gives the pieces back |
| PyText.Strip | easybash/basher.py:179 | `.strip()` returns a middle slice of the text with only whitespace removed on either side, and the slice neither starts nor ends with whitespace |
| PyText.StripIdempotent | easybash/basher.py:179 | stripping twice is stripping once |
| PyText.StripEmptyIffAllSpace | easybash/basher.py:178-179 | the stripped text is empty exactly when the decoded output is all whitespace |
| Shlex.Tokenize | easybash/basher.py:88-90 | text without quotes or backslashes always tokenises, into non-empty words free of whitespace |
| Shlex.LexPlain | easybash/basher.py:90 | the word-splitting invariant behind `Shlex.Tokenize`: reading plain text never fails and keeps every collected word non-empty and free of whitespace |
| Shlex.Quote | easybash/basher.py:69 | `shlex.quote` adds only quote characters to an argument and never yields empty text |
| Shlex.TokenizeJoinArgs | easybash/basher.py:69 | `shlex.split(shlex.join(args)) == args` for every argument list, also with surrounding whitespace |
| Shlex.JoinArgsChars | easybash/basher.py:69 | `shlex.join` introduces no character other than spaces and quotes |
| Pipeline.Chain | easybash/basher.py:152-157 | the loop over the pipes builds one stage per pipe, in order. Each stage reads the previous stage's output pipe, has its own output pipe with stderr merged into it, and gets no `cwd` |
| Pipeline.Spawn | easybash/basher.py:101-124 | the processes started form a pipeline. Stage 0 reads a fresh stdin pipe in the configured directory; stage i reads stage i-1's output; every stage merges stderr into its stdout |
| Pipeline.WiringIsUnique | easybash/basher.py:101-124 | the wiring fixes every process record, so any two correctly wired pipelines of the same stages are equal |
| Pipeline.ExecuteCommand | easybash/basher.py:142-159 | the imperative loop, with its never-taken `index == len(self.pipes)` arm, starts exactly the pipeline `Spawn` describes. It returns the last stage started, which is the main command when there are no pipes |
| Pipeline.TerminalStage | basher/basher.py:129-146 | the handle is the last piped stage (or the main command without pipes), runs the last argument vector, and merges its stderr into its stdout |
| Monitor.RunningPolls | easybash/basher.py:133 | counts the polls before the first one that reports an exit; all of them report "still running" |
| Monitor.WaitFor | basher/basher.py:119-127 | the wait loop emits two alternating frames per "still running" poll when a spinner message is given, none otherwise. It stops with the exit code of the first poll that reports one |
| Collector.TextOf | easybash/basher.py:176-182 | a captured stream becomes `None` exactly when nothing or no byte was captured. Otherwise it becomes the decoded text with surrounding whitespace stripped: it neither starts nor ends with whitespace, and it is empty exactly when the decoded bytes are all whitespace |
| Collector.Descriptor | easybash/basher.py:161-182 | success iff the exit code is 0. A status line only when a message is set: `OK` for exit code 0, `--` otherwise. Each output field is `None` iff its captured bytes are absent or empty, and otherwise the stripped decoded text |
| Collector.ReturnBoolOverwritten | easybash/basher.py:43-45 | the inverted `bool(return_code)` assigned first is always replaced by its negation |
| Collector.AwaitResult | basher/basher.py:42-46 | after waiting, the result exists iff some observed poll reported an exit. Its exit code is that poll's. `return_bool` holds iff the code is 0. `stdout` is the terminal stage's captured output as `TextOf` turns it into a field. `stderr` is `None` when the terminal stage merges stderr, and its captured error stream as a field otherwise. The trace is the spinner frames, then the status line |
| Commands.CmdToStr | easybash/basher.py:65-71 | `cmd_to_str` as written: the `" \| "`-join of the first stage rendered with `shlex.join` followed by every later stage joined with plain spaces |
| Commands.CmdToStrAgreesWhenPlain | easybash/basher.py:69-70 | the printed command line equals the corrected one whenever every argument of a later stage is non-empty and made only of characters `shlex.quote` leaves alone |
| Commands.CmdToStrQuoted | easybash/basher.py:65-71 | the corrected command line is the `" \| "`-join of every stage rendered with `shlex.join` |
| Commands.CmdToStrConflates | easybash/basher.py:69-71 | as written, `echo \| grep 'a b'` and `echo \| grep a b` print as the same command line |
| EasyBasher.TokenizeEach | easybash/basher.py:88 | every piece is tokenised in order; on failure, the error is that of the first piece that fails |
| EasyBasher.CmdSanitizer | easybash/basher.py:73-90 | text with `>` is refused. Without `\|` it is one stage and `pipes` is `None`. With k `\|` characters it is a first stage plus exactly k further stages, each the tokenisation of its piece, in order. Text without `>` is refused exactly when one of its pieces fails `shlex.split`, with that piece's error (the first failing piece's). Plain text without `>` is always accepted. Lists and other values are refused |
| EasyBasher.TokenizeJoinedStages | easybash/basher.py:86-89 | stages joined with `" \| "` and then split at `\|` and tokenised give back the stages |
| EasyBasher.CmdToStrQuotedRoundTrip | easybash/basher.py:65-90 | re-reading the corrected command line with `cmd_sanitizer` gives back exactly the first stage and the pipes, when no argument contains `\|` or `>` |
| EasyBasher.CmdToStrQuotedInjective | easybash/basher.py:65-71 | the corrected rendering never prints two different such pipelines alike |
| EasyBasher.DebugReport | easybash/basher.py:47-59 | the report after waiting: command line, return code and elapsed time, then an output block iff `stdout` is non-empty and an error block last iff `stderr` is non-empty; it holds no spinner frame |
| EasyBasher.Settle | easybash/basher.py:41-63 | without waiting: no result, and in debug mode the command line and the PID. With waiting: the trace is the spinner frames (whenever a message is set), the status line, then in debug mode the report; the result's `return_bool` is `return_code == 0`, `stdout` is the captured output stripped, and `stderr` is `None` |
| EasyBasher.Launch | easybash/basher.py:39-71 | the processes started are the sanitised stages wired as a pipeline, the handle kept is the last of them, and the debug output names the command as `cmd_to_str` renders it |
| EasyBasher.Invoke | easybash/basher.py:28-39 | sanitising comes first: text containing `>` yields the refusal and starts no process, and any sanitising error is the construction's error |
| Basher.Characters | basher/basher.py:69 | `list(cmd)` of a string is one one-character string per character |
| Basher.CharactersConcat | basher/basher.py:64-69 | the fallback argument list concatenates back to the original string |
| Basher.CmdSanitizer | basher/basher.py:55-69 | only values that are neither `str` nor a list of strings are refused. A list comes back equal and is not re-tokenised. Text that tokenises gives its tokens; text that does not gives a warning and one-character arguments that concatenate back to it |
| Basher.PipesSanitizer | basher/basher.py:71-77 | every extra argument is sanitised in order, one stage each. It is refused iff one of them is neither `str` nor a list of strings |
| Basher.StagesFromArguments | basher/basher.py:19-28 | string pipes that all tokenise are accepted without warning, and the further stages are exactly their tokenisations, in order, with no `\|` splitting or `>` refusal |
| Basher.DebugBodyText | basher/basher.py:50-53 | the debug body is `stdout` when it is non-empty and `stderr` is empty or `None`; otherwise it is `stderr`, printed as `None` when absent |
| Basher.SpinnerMessage | basher/basher.py:120-121 | the spinner shows iff not in debug mode and a message is set |
| Basher.Settle | basher/basher.py:42-53 | with waiting, the trace is the spinner frames (outside debug mode, when a message is set), the status line (when a message is set), then in debug mode the command line and one body; in debug mode no spinner frame is printed. After waiting, `return_bool` is `return_code == 0`, `stdout` is the captured output stripped, and `stderr` is `None`. The body is the output, or `None` when there is none. Without waiting nothing is printed |
| Basher.Launch | basher/basher.py:40-49 | the processes started are the command followed by the pipes, wired as a pipeline; the handle is the last piped stage; the warnings of sanitising are printed ahead of everything that follows the start; the debug command line leaves later stages unquoted, as line 49 renders them |
| Basher.Invoke | basher/basher.py:27-28 | a construction is refused iff the command or one of the pipes is neither `str` nor a list of strings, with `InvalidType` |

## Findings

| source | as written | input that shows it | evidently intended | confidence | as-written member | corrected member |
|---|---|---|---|---|---|---|
| easybash/basher.py:70 (and basher/basher.py:49) | the first stage is rendered with `shlex.join`, every later stage with a plain `" ".join`, so arguments of later stages lose their quoting | stages `["echo"]`, `["grep", "a b"]` render as `echo \| grep a b`, which is also the rendering of `["echo"]`, `["grep", "a", "b"]` | every stage rendered with `shlex.join`, so that the printed command is the command that ran | medium, not executed | Commands.CmdToStrConflates | EasyBasher.CmdToStrQuotedRoundTrip |

The debug output of `EasyBasher.Launch` and `Basher.Launch` prints the command as
written, through `Commands.CmdToStr`. The corrected rendering is
`Commands.CmdToStrQuoted`, and `Commands.CmdToStrAgreesWhenPlain` shows that the two
differ only when an argument of a later stage needs quoting.

## Left out

- Process creation, OS pipes and file descriptors, `poll()` and `communicate()` are not
  modelled. Each `Popen` call is a `Pipeline.Proc` record. The environment's answers are
  the `Collector.World` parameter.
- `Popen` failures (missing executable, permissions) are not modelled. That
  exception comes from the operating system, not from the helper.
- A stage that tokenises to no words (`Basher("")`, or `"echo |"` in the first
  version) reaches `Popen([])`, which raises inside `subprocess` when it reads
  `args[0]` (with `shell=False`). The model starts such a stage like any other,
  because exceptions raised by `Popen` are outside the model.
- The semantics of `shell=True` are not modelled. The flag is only recorded on every
  stage.
- UTF-8 decoding is a function parameter `decode`. The codec is not verified. The
  source decodes strictly, so bytes that are not valid UTF-8 raise
  `UnicodeDecodeError` (easybash/basher.py:179,181; basher/basher.py:166,168). The
  total `decode` cannot fail, so that error path is not modelled.
- `time()`, `sleep()` and the elapsed-time value are wall-clock floats and are not
  modelled. `Events.ExecutionTime` carries no value, and the 0.2 s delay does not
  appear.
- ANSI colours, `\r` overwriting and the exact print layout are not modelled. Printing
  is an abstract `Events.Event` trace.
- `quiet` is stored but never read by either version. `Pipeline.Config` keeps it
  without effect.
- The poll sequence is finite. If every observed poll still reports running, the run
  has no result (`finished == None`). The source would keep polling.
- Warnings printed before a later sanitising error are not kept: an `Err` carries no
  trace.
- Python values other than `str` and lists of strings are the single constructor
  `Commands.OtherValue`.
- Basher.CmdSanitizer: a list whose items are not all strings (bytes, a
  `pathlib.Path`) is `Commands.OtherValue` and is refused with `InvalidType`. The
  source accepts every `list` (basher/basher.py:60, 69) and leaves such items to
  `Popen`. The annotation `Union[str, list[str]]` excludes these lists. Argument
  vectors are strings in this model. `Basher.PipesSanitizer` and `Basher.Invoke`
  inherit the difference.
- EasyBasher.CmdSanitizer: a value of another type is refused with `InvalidType`. For a
  non-iterable value, the source's `'>' in cmd` test raises `TypeError` before the type
  check. Both are exceptions raised before any process starts.
- `setup.py` is packaging metadata and is not modelled.
