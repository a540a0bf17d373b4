/** `descriptor` and the waiting part of `__init__`: turning the terminal
    stage's exit code and captured output into the result fields and the
    status line. */
module Collector {
  import opened Wrappers
  import opened Events
  import PyText
  import opened Pipeline
  import opened Monitor

  type Bytes = seq<bv8>

  /** What `communicate()` returns: `None` for a stream that was not piped. */
  datatype Communicated = Communicated(out: Option<Bytes>, err: Option<Bytes>)

  /** `communicate()` on the terminal stage, given what the operating system
      would deliver on its output pipe and, were it piped separately, on its
      error stream. The output is always piped (`stdout=PIPE`). */
  function Communicate(handle: Proc, out: Bytes, err: Bytes): Communicated {
    Communicated(Some(out), if handle.stderr == OwnPipe then Some(err) else None)
  }

  /** The fields `descriptor` fills in, and the status line it prints. */
  datatype Described = Described(
    returnBool: bool,
    status: Option<Event>,
    stdout: Option<string>,
    stderr: Option<string>)

  /** A captured stream as a result field: `None` when nothing or no byte was
      captured (`if descriptor[0]:` tests the bytes), otherwise the decoded
      text with surrounding whitespace stripped. */
  function TextOf(b: Option<Bytes>, decode: Bytes -> string): (t: Option<string>)
    ensures t.None? <==> b.None? || b.value == []
    ensures t.Some? ==> t.value == PyText.Strip(decode(b.value))
    ensures t.Some? ==> t.value == [] || (!PyText.IsSpace(t.value[0]) && !PyText.IsSpace(t.value[|t.value| - 1]))
    ensures t.Some? ==> (t.value == [] <==> PyText.AllSpace(decode(b.value)))
  {
    if b.Some? && b.value != [] then
      var text := PyText.Strip(decode(b.value));
      PyText.StripEmptyIffAllSpace(decode(b.value));
      Some(text)
    else None
  }

  /** Python truthiness of an optional text: present and non-empty. */
  predicate Truthy(t: Option<string>) {
    t.Some? && t.value != []
  }

  /** `bool(self.return_code)`, the value `__init__` assigns first. */
  function InitialReturnBool(returnCode: int): bool {
    returnCode != 0
  }

  /** `descriptor()`: the success flag, the status line gated on a message
      being set, and the two output fields. */
  function Descriptor(returnCode: int, message: Option<string>, c: Communicated, decode: Bytes -> string): (d: Described)
    ensures d.returnBool <==> returnCode == 0
    ensures d.status.None? <==> message.None?
    ensures d.status.Some? ==>
      d.status.value == if returnCode == 0 then StatusOk(message.value) else StatusFailed(message.value)
    ensures d.stdout.None? <==> c.out.None? || c.out.value == []
    ensures d.stdout.Some? ==> d.stdout.value == PyText.Strip(decode(c.out.value))
    ensures d.stderr.None? <==> c.err.None? || c.err.value == []
    ensures d.stderr.Some? ==> d.stderr.value == PyText.Strip(decode(c.err.value))
  {
    var ok := returnCode == 0;
    var status :=
      if message.None? then None
      else if ok then Some(StatusOk(message.value))
      else Some(StatusFailed(message.value));
    Described(ok, status, TextOf(c.out, decode), TextOf(c.err, decode))
  }

  /** The inverted flag `__init__` assigns first never survives: `descriptor`
      always replaces it with its negation. */
  lemma ReturnBoolOverwritten(returnCode: int, message: Option<string>, c: Communicated, decode: Bytes -> string)
    ensures Descriptor(returnCode, message, c, decode).returnBool == !InitialReturnBool(returnCode)
  {
  }

  /** Everything the environment decides for one run: the PID of the terminal
      stage, the answers of its `poll()` calls, and the bytes of its output
      pipe and of its error stream. */
  datatype World = World(pid: int, polls: seq<PollResult>, out: Bytes, err: Bytes)

  /** The result attributes set after waiting. */
  datatype Finished = Finished(
    returnCode: int,
    returnBool: bool,
    stdout: Option<string>,
    stderr: Option<string>)

  /** The part of a run after the processes are started, when waiting: the
      printed events so far and the result, or `None` when the observed polls
      end while the terminal stage still runs. */
  datatype Waited = Waited(events: seq<Event>, finished: Option<Finished>)

  /** The status line `__init__` prints after waiting: only once the run has
      finished, and only when a message is set; `OK` for exit code 0. */
  function StatusLine(message: Option<string>, finished: Option<Finished>): (line: seq<Event>)
    ensures |line| == if finished.Some? && message.Some? then 1 else 0
    ensures NoSpinFrames(line)
  {
    if finished.Some? && message.Some? then
      [if finished.value.returnCode == 0 then StatusOk(message.value) else StatusFailed(message.value)]
    else []
  }

  /** Waiting for the terminal stage (`execution_stdout`), then `descriptor`.
      `spinner` is the message the spinner shows, if the version's gate lets
      it show one. */
  function AwaitResult(handle: Proc, message: Option<string>, spinner: Option<string>,
                       world: World, decode: Bytes -> string): (w: Waited)
    ensures w.finished.Some? <==> RunningPolls(world.polls) < |world.polls|
    ensures w.finished.Some? ==>
      && w.finished.value.returnCode == world.polls[RunningPolls(world.polls)].code
      && (w.finished.value.returnBool <==> w.finished.value.returnCode == 0)
    ensures w.finished.Some? ==> w.finished.value.stdout == TextOf(Some(world.out), decode)
    ensures w.finished.Some? && handle.stderr == MergedIntoStdout ==> w.finished.value.stderr == None
    ensures w.finished.Some? && handle.stderr == OwnPipe ==>
      w.finished.value.stderr == TextOf(Some(world.err), decode)
    ensures w.events == WaitFor(world.polls, spinner).frames + StatusLine(message, w.finished)
  {
    var watch := WaitFor(world.polls, spinner);
    match watch.exit
    case None => Waited(watch.frames, None)
    case Some(code) =>
      var d := Descriptor(code, message, Communicate(handle, world.out, world.err), decode);
      var status := if d.status.Some? then [d.status.value] else [];
      Waited(watch.frames + status, Some(Finished(code, d.returnBool, d.stdout, d.stderr)))
  }

  /** What one construction of `Basher` leaves behind: the processes started,
      the handle kept as `self.result`, its PID, the warnings printed while
      sanitising, and what happened after the start. The printed trace is the
      warnings followed by `settled.events`. */
  datatype Run = Run(
    spawned: seq<Proc>,
    handle: Proc,
    pid: int,
    warnings: seq<Event>,
    settled: Waited)
}
