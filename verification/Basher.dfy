/** The second version of the helper (`basher/basher.py`): the command is a
    string or a list, and further stages come as extra positional arguments.
    Nothing is split at `|` and nothing is refused for `>`. */
module Basher {
  import opened Wrappers
  import opened Events
  import PyText
  import Shlex
  import opened Pipeline
  import opened Monitor
  import opened Collector
  import opened Commands

  /** A sanitised stage and the warnings printed while sanitising it. */
  datatype Sanitized = Sanitized(argv: Argv, warnings: seq<Event>)

  /** `list(cmd)` of a string: one one-character string per character. */
  function Characters(s: string): (cs: Argv)
    ensures |cs| == |s|
    ensures forall i :: 0 <= i < |s| ==> cs[i] == [s[i]]
  {
    seq(|s|, i requires 0 <= i < |s| => [s[i]])
  }

  /** Concatenating the characters of `list(cmd)` gives the string back. */
  lemma {:induction false} CharactersConcat(s: string)
    ensures PyText.JoinWith(Characters(s), "") == s
    decreases |s|
  {
    if |s| >= 2 {
      var cs := Characters(s);
      assert cs[1..] == Characters(s[1..]);
      CharactersConcat(s[1..]);
      PyText.JoinCons(cs, "");
      assert [s[0]] + "" + s[1..] == s;
    } else if |s| == 1 {
      assert [s[0]] == s;
    }
  }

  /** `cmd_sanitizer`: any value that is neither `str` nor `list` is refused;
      a list comes back as an equal list; a string is tokenised, and if that
      fails a warning is printed and the string's characters are used
      instead. A string is never refused, whatever it contains. */
  function CmdSanitizer(cmd: CmdValue): (r: Result<Sanitized, SanitizeError>)
    ensures r.Err? <==> cmd.OtherValue?
    ensures r.Err? ==> r.error == InvalidType
    ensures cmd.Items? ==> r == Ok(Sanitized(cmd.items, []))
    ensures cmd.Text? && Shlex.Tokenize(cmd.s).Ok? ==> r == Ok(Sanitized(Shlex.Tokenize(cmd.s).value, []))
    ensures cmd.Text? && Shlex.Tokenize(cmd.s).Err? ==>
      && r.Ok?
      && r.value.warnings == [SplitWarning(cmd.s)]
      && PyText.JoinWith(r.value.argv, "") == cmd.s
      && forall i :: 0 <= i < |r.value.argv| ==> |r.value.argv[i]| == 1
  {
    match cmd
    case OtherValue => Err(InvalidType)
    case Items(items) => Ok(Sanitized(items, []))
    case Text(s) =>
      match Shlex.Tokenize(s)
      case Ok(tokens) => Ok(Sanitized(tokens, []))
      case Err(_) =>
        CharactersConcat(s);
        Ok(Sanitized(Characters(s), [SplitWarning(s)]))
  }

  /** `pipes_sanitizer`: every extra positional argument sanitised in order;
      the first one of an unsupported type raises. */
  function PipesSanitizer(pipes: seq<CmdValue>): (r: Result<seq<Sanitized>, SanitizeError>)
    ensures r.Ok? <==> forall i :: 0 <= i < |pipes| ==> !pipes[i].OtherValue?
    ensures r.Err? ==> r.error == InvalidType
    ensures r.Ok? ==> |r.value| == |pipes|
    ensures r.Ok? ==> forall i :: 0 <= i < |pipes| ==> CmdSanitizer(pipes[i]) == Ok(r.value[i])
    decreases |pipes|
  {
    if pipes == [] then Ok([])
    else
      var first :- CmdSanitizer(pipes[0]);
      var rest :- PipesSanitizer(pipes[1..]);
      assert forall i :: 1 <= i < |pipes| ==> pipes[i] == pipes[1..][i - 1];
      Ok([first] + rest)
  }

  /** The stages of sanitised pipes. */
  function Argvs(ps: seq<Sanitized>): (stages: seq<Argv>)
    ensures |stages| == |ps|
    ensures forall i :: 0 <= i < |ps| ==> stages[i] == ps[i].argv
  {
    if ps == [] then [] else [ps[0].argv] + Argvs(ps[1..])
  }

  /** The warnings of sanitised pipes, in order. */
  function Warnings(ps: seq<Sanitized>): seq<Event> {
    if ps == [] then [] else ps[0].warnings + Warnings(ps[1..])
  }

  /** `print(self.stdout)` if it is non-empty and `self.stderr` is empty or
      `None`, otherwise `print(self.stderr)`, which prints `None` for `None`. */
  function DebugBodyText(stdout: Option<string>, stderr: Option<string>): (body: string)
    ensures Truthy(stdout) && !Truthy(stderr) ==> body == stdout.value
    ensures !(Truthy(stdout) && !Truthy(stderr)) && stderr.Some? ==> body == stderr.value
    ensures stderr.None? && !Truthy(stdout) ==> body == "None"
  {
    if Truthy(stdout) && !Truthy(stderr) then stdout.value
    else if stderr.None? then "None"
    else stderr.value
  }

  /** The message the spinner shows: only outside debug mode and only when a
      message is set. */
  function SpinnerMessage(cfg: Config): (m: Option<string>)
    ensures m.Some? <==> !cfg.debug && cfg.message.Some?
    ensures m.Some? ==> m == cfg.message
  {
    if cfg.debug then None else cfg.message
  }

  /** The two lines of the debug report: the command line, then one body. */
  function DebugLines(text: string, f: Finished): (lines: seq<Event>)
    ensures |lines| == 2 && NoSpinFrames(lines)
    ensures f.stderr == None ==>
      lines == [CommandLine(text), DebugBody(if Truthy(f.stdout) then f.stdout.value else "None")]
  {
    [CommandLine(text), DebugBody(DebugBodyText(f.stdout, f.stderr))]
  }

  /** What happens once the processes are started. When waiting: the
      spinner (outside debug mode, when a message is set), the status line
      (when a message is set), then in debug mode the command line and one
      output body. Without waiting nothing is printed. */
  function Settle(handle: Proc, text: string, cfg: Config, world: World, decode: Bytes -> string): (s: Waited)
    requires handle.stderr == MergedIntoStdout
    ensures !cfg.wait ==> s == Waited([], None)
    ensures cfg.wait ==> (s.finished.Some? <==> RunningPolls(world.polls) < |world.polls|)
    ensures s.finished.Some? ==>
      && cfg.wait
      && s.finished.value.returnCode == world.polls[RunningPolls(world.polls)].code
      && (s.finished.value.returnBool <==> s.finished.value.returnCode == 0)
      && s.finished.value.stderr == None
      && s.finished.value.stdout == TextOf(Some(world.out), decode)
    ensures cfg.wait ==>
      s.events == WaitFor(world.polls, SpinnerMessage(cfg)).frames + StatusLine(cfg.message, s.finished)
        + (if s.finished.Some? && cfg.debug then DebugLines(text, s.finished.value) else [])
    ensures cfg.wait && cfg.debug ==> NoSpinFrames(s.events)
    ensures cfg.wait ==>
      var frames := WaitFor(world.polls, SpinnerMessage(cfg)).frames;
      && |frames| <= |s.events|
      && s.events[..|frames|] == frames
      && (s.finished.None? ==> s.events == frames)
    ensures s.finished.Some? && cfg.debug ==>
      var f := s.finished.value;
      |s.events| >= 2 &&
      s.events[|s.events| - 2..] ==
        [CommandLine(text), DebugBody(if Truthy(f.stdout) then f.stdout.value else "None")]
  {
    if cfg.wait then
      var w := AwaitResult(handle, cfg.message, SpinnerMessage(cfg), world, decode);
      var report := if w.finished.Some? && cfg.debug then DebugLines(text, w.finished.value) else [];
      var frames := WaitFor(world.polls, SpinnerMessage(cfg)).frames;
      var status := StatusLine(cfg.message, w.finished);
      AppendPrefix(frames, status + report);
      AppendSuffix(frames + status, report);
      AppendNoSpinFrames(status, report);
      AppendAssoc(frames, status, report);
      assert cfg.debug ==> frames + (status + report) == status + report;
      Waited(frames + (status + report), w.finished)
    else
      Waited([], None)
  }

  /** The run once the command and the pipes are sanitised: the processes are
      started as a pipeline of the command and the pipes, in order, and the
      last one is kept. The warnings of sanitising come first in the trace.
      The debug report renders the command as `CmdToStr` does: later stages
      are joined with plain spaces, unquoted. */
  function Launch(c: Sanitized, ps: seq<Sanitized>, cfg: Config, world: World, decode: Bytes -> string): (run: Run)
    ensures WiredAsPipeline(cfg, [c.argv] + Argvs(ps), run.spawned)
    ensures run.handle == Terminal(run.spawned)
    ensures run.handle.argv == if ps == [] then c.argv else ps[|ps| - 1].argv
    ensures run.pid == world.pid
    ensures run.warnings == c.warnings + Warnings(ps)
    ensures run.settled == Settle(run.handle, CmdToStr(c.argv, Argvs(ps)), cfg, world, decode)
  {
    var pipes := Argvs(ps);
    var spawned := Spawn(cfg, c.argv, pipes);
    TerminalStage(cfg, c.argv, pipes);
    var handle := Terminal(spawned);
    var s := Settle(handle, CmdToStr(c.argv, pipes), cfg, world, decode);
    Run(spawned, handle, world.pid, c.warnings + Warnings(ps), s)
  }

  /** `Basher(cmd, *pipes, cwd=..., msg=..., debug=..., shell=..., quiet=...,
      wait=...)`: the command, then the pipes, are sanitised before any
      process is started. */
  function Invoke(cmd: CmdValue, pipes: seq<CmdValue>, cfg: Config, world: World, decode: Bytes -> string): (r: Result<Run, SanitizeError>)
    ensures r.Err? <==> CmdSanitizer(cmd).Err? || PipesSanitizer(pipes).Err?
    ensures r.Err? ==> r.error == InvalidType
    ensures r.Ok? ==>
      r.value == Launch(CmdSanitizer(cmd).value, PipesSanitizer(pipes).value, cfg, world, decode)
  {
    var c :- CmdSanitizer(cmd);
    var ps :- PipesSanitizer(pipes);
    Ok(Launch(c, ps, cfg, world, decode))
  }

  /** Strings passed as the extra positional arguments. */
  function TextValues(pipes: seq<string>): (vs: seq<CmdValue>)
    ensures |vs| == |pipes|
    ensures forall i :: 0 <= i < |pipes| ==> vs[i] == Text(pipes[i])
  {
    if pipes == [] then [] else [Text(pipes[0])] + TextValues(pipes[1..])
  }

  /** With text pipes that all tokenise, the further stages are exactly the
      pipes in order, each tokenised on its own: this version neither splits
      at `|` nor refuses `>`, and `Launch` chains these stages after the
      command. */
  lemma StagesFromArguments(pipes: seq<string>)
    requires forall i :: 0 <= i < |pipes| ==> Shlex.Tokenize(pipes[i]).Ok?
    ensures PipesSanitizer(TextValues(pipes)).Ok?
    ensures var stages := Argvs(PipesSanitizer(TextValues(pipes)).value);
      && |stages| == |pipes|
      && forall i :: 0 <= i < |pipes| ==> stages[i] == Shlex.Tokenize(pipes[i]).value
    ensures Warnings(PipesSanitizer(TextValues(pipes)).value) == []
  {
    var values := TextValues(pipes);
    assert forall i :: 0 <= i < |values| ==> !values[i].OtherValue?;
    var ps := PipesSanitizer(values).value;
    forall i | 0 <= i < |pipes| ensures ps[i] == Sanitized(Shlex.Tokenize(pipes[i]).value, []) {
      assert CmdSanitizer(values[i]) == Ok(ps[i]);
    }
    NoWarnings(ps);
  }

  lemma {:induction false} NoWarnings(ps: seq<Sanitized>)
    requires forall i :: 0 <= i < |ps| ==> ps[i].warnings == []
    ensures Warnings(ps) == []
    decreases |ps|
  {
    if ps != [] {
      NoWarnings(ps[1..]);
    }
  }
}
