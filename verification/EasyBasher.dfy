/** The first version of the helper (`easybash/basher.py`): the command is one
    string; `|` inside it separates the stages and `>` is refused. */
module EasyBasher {
  import opened Wrappers
  import opened Events
  import PyText
  import Shlex
  import opened Pipeline
  import opened Monitor
  import opened Collector
  import opened Commands

  /** The result of `cmd_sanitizer`: the first stage, and `None` or the list
      of further stages. */
  datatype Parsed = Parsed(cmd: Argv, pipes: Option<seq<Argv>>)

  /** `[shsplit(cmd) for cmd in cmd_split]`: every piece tokenised in order;
      the first piece that fails to tokenise raises. */
  function TokenizeEach(pieces: seq<string>): (r: Result<seq<Argv>, SanitizeError>)
    ensures r.Ok? ==> |r.value| == |pieces|
    ensures r.Ok? ==> forall i :: 0 <= i < |pieces| ==> Shlex.Tokenize(pieces[i]) == Ok(r.value[i])
    ensures r.Err? ==> exists i :: (
      && 0 <= i < |pieces|
      && Shlex.Tokenize(pieces[i]).Err?
      && r.error == SplitFailed(Shlex.Tokenize(pieces[i]).error)
      && forall j :: 0 <= j < i ==> Shlex.Tokenize(pieces[j]).Ok?)
    decreases |pieces|
  {
    if pieces == [] then Ok([])
    else
      match Shlex.Tokenize(pieces[0])
      case Err(e) => Err(SplitFailed(e))
      case Ok(first) =>
        match TokenizeEach(pieces[1..])
        case Err(e) =>
          assert forall i :: 0 <= i < |pieces| - 1 ==> pieces[1..][i] == pieces[i + 1];
          Err(e)
        case Ok(rest) => Ok([first] + rest)
  }

  /** `cmd_sanitizer`. Text holding `>` is refused before anything else; text
      without `|` is one stage and `pipes` is `None`; text with `|` is split
      at every `|` and each piece tokenised, the first piece giving the first
      stage and the others, in order, the further stages. A list holding the
      item `">"` is refused as a redirection too, any other non-`str` value as
      the wrong type. */
  function CmdSanitizer(cmd: CmdValue): (r: Result<Parsed, SanitizeError>)
    ensures cmd.Text? && '>' in cmd.s ==> r == Err(RedirectionUnsupported)
    ensures cmd.Items? ==> r == Err(if ">" in cmd.items then RedirectionUnsupported else InvalidType)
    ensures cmd.OtherValue? ==> r == Err(InvalidType)
    ensures r.Ok? ==> cmd.Text? && '>' !in cmd.s
    ensures r.Ok? ==> (r.value.pipes.None? <==> '|' !in cmd.s)
    ensures r.Ok? && r.value.pipes.Some? ==> |r.value.pipes.value| == PyText.Count(cmd.s, '|') >= 1
    ensures r.Ok? ==> |PyText.Split(cmd.s, '|')| == 1 + if r.value.pipes.Some? then |r.value.pipes.value| else 0
    ensures r.Ok? ==>
      var pieces := PyText.Split(cmd.s, '|');
      && Shlex.Tokenize(pieces[0]) == Ok(r.value.cmd)
      && (r.value.pipes.Some? ==> forall i :: 0 <= i < |r.value.pipes.value| ==>
            Shlex.Tokenize(pieces[i + 1]) == Ok(r.value.pipes.value[i]))
    ensures cmd.Text? && '>' !in cmd.s ==> (r.Ok? <==> TokenizeEach(PyText.Split(cmd.s, '|')).Ok?)
    ensures cmd.Text? && '>' !in cmd.s && r.Err? ==> r.error == TokenizeEach(PyText.Split(cmd.s, '|')).error
    ensures cmd.Text? && '>' !in cmd.s && Shlex.IsPlainText(cmd.s) ==> r.Ok?
  {
    match cmd
    case Items(items) => if ">" in items then Err(RedirectionUnsupported) else Err(InvalidType)
    case OtherValue => Err(InvalidType)
    case Text(s) =>
      if '>' in s then Err(RedirectionUnsupported)
      else if '|' in s then
        var pieces := PyText.Split(s, '|');
        PyText.SplitCount(s, '|');
        PlainPieces(s);
        match TokenizeEach(pieces)
        case Err(e) => Err(e)
        case Ok(stages) => Ok(Parsed(stages[0], Some(stages[1..])))
      else
        SplitWithoutSeparator(s);
        match Shlex.Tokenize(s)
        case Err(e) => Err(SplitFailed(e))
        case Ok(tokens) => Ok(Parsed(tokens, None))
  }

  /** Text without `|` splits into itself alone. */
  lemma SplitWithoutSeparator(s: string)
    requires '|' !in s
    ensures PyText.Split(s, '|') == [s]
  {
    PyText.JoinSplit(s, '|');
  }

  /** The pieces of plain text are plain. */
  lemma PlainPieces(s: string)
    ensures Shlex.IsPlainText(s) ==> forall i :: 0 <= i < |PyText.Split(s, '|')| ==> Shlex.IsPlainText(PyText.Split(s, '|')[i])
  {
    var pieces := PyText.Split(s, '|');
    if Shlex.IsPlainText(s) {
      forall i, k | 0 <= i < |pieces| && 0 <= k < |pieces[i]|
        ensures !Shlex.IsShellSpecial(pieces[i][k])
      {
        PieceCharsFromText(s, i, k);
      }
    }
  }

  /** Every character of a piece of a split occurs in the text. */
  lemma PieceCharsFromText(s: string, i: nat, k: nat)
    requires i < |PyText.Split(s, '|')| && k < |PyText.Split(s, '|')[i]|
    ensures PyText.Split(s, '|')[i][k] in s
  {
    var pieces := PyText.Split(s, '|');
    PyText.JoinSplit(s, '|');
    JoinContainsParts(pieces, "|", i, k);
  }

  lemma {:induction false} JoinContainsParts(parts: seq<string>, sep: string, i: nat, k: nat)
    requires i < |parts| && k < |parts[i]|
    ensures parts[i][k] in PyText.JoinWith(parts, sep)
    decreases |parts|
  {
    if |parts| >= 2 {
      var rest := PyText.JoinWith(parts[1..], sep);
      assert PyText.JoinWith(parts, sep) == parts[0] + sep + rest;
      if i == 0 {
        assert (parts[0] + sep + rest)[k] == parts[0][k];
      } else {
        JoinContainsParts(parts[1..], sep, i - 1, k);
        var j :| 0 <= j < |rest| && rest[j] == parts[i][k];
        assert (parts[0] + sep + rest)[|parts[0]| + |sep| + j] == rest[j];
      }
    }
  }

  /** Tokenising a piece, then the remaining pieces. */
  lemma TokenizeEachCons(w: string, rest: seq<string>)
    requires Shlex.Tokenize(w).Ok? && TokenizeEach(rest).Ok?
    ensures TokenizeEach([w] + rest) == Ok([Shlex.Tokenize(w).value] + TokenizeEach(rest).value)
  {
    assert ([w] + rest)[1..] == rest;
  }

  /** A single stage rendered with `shlex.join` (after leading whitespace
      `u`) is one piece and tokenises back into the stage. */
  lemma TokenizeJoinedOne(u: string, stage: Argv)
    requires Shlex.AllShellSpace(u)
    requires forall k :: 0 <= k < |stage| ==> '|' !in stage[k]
    ensures TokenizeEach(PyText.Split(u + PyText.JoinWith(ShellJoinAll([stage]), " | "), '|')) == Ok([stage])
  {
    var w := u + Shlex.JoinArgs(stage);
    Shlex.JoinArgsChars(stage, '|');
    assert '|' !in u;
    assert u + PyText.JoinWith(ShellJoinAll([stage]), " | ") == w;
    assert '|' !in w;
    SplitWithoutSeparator(w);
    Shlex.TokenizeJoinArgs(u, stage, "");
    assert u + Shlex.JoinArgs(stage) + "" == w;
    TokenizeEachCons(w, []);
    assert [w] + [] == [w];
    assert [stage] + [] == [stage];
  }

  /** The text before the first separator: `u + a + " | " + j` is
      `u + a + " "`, a `|`, and `" " + j`. */
  lemma SeparatorAfter(u: string, a: string, j: string)
    ensures u + (a + " | " + j) == (u + a + " ") + ['|'] + (" " + j)
  {
  }

  /** With two or more stages, the first `|` ends the first stage's piece. */
  lemma SplitJoinedStages(u: string, first: Argv, rest: seq<Argv>)
    requires |rest| >= 1
    requires Shlex.AllShellSpace(u)
    requires forall k :: 0 <= k < |first| ==> '|' !in first[k]
    ensures PyText.Split(u + PyText.JoinWith(ShellJoinAll([first] + rest), " | "), '|')
         == [u + Shlex.JoinArgs(first) + " "] + PyText.Split(" " + PyText.JoinWith(ShellJoinAll(rest), " | "), '|')
  {
    var a := Shlex.JoinArgs(first);
    var j := PyText.JoinWith(ShellJoinAll(rest), " | ");
    var texts := ShellJoinAll([first] + rest);
    assert ([first] + rest)[1..] == rest;
    assert texts == [a] + ShellJoinAll(rest);
    PyText.JoinCons(texts, " | ");
    assert texts[1..] == ShellJoinAll(rest);
    assert PyText.JoinWith(texts, " | ") == a + " | " + j;
    SeparatorAfter(u, a, j);
    Shlex.JoinArgsChars(first, '|');
    assert '|' !in u;
    assert '|' !in u + a + " ";
    PyText.SplitAtSeparator(u + a + " ", " " + j, '|');
  }

  /** No argument of the first stage, nor of any later stage, contains `c`. */
  lemma ArgsAvoidParts(stages: seq<Argv>, c: char)
    requires |stages| >= 1 && ArgsAvoid(stages, c)
    ensures forall k :: 0 <= k < |stages[0]| ==> c !in stages[0][k]
    ensures ArgsAvoid(stages[1..], c)
  {
    var rest := stages[1..];
    forall i, j | 0 <= i < |rest| && 0 <= j < |rest[i]| ensures c !in rest[i][j] {
      assert rest[i] == stages[i + 1];
    }
  }

  /** Stages rendered with `shlex.join` and joined by `" | "` (after leading
      whitespace `u`) split at `|` and tokenise back into the stages, as long
      as no argument contains `|`. */
  lemma {:induction false} TokenizeJoinedStages(u: string, stages: seq<Argv>)
    requires |stages| >= 1
    requires Shlex.AllShellSpace(u)
    requires ArgsAvoid(stages, '|')
    ensures TokenizeEach(PyText.Split(u + PyText.JoinWith(ShellJoinAll(stages), " | "), '|')) == Ok(stages)
    decreases |stages|
  {
    ArgsAvoidParts(stages, '|');
    var first, rest := stages[0], stages[1..];
    assert stages == [first] + rest;
    if rest == [] {
      TokenizeJoinedOne(u, first);
    } else {
      var pieces := PyText.Split(" " + PyText.JoinWith(ShellJoinAll(rest), " | "), '|');
      SplitJoinedStages(u, first, rest);
      TokenizeJoinedStages(" ", rest);
      Shlex.TokenizeJoinArgs(u, first, " ");
      TokenizeEachCons(u + Shlex.JoinArgs(first) + " ", pieces);
    }
  }

  /** `cmd_sanitizer` on text without `>` or `|` that tokenises. */
  lemma SanitizeSingle(s: string)
    requires '>' !in s && '|' !in s && Shlex.Tokenize(s).Ok?
    ensures CmdSanitizer(Text(s)) == Ok(Parsed(Shlex.Tokenize(s).value, None))
  {
  }

  /** `cmd_sanitizer` on text without `>`, with `|`, whose pieces tokenise. */
  lemma SanitizePiped(s: string, stages: seq<Argv>)
    requires '>' !in s && '|' in s
    requires TokenizeEach(PyText.Split(s, '|')) == Ok(stages)
    ensures CmdSanitizer(Text(s)) == Ok(Parsed(stages[0], Some(stages[1..])))
  {
  }

  /** Re-reading the corrected command line with `cmd_sanitizer` gives back
      exactly the stages it was rendered from, provided no argument contains
      `|` or `>` (which the sanitiser treats as syntax even inside quotes). */
  lemma CmdToStrQuotedRoundTrip(cmd: Argv, pipes: seq<Argv>)
    requires ArgsAvoid([cmd] + pipes, '|') && ArgsAvoid([cmd] + pipes, '>')
    ensures CmdSanitizer(Text(CmdToStrQuoted(cmd, pipes)))
         == Ok(Parsed(cmd, if pipes == [] then None else Some(pipes)))
  {
    var text := CmdToStrQuoted(cmd, pipes);
    var stages := [cmd] + pipes;
    CmdToStrQuotedAvoids(cmd, pipes, '>');
    if pipes == [] {
      ArgsAvoidParts(stages, '|');
      Shlex.JoinArgsChars(cmd, '|');
      assert text == Shlex.JoinArgs(cmd);
      Shlex.TokenizeJoinArgs("", cmd, "");
      assert "" + Shlex.JoinArgs(cmd) + "" == text;
      SanitizeSingle(text);
    } else {
      TokenizeJoinedStages("", stages);
      assert "" + text == text;
      var head := Shlex.JoinArgs(cmd);
      assert text == head + " | " + PyText.JoinWith(ShellJoinAll(pipes), " | ");
      assert text[|head| + 1] == '|';
      SanitizePiped(text, stages);
      assert stages[0] == cmd && stages[1..] == pipes;
    }
  }

  /** Hence, unlike `CmdToStr`, the corrected rendering never prints two
      different pipelines (without `|` or `>` in their arguments) alike. */
  lemma CmdToStrQuotedInjective(cmd: Argv, pipes: seq<Argv>, cmd': Argv, pipes': seq<Argv>)
    requires ArgsAvoid([cmd] + pipes, '|') && ArgsAvoid([cmd] + pipes, '>')
    requires ArgsAvoid([cmd'] + pipes', '|') && ArgsAvoid([cmd'] + pipes', '>')
    requires CmdToStrQuoted(cmd, pipes) == CmdToStrQuoted(cmd', pipes')
    ensures cmd == cmd' && pipes == pipes'
  {
    CmdToStrQuotedRoundTrip(cmd, pipes);
    CmdToStrQuotedRoundTrip(cmd', pipes');
  }

  /** `self.pipes` as the stages `execute_command` chains: `if self.pipes:`
      treats `None` like an empty list. */
  function PipesOf(p: Parsed): seq<Argv> {
    if p.pipes.Some? then p.pipes.value else []
  }

  /** The debug report printed after waiting: command, return code, elapsed
      time, then the output and error blocks that are non-empty. */
  function DebugReport(text: string, f: Finished): (report: seq<Event>)
    ensures |report| == 3 + (if Truthy(f.stdout) then 1 else 0) + (if Truthy(f.stderr) then 1 else 0)
    ensures report[..3] == [CommandRan(text), ReturnCode(f.returnCode), ExecutionTime]
    ensures Truthy(f.stdout) ==> report[3] == StdoutBlock(f.stdout.value)
    ensures Truthy(f.stderr) ==> report[|report| - 1] == StderrBlock(f.stderr.value)
    ensures NoSpinFrames(report)
  {
    [CommandRan(text), ReturnCode(f.returnCode), ExecutionTime]
      + (if Truthy(f.stdout) then [StdoutBlock(f.stdout.value)] else [])
      + (if Truthy(f.stderr) then [StderrBlock(f.stderr.value)] else [])
  }

  /** What happens once the processes are started: either the helper waits
      (spinner whenever a message is set, status line, debug report) or,
      without waiting, only the debug lines are printed. `text` is the command
      line of the debug report. */
  function Settle(handle: Proc, text: string, cfg: Config, world: World, decode: Bytes -> string): (s: Waited)
    requires handle.stderr == MergedIntoStdout
    ensures !cfg.wait ==> s.finished == None
    ensures !cfg.wait ==> s.events == if cfg.debug then [CommandRan(text), ProcessId(world.pid)] else []
    ensures cfg.wait ==> (s.finished.Some? <==> RunningPolls(world.polls) < |world.polls|)
    ensures s.finished.Some? ==>
      && cfg.wait
      && s.finished.value.returnCode == world.polls[RunningPolls(world.polls)].code
      && (s.finished.value.returnBool <==> s.finished.value.returnCode == 0)
      && s.finished.value.stderr == None
      && s.finished.value.stdout == TextOf(Some(world.out), decode)
    ensures cfg.wait ==>
      s.events == WaitFor(world.polls, cfg.message).frames + StatusLine(cfg.message, s.finished)
        + (if s.finished.Some? && cfg.debug then DebugReport(text, s.finished.value) else [])
    ensures cfg.wait ==>
      var frames := WaitFor(world.polls, cfg.message).frames;
      && |frames| <= |s.events|
      && s.events[..|frames|] == frames
      && (s.finished.Some? && cfg.message.Some? ==>
            |frames| < |s.events|
            && s.events[|frames|] ==
                 if s.finished.value.returnCode == 0 then StatusOk(cfg.message.value)
                 else StatusFailed(cfg.message.value))
      && (s.finished.None? ==> s.events == frames)
  {
    if cfg.wait then
      var w := AwaitResult(handle, cfg.message, cfg.message, world, decode);
      var report := if w.finished.Some? && cfg.debug then DebugReport(text, w.finished.value) else [];
      var frames := WaitFor(world.polls, cfg.message).frames;
      var status := StatusLine(cfg.message, w.finished);
      AppendAssoc(frames, status, report);
      AppendPrefix(frames, status + report);
      Waited(frames + (status + report), w.finished)
    else
      Waited(if cfg.debug then [CommandRan(text), ProcessId(world.pid)] else [], None)
  }

  /** The run once the command is sanitised: the processes are started as a
      pipeline and the last one is kept. The command line of the debug report
      is `cmd_to_str` as written, which leaves later stages unquoted. */
  function Launch(p: Parsed, cfg: Config, world: World, decode: Bytes -> string): (run: Run)
    ensures WiredAsPipeline(cfg, [p.cmd] + PipesOf(p), run.spawned)
    ensures run.handle == Terminal(run.spawned)
    ensures run.handle.argv == if PipesOf(p) == [] then p.cmd else PipesOf(p)[|PipesOf(p)| - 1]
    ensures run.pid == world.pid
    ensures run.warnings == []
    ensures run.settled == Settle(run.handle, CmdToStr(p.cmd, PipesOf(p)), cfg, world, decode)
  {
    var pipes := PipesOf(p);
    var spawned := Spawn(cfg, p.cmd, pipes);
    TerminalStage(cfg, p.cmd, pipes);
    var handle := Terminal(spawned);
    var s := Settle(handle, CmdToStr(p.cmd, pipes), cfg, world, decode);
    Run(spawned, handle, world.pid, [], s)
  }

  /** `Basher(cmd, cwd=..., msg=..., debug=..., shell=..., quiet=..., wait=...)`:
      sanitising comes first, so a refused command starts no process. */
  function Invoke(cmd: CmdValue, cfg: Config, world: World, decode: Bytes -> string): (r: Result<Run, SanitizeError>)
    ensures r.Err? <==> CmdSanitizer(cmd).Err?
    ensures r.Err? ==> r.error == CmdSanitizer(cmd).error
    ensures cmd.Text? && '>' in cmd.s ==> r == Err(RedirectionUnsupported)
    ensures r.Ok? ==> r.value == Launch(CmdSanitizer(cmd).value, cfg, world, decode)
  {
    var p :- CmdSanitizer(cmd);
    Ok(Launch(p, cfg, world, decode))
  }
}
