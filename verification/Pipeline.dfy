/** Building the process chain: `main_command`, `pipe_command` and
    `execute_command`. A process is not started here; each `Popen` call is
    recorded as the request it makes of the operating system. */
module Pipeline {
  import opened Wrappers

  /** The argument vector of one stage. */
  type Argv = seq<string>

  /** The keyword options of `Basher`. `quiet` is accepted and stored but
      never read by either version. */
  datatype Config = Config(
    cwd: Option<string>,
    message: Option<string>,
    debug: bool,
    shell: bool,
    quiet: bool,
    wait: bool)

  /** The pipe created for a stage's standard output (`stdout=PIPE`). */
  datatype PipeId = PipeOf(stage: nat)

  /** Where a stage reads its standard input. */
  datatype StdinSource =
    | FreshPipe           // `stdin=PIPE`: a new pipe, left to the caller
    | ReadEnd(pipe: PipeId)  // `stdin=previous.stdout`

  /** Where a stage's standard error goes. Both versions always pass
      `stderr=STDOUT`; `OwnPipe` stands for `stderr=PIPE`, which they never
      use, so that the consequence of the merge can be stated. */
  datatype StderrTarget = MergedIntoStdout | OwnPipe

  /** One `Popen` call. `cwd == None` means the child runs in the caller's
      working directory. */
  datatype Proc = Proc(
    stage: nat,
    argv: Argv,
    cwd: Option<string>,
    stdin: StdinSource,
    stdout: PipeId,
    stderr: StderrTarget,
    shell: bool)

  /** `main_command`: the first stage. */
  function MainCommand(cfg: Config, cmd: Argv): Proc {
    Proc(0, cmd, cfg.cwd, FreshPipe, PipeOf(0), MergedIntoStdout, cfg.shell)
  }

  /** `pipe_command(previous, pipe)`: a later stage reading what `previous`
      writes. No `cwd=` is passed, so it runs in the caller's directory. */
  function PipeCommand(cfg: Config, previous: Proc, pipe: Argv): Proc {
    Proc(previous.stage + 1, pipe, None, ReadEnd(previous.stdout),
         PipeOf(previous.stage + 1), MergedIntoStdout, cfg.shell)
  }

  /** The processes of a pipeline of `stages`, wired the way a shell pipeline
      is: stage 0 reads a fresh pipe and runs in the configured directory,
      every later stage reads the previous stage's output and runs in the
      caller's directory, every stage has its own output pipe with its error
      stream merged into it. */
  ghost predicate WiredAsPipeline(cfg: Config, stages: seq<Argv>, procs: seq<Proc>) {
    && |procs| == |stages| >= 1
    && (forall i :: 0 <= i < |procs| ==>
          && procs[i].stage == i
          && procs[i].argv == stages[i]
          && procs[i].stdout == PipeOf(i)
          && procs[i].stderr == MergedIntoStdout
          && procs[i].shell == cfg.shell)
    && procs[0].stdin == FreshPipe
    && procs[0].cwd == cfg.cwd
    && (forall i :: 1 <= i < |procs| ==>
          procs[i].stdin == ReadEnd(procs[i - 1].stdout) && procs[i].cwd == None)
  }

  /** A further stage that reads from the last one keeps the pipeline
      wiring. */
  lemma WiredExtend(cfg: Config, stages: seq<Argv>, procs: seq<Proc>, pipe: Argv)
    requires WiredAsPipeline(cfg, stages, procs)
    ensures WiredAsPipeline(cfg, stages + [pipe], procs + [PipeCommand(cfg, procs[|procs| - 1], pipe)])
  {
    var next := PipeCommand(cfg, procs[|procs| - 1], pipe);
    var procs', stages' := procs + [next], stages + [pipe];
    forall i | 0 <= i < |procs'|
      ensures procs'[i].stage == i && procs'[i].argv == stages'[i] && procs'[i].stdout == PipeOf(i)
      ensures procs'[i].stderr == MergedIntoStdout && procs'[i].shell == cfg.shell
    {
      if i < |procs| {
        assert procs'[i] == procs[i] && stages'[i] == stages[i];
      }
    }
    forall i | 1 <= i < |procs'|
      ensures procs'[i].stdin == ReadEnd(procs'[i - 1].stdout) && procs'[i].cwd == None
    {
      if i < |procs| {
        assert procs'[i] == procs[i] && procs'[i - 1] == procs[i - 1];
      }
    }
  }

  /** The wiring fixes every process of the pipeline. */
  lemma WiringIsUnique(cfg: Config, stages: seq<Argv>, p: seq<Proc>, q: seq<Proc>)
    requires WiredAsPipeline(cfg, stages, p) && WiredAsPipeline(cfg, stages, q)
    ensures p == q
  {
    forall i | 0 <= i < |p| ensures p[i] == q[i] {
      if i > 0 {
        assert p[i].stdin == ReadEnd(PipeOf(i - 1)) == q[i].stdin;
      }
    }
  }

  /** The loop of `execute_command` as a left fold: each pipe in turn becomes
      a stage reading from the stage built before it. */
  function Chain(cfg: Config, previous: Proc, pipes: seq<Argv>): (procs: seq<Proc>)
    ensures |procs| == |pipes|
    ensures forall i :: 0 <= i < |procs| ==>
      && procs[i].stage == previous.stage + 1 + i
      && procs[i].argv == pipes[i]
      && procs[i].stdout == PipeOf(previous.stage + 1 + i)
      && procs[i].stderr == MergedIntoStdout
      && procs[i].shell == cfg.shell
      && procs[i].cwd == None
    ensures |procs| > 0 ==> procs[0].stdin == ReadEnd(previous.stdout)
    ensures forall i :: 1 <= i < |procs| ==> procs[i].stdin == ReadEnd(procs[i - 1].stdout)
    decreases |pipes|
  {
    if pipes == [] then []
    else
      var next := PipeCommand(cfg, previous, pipes[0]);
      [next] + Chain(cfg, next, pipes[1..])
  }

  /** Every process `execute_command` starts, in the order it starts them. */
  function Spawn(cfg: Config, cmd: Argv, pipes: seq<Argv>): (procs: seq<Proc>)
    ensures WiredAsPipeline(cfg, [cmd] + pipes, procs)
  {
    var main := MainCommand(cfg, cmd);
    var rest := Chain(cfg, main, pipes);
    ChainAfterMain(cfg, cmd, pipes, main, rest);
    [main] + rest
  }

  lemma ChainAfterMain(cfg: Config, cmd: Argv, pipes: seq<Argv>, main: Proc, rest: seq<Proc>)
    requires main == MainCommand(cfg, cmd) && rest == Chain(cfg, main, pipes)
    ensures WiredAsPipeline(cfg, [cmd] + pipes, [main] + rest)
  {
    var procs, stages := [main] + rest, [cmd] + pipes;
    forall i | 1 <= i < |procs|
      ensures procs[i] == rest[i - 1] && stages[i] == pipes[i - 1]
    {
    }
    forall i | 0 <= i < |procs|
      ensures procs[i].stage == i && procs[i].argv == stages[i] && procs[i].stdout == PipeOf(i)
      ensures procs[i].stderr == MergedIntoStdout && procs[i].shell == cfg.shell
    {
    }
    forall i | 1 <= i < |procs|
      ensures procs[i].stdin == ReadEnd(procs[i - 1].stdout) && procs[i].cwd == None
    {
      if i > 1 {
        assert procs[i - 1] == rest[i - 2];
      }
    }
  }

  /** `execute_command`: starts the main command, then one process per pipe,
      each reading the output of the one before, and returns the last one
      started. The test `index == len(self.pipes)` inside the loop can never
      hold there, and both of its arms build the same stage. */
  method ExecuteCommand(cfg: Config, cmd: Argv, pipes: seq<Argv>) returns (handle: Proc, spawned: seq<Proc>)
    ensures WiredAsPipeline(cfg, [cmd] + pipes, spawned)
    ensures spawned == Spawn(cfg, cmd, pipes)
    ensures handle == spawned[|spawned| - 1]
    ensures handle.stage == |pipes|
    ensures handle.argv == if pipes == [] then cmd else pipes[|pipes| - 1]
  {
    if |pipes| > 0 {
      var main := MainCommand(cfg, cmd);
      var pipeCommand: Option<Proc> := None;
      var previous := main;
      spawned := [main];
      for index := 0 to |pipes|
        invariant WiredAsPipeline(cfg, [cmd] + pipes[..index], spawned)
        invariant previous == spawned[index]
        invariant index > 0 ==> pipeCommand == Some(previous)
      {
        var pipe := pipes[index];
        assert index < |pipes|;
        if index == |pipes| {
          pipeCommand := Some(PipeCommand(cfg, previous, pipe));
        } else {
          pipeCommand := Some(PipeCommand(cfg, previous, pipe));
        }
        WiredExtend(cfg, [cmd] + pipes[..index], spawned, pipe);
        previous := pipeCommand.value;
        spawned := spawned + [previous];
        assert [cmd] + pipes[..index + 1] == ([cmd] + pipes[..index]) + [pipe];
      }
      assert pipes[..|pipes|] == pipes;
      handle := pipeCommand.value;
    } else {
      handle := MainCommand(cfg, cmd);
      spawned := [handle];
      assert [cmd] + pipes == [cmd];
    }
    WiringIsUnique(cfg, [cmd] + pipes, spawned, Spawn(cfg, cmd, pipes));
  }

  /** The process whose result the helper waits for and reads: the last stage
      when there are pipes, the main command otherwise. */
  function Terminal(procs: seq<Proc>): Proc
    requires |procs| > 0
  {
    procs[|procs| - 1]
  }

  /** In a pipeline, the last process runs the last stage. */
  lemma WiredTerminal(cfg: Config, stages: seq<Argv>, procs: seq<Proc>)
    requires WiredAsPipeline(cfg, stages, procs)
    ensures Terminal(procs).stage == |stages| - 1
    ensures Terminal(procs).argv == stages[|stages| - 1]
    ensures Terminal(procs).stderr == MergedIntoStdout
  {
  }

  /** The terminal stage of a built pipeline is the last one started, runs the
      last argument vector, and merges its error stream into its output. */
  lemma TerminalStage(cfg: Config, cmd: Argv, pipes: seq<Argv>)
    ensures Terminal(Spawn(cfg, cmd, pipes)).stage == |pipes|
    ensures Terminal(Spawn(cfg, cmd, pipes)).argv == if pipes == [] then cmd else pipes[|pipes| - 1]
    ensures Terminal(Spawn(cfg, cmd, pipes)).stderr == MergedIntoStdout
    ensures pipes == [] ==> Terminal(Spawn(cfg, cmd, pipes)) == MainCommand(cfg, cmd)
  {
    var stages := [cmd] + pipes;
    WiredTerminal(cfg, stages, Spawn(cfg, cmd, pipes));
    assert stages[|stages| - 1] == if pipes == [] then cmd else pipes[|pipes| - 1];
  }
}
