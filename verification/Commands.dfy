/** The command as the caller passes it, the errors of sanitising it, and the
    command text the debug report prints (`cmd_to_str`). */
module Commands {
  import PyText
  import Shlex
  import opened Pipeline

  /** The Python value passed as `cmd` (or as one of the `*pipes`): a `str`,
      a `list` of strings, or a value of any other type. */
  datatype CmdValue = Text(s: string) | Items(items: seq<string>) | OtherValue

  /** The `ValueError`s sanitising raises. */
  datatype SanitizeError =
    | RedirectionUnsupported               // `'>' in cmd`
    | InvalidType                          // neither `str` (nor `list`)
    | SplitFailed(reason: Shlex.LexError)  // `shlex.split` raised

  /** `" ".join(pipe)` for every pipe, as `cmd_to_str` renders later stages. */
  function SpaceJoinAll(pipes: seq<Argv>): (texts: seq<string>)
    ensures |texts| == |pipes|
    ensures forall i :: 0 <= i < |pipes| ==> texts[i] == PyText.JoinWith(pipes[i], " ")
  {
    if pipes == [] then [] else [PyText.JoinWith(pipes[0], " ")] + SpaceJoinAll(pipes[1..])
  }

  /** `shlex.join(pipe)` for every pipe. */
  function ShellJoinAll(stages: seq<Argv>): (texts: seq<string>)
    ensures |texts| == |stages|
    ensures forall i :: 0 <= i < |stages| ==> texts[i] == Shlex.JoinArgs(stages[i])
  {
    if stages == [] then [] else [Shlex.JoinArgs(stages[0])] + ShellJoinAll(stages[1..])
  }

  /** `cmd_to_str`, and the command line of the debug report in the second
      version: the first stage through `shlex.join`, every later stage through
      a plain `" ".join`, stages separated by `" | "`. */
  function CmdToStr(cmd: Argv, pipes: seq<Argv>): (text: string)
    ensures text == PyText.JoinWith([Shlex.JoinArgs(cmd)] + SpaceJoinAll(pipes), " | ")
  {
    var all := [Shlex.JoinArgs(cmd)] + SpaceJoinAll(pipes);
    assert all[1..] == SpaceJoinAll(pipes);
    Shlex.JoinArgs(cmd) + (if pipes != [] then " | " + PyText.JoinWith(SpaceJoinAll(pipes), " | ") else "")
  }

  /** The rendering evidently intended: every stage through `shlex.join`. It is
      the `" | "`-join of the quoted stages. */
  function CmdToStrQuoted(cmd: Argv, pipes: seq<Argv>): (text: string)
    ensures text == PyText.JoinWith(ShellJoinAll([cmd] + pipes), " | ")
  {
    var all := ShellJoinAll([cmd] + pipes);
    assert all[1..] == ShellJoinAll(pipes);
    Shlex.JoinArgs(cmd) + (if pipes != [] then " | " + PyText.JoinWith(ShellJoinAll(pipes), " | ") else "")
  }

  /** As written, two different pipelines print as the same command line: a
      later stage's argument that contains a space is not quoted. */
  lemma CmdToStrConflates()
    ensures [["grep", "a b"]] != [["grep", "a", "b"]]
    ensures CmdToStr(["echo"], [["grep", "a b"]]) == CmdToStr(["echo"], [["grep", "a", "b"]])
  {
    var p, q := [["grep", "a b"]], [["grep", "a", "b"]];
    assert p[0] != q[0] by { assert |p[0]| != |q[0]|; }
    assert PyText.JoinWith(["a", "b"], " ") == "a" + " " + "b";
    assert PyText.JoinWith(p[0], " ") == "grep" + " " + "a b" == "grep a b";
    assert PyText.JoinWith(q[0], " ") == "grep" + " " + PyText.JoinWith(["a", "b"], " ") == "grep a b";
    assert SpaceJoinAll(p) == ["grep a b"] == SpaceJoinAll(q);
  }

  /** Every argument is one `shlex.quote` leaves alone: non-empty and made
      of safe characters only. */
  predicate PlainArgs(stages: seq<Argv>) {
    forall i, j :: 0 <= i < |stages| && 0 <= j < |stages[i]| ==>
      stages[i][j] != [] && Shlex.AllSafe(stages[i][j])
  }

  /** Quoting leaves such arguments unchanged. */
  lemma QuoteAllPlain(args: Argv)
    requires PlainArgs([args])
    ensures Shlex.JoinArgs(args) == PyText.JoinWith(args, " ")
  {
    var qs := Shlex.QuoteAll(args);
    forall j | 0 <= j < |args| ensures qs[j] == args[j] {
      assert [args][0][j] == args[j];
    }
    assert qs == args;
  }

  /** The printed command line is the corrected one whenever no argument of a
      later stage needs quoting: the two renderings differ only there. */
  lemma CmdToStrAgreesWhenPlain(cmd: Argv, pipes: seq<Argv>)
    requires PlainArgs(pipes)
    ensures CmdToStr(cmd, pipes) == CmdToStrQuoted(cmd, pipes)
  {
    forall i | 0 <= i < |pipes| ensures Shlex.JoinArgs(pipes[i]) == PyText.JoinWith(pipes[i], " ") {
      assert PlainArgs([pipes[i]]) by {
        forall j | 0 <= j < |pipes[i]| ensures pipes[i][j] != [] && Shlex.AllSafe(pipes[i][j]) {
        }
      }
      QuoteAllPlain(pipes[i]);
    }
    assert SpaceJoinAll(pipes) == ShellJoinAll(pipes);
  }

  /** No argument contains `c`. */
  predicate ArgsAvoid(stages: seq<Argv>, c: char) {
    forall i, j :: 0 <= i < |stages| && 0 <= j < |stages[i]| ==> c !in stages[i][j]
  }

  /** The corrected command line contains `|` or `>` only where the arguments
      do, apart from the stage separators. */
  lemma CmdToStrQuotedAvoids(cmd: Argv, pipes: seq<Argv>, c: char)
    requires c != ' ' && c != '\'' && c != '"' && c != '|'
    requires ArgsAvoid([cmd] + pipes, c)
    ensures c !in CmdToStrQuoted(cmd, pipes)
  {
    var stages := [cmd] + pipes;
    var texts := ShellJoinAll(stages);
    forall i | 0 <= i < |texts| ensures c !in texts[i] {
      Shlex.JoinArgsChars(stages[i], c);
    }
    PyText.JoinWithAvoids(texts, " | ", c);
  }
}
