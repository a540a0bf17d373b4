/** What the command helper prints, reduced to an abstract trace: colours,
    carriage returns and the exact layout are not modelled, only which line is
    printed and what it carries. */
module Events {

  datatype Event =
    | SpinFrameA(message: string)     // `[. ] message`, first spinner frame
    | SpinFrameB(message: string)     // `[ .] message`, second spinner frame
    | StatusOk(message: string)       // `[OK] message`
    | StatusFailed(message: string)   // `[--] message`
    | CommandRan(text: string)        // `Command ran: ...` (easybash debug report)
    | ReturnCode(code: int)           // `Return code: ...`
    | ExecutionTime                   // `Execution time (s): ...`, the value is not modelled
    | StdoutBlock(text: string)       // the `-----STDOUT-----` block
    | StderrBlock(text: string)       // the `-----STDERR-----` block
    | ProcessId(pid: int)             // `PID: ...`
    | SplitWarning(text: string)      // `Incorrect string to split: ...`
    | CommandLine(text: string)       // the command line of the basher debug report
    | DebugBody(text: string)         // the output body of the basher debug report

  /** A trace extended at the end still starts with what it was. */
  lemma AppendPrefix(a: seq<Event>, b: seq<Event>)
    ensures |a| <= |a + b| && (a + b)[..|a|] == a
  {
  }

  /** A trace extended at the end ends with the extension. */
  lemma AppendSuffix(a: seq<Event>, b: seq<Event>)
    ensures (a + b)[|a|..] == b
  {
  }

  /** No event of the trace is a spinner frame. */
  predicate NoSpinFrames(events: seq<Event>) {
    forall k :: 0 <= k < |events| ==> !events[k].SpinFrameA? && !events[k].SpinFrameB?
  }

  /** Two traces without spinner frames make one without. */
  lemma AppendNoSpinFrames(a: seq<Event>, b: seq<Event>)
    requires NoSpinFrames(a) && NoSpinFrames(b)
    ensures NoSpinFrames(a + b)
  {
    forall k | 0 <= k < |a + b| ensures !(a + b)[k].SpinFrameA? && !(a + b)[k].SpinFrameB? {
      if k >= |a| {
        assert (a + b)[k] == b[k - |a|];
      }
    }
  }

  /** Appending is associative. */
  lemma AppendAssoc(a: seq<Event>, b: seq<Event>, c: seq<Event>)
    ensures (a + b) + c == a + (b + c)
  {
  }
}
