/** `execution_stdout`: the wait loop. Each `poll()` of the terminal stage is
    an element of an abstract poll sequence; sleeping is not modelled. */
module Monitor {
  import opened Wrappers
  import opened Events

  /** One answer of `poll()`: `None` while running, the exit code after. */
  datatype PollResult = StillRunning | Exited(code: int)

  /** The trace of one wait: the spinner frames printed, and the exit code if
      the process exited within the observed polls. */
  datatype Watch = Watch(frames: seq<Event>, exit: Option<int>)

  /** How many polls report the process as still running before the first one
      that reports its exit (all of them if none does). */
  function RunningPolls(polls: seq<PollResult>): (n: nat)
    ensures n <= |polls|
    ensures forall i :: 0 <= i < n ==> polls[i] == StillRunning
    ensures n < |polls| ==> polls[n].Exited?
  {
    if polls == [] || polls[0].Exited? then 0 else 1 + RunningPolls(polls[1..])
  }

  /** The `k`-th spinner frame: the two frames alternate, starting with A. */
  function Frame(message: string, k: nat): Event {
    if k % 2 == 0 then SpinFrameA(message) else SpinFrameB(message)
  }

  /** `while result.poll() is None: ...`: for every poll that still reports
      running, two frames when a spinner message is given (`spinner`), none
      otherwise; the loop stops at the first poll that reports an exit. */
  function WaitFor(polls: seq<PollResult>, spinner: Option<string>): (w: Watch)
    ensures w.exit == if RunningPolls(polls) < |polls| then Some(polls[RunningPolls(polls)].code) else None
    ensures spinner.None? ==> w.frames == []
    ensures spinner.Some? ==> |w.frames| == 2 * RunningPolls(polls)
    ensures spinner.Some? ==> forall k :: 0 <= k < |w.frames| ==> w.frames[k] == Frame(spinner.value, k)
    decreases |polls|
  {
    if polls == [] then Watch([], None)
    else
      match polls[0]
      case Exited(code) => Watch([], Some(code))
      case StillRunning =>
        var later := WaitFor(polls[1..], spinner);
        var now := if spinner.Some? then [SpinFrameA(spinner.value), SpinFrameB(spinner.value)] else [];
        assert forall k :: 2 <= k < |now + later.frames| && spinner.Some? ==>
          (now + later.frames)[k] == later.frames[k - 2];
        Watch(now + later.frames, later.exit)
  }
}
