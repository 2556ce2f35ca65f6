/** `ffmpeg_stop`: the escalation from a polite quit to `terminate()`.

    The process is not modelled; what `poll()` answers and whether each
    bounded wait raises `TimeoutExpired` are parameters, and the result is
    the sequence of calls made on the process. */
module Stopping {

  /** A call `ffmpeg_stop` makes on the process. */
  datatype Call =
    | Communicate(input: string, timeout: nat)  // write to stdin, then wait for exit
    | Wait(timeout: nat)                        // wait for exit
    | Terminate                                 // send the termination signal

  /** ffmpeg's interactive quit command. */
  const QuitLine: string := "q\n"

  /** Bound on `communicate`, which writes the quit line and waits for exit. */
  const QuitTimeout: nat := 3

  /** Bound on the `wait` that follows a `communicate` that returned. */
  const ExitTimeout: nat := 5

  /** The calls `ffmpeg_stop` makes. `present` is whether there is a process
      object, `running` whether its `poll()` answers `None`, and the two flags
      whether `communicate` and `wait` time out. A timeout in `communicate`
      skips the `wait`; either timeout leads to one `terminate()`. */
  function StopCalls(present: bool, running: bool, quitTimesOut: bool, exitTimesOut: bool): (calls: seq<Call>)
    // a no-op exactly when there is no process or it has already exited
    ensures calls == [] <==> !present || !running
    // otherwise the quit line is sent first, with its 3-unit bound
    ensures calls != [] ==> calls[0] == Communicate(QuitLine, QuitTimeout)
    // the 5-unit wait happens exactly when the quit round-trip did not time out
    ensures Wait(ExitTimeout) in calls <==> present && running && !quitTimesOut
    // terminate is called exactly when a bounded wait timed out ...
    ensures Terminate in calls <==> present && running && (quitTimesOut || exitTimesOut)
    // ... and then once, as the last call
    ensures Terminate in calls ==> calls[|calls| - 1] == Terminate && Terminate !in calls[..|calls| - 1]
    // nothing else is called: at most the three calls above
    ensures forall k :: 0 <= k < |calls| ==>
              calls[k] in {Communicate(QuitLine, QuitTimeout), Wait(ExitTimeout), Terminate}
  {
    if !present || !running then []
    else if quitTimesOut then [Communicate(QuitLine, QuitTimeout), Terminate]
    else if exitTimesOut then [Communicate(QuitLine, QuitTimeout), Wait(ExitTimeout), Terminate]
    else [Communicate(QuitLine, QuitTimeout), Wait(ExitTimeout)]
  }

  /** No call is made twice: the quit line is written once, and there is at
      most one `wait` and at most one `terminate()`. */
  lemma StopCallsOnce(present: bool, running: bool, quitTimesOut: bool, exitTimesOut: bool)
    ensures var calls := StopCalls(present, running, quitTimesOut, exitTimesOut);
            forall i, j :: 0 <= i < j < |calls| ==> calls[i] != calls[j]
  {
  }

  /** `communicate` returns only once the process has exited, so after it the
      `wait` cannot time out. For such answers `terminate()` is called exactly
      when the quit round-trip timed out, and stopping a process twice is
      harmless: the second call finds it exited and does nothing. */
  lemma StopWithCooperativeExit(present: bool, running: bool, quitTimesOut: bool)
    ensures Terminate in StopCalls(present, running, quitTimesOut, false) <==> present && running && quitTimesOut
    ensures StopCalls(present, false, quitTimesOut, false) == []
  {
  }
}
