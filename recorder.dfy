/** `main`: the start-up checks and the two-level `while True` loop that
    starts, watches and stops ffmpeg.

    Everything the loop asks of the outside world is an input: each clock
    reading, whether `Popen` launches, what `poll()` answers and whether the
    bounded waits in `ffmpeg_stop` time out. One `Tick` holds the answers for
    one iteration of whichever loop is running. The loop's effects are a
    trace of events; sleeping appears as a `Sleep` event. */
module Recorder {
  import opened Window
  import opened Filename
  import opened Command
  import opened Stopping

  datatype Option<T> = None | Some(value: T)

  /** The parsed command-line arguments `main` works from. */
  datatype Config = Config(
    start: int,        // --start, as an instant
    end: int,          // --end, as an instant
    cmd: string,       // --cmd
    url: string,       // --url
    outDir: string,    // --output
    prefix: string,    // --prefix
    exitAtEnd: bool)   // --exit / --no-exit

  /** Calendar fields of a clock reading. */
  type ClockStamp = t: Stamp | t.Valid() witness Stamp(1, 1, 1970, 0, 0, 0)

  /** What the outside world answers during one loop iteration. */
  datatype Tick = Tick(
    now: int,             // the reading inside `should_record`
    nowAgain: int,        // the reading in the exit test `now > ts_end`
    stamp: ClockStamp,    // the reading inside `generate_filename`
    launches: bool,       // `Popen` starts the process instead of raising
    alive: bool,          // `process.poll()` is None in the recording loop
    aliveAtStop: bool,    // `process.poll()` is None inside `ffmpeg_stop`
    quitTimesOut: bool,   // `communicate("q\n", timeout=3)` times out
    exitTimesOut: bool)   // `wait(timeout=5)` times out

  /** The exceptions that end `main`. */
  datatype Failure =
    | EndNotAfterStart             // ValueError before anything is done
    | OutputDirUnavailable(dir: string)  // RuntimeError from ensure_output_dir
    | LaunchFailed(file: string)   // Popen raised; main does not catch it

  /** Where the loop is: the outer loop (`Idle`), the inner loop with the
      process writing `file`, or finished. */
  datatype Phase = Idle | Recording(file: string) | Exited | Aborted(failure: Failure)
  {
    predicate Halted() { Exited? || Aborted? }
  }

  /** Which check ended a recording segment. */
  datatype EndReason = ExitedEarly | PeriodEnded

  datatype Event =
    | CreateDir(dir: string)
    | Sleep(seconds: nat)
    | Spawn(file: string, argv: seq<string>)
    | Stop(file: string, reason: EndReason, calls: seq<Call>)
    | Exit

  datatype Outcome = Outcome(phase: Phase, events: seq<Event>)

  /** The sleep of the outer loop while waiting for the window. */
  const IdleSleep: nat := 5

  /** The sleep at the top of every iteration of the recording loop. */
  const PollSleep: nat := 1

  /** The output file of the process that is running, if any. */
  function Live(ph: Phase): Option<string> {
    if ph.Recording? then Some(ph.file) else None
  }

  /** `events` put after the events already traced. */
  function Glue(before: seq<Event>, o: Outcome): Outcome {
    Outcome(o.phase, before + o.events)
  }

  /** One iteration of the outer loop (from `Idle`) or of the inner loop
      (from `Recording`); a halted program does nothing. */
  function Step(cfg: Config, ph: Phase, t: Tick): Outcome {
    match ph
    case Idle =>
      if !ShouldRecord(cfg.start, cfg.end, t.now) then
        if t.nowAgain > cfg.end && cfg.exitAtEnd then Outcome(Exited, [Exit])
        else Outcome(Idle, [Sleep(IdleSleep)])
      else
        var file := GenerateFilename(cfg.prefix, cfg.outDir, t.stamp);
        if !t.launches then Outcome(Aborted(LaunchFailed(file)), [])
        else Outcome(Recording(file), [Spawn(file, CommandArgs(cfg.cmd, cfg.url, file))])
    case Recording(file) =>
      if !t.alive then
        Outcome(Idle, [Sleep(PollSleep), Stop(file, ExitedEarly, StopAfter(ExitedEarly, t))])
      else if !ShouldRecord(cfg.start, cfg.end, t.now) then
        Outcome(Idle, [Sleep(PollSleep), Stop(file, PeriodEnded, StopAfter(PeriodEnded, t))])
      else
        Outcome(Recording(file), [Sleep(PollSleep)])
    case _ => Outcome(ph, [])
  }

  /** The loops run on a sequence of ticks, until the program halts or the
      ticks run out. */
  function Run(cfg: Config, ph: Phase, ticks: seq<Tick>): Outcome
    decreases |ticks|
  {
    if ticks == [] || ph.Halted() then Outcome(ph, [])
    else
      var first := Step(cfg, ph, ticks[0]);
      Glue(first.events, Run(cfg, first.phase, ticks[1..]))
  }

  /** `main` after argument parsing: reject `end <= start`, create the
      output directory (`dirFails` says whether that raises), run the loops. */
  function Program(cfg: Config, dirFails: bool, ticks: seq<Tick>): Outcome {
    if !ValidWindow(cfg.start, cfg.end) then Outcome(Aborted(EndNotAfterStart), [])
    else if dirFails then Outcome(Aborted(OutputDirUnavailable(cfg.outDir)), [CreateDir(cfg.outDir)])
    else Glue([CreateDir(cfg.outDir)], Run(cfg, Idle, ticks))
  }

  lemma GlueGlue(a: seq<Event>, b: seq<Event>, o: Outcome)
    ensures Glue(a, Glue(b, o)) == Glue(a + b, o)
  {
    assert a + (b + o.events) == (a + b) + o.events;
  }

  lemma RunUnfold(cfg: Config, ph: Phase, ticks: seq<Tick>, i: nat)
    requires i < |ticks| && !ph.Halted()
    ensures Run(cfg, ph, ticks[i..])
         == Glue(Step(cfg, ph, ticks[i]).events, Run(cfg, Step(cfg, ph, ticks[i]).phase, ticks[i + 1..]))
  {
    assert ticks[i..][1..] == ticks[i + 1..];
  }

  /** `main`, as the source writes it: the checks, then an outer loop that
      waits, exits or starts ffmpeg, runs the inner loop (`Watch`) until the
      process or the window ends the segment, and then stops the process. */
  method Supervise(cfg: Config, dirFails: bool, ticks: seq<Tick>) returns (phase: Phase, trace: seq<Event>)
    ensures Outcome(phase, trace) == Program(cfg, dirFails, ticks)
    ensures !ValidWindow(cfg.start, cfg.end) ==> trace == []
    ensures Supervised(trace, None, Live(phase))
  {
    if !ValidWindow(cfg.start, cfg.end) {
      phase, trace := Aborted(EndNotAfterStart), [];
      return;
    }
    trace := [CreateDir(cfg.outDir)];
    if dirFails {
      phase := Aborted(OutputDirUnavailable(cfg.outDir));
      ProgramSupervised(cfg, dirFails, ticks);
      return;
    }
    phase := Idle;
    ghost var goal := Program(cfg, dirFails, ticks);
    var i := 0;
    while i < |ticks|
      invariant 0 <= i <= |ticks|
      invariant phase == Idle || (phase.Recording? && i == |ticks|)
      invariant goal == Glue(trace, Run(cfg, phase, ticks[i..]))
      decreases |ticks| - i
    {
      var t := ticks[i];
      ghost var step := Step(cfg, Idle, t);
      RunUnfold(cfg, Idle, ticks, i);
      GlueGlue(trace, step.events, Run(cfg, step.phase, ticks[i + 1..]));
      i := i + 1;
      if !ShouldRecord(cfg.start, cfg.end, t.now) {
        if t.nowAgain > cfg.end && cfg.exitAtEnd {
          assert step == Outcome(Exited, [Exit]);
          phase, trace := Exited, trace + [Exit];
          break;
        }
        assert step == Outcome(Idle, [Sleep(IdleSleep)]);
        trace := trace + [Sleep(IdleSleep)];
        continue;
      }
      var file := GenerateFilename(cfg.prefix, cfg.outDir, t.stamp);
      if !t.launches {
        assert step == Outcome(Aborted(LaunchFailed(file)), []);
        phase := Aborted(LaunchFailed(file));
        break;
      }
      assert step == Outcome(Recording(file), [Spawn(file, CommandArgs(cfg.cmd, cfg.url, file))]);
      trace, phase := trace + [Spawn(file, CommandArgs(cfg.cmd, cfg.url, file))], Recording(file);
      ghost var before := trace;
      var next, ended, reason, slept := Watch(cfg, file, ticks, i);
      i, trace := next, trace + slept;
      if ended {
        var calls := StopAfter(reason, ticks[i - 1]);
        GlueGlue(before, slept + [Stop(file, reason, calls)], Run(cfg, Idle, ticks[next..]));
        assert before + (slept + [Stop(file, reason, calls)]) == trace + [Stop(file, reason, calls)];
        trace, phase := trace + [Stop(file, reason, calls)], Idle;
      } else {
        assert ticks[i..] == [] && before + slept + [] == trace;
      }
    }
    ProgramSupervised(cfg, dirFails, ticks);
  }

  /** The calls of the `ffmpeg_stop` that follows a segment ended for
      `reason` at tick `u`: a process that exited early answers `poll()` as
      exited, so stopping it makes no call. */
  function StopAfter(reason: EndReason, u: Tick): seq<Call> {
    StopCalls(true, reason == PeriodEnded && u.aliveAtStop, u.quitTimesOut, u.exitTimesOut)
  }

  /** One tick of the inner loop, seen from the run it continues: a dead
      process or a failed window test ends the segment with one stop, and
      otherwise recording goes on. */
  lemma RecordingTick(cfg: Config, file: string, ticks: seq<Tick>, i: nat, before: seq<Event>)
    requires i < |ticks|
    ensures !ticks[i].alive ==>
              Glue(before, Run(cfg, Recording(file), ticks[i..]))
              == Glue(before + [Sleep(PollSleep)] + [Stop(file, ExitedEarly, StopAfter(ExitedEarly, ticks[i]))],
                      Run(cfg, Idle, ticks[i + 1..]))
    ensures ticks[i].alive && !ShouldRecord(cfg.start, cfg.end, ticks[i].now) ==>
              Glue(before, Run(cfg, Recording(file), ticks[i..]))
              == Glue(before + [Sleep(PollSleep)] + [Stop(file, PeriodEnded, StopAfter(PeriodEnded, ticks[i]))],
                      Run(cfg, Idle, ticks[i + 1..]))
    ensures ticks[i].alive && ShouldRecord(cfg.start, cfg.end, ticks[i].now) ==>
              Glue(before, Run(cfg, Recording(file), ticks[i..]))
              == Glue(before + [Sleep(PollSleep)], Run(cfg, Recording(file), ticks[i + 1..]))
  {
    var poll := Step(cfg, Recording(file), ticks[i]);
    RunUnfold(cfg, Recording(file), ticks, i);
    GlueGlue(before, poll.events, Run(cfg, poll.phase, ticks[i + 1..]));
    if !ticks[i].alive || !ShouldRecord(cfg.start, cfg.end, ticks[i].now) {
      assert before + poll.events == before + [Sleep(PollSleep)] + [poll.events[1]];
    }
  }

  /** The inner `while True` loop of `main`, from tick `from` on: sleep one
      second, then break if the process has exited, or else if the window
      test fails. It returns where it stopped (the segment ended at the tick
      before), whether a check ended the segment (otherwise the ticks ran
      out), which check, and the sleeps traced. */
  method Watch(cfg: Config, file: string, ticks: seq<Tick>, from: nat)
    returns (i: nat, ended: bool, reason: EndReason, slept: seq<Event>)
    requires from <= |ticks|
    ensures from <= i <= |ticks| && (ended ==> from < i) && (!ended ==> i == |ticks|)
    ensures ended ==>
              Run(cfg, Recording(file), ticks[from..])
              == Glue(slept + [Stop(file, reason, StopAfter(reason, ticks[i - 1]))], Run(cfg, Idle, ticks[i..]))
    ensures !ended ==> Run(cfg, Recording(file), ticks[from..]) == Outcome(Recording(file), slept)
  {
    i, ended, reason, slept := from, false, ExitedEarly, [];
    while i < |ticks|
      invariant from <= i <= |ticks|
      invariant Run(cfg, Recording(file), ticks[from..]) == Glue(slept, Run(cfg, Recording(file), ticks[i..]))
      decreases |ticks| - i
    {
      var u := ticks[i];
      RecordingTick(cfg, file, ticks, i, slept);
      i := i + 1;
      slept := slept + [Sleep(PollSleep)];
      if !u.alive {
        ended, reason := true, ExitedEarly;
        assert ticks[i - 1] == u;
        return;
      }
      if !ShouldRecord(cfg.start, cfg.end, u.now) {
        ended, reason := true, PeriodEnded;
        assert ticks[i - 1] == u;
        return;
      }
    }
    assert ticks[i..] == [];
  }

  /** The trace pairs every spawn with one stop of the same file before the
      next spawn or the exit: from `open` (the process running before the
      events, if any), the events leave `close` running. */
  predicate Supervised(events: seq<Event>, open: Option<string>, close: Option<string>)
    decreases |events|
  {
    if events == [] then open == close
    else match events[0]
      case Spawn(f, _) => open == None && Supervised(events[1..], Some(f), close)
      case Stop(f, _, _) => open == Some(f) && Supervised(events[1..], None, close)
      case Exit => open == None && close == None && |events| == 1
      case _ => Supervised(events[1..], open, close)
  }

  lemma {:induction false} SupervisedAppend(a: seq<Event>, b: seq<Event>, open: Option<string>, mid: Option<string>, close: Option<string>)
    requires Supervised(a, open, mid) && Exit !in a && Supervised(b, mid, close)
    ensures Supervised(a + b, open, close)
    decreases |a|
  {
    if a != [] {
      assert (a + b)[0] == a[0];
      assert (a + b)[1..] == a[1..] + b;
      var next := match a[0]
        case Spawn(f, _) => Some(f)
        case Stop(_, _, _) => None
        case _ => open;
      assert a[0] in a;
      SupervisedAppend(a[1..], b, next, mid, close);
    } else {
      assert a + b == b;
    }
  }

  /** One iteration keeps the pairing: it spawns only when nothing runs, stops
      only the file that runs, and exits only when nothing runs. */
  lemma StepSupervised(cfg: Config, ph: Phase, t: Tick)
    ensures Supervised(Step(cfg, ph, t).events, Live(ph), Live(Step(cfg, ph, t).phase))
    ensures Exit in Step(cfg, ph, t).events ==> Step(cfg, ph, t).phase == Exited
  {
  }

  /** Over any run, at most one process is live at a time and every spawn is
      followed by exactly one stop of that process before a later spawn or
      the exit. */
  lemma {:induction false} RunSupervised(cfg: Config, ph: Phase, ticks: seq<Tick>)
    ensures Supervised(Run(cfg, ph, ticks).events, Live(ph), Live(Run(cfg, ph, ticks).phase))
    decreases |ticks|
  {
    if ticks != [] && !ph.Halted() {
      var first := Step(cfg, ph, ticks[0]);
      var rest := Run(cfg, first.phase, ticks[1..]);
      StepSupervised(cfg, ph, ticks[0]);
      RunSupervised(cfg, first.phase, ticks[1..]);
      if Exit in first.events {
        assert rest.events == [];
        assert first.events + rest.events == first.events;
      } else {
        SupervisedAppend(first.events, rest.events, Live(ph), Live(first.phase), Live(rest.phase));
      }
    }
  }

  /** The whole program keeps the pairing, and when it exits normally no
      process is left running. */
  lemma ProgramSupervised(cfg: Config, dirFails: bool, ticks: seq<Tick>)
    ensures Supervised(Program(cfg, dirFails, ticks).events, None, Live(Program(cfg, dirFails, ticks).phase))
  {
    if ValidWindow(cfg.start, cfg.end) && !dirFails {
      RunSupervised(cfg, Idle, ticks);
      var r := Run(cfg, Idle, ticks);
      assert ([CreateDir(cfg.outDir)] + r.events)[1..] == r.events;
    }
  }
}
