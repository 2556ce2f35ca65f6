/** What the loops of `main` guarantee, stated over `Step`, `Run` and
    `Program`. */
module RecorderProperties {
  import opened Window
  import opened Filename
  import opened Command
  import opened Recorder

  /** The outer loop's decision: record when the window test holds (or abort
      if ffmpeg cannot be launched); otherwise exit when the second clock
      reading is strictly past `end` and `--exit` is set, and sleep 5
      otherwise. */
  lemma IdleStepRules(cfg: Config, t: Tick)
    ensures var o := Step(cfg, Idle, t);
            && (o.phase.Recording? <==> ShouldRecord(cfg.start, cfg.end, t.now) && t.launches)
            && (o.phase.Aborted? <==> ShouldRecord(cfg.start, cfg.end, t.now) && !t.launches)
            && (o.phase == Exited <==>
                  !ShouldRecord(cfg.start, cfg.end, t.now) && t.nowAgain > cfg.end && cfg.exitAtEnd)
            && (o.phase == Idle <==> o.events == [Sleep(IdleSleep)])
            && (o.phase.Recording? ==>
                  o.events == [Spawn(o.phase.file, CommandArgs(cfg.cmd, cfg.url, o.phase.file))] &&
                  o.phase.file == GenerateFilename(cfg.prefix, cfg.outDir, t.stamp))
  {
  }

  /** When the two clock readings of an outer iteration agree, the iteration
      sleeps exactly when the window has not opened yet, or when it has
      closed and `--no-exit` is set; it exits exactly when the window has
      closed and `--exit` is set. */
  lemma IdleSleepsOnlyBeforeStartOrWithoutExit(cfg: Config, t: Tick)
    requires ValidWindow(cfg.start, cfg.end) && t.now == t.nowAgain
    ensures Step(cfg, Idle, t).events == [Sleep(IdleSleep)] <==>
              t.now < cfg.start || (t.now > cfg.end && !cfg.exitAtEnd)
    ensures Step(cfg, Idle, t).phase == Exited <==> t.now > cfg.end && cfg.exitAtEnd
  {
  }

  /** An instant equal to `end` is still inside the window, while the exit
      test is strict: reading exactly `end` twice never exits, it records. */
  lemma EndInstantRecords(cfg: Config, t: Tick)
    requires ValidWindow(cfg.start, cfg.end)
    requires t.now == cfg.end && t.nowAgain == cfg.end && t.launches
    ensures Step(cfg, Idle, t).phase.Recording?
  {
  }

  /** Before `start` the program never exits, whatever `--exit` says. */
  lemma NoExitBeforeStart(cfg: Config, t: Tick)
    requires ValidWindow(cfg.start, cfg.end)
    requires t.nowAgain < cfg.start
    ensures Step(cfg, Idle, t).phase != Exited
  {
  }

  /** The recording loop sleeps 1 and then checks the process before the
      window: either condition alone ends the segment with one stop of the
      running file; a dead process is reported as such even when the window
      has closed too, and its stop is a no-op. Otherwise recording goes on. */
  lemma RecordingStepRules(cfg: Config, file: string, t: Tick)
    ensures var o := Step(cfg, Recording(file), t);
            && o.events[0] == Sleep(PollSleep)
            && (o.phase == Idle <==> !t.alive || !ShouldRecord(cfg.start, cfg.end, t.now))
            && (o.phase != Idle ==> o.phase == Recording(file) && o.events == [Sleep(PollSleep)])
            && (o.phase == Idle ==>
                  |o.events| == 2 && o.events[1].Stop? && o.events[1].file == file &&
                  (o.events[1].reason == ExitedEarly <==> !t.alive) &&
                  (!t.alive ==> o.events[1].calls == []))
  {
  }

  /** After a segment ends while the window is still open, the very next
      outer iteration spawns a new process, with no 5-unit sleep between. */
  lemma RestartWithoutIdleSleep(cfg: Config, file: string, t1: Tick, t2: Tick)
    requires !t1.alive || !ShouldRecord(cfg.start, cfg.end, t1.now)
    requires ShouldRecord(cfg.start, cfg.end, t2.now) && t2.launches
    ensures var o := Run(cfg, Recording(file), [t1, t2]);
            var next := GenerateFilename(cfg.prefix, cfg.outDir, t2.stamp);
            && o.phase == Recording(next)
            && |o.events| == 3 && o.events[0] == Sleep(PollSleep)
            && o.events[1].Stop? && o.events[1].file == file
            && o.events[2] == Spawn(next, CommandArgs(cfg.cmd, cfg.url, next))
            && Sleep(IdleSleep) !in o.events
  {
    var s1 := Step(cfg, Recording(file), t1);
    var s2 := Step(cfg, Idle, t2);
    var next := GenerateFilename(cfg.prefix, cfg.outDir, t2.stamp);
    var reason := if !t1.alive then ExitedEarly else PeriodEnded;
    var stop := Stop(file, reason, StopAfter(reason, t1));
    var spawn := Spawn(next, CommandArgs(cfg.cmd, cfg.url, next));
    assert s1 == Outcome(Idle, [Sleep(PollSleep), stop]);
    assert s2 == Outcome(Recording(next), [spawn]);
    RunTwoTicks(cfg, Recording(file), t1, t2);
    assert Run(cfg, Recording(file), [t1, t2]) == Outcome(Recording(next), [Sleep(PollSleep), stop, spawn]) by {
      assert [Sleep(PollSleep), stop] + [spawn] == [Sleep(PollSleep), stop, spawn];
    }
  }

  lemma RunTwoTicks(cfg: Config, ph: Phase, t1: Tick, t2: Tick)
    requires !ph.Halted() && !Step(cfg, ph, t1).phase.Halted()
    ensures var s1 := Step(cfg, ph, t1);
            var s2 := Step(cfg, s1.phase, t2);
            Run(cfg, ph, [t1, t2]) == Outcome(s2.phase, s1.events + s2.events)
  {
    var s1 := Step(cfg, ph, t1);
    assert [t1, t2][1..] == [t2];
    assert [t2][1..] == [];
    assert Run(cfg, s1.phase, [t2]) == Glue(Step(cfg, s1.phase, t2).events, Run(cfg, Step(cfg, s1.phase, t2).phase, []));
  }

  /** A window already over when the program starts, with `--exit`: it exits
      on the first iteration without spawning anything. */
  lemma ElapsedWindowExitsAtOnce(cfg: Config, dirFails: bool, ticks: seq<Tick>)
    requires ValidWindow(cfg.start, cfg.end) && cfg.exitAtEnd && !dirFails
    requires ticks != [] && ticks[0].now > cfg.end && ticks[0].nowAgain > cfg.end
    ensures Program(cfg, dirFails, ticks) == Outcome(Exited, [CreateDir(cfg.outDir), Exit])
  {
    assert Run(cfg, Idle, ticks) == Glue([Exit], Run(cfg, Exited, ticks[1..]));
  }

  /** `end <= start` is rejected before the output directory is created and
      before any process is spawned; a valid window always creates the
      directory first. */
  lemma WindowCheckedFirst(cfg: Config, dirFails: bool, ticks: seq<Tick>)
    ensures var o := Program(cfg, dirFails, ticks);
            && (o.phase == Aborted(EndNotAfterStart) <==> !ValidWindow(cfg.start, cfg.end))
            && (!ValidWindow(cfg.start, cfg.end) ==> o.events == [])
            && (ValidWindow(cfg.start, cfg.end) ==> o.events != [] && o.events[0] == CreateDir(cfg.outDir))
  {
    if ValidWindow(cfg.start, cfg.end) && !dirFails {
      var r := Run(cfg, Idle, ticks);
      assert r.phase != Aborted(EndNotAfterStart) by { RunNeverFailsTheWindowCheck(cfg, Idle, ticks); }
    }
  }

  lemma {:induction false} RunNeverFailsTheWindowCheck(cfg: Config, ph: Phase, ticks: seq<Tick>)
    requires ph != Aborted(EndNotAfterStart)
    ensures Run(cfg, ph, ticks).phase != Aborted(EndNotAfterStart)
    decreases |ticks|
  {
    if ticks != [] && !ph.Halted() {
      RunNeverFailsTheWindowCheck(cfg, Step(cfg, ph, ticks[0]).phase, ticks[1..]);
    }
  }

  /** Iteration `j` of a run from `ph` is an outer-loop iteration that
      spawns `e` as the run's `k`-th event: it starts from `Idle` after `k`
      events, its window test holds, its trace is exactly `e`, and `e`
      writes to the file named from its own clock reading, with the command
      vector for that file. */
  predicate SpawnIteration(cfg: Config, ph: Phase, ticks: seq<Tick>, k: nat, j: nat, e: Event)
  {
    && j < |ticks|
    && Run(cfg, ph, ticks[..j]).phase == Idle
    && |Run(cfg, ph, ticks[..j]).events| == k
    && Step(cfg, Idle, ticks[j]).events == [e]
    && ShouldRecord(cfg.start, cfg.end, ticks[j].now)
    && e.Spawn? && e.file == GenerateFilename(cfg.prefix, cfg.outDir, ticks[j].stamp)
    && e.argv == CommandArgs(cfg.cmd, cfg.url, e.file)
  }

  /** Iteration `j` of a run from `ph` is the outer-loop iteration that
      exits: it starts from `Idle`, its window test fails, its second clock
      reading is strictly past `end`, and its `Exit` is the run's last event. */
  predicate ExitIteration(cfg: Config, ph: Phase, ticks: seq<Tick>, j: nat)
  {
    && j < |ticks|
    && Run(cfg, ph, ticks[..j]).phase == Idle
    && Step(cfg, Idle, ticks[j]).phase == Exited
    && Run(cfg, ph, ticks).events == Run(cfg, ph, ticks[..j]).events + [Exit]
    && !ShouldRecord(cfg.start, cfg.end, ticks[j].now)
    && ticks[j].nowAgain > cfg.end
  }

  /** The first `j + 1` ticks run as the first tick followed by the `j`
      ticks after it. */
  lemma RunPrefixUnfold(cfg: Config, ph: Phase, ticks: seq<Tick>, j: nat)
    requires j < |ticks| && !ph.Halted()
    ensures Run(cfg, ph, ticks[..j + 1])
         == Glue(Step(cfg, ph, ticks[0]).events, Run(cfg, Step(cfg, ph, ticks[0]).phase, ticks[1..][..j]))
  {
    assert ticks[..j + 1][0] == ticks[0] && ticks[..j + 1][1..] == ticks[1..][..j];
  }

  /** An iteration that spawns in the run after the first tick is, one
      place later, an iteration that spawns in the whole run. */
  lemma SpawnIterationShift(cfg: Config, ph: Phase, ticks: seq<Tick>, k: nat, j: nat, e: Event)
    requires j + 1 < |ticks| && !ph.Halted()
    requires SpawnIteration(cfg, Step(cfg, ph, ticks[0]).phase, ticks[1..], k, j, e)
    ensures SpawnIteration(cfg, ph, ticks, k + |Step(cfg, ph, ticks[0]).events|, j + 1, e)
  {
    assert ticks[1..][j] == ticks[j + 1];
    RunPrefixUnfold(cfg, ph, ticks, j);
  }

  /** The exiting iteration of the run after the first tick is, one place
      later, the exiting iteration of the whole run. */
  lemma ExitIterationShift(cfg: Config, ph: Phase, ticks: seq<Tick>, j: nat)
    requires j + 1 < |ticks| && !ph.Halted()
    requires ExitIteration(cfg, Step(cfg, ph, ticks[0]).phase, ticks[1..], j)
    ensures ExitIteration(cfg, ph, ticks, j + 1)
  {
    var first := Step(cfg, ph, ticks[0]);
    var before := Run(cfg, first.phase, ticks[1..][..j]);
    assert ticks[1..][j] == ticks[j + 1];
    RunPrefixUnfold(cfg, ph, ticks, j);
    assert Run(cfg, ph, ticks) == Glue(first.events, Run(cfg, first.phase, ticks[1..]));
    assert first.events + (before.events + [Exit]) == (first.events + before.events) + [Exit];
  }

  /** A spawn traced by the first tick of a run comes from an outer-loop
      iteration that is the run's first. */
  lemma SpawnInFirstStep(cfg: Config, ph: Phase, ticks: seq<Tick>, k: nat)
    requires ticks != [] && k < |Step(cfg, ph, ticks[0]).events|
    requires Step(cfg, ph, ticks[0]).events[k].Spawn?
    ensures SpawnIteration(cfg, ph, ticks, k, 0, Step(cfg, ph, ticks[0]).events[k])
  {
    assert ph == Idle && k == 0;
    assert ticks[..0] == [];
  }

  /** The outer-loop iteration that traced the `k`-th event of a run, when
      that event is a spawn. */
  lemma {:induction false} SpawningIteration(cfg: Config, ph: Phase, ticks: seq<Tick>, k: nat) returns (j: nat)
    requires k < |Run(cfg, ph, ticks).events|
    requires Run(cfg, ph, ticks).events[k].Spawn?
    ensures SpawnIteration(cfg, ph, ticks, k, j, Run(cfg, ph, ticks).events[k])
    decreases |ticks|
  {
    var first := Step(cfg, ph, ticks[0]);
    var rest := Run(cfg, first.phase, ticks[1..]);
    assert Run(cfg, ph, ticks).events == first.events + rest.events;
    if k < |first.events| {
      SpawnInFirstStep(cfg, ph, ticks, k);
      j := 0;
    } else {
      var k' := k - |first.events|;
      assert Run(cfg, ph, ticks).events[k] == rest.events[k'];
      var j' := SpawningIteration(cfg, first.phase, ticks[1..], k');
      SpawnIterationShift(cfg, ph, ticks, k', j', rest.events[k']);
      j := j' + 1;
    }
  }

  /** Every process the loop spawns was spawned by one outer-loop iteration
      whose window test held, writing to the file named from that
      iteration's own clock reading, with the command vector for that file. */
  lemma SpawnOnlyInWindow(cfg: Config, ph: Phase, ticks: seq<Tick>, k: nat)
    requires k < |Run(cfg, ph, ticks).events|
    requires Run(cfg, ph, ticks).events[k].Spawn?
    ensures exists j :: SpawnIteration(cfg, ph, ticks, k, j, Run(cfg, ph, ticks).events[k])
  {
    var j := SpawningIteration(cfg, ph, ticks, k);
  }

  /** The program exits only from the outer loop, only with `--exit`, and
      only in an iteration whose window test failed and whose second clock
      reading was strictly past `end`, with `Exit` as the last event; the
      `Exit` event is traced exactly when the program exits. */
  lemma {:induction false} ExitNeedsFlagAndPastEnd(cfg: Config, ph: Phase, ticks: seq<Tick>)
    requires ph != Exited
    ensures var o := Run(cfg, ph, ticks);
            && (Exit in o.events <==> o.phase == Exited)
            && (o.phase == Exited ==>
                  cfg.exitAtEnd && exists j :: ExitIteration(cfg, ph, ticks, j))
    decreases |ticks|
  {
    if ticks != [] && !ph.Halted() {
      var first := Step(cfg, ph, ticks[0]);
      var rest := Run(cfg, first.phase, ticks[1..]);
      assert Run(cfg, ph, ticks) == Glue(first.events, rest);
      if first.phase == Exited {
        assert ph == Idle && first.events == [Exit] && rest.events == [];
        assert Run(cfg, ph, ticks[..0]) == Outcome(Idle, []) by {
          assert ticks[..0] == [];
        }
        assert Run(cfg, ph, ticks).events == [] + [Exit];
        assert ExitIteration(cfg, ph, ticks, 0);
      } else {
        assert Exit !in first.events;
        ExitNeedsFlagAndPastEnd(cfg, first.phase, ticks[1..]);
        assert Exit in first.events + rest.events <==> Exit in rest.events;
        if rest.phase == Exited {
          var j :| ExitIteration(cfg, first.phase, ticks[1..], j);
          ExitIterationShift(cfg, ph, ticks, j);
        }
      }
    }
  }

  /** With `--no-exit` the loop never terminates normally. */
  lemma NeverExitsWithoutFlag(cfg: Config, ph: Phase, ticks: seq<Tick>)
    requires !cfg.exitAtEnd && ph != Exited
    ensures Run(cfg, ph, ticks).phase != Exited && Exit !in Run(cfg, ph, ticks).events
  {
    ExitNeedsFlagAndPastEnd(cfg, ph, ticks);
  }

  /** While the exit-test clock readings stay at or before `end` (in
      particular while they are before `start`), the loop does not exit. */
  lemma NoExitUntilPastEnd(cfg: Config, ph: Phase, ticks: seq<Tick>)
    requires ph != Exited
    requires forall j :: 0 <= j < |ticks| ==> ticks[j].nowAgain <= cfg.end
    ensures Run(cfg, ph, ticks).phase != Exited && Exit !in Run(cfg, ph, ticks).events
  {
    ExitNeedsFlagAndPastEnd(cfg, ph, ticks);
  }

  /** For a command, URL and output path without whitespace, quotes or
      backslashes, the vector the loop spawns is the one the source builds
      with `shlex.split`: 14 tokens, the URL after `-i`, the path last. */
  lemma SpawnedVectorMatchesSource(cfg: Config, t: Tick)
    requires ShouldRecord(cfg.start, cfg.end, t.now) && t.launches
    requires PlainToken(cfg.cmd) && PlainToken(cfg.url)
    requires PlainToken(GenerateFilename(cfg.prefix, cfg.outDir, t.stamp))
    ensures var file := GenerateFilename(cfg.prefix, cfg.outDir, t.stamp);
            Step(cfg, Idle, t).events == [Spawn(file, AsWrittenArgs(cfg.cmd, cfg.url, file))]
            && |AsWrittenArgs(cfg.cmd, cfg.url, file)| == 14
  {
    var file := GenerateFilename(cfg.prefix, cfg.outDir, t.stamp);
    AsWrittenArgsOfPlainWords(cfg.cmd, cfg.url, file);
  }
}
