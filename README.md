# ffmpeg-dvr, modelled in Dafny

ffmpeg-dvr is a timed RTSP recorder. Given a start and an end instant, it
waits until the window opens. It then runs `ffmpeg` to copy the stream into
`dir/prefix.DD-MM-YYYY.HH-MM-SS.mp4` and polls the process and the clock once
a second. When the process dies or the window closes, it calls
`ffmpeg_stop`. If the process is still running, that sends `q\n` with a
3-second bound, then waits up to 5 seconds. It calls `terminate()` only if
one of those bounded waits timed out. If the process died while the window
is still open, it starts a new file straight away. After the window it
exits, or it waits forever when `--no-exit` is given.

The model follows the one source file, `ffmpeg-dvr.py`:

- `window.dfy` (module `Window`) holds `should_record`, the closed interval
  test, and the `end > start` check.
- `filename.dfy` (module `Filename`) holds `generate_filename`. The
  `%d-%m-%Y.%H-%M-%S` rendering is spelled out digit by digit, with a parser
  as its inverse, and `pathlib` joining is written out.
- `command.dfy` (module `Command`) holds the command line `ffmpeg_start`
  builds, the `shlex.split` that cuts it into arguments (for text without
  quotes or backslashes), and the corrected vector described under Findings.
- `stopping.dfy` (module `Stopping`) holds `ffmpeg_stop` as the calls it
  makes on the process. The answers of `poll()` and the two timeouts are
  inputs.
- `recorder.dfy` (module `Recorder`) holds `main`:
  - `Step` is one iteration of the outer loop (from `Idle`) or of the inner
    loop (from `Recording(file)`).
  - `Run` folds `Step` over a sequence of `Tick`s.
  - `Program` adds the start-up checks.
  - `Supervise` is the outer `while` loop of the source, with `break` and
    `continue`, and `Watch` is the inner one. `Supervise` is proved equal to
    `Program`.
  - `Supervised` is the spawn/stop pairing that every trace keeps.
- `recorder_properties.dfy` (module `RecorderProperties`) holds the lemmas
  about the loops: when a process may be spawned, when the program may exit,
  which check wins inside the recording loop, and the restart without an
  idle sleep.

The outside world is an input. Each `Tick` carries:

- the clock reading in `should_record`;
- the second clock reading in the exit test (line 89 calls `datetime.now()`
  again);
- the calendar fields of the reading in `generate_filename`;
- whether `Popen` succeeds;
- what `poll()` answers in the loop and again inside `ffmpeg_stop`;
- whether `communicate` and `wait` time out.

Instants are integers, because the source only compares them. Sleeps, spawns,
stops, directory creation and the exit appear as events in a trace.

Two details of the code shape the model:

- The window is closed, `start <= now <= end`, not half-open. An instant
  equal to `end` still records. The exit test is strictly `now > end`.
- A `Popen` that raises (a missing executable, say) is not caught by `main`.
  The program ends with that exception (`Aborted(LaunchFailed(file))`). It
  does not count as an early exit followed by a retry.

## Model

| member | source | states |
|---|---|---|
| Window.ShouldRecordIsClosedInterval | ffmpeg-dvr.py:44-46 | the window test holds exactly when `start <= now <= end`; both `start` and `end` are inside, one unit beyond either is outside |
| Filename.FormatStamp | ffmpeg-dvr.py:10 | the timestamp is 19 characters, with `-` at positions 2, 5, 13 and 16, `.` at 10, and digits everywhere else |
| Filename.ParseFormatStamp | ffmpeg-dvr.py:10 | reading the day, month, year, hour, minute and second back out of a rendered timestamp gives the fields it was rendered from |
| Filename.FormatStampInjective | ffmpeg-dvr.py:10 | two stamps that render the same are the same stamp |
| Filename.JoinPath | ffmpeg-dvr.py:52 | the joined path always ends with the file name |
| Filename.FileName | ffmpeg-dvr.py:51 | the file name is the prefix, `.`, the 19-character timestamp and `.mp4`, 24 characters more than the prefix |
| Filename.GenerateFilename | ffmpeg-dvr.py:49-52 | every generated path ends with `.` + timestamp + `.mp4` |
| Filename.GenerateFilenameLayout | ffmpeg-dvr.py:49-52 | for an ordinary directory and a relative prefix the path is `dir/` + prefix + `.` + timestamp + `.mp4` |
| Filename.DistinctStampsDistinctPaths | ffmpeg-dvr.py:49-52 | for any prefix and directory, two distinct second-resolution stamps give two distinct paths |
| Command.SplitJoinSpaces | ffmpeg-dvr.py:56-60 | splitting the space-joined words gives back the words, when each is non-empty and holds no whitespace, quote or backslash |
| Command.CommandLineIsJoin | ffmpeg-dvr.py:56-58 | the interpolated command line is the command, the nine fixed options, the URL, `-c copy` and the path, joined by spaces |
| Command.OptionsText | ffmpeg-dvr.py:57-58 | the fixed option words, joined by spaces, are exactly the literal text between the command and the URL, and between the URL and the path |
| Command.AsWrittenArgsOfPlainWords | ffmpeg-dvr.py:56-59 | for a command, URL and path without whitespace, quotes or backslashes, the vector is the 14 fixed tokens with the URL right after `-i` and the path last, and it equals the corrected vector |
| Command.SpaceInPathSplitsIt | ffmpeg-dvr.py:56-59 | a path with a space reaches ffmpeg as two arguments: the vector has 15 tokens and its last one is not the path |
| Command.PrefixWithSpaceCounterexample | ffmpeg-dvr.py:49-59 | with prefix `my cam` and directory `recs`, the arguments end in `recs/my` and `cam.<timestamp>.mp4`, and the last one is not the output path |
| Command.CommandArgs | ffmpeg-dvr.py:56-59 | the corrected vector: the split command, the nine fixed options ending in `-i`, the URL as one argument, `-c copy`, and the path as the last argument, for any URL and path |
| Stopping.StopCalls | ffmpeg-dvr.py:66-73 | no call when there is no process or it has exited. Otherwise `communicate("q\n", 3)` comes first. `wait(5)` happens exactly when that did not time out. `terminate()` happens exactly when a bounded wait timed out, once, as the last call |
| Stopping.StopCallsOnce | ffmpeg-dvr.py:66-73 | no call is made twice: one quit line, at most one `wait(5)`, at most one `terminate()` |
| Stopping.StopWithCooperativeExit | ffmpeg-dvr.py:66-73 | when `wait` cannot time out after a returned `communicate`, terminate happens exactly when the quit round trip timed out; stopping an exited process does nothing |
| Recorder.Supervise | ffmpeg-dvr.py:82-108 | the outer loop, with `Watch` as its inner loop and one `ffmpeg_stop` after it, computes `Program`: nothing is traced when `end <= start`, and the trace pairs every spawn with one stop |
| Recorder.Watch | ffmpeg-dvr.py:99-106 | what the inner loop traces from a given tick is what `Run` traces from `Recording(file)`. When the process has exited or the window test failed, the loop breaks, and that run continues with the one-second sleeps, the stop of `file` for that reason with the calls `ffmpeg_stop` then makes at the tick that ended the segment, and the run from `Idle` on the remaining ticks. Otherwise the ticks ran out while still recording |
| Recorder.StepSupervised | ffmpeg-dvr.py:87-108 | one iteration spawns only when no process runs, stops only the running file, and exits only with no process running |
| Recorder.RunSupervised | ffmpeg-dvr.py:87-108 | over any run at most one process is live, and every spawn is followed by exactly one stop of that file before the next spawn or the exit |
| Recorder.ProgramSupervised | ffmpeg-dvr.py:82-108 | the whole program keeps the pairing from an empty start, so a normal exit leaves no process running |
| RecorderProperties.IdleStepRules | ffmpeg-dvr.py:87-97 | the outer loop records exactly when the window test holds (aborting if the launch fails), exits exactly when the test fails, the second reading is strictly past `end` and `--exit` is set, and otherwise sleeps 5 |
| RecorderProperties.IdleSleepsOnlyBeforeStartOrWithoutExit | ffmpeg-dvr.py:88-94 | when both clock readings of an outer iteration agree, it sleeps 5 exactly when the window has not opened yet or has closed under `--no-exit`, and exits exactly when the window has closed under `--exit` |
| RecorderProperties.EndInstantRecords | ffmpeg-dvr.py:88-89 | reading exactly `end` records rather than exits: the window is closed, the exit test strict |
| RecorderProperties.NoExitBeforeStart | ffmpeg-dvr.py:88-94 | before `start` the outer loop never exits, whatever `--exit` says |
| RecorderProperties.RecordingStepRules | ffmpeg-dvr.py:99-108 | the recording loop sleeps 1 and then checks. The segment ends exactly when the process died or the window test failed. The stop is reported as an early exit exactly when the process died, even if the window also closed, and then it makes no call. Otherwise recording continues |
| RecorderProperties.RestartWithoutIdleSleep | ffmpeg-dvr.py:88-108 | after a segment ends in an open window, the next outer iteration spawns a new file at once, with no 5-unit sleep |
| RecorderProperties.ElapsedWindowExitsAtOnce | ffmpeg-dvr.py:82-91 | with an elapsed window and `--exit`, the program creates the directory and exits on the first iteration, spawning nothing |
| RecorderProperties.WindowCheckedFirst | ffmpeg-dvr.py:82-85 | `end <= start` fails before the output directory is created and before any process is spawned; a valid window creates the directory first |
| RecorderProperties.SpawningIteration | ffmpeg-dvr.py:87-97 | for a spawn at position `k` of a run, returns the outer-loop iteration `j` that traced it: the run's first `j` ticks end in `Idle` after exactly `k` events, and iteration `j` traces only that spawn |
| RecorderProperties.SpawnOnlyInWindow | ffmpeg-dvr.py:87-97 | every spawned process was spawned by an outer-loop iteration: it starts from `Idle` after the events before the spawn, its window test held, and the spawn is its whole trace. The file is named from that iteration's own clock reading, and the vector is the one for that file |
| RecorderProperties.ExitNeedsFlagAndPastEnd | ffmpeg-dvr.py:87-91 | the program exits only with `--exit`, and only in an outer-loop iteration that starts from `Idle`, whose window test failed and whose second reading was strictly past `end`. That iteration's `Exit` is the last event, and the `Exit` event is traced exactly when the program exits |
| RecorderProperties.NeverExitsWithoutFlag | ffmpeg-dvr.py:89-94 | with `--no-exit` the loop never terminates normally |
| RecorderProperties.NoExitUntilPastEnd | ffmpeg-dvr.py:89-94 | while the exit-test readings stay at or before `end`, the loop does not exit |
| RecorderProperties.SpawnedVectorMatchesSource | ffmpeg-dvr.py:56-59 | for plain command, URL and path, the spawned vector is exactly the one the source builds, 14 tokens |

## Findings

| source | as written | input that shows it | evidently intended | confidence | as-written member | corrected member |
|---|---|---|---|---|---|---|
| ffmpeg-dvr.py:56-59 | the URL and the output path are interpolated unquoted into one line that `shlex.split` cuts at whitespace | `--prefix "my cam" --output recs`: the path `recs/my cam.DD-MM-YYYY.HH-MM-SS.mp4` reaches ffmpeg as two arguments, `recs/my` and `cam.DD-MM-YYYY.HH-MM-SS.mp4` | the URL and the output path are each passed as one argument (as `shlex.quote` would give) | medium, not executed | Command.PrefixWithSpaceCounterexample | Command.CommandArgs |

The loop spawns `CommandArgs`. For plain arguments it coincides with the
source's vector (`Command.AsWrittenArgsOfPlainWords`).

## Left out

- Argument parsing with `argparse` and the clock-derived defaults (lines
  13-30) are left out. They are command-line plumbing; the model starts from
  a parsed `Config`.
- `strptime` parsing of `%d/%m/%Y %H:%M:%S %z` is left out. Instants are
  integers on one UTC-normalised scale, and only their order matters.
- The relation between a clock instant and its calendar fields is left out.
  The two are separate inputs of a `Tick`.
- Directory creation (lines 37-41) is one input, `dirFails`. It decides
  whether `ensure_output_dir` raises; the filesystem is not modelled.
- `Popen`, the pipes, `communicate`, `wait`, `terminate` and signals are not
  modelled. Their outcomes are the inputs of a `Tick`.
- `terminate()` only sends a signal. The model treats a process as gone once
  `ffmpeg_stop` returns, so a terminated process that is still shutting down
  while the next one starts is not modelled.
- Sleeps and wall-clock reads are not modelled. Sleeps are `Sleep` events;
  each clock reading is an input.
- The `print` log lines are left out. `Stop` events record the reason a
  segment ended instead.
- Exceptions other than the ones named in `Failure` are not modelled. That
  includes errors from `communicate` other than `TimeoutExpired` and
  `KeyboardInterrupt`.
- The loop runs on a finite sequence of ticks. An infinite run is described
  by its finite prefixes.
- Command.Split: only the no-special-characters case of `shlex.split` is
  modelled. Quotes and backslashes are treated as ordinary characters, so
  for arguments that contain them the model differs from `shlex`.
- Filename.JoinPath: `pathlib` normalisation of the directory and of the
  prefix is not modelled. Repeated slashes and `.` components are kept as
  given, so a directory `recs//` or `./recs`, or a prefix `./cam` or `a//b`,
  gives a different string than `pathlib` does.
- Recorder.Step: the loop spawns the corrected vector `CommandArgs`, not
  the vector the source builds (`AsWrittenArgs`). The two agree when the
  command, the URL and the output path hold no whitespace, quotes or
  backslashes (`RecorderProperties.SpawnedVectorMatchesSource`). A URL or path
  with whitespace gets more arguments in the source (see Findings). The same
  holds for `Recorder.Supervise`.
- Filename.Pad4: the year is always zero-padded to four digits, as Python
  documents for `%Y`. Some C libraries print years below 1000 with fewer
  digits.
