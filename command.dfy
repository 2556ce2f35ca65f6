/** `ffmpeg_start`: the argument vector handed to `Popen`.

    The source interpolates the command, the stream URL and the output path
    into one command line and splits it with `shlex.split`. Here splitting is
    modelled for text without quote or backslash characters, where
    `shlex.split` breaks the line at runs of whitespace and drops empty
    pieces; spawning the process is not modelled. */
module Command {
  import Filename

  /** The characters `shlex` treats as whitespace. */
  predicate IsBlank(c: char) {
    c == ' ' || c == '\t' || c == '\n' || c == '\r'
  }

  /** A character `shlex.split` passes through unchanged inside a word:
      not whitespace, not a quote, not the escape character. */
  predicate IsPlain(c: char) {
    !IsBlank(c) && c != '\'' && c != '"' && c != '\\'
  }

  /** A non-empty word that `shlex.split` keeps as exactly one token. */
  predicate PlainToken(w: string) {
    |w| > 0 && forall k :: 0 <= k < |w| ==> IsPlain(w[k])
  }

  /** Length of the leading run of non-whitespace characters. */
  function WordLength(s: string): (n: nat)
    ensures n <= |s|
    ensures s != [] && !IsBlank(s[0]) ==> n >= 1
    ensures forall k :: 0 <= k < n ==> !IsBlank(s[k])
    ensures n < |s| ==> IsBlank(s[n])
  {
    if s == [] || IsBlank(s[0]) then 0 else 1 + WordLength(s[1..])
  }

  /** `shlex.split` on text without quote or escape characters. */
  function Split(s: string): (words: seq<string>)
    decreases |s|
  {
    if s == [] then []
    else if IsBlank(s[0]) then Split(s[1..])
    else
      var n := WordLength(s);
      [s[..n]] + Split(s[n..])
  }

  /** `' '.join(words)`. */
  function JoinSpaces(words: seq<string>): string {
    if words == [] then ""
    else if |words| == 1 then words[0]
    else words[0] + " " + JoinSpaces(words[1..])
  }

  lemma {:induction false} WordLengthOfToken(w: string, rest: string)
    requires PlainToken(w)
    requires rest == [] || IsBlank(rest[0])
    ensures WordLength(w + rest) == |w|
    decreases |w|
  {
    if |w| > 1 {
      assert (w + rest)[1..] == w[1..] + rest;
      WordLengthOfToken(w[1..], rest);
    } else {
      assert (w + rest)[1..] == rest;
    }
  }

  /** Splitting the space-joined words gives the words back, as long as each
      is a non-empty word of plain characters. */
  lemma {:induction false} SplitJoinSpaces(words: seq<string>)
    requires forall k :: 0 <= k < |words| ==> PlainToken(words[k])
    ensures Split(JoinSpaces(words)) == words
    decreases |words|
  {
    if words == [] {
    } else if |words| == 1 {
      var w := words[0];
      WordLengthOfToken(w, "");
      assert w + "" == w;
      assert w[|w|..] == "";
    } else {
      var w, rest := words[0], JoinSpaces(words[1..]);
      var s := w + " " + rest;
      WordLengthOfToken(w, " " + rest);
      assert s == w + (" " + rest);
      assert s[..|w|] == w;
      assert s[|w|..] == " " + rest;
      assert (" " + rest)[1..] == rest;
      SplitJoinSpaces(words[1..]);
    }
  }

  lemma {:induction false} JoinSpacesAppend(a: seq<string>, b: seq<string>)
    requires a != [] && b != []
    ensures JoinSpaces(a + b) == JoinSpaces(a) + " " + JoinSpaces(b)
    decreases |a|
  {
    if |a| == 1 {
      assert (a + b)[1..] == b;
    } else {
      assert (a + b)[1..] == a[1..] + b;
      JoinSpacesAppend(a[1..], b);
    }
  }

  /** The fixed options between the command and the URL. */
  const Options: seq<string> :=
    ["-hide_banner", "-loglevel", "error", "-y", "-timeout", "5000000", "-rtsp_transport", "tcp", "-i"]

  /** The options after the URL: stream copy, no re-encoding. */
  const CopyOptions: seq<string> := ["-c", "copy"]

  /** The text of the command line between the command and the URL. */
  const OptionsLine: string := " -hide_banner -loglevel error -y -timeout 5000000 -rtsp_transport tcp -i "

  /** The text of the command line between the URL and the output path. */
  const CopyLine: string := " -c copy "

  /** The command line `ffmpeg_start` builds before splitting it. */
  function CommandLine(cmd: string, url: string, file: string): string {
    cmd + OptionsLine + url + CopyLine + file
  }

  /** The argument vector exactly as `ffmpeg_start` computes it: the
      interpolated line, split. */
  function AsWrittenArgs(cmd: string, url: string, file: string): seq<string> {
    Split(CommandLine(cmd, url, file))
  }

  /** The argument vector with the URL and the output path each passed as one
      argument, whatever characters they hold (as with `shlex.quote`); the
      command itself is still split, so it may carry its own options. */
  function CommandArgs(cmd: string, url: string, file: string): (argv: seq<string>)
    ensures |argv| == |Split(cmd)| + 13
    ensures argv[..|Split(cmd)|] == Split(cmd)
    ensures argv[|Split(cmd)|..|Split(cmd)| + 9] == Options
    ensures argv[|Split(cmd)| + 8] == "-i" && argv[|Split(cmd)| + 9] == url
    ensures argv[|argv| - 3..|argv| - 1] == CopyOptions && argv[|argv| - 1] == file
  {
    Split(cmd) + Options + [url] + CopyOptions + [file]
  }

  lemma OptionsArePlain()
    ensures forall k :: 0 <= k < |Options| ==> PlainToken(Options[k])
    ensures forall k :: 0 <= k < |CopyOptions| ==> PlainToken(CopyOptions[k])
  {
  }

  /** The command line is the space-joined command, fixed options, URL and
      the words of the output path. */
  lemma CommandLineIsJoin(cmd: string, url: string, fileWords: seq<string>)
    requires fileWords != []
    ensures CommandLine(cmd, url, JoinSpaces(fileWords))
         == JoinSpaces([cmd] + Options + [url] + CopyOptions + fileWords)
  {
    var opts, copy := JoinSpaces(Options), JoinSpaces(CopyOptions);
    OptionsText();
    var a := [cmd] + Options;
    var b := a + [url];
    var c := b + CopyOptions;
    JoinSpacesAppend([cmd], Options);
    JoinSpacesAppend(a, [url]);
    JoinSpacesAppend(b, CopyOptions);
    JoinSpacesAppend(c, fileWords);
    var f := JoinSpaces(fileWords);
    assert JoinSpaces([cmd]) == cmd;
    assert JoinSpaces(a) == cmd + " " + opts;
    assert JoinSpaces(b) == cmd + " " + opts + " " + url;
    assert JoinSpaces(c) == cmd + " " + opts + " " + url + " " + copy;
    assert JoinSpaces(c + fileWords) == cmd + " " + opts + " " + url + " " + copy + " " + f;
    Regroup(cmd, opts, url, copy, f);
  }

  lemma Regroup(a: string, b: string, c: string, d: string, e: string)
    ensures a + " " + b + " " + c + " " + d + " " + e == a + (" " + b + " ") + c + (" " + d + " ") + e
  {
  }

  lemma OptionsText()
    ensures " " + JoinSpaces(Options) + " " == OptionsLine
    ensures " " + JoinSpaces(CopyOptions) + " " == CopyLine
  {
    OptionsRendered8();
    assert Options[..9] == Options;
    assert " -hide_banner -loglevel error -y -timeout 5000000 -rtsp_transport tcp -i" + " "
        == " -hide_banner -loglevel error -y -timeout 5000000 -rtsp_transport tcp -i ";
    CopyOptionsText();
  }

  /* The text of the first k options, one option at a time. */
  lemma OptionsRendered0()
    ensures " " + JoinSpaces(Options[..1]) == " -hide_banner"
  {
    assert Options[..1] == ["-hide_banner"];
  }

  lemma OptionsRendered1()
    ensures " " + JoinSpaces(Options[..2]) == " -hide_banner -loglevel"
  {
    OptionsRendered0();
    OptionsPrefix(1, " -hide_banner", " -hide_banner -loglevel");
  }

  lemma OptionsRendered2()
    ensures " " + JoinSpaces(Options[..3]) == " -hide_banner -loglevel error"
  {
    OptionsRendered1();
    OptionsPrefix(2, " -hide_banner -loglevel", " -hide_banner -loglevel error");
  }

  lemma OptionsRendered3()
    ensures " " + JoinSpaces(Options[..4]) == " -hide_banner -loglevel error -y"
  {
    OptionsRendered2();
    OptionsPrefix(3, " -hide_banner -loglevel error", " -hide_banner -loglevel error -y");
  }

  lemma OptionsRendered4()
    ensures " " + JoinSpaces(Options[..5]) == " -hide_banner -loglevel error -y -timeout"
  {
    OptionsRendered3();
    OptionsPrefix(4, " -hide_banner -loglevel error -y", " -hide_banner -loglevel error -y -timeout");
  }

  lemma OptionsRendered5()
    ensures " " + JoinSpaces(Options[..6]) == " -hide_banner -loglevel error -y -timeout 5000000"
  {
    OptionsRendered4();
    OptionsPrefix(5, " -hide_banner -loglevel error -y -timeout", " -hide_banner -loglevel error -y -timeout 5000000");
  }

  lemma OptionsRendered6()
    ensures " " + JoinSpaces(Options[..7]) == " -hide_banner -loglevel error -y -timeout 5000000 -rtsp_transport"
  {
    OptionsRendered5();
    OptionsPrefix(6, " -hide_banner -loglevel error -y -timeout 5000000", " -hide_banner -loglevel error -y -timeout 5000000 -rtsp_transport");
  }

  lemma OptionsRendered7()
    ensures " " + JoinSpaces(Options[..8]) == " -hide_banner -loglevel error -y -timeout 5000000 -rtsp_transport tcp"
  {
    OptionsRendered6();
    OptionsPrefix(7, " -hide_banner -loglevel error -y -timeout 5000000 -rtsp_transport", " -hide_banner -loglevel error -y -timeout 5000000 -rtsp_transport tcp");
  }

  lemma OptionsRendered8()
    ensures " " + JoinSpaces(Options[..9]) == " -hide_banner -loglevel error -y -timeout 5000000 -rtsp_transport tcp -i"
  {
    OptionsRendered7();
    OptionsPrefix(8, " -hide_banner -loglevel error -y -timeout 5000000 -rtsp_transport tcp", " -hide_banner -loglevel error -y -timeout 5000000 -rtsp_transport tcp -i");
  }

  /** One step of rendering the options: the text of the first `k + 1`
      options is that of the first `k`, a space and the next one. */
  lemma OptionsPrefix(k: nat, before: string, after: string)
    requires 1 <= k < |Options|
    requires " " + JoinSpaces(Options[..k]) == before
    requires before + " " + Options[k] == after
    ensures " " + JoinSpaces(Options[..k + 1]) == after
  {
    assert Options[..k + 1] == Options[..k] + [Options[k]];
    JoinSpacesAppend(Options[..k], [Options[k]]);
  }

  lemma CopyOptionsText()
    ensures " " + JoinSpaces(CopyOptions) + " " == " -c copy "
  {
    assert CopyOptions[1..] == ["copy"];
    assert JoinSpaces(CopyOptions) == "-c" + " " + "copy";
  }

  /** When the command, the URL and the path are plain words, the source's
      vector is the 14 fixed tokens: the URL right after `-i`, the path last,
      and it coincides with `CommandArgs`. */
  lemma AsWrittenArgsOfPlainWords(cmd: string, url: string, file: string)
    requires PlainToken(cmd) && PlainToken(url) && PlainToken(file)
    ensures AsWrittenArgs(cmd, url, file) == [cmd] + Options + [url] + CopyOptions + [file]
    ensures AsWrittenArgs(cmd, url, file) == CommandArgs(cmd, url, file)
    ensures |AsWrittenArgs(cmd, url, file)| == 14
  {
    assert JoinSpaces([file]) == file;
    CommandLineIsJoin(cmd, url, [file]);
    OptionsArePlain();
    var words := [cmd] + Options + [url] + CopyOptions + [file];
    forall k | 0 <= k < |words| ensures PlainToken(words[k]) {
      if 1 <= k < 10 { assert words[k] == Options[k - 1]; }
      else if 11 <= k < 13 { assert words[k] == CopyOptions[k - 11]; }
    }
    SplitJoinSpaces(words);
    SplitJoinSpaces([cmd]);
  }

  /** A space in the output path (from the prefix or the directory) splits it
      into two arguments: the vector grows to 15 and its last argument is not
      the output path. */
  lemma SpaceInPathSplitsIt(cmd: string, url: string, head: string, tail: string)
    requires PlainToken(cmd) && PlainToken(url) && PlainToken(head) && PlainToken(tail)
    ensures var file := head + " " + tail;
            var argv := AsWrittenArgs(cmd, url, file);
            |argv| == 15 && argv[13] == head && argv[14] == tail && argv[14] != file
  {
    var file := head + " " + tail;
    assert JoinSpaces([head, tail]) == file;
    CommandLineIsJoin(cmd, url, [head, tail]);
    OptionsArePlain();
    var words := [cmd] + Options + [url] + CopyOptions + [head, tail];
    forall k | 0 <= k < |words| ensures PlainToken(words[k]) {
      if 1 <= k < 10 { assert words[k] == Options[k - 1]; }
      else if 11 <= k < 13 { assert words[k] == CopyOptions[k - 11]; }
    }
    SplitJoinSpaces(words);
    assert |file| > |tail|;
  }

  /** The concrete case: prefix `my cam` under `recs`. The path
      `recs/my cam.<timestamp>.mp4` reaches ffmpeg as `recs/my` and
      `cam.<timestamp>.mp4`. */
  lemma PrefixWithSpaceCounterexample(t: Filename.Stamp)
    requires t.Valid()
    ensures var file := Filename.GenerateFilename("my cam", "recs", t);
            var argv := AsWrittenArgs("ffmpeg", "rtsp://camera/stream", file);
            && |argv| == 15 && argv[13] == "recs/my"
            && argv[14] == "cam." + Filename.FormatStamp(t) + ".mp4" && argv[14] != file
  {
    var tail := "cam." + Filename.FormatStamp(t) + ".mp4";
    PathWithSpace(t);
    CounterexampleWordsArePlain();
    StampedNameIsPlain("cam.", t);
    SpaceInPathSplitsIt("ffmpeg", "rtsp://camera/stream", "recs/my", tail);
  }

  lemma CounterexampleWordsArePlain()
    ensures PlainToken("recs/my") && PlainToken("cam.")
    ensures PlainToken("ffmpeg") && PlainToken("rtsp://camera/stream")
  {
    assert forall k :: 0 <= k < |"recs/my"| ==> IsPlain("recs/my"[k]);
  }

  /** A plain word followed by a timestamp and `.mp4` is a plain word. */
  lemma StampedNameIsPlain(lead: string, t: Filename.Stamp)
    requires t.Valid() && PlainToken(lead)
    ensures PlainToken(lead + Filename.FormatStamp(t) + ".mp4")
  {
    var ts := Filename.FormatStamp(t);
    var name := lead + ts + ".mp4";
    forall k | 0 <= k < |name| ensures IsPlain(name[k]) {
      if k < |lead| {
        assert name[k] == lead[k];
      } else if k < |lead| + 19 {
        assert name[k] == ts[k - |lead|];
      }
    }
  }

  lemma PathWithSpace(t: Filename.Stamp)
    requires t.Valid()
    ensures Filename.GenerateFilename("my cam", "recs", t) == "recs/my" + " " + ("cam." + Filename.FormatStamp(t) + ".mp4")
  {
    var ts := Filename.FormatStamp(t);
    Filename.GenerateFilenameLayout("my cam", "recs", t);
    assert "recs" + "/" + "my cam" + "." == "recs/my cam.";
    assert "recs/my" + " " + "cam." == "recs/my cam.";
    Reassociate("recs/my", " ", "cam.", ts, ".mp4");
  }

  lemma Reassociate(a: string, b: string, c: string, d: string, e: string)
    ensures a + b + (c + d + e) == a + b + c + d + e
  {
  }
}
