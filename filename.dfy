/** `generate_filename`: the output path `dir/prefix.DD-MM-YYYY.HH-MM-SS.mp4`.

    The source reads the wall clock and formats it with `strftime` using the
    pattern `%d-%m-%Y.%H-%M-%S`; here the calendar fields of that reading are
    a parameter, and the formatting is written out digit by digit. */
module Filename {

  /** The calendar fields of a local datetime, at second resolution. */
  datatype Stamp = Stamp(day: nat, month: nat, year: nat, hour: nat, minute: nat, second: nat)
  {
    /** The ranges a Python `datetime` guarantees for its fields. */
    predicate Valid() {
      1 <= day <= 31 && 1 <= month <= 12 && 1 <= year <= 9999 &&
      hour <= 23 && minute <= 59 && second <= 59
    }
  }

  const Extension: string := ".mp4"

  function DigitChar(d: nat): (c: char)
    requires d < 10
    ensures '0' <= c <= '9'
  {
    (48 + d) as char
  }

  function DigitValue(c: char): int {
    c as int - 48
  }

  predicate IsDigit(c: char) {
    '0' <= c <= '9'
  }

  /** `%d`, `%m`, `%H`, `%M`, `%S`: two digits, zero-padded. */
  function Pad2(n: nat): (s: string)
    requires n < 100
    ensures |s| == 2 && IsDigit(s[0]) && IsDigit(s[1])
    ensures 10 * DigitValue(s[0]) + DigitValue(s[1]) == n
  {
    [DigitChar(n / 10), DigitChar(n % 10)]
  }

  /** `%Y`: four digits, zero-padded. */
  function Pad4(n: nat): (s: string)
    requires n < 10000
    ensures |s| == 4 && forall k :: 0 <= k < 4 ==> IsDigit(s[k])
    ensures 1000 * DigitValue(s[0]) + 100 * DigitValue(s[1]) + 10 * DigitValue(s[2]) + DigitValue(s[3]) == n
  {
    var hi, lo := Pad2(n / 100), Pad2(n % 100);
    assert n == 100 * (n / 100) + n % 100;
    hi + lo
  }

  /** The `FILENAME_FORMAT` rendering `DD-MM-YYYY.HH-MM-SS`. */
  function FormatStamp(t: Stamp): (s: string)
    requires t.Valid()
    ensures |s| == 19
    ensures s[2] == '-' && s[5] == '-' && s[10] == '.' && s[13] == '-' && s[16] == '-'
    ensures forall k :: 0 <= k < 19 && k !in {2, 5, 10, 13, 16} ==> IsDigit(s[k])
  {
    Pad2(t.day) + "-" + Pad2(t.month) + "-" + Pad4(t.year) + "." +
    Pad2(t.hour) + "-" + Pad2(t.minute) + "-" + Pad2(t.second)
  }

  function Read2(s: string, i: nat): int
    requires i + 2 <= |s|
  {
    10 * DigitValue(s[i]) + DigitValue(s[i + 1])
  }

  function Read4(s: string, i: nat): int
    requires i + 4 <= |s|
  {
    1000 * DigitValue(s[i]) + 100 * DigitValue(s[i + 1]) + 10 * DigitValue(s[i + 2]) + DigitValue(s[i + 3])
  }

  /** Reads the fields back out of a rendered timestamp: the inverse of
      `FormatStamp`, used to show that distinct stamps render distinctly. */
  function ParseStamp(s: string): Stamp
    requires |s| == 19
  {
    var day := Read2(s, 0);
    var month := Read2(s, 3);
    var year := Read4(s, 6);
    var hour := Read2(s, 11);
    var minute := Read2(s, 14);
    var second := Read2(s, 17);
    if day < 0 || month < 0 || year < 0 || hour < 0 || minute < 0 || second < 0
    then Stamp(0, 0, 0, 0, 0, 0)
    else Stamp(day, month, year, hour, minute, second)
  }

  /** Parsing a rendered timestamp gives back the fields it was rendered from. */
  lemma ParseFormatStamp(t: Stamp)
    requires t.Valid()
    ensures ParseStamp(FormatStamp(t)) == t
  {
  }

  /** Two distinct second-resolution stamps render as distinct timestamps. */
  lemma FormatStampInjective(a: Stamp, b: Stamp)
    requires a.Valid() && b.Valid()
    requires FormatStamp(a) == FormatStamp(b)
    ensures a == b
  {
    ParseFormatStamp(a);
    ParseFormatStamp(b);
  }

  /** `str(pathlib.Path(dir) / name)`: the name alone when it is absolute or
      when the directory is empty or `.`, no separator added after a trailing
      `/`, and `dir/name` otherwise. */
  function JoinPath(dir: string, name: string): (p: string)
    ensures |name| <= |p| && p[|p| - |name|..] == name
  {
    if |name| > 0 && name[0] == '/' then name
    else if dir == "" || dir == "." then name
    else if dir[|dir| - 1] == '/' then dir + name
    else dir + "/" + name
  }

  /** The file name proper, `prefix.DD-MM-YYYY.HH-MM-SS.mp4`. */
  function FileName(prefix: string, t: Stamp): (name: string)
    requires t.Valid()
    ensures |name| == |prefix| + 24
    ensures name[..|prefix|] == prefix && name[|prefix|] == '.'
    ensures name[|prefix| + 1..|prefix| + 20] == FormatStamp(t)
    ensures name[|prefix| + 20..] == Extension
  {
    prefix + "." + FormatStamp(t) + Extension
  }

  /** `generate_filename(prefix, output_dir)` for a clock reading `t`. */
  function GenerateFilename(prefix: string, dir: string, t: Stamp): (path: string)
    requires t.Valid()
    ensures |path| >= 24
    ensures path[|path| - 4..] == Extension
    ensures path[|path| - 23..|path| - 4] == FormatStamp(t)
    ensures path[|path| - 24] == '.'
  {
    JoinPath(dir, FileName(prefix, t))
  }

  /** For an ordinary directory (not empty, not `.`, no trailing `/`) and a
      relative prefix, the path is `dir/` + prefix + `.` + timestamp + `.mp4`. */
  lemma GenerateFilenameLayout(prefix: string, dir: string, t: Stamp)
    requires t.Valid()
    requires dir != "" && dir != "." && dir[|dir| - 1] != '/'
    requires prefix == "" || prefix[0] != '/'
    ensures GenerateFilename(prefix, dir, t) == dir + "/" + prefix + "." + FormatStamp(t) + ".mp4"
  {
  }

  /** Whatever the prefix and directory, two distinct stamps give two distinct
      paths: the last 23 characters of a path determine its stamp. */
  lemma DistinctStampsDistinctPaths(prefix: string, dir: string, a: Stamp, b: Stamp)
    requires a.Valid() && b.Valid() && a != b
    ensures GenerateFilename(prefix, dir, a) != GenerateFilename(prefix, dir, b)
  {
    if GenerateFilename(prefix, dir, a) == GenerateFilename(prefix, dir, b) {
      FormatStampInjective(a, b);
    }
  }
}
