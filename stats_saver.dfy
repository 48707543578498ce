/**
 * The result log (src/stats_saver.cpp): one CSV line per completed round, appended to
 * stats/<language>_results.csv. Files are modelled as their lines; whether the append
 * open succeeds, the wall-clock time and the stream's rendering of the two doubles
 * (cpm and accuracy) are inputs.
 */
module StatsSaving {
  import opened Numerals

  /** getStatsFilename: each language has its own log under stats/. */
  function GetStatsFilename(language: string): (name: string)
    ensures |name| == |language| + 18
    ensures name[..6] == "stats/" && name[6..|name| - 12] == language && name[|name| - 12..] == "_results.csv"
  {
    "stats/" + language + "_results.csv"
  }

  /** Different languages never share a log file. */
  lemma FilenameInjective(a: string, b: string)
    requires GetStatsFilename(a) == GetStatsFilename(b)
    ensures a == b
  {
    var n := GetStatsFilename(a);
    assert a == n[6..|n| - 12];
  }

  /** Broken-down local time, as localtime yields it. */
  datatype DateTime = DateTime(year: nat, month: nat, day: nat, hour: nat, minute: nat, second: nat)

  ghost predicate ValidDateTime(t: DateTime)
  {
    1 <= t.month <= 12 && 1 <= t.day <= 31 && t.hour < 24 && t.minute < 60 && t.second <= 60
  }

  /** A zero-padded two-digit field. */
  function TwoDigits(n: nat): (s: string)
    requires n < 100
    ensures |s| == 2 && AllDigits(s)
  {
    [DigitChar(n / 10), DigitChar(n % 10)]
  }

  /** getCurrentTimestamp: "%Y-%m-%d %H:%M:%S". It holds no comma, so it fills exactly the first field. */
  function FormatTimestamp(t: DateTime): (s: string)
    requires ValidDateTime(t)
    ensures ',' !in s && '\n' !in s
    ensures |s| == |NatDigits(t.year)| + 15
  {
    var s := NatDigits(t.year) + "-" + TwoDigits(t.month) + "-" + TwoDigits(t.day) + " " +
      TwoDigits(t.hour) + ":" + TwoDigits(t.minute) + ":" + TwoDigits(t.second);
    assert forall i :: 0 <= i < |s| ==> IsDigit(s[i]) || s[i] in "- :";
    s
  }

  /** The text field: the round's text between double quotes, quotes inside it not escaped. */
  function Quoted(text: string): (q: string)
    ensures |q| == |text| + 2 && q[0] == '"' && q[1..|q| - 1] == text && q[|q| - 1] == '"'
  {
    "\"" + text + "\""
  }

  /**
   * One record: timestamp,cpm,accuracy,errors,total_chars,duration_seconds,"text".
   * Quotes inside the text are written as they are.
   */
  function FormatRecord(timestamp: string, cpm: string, accuracy: string, errors: int, totalChars: int,
                        duration: int, text: string): (line: string)
    ensures '\n' !in line <==> '\n' !in timestamp && '\n' !in cpm && '\n' !in accuracy && '\n' !in text
    ensures |line| > 0 && line[|line| - 1] == '"'
  {
    var e, c, d := IntToString(errors), IntToString(totalChars), IntToString(duration);
    assert '\n' !in e && '\n' !in c && '\n' !in d;
    timestamp + "," + cpm + "," + accuracy + "," + e + "," + c + "," + d + "," + Quoted(text)
  }

  class StatsSaver {
    /** The log files of the stats directory, each as its lines. */
    var files: map<string, seq<string>>

    /** The lines of a file; a file that does not exist has none. */
    function Lines(name: string): seq<string>
      reads this
    {
      if name in files then files[name] else []
    }

    /** The directory creation of the constructor is not modelled; the directory starts with `initial`. */
    constructor (initial: map<string, seq<string>>)
      ensures files == initial
    {
      files := initial;
    }

    /**
     * saveResult: when the file opens, exactly one line is appended to the language's log
     * and every earlier line, and every other file, stays as it was; when it does not open,
     * nothing changes and no error is raised.
     */
    method SaveResult(language: string, canOpen: bool, now: DateTime, cpm: string, accuracy: string,
                      errors: int, totalChars: int, duration: int, text: string)
      requires ValidDateTime(now)
      modifies this
      ensures var name := GetStatsFilename(language);
        var line := FormatRecord(FormatTimestamp(now), cpm, accuracy, errors, totalChars, duration, text);
        canOpen ==> files == old(files)[name := old(Lines(name)) + [line]]
      ensures var name := GetStatsFilename(language);
        canOpen ==> |Lines(name)| == |old(Lines(name))| + 1 && Lines(name)[..|old(Lines(name))|] == old(Lines(name))
      ensures !canOpen ==> files == old(files)
    {
      var name := GetStatsFilename(language);
      if canOpen {
        var line := FormatRecord(FormatTimestamp(now), cpm, accuracy, errors, totalChars, duration, text);
        files := files[name := Lines(name) + [line]];
      }
    }
  }
}
