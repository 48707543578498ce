/**
 * The results screen (src/stats_analyzer.cpp): reading a language's log back into
 * session records, the per-field averages over the history, the percent-change marks
 * beside the current values, and the speed bar chart's window and bar heights.
 * Doubles are modelled as reals; the text the screen prints around them is not modelled.
 */
module StatsAnalysis {
  import opened Common
  import opened Numerals
  import Console

  /** One parsed log line (SessionStats). */
  datatype SessionStats = SessionStats(
    timestamp: string, cpm: real, accuracy: real, errors: int, totalChars: int, duration: int, text: string)

  /** The file the analyzer reads for a language. */
  function LogFileName(language: string): string
  {
    "stats/" + language + "_results.csv"
  }

  // ---------------------------------------------------------------------------
  // Reading one line: std::getline on a string stream.
  // ---------------------------------------------------------------------------

  /** A string stream over one line: what is left to read, and whether the stream is still good. */
  datatype LineStream = LineStream(rest: string, good: bool)

  /** The position of the first `delim` in `s`, or |s| when there is none. */
  function FindDelim(s: string, delim: char): (k: nat)
    ensures k <= |s|
    ensures forall i :: 0 <= i < k ==> s[i] != delim
    ensures k < |s| ==> s[k] == delim
  {
    if s == [] || s[0] == delim then 0 else 1 + FindDelim(s[1..], delim)
  }

  /**
   * std::getline(stream, target, delim). A stream that is not good leaves the target as it
   * was. Otherwise the target becomes everything before the first delimiter, which is
   * consumed; running out of input instead sets eof, so the stream is no longer good (and
   * extracting nothing at all fails it as well).
   */
  function GetLine(st: LineStream, delim: char, target: string): (r: (LineStream, string))
    ensures !st.good ==> r == (st, target)
    ensures st.good ==> delim !in r.1
    ensures st.good && r.0.good ==> st.rest == r.1 + [delim] + r.0.rest
    ensures st.good && !r.0.good ==> r.1 == st.rest && r.0.rest == []
  {
    if !st.good then (st, target)
    else
      var k := FindDelim(st.rest, delim);
      if k < |st.rest| then
        assert st.rest == st.rest[..k] + [delim] + st.rest[k + 1..];
        (LineStream(st.rest[k + 1..], true), st.rest[..k])
      else
        assert st.rest[..k] == st.rest;
        (LineStream([], false), st.rest)
  }

  /** A delimiter-free field followed by the delimiter is read whole, and the rest stays readable. */
  lemma GetLineField(field: string, delim: char, more: string, target: string)
    requires delim !in field
    ensures GetLine(LineStream(field + [delim] + more, true), delim, target) == (LineStream(more, true), field)
  {
    var s := field + [delim] + more;
    var k := FindDelim(s, delim);
    assert s[|field|] == delim;
    assert forall i :: 0 <= i < |field| ==> s[i] == field[i] && field[i] in field;
    assert k == |field|;
    assert s[..k] == field && s[k + 1..] == more;
  }

  /** A remainder without the delimiter is read whole and leaves the stream at its end. */
  lemma GetLineToEnd(rest: string, delim: char, target: string)
    requires delim !in rest
    ensures GetLine(LineStream(rest, true), delim, target) == (LineStream([], false), rest)
  {
  }

  /** The seven texts the loop body reads from one line, before any conversion. */
  datatype RawFields = RawFields(
    timestamp: string, cpm: string, accuracy: string, errors: string, totalChars: string, duration: string, text: string)

  /**
   * `count` successive getline calls into the same string up to a comma: each read field is
   * the starting text of the next, so once the stream fails every later field repeats it.
   */
  function ReadFields(st: LineStream, count: nat, field: string): (r: (LineStream, seq<string>))
    ensures |r.1| == count
    decreases count
  {
    if count == 0 then (st, [])
    else
      var step := GetLine(st, ',', field);
      var after := ReadFields(step.0, count - 1, step.1);
      (after.0, [step.1] + after.1)
  }

  /**
   * The getline calls of loadStats' loop body: the timestamp and five number fields are read
   * up to a comma, the text up to the end of the line; the timestamp, the number field and
   * the text all start out empty.
   */
  function SplitFields(line: string): (f: RawFields)
    ensures ',' !in f.timestamp
  {
    var (afterStamp, timestamp) := GetLine(LineStream(line, true), ',', "");
    var (afterNumbers, numbers) := ReadFields(afterStamp, 5, "");
    var (_, text) := GetLine(afterNumbers, '\n', "");
    RawFields(timestamp, numbers[0], numbers[1], numbers[2], numbers[3], numbers[4], text)
  }

  /** stod on the two rates and stoi on the three counts; None stands for the exception either throws. */
  function ConvertFields(f: RawFields): (r: Option<SessionStats>)
    ensures r.Some? ==> IntMin <= r.value.errors <= IntMax && IntMin <= r.value.totalChars <= IntMax &&
                        IntMin <= r.value.duration <= IntMax
    ensures r.Some? ==> r.value.timestamp == f.timestamp && r.value.text == f.text
  {
    var cpm, accuracy := ParseReal(f.cpm), ParseReal(f.accuracy);
    var errors, totalChars, duration := ParseInt(f.errors), ParseInt(f.totalChars), ParseInt(f.duration);
    if cpm.Some? && accuracy.Some? && errors.Some? && totalChars.Some? && duration.Some? then
      Some(SessionStats(f.timestamp, cpm.value, accuracy.value, errors.value, totalChars.value, duration.value, f.text))
    else None
  }

  /** One line of the log as loadStats reads it. */
  function ParseLine(line: string): (r: Option<SessionStats>)
    ensures r.Some? ==> IntMin <= r.value.errors <= IntMax && IntMin <= r.value.totalChars <= IntMax &&
                        IntMin <= r.value.duration <= IntMax
    ensures r.Some? ==> ',' !in r.value.timestamp
  {
    ConvertFields(SplitFields(line))
  }

  /**
   * A line made of six comma-free fields, each followed by a comma, and a remainder without a
   * line break: the fields are split on those six commas and the text is the whole remainder,
   * commas included.
   */
  lemma SplitFieldsOnCommas(timestamp: string, cpm: string, accuracy: string, errors: string, totalChars: string,
                            duration: string, rest: string)
    requires ',' !in timestamp && ',' !in cpm && ',' !in accuracy
    requires ',' !in errors && ',' !in totalChars && ',' !in duration
    requires '\n' !in rest
    ensures SplitFields(timestamp + "," + cpm + "," + accuracy + "," + errors + "," + totalChars + "," + duration + "," + rest)
         == RawFields(timestamp, cpm, accuracy, errors, totalChars, duration, rest)
  {
    var r6 := duration + "," + rest;
    var r5 := totalChars + "," + r6;
    var r4 := errors + "," + r5;
    var r3 := accuracy + "," + r4;
    var r2 := cpm + "," + r3;
    var line := timestamp + "," + r2;
    assert timestamp + "," + cpm + "," + accuracy + "," + errors + "," + totalChars + "," + duration + "," + rest == line;
    GetLineField(timestamp, ',', r2, "");
    GetLineField(cpm, ',', r3, "");
    GetLineField(accuracy, ',', r4, cpm);
    GetLineField(errors, ',', r5, accuracy);
    GetLineField(totalChars, ',', r6, errors);
    GetLineField(duration, ',', rest, totalChars);
    var end := LineStream(rest, true);
    var n1 := ReadFields(LineStream(r6, true), 1, totalChars);
    assert n1.0 == end && n1.1[0] == duration;
    var n2 := ReadFields(LineStream(r5, true), 2, errors);
    assert n2.0 == end && n2.1[0] == totalChars && n2.1[1..] == n1.1;
    var n3 := ReadFields(LineStream(r4, true), 3, accuracy);
    assert n3.0 == end && n3.1[0] == errors && n3.1[1..] == n2.1;
    var n4 := ReadFields(LineStream(r3, true), 4, cpm);
    assert n4.0 == end && n4.1[0] == accuracy && n4.1[1..] == n3.1;
    var n5 := ReadFields(LineStream(r2, true), 5, "");
    assert n5.0 == end && n5.1[0] == cpm && n5.1[1..] == n4.1;
    assert n5.1[1] == accuracy && n5.1[2] == errors && n5.1[3] == totalChars && n5.1[4] == duration;
    GetLineToEnd(rest, '\n', "");
  }

  /** Parsing such a line: the record holds the five converted numbers and the remainder as its text. */
  lemma ParseLineFields(timestamp: string, cpm: string, accuracy: string, errors: string, totalChars: string,
                        duration: string, rest: string)
    requires ',' !in timestamp && ',' !in cpm && ',' !in accuracy
    requires ',' !in errors && ',' !in totalChars && ',' !in duration
    requires '\n' !in rest
    ensures var line := timestamp + "," + cpm + "," + accuracy + "," + errors + "," + totalChars + "," + duration + "," + rest;
      var c, a, e, t, d := ParseReal(cpm), ParseReal(accuracy), ParseInt(errors), ParseInt(totalChars), ParseInt(duration);
      ParseLine(line) ==
        if c.Some? && a.Some? && e.Some? && t.Some? && d.Some? then
          Some(SessionStats(timestamp, c.value, a.value, e.value, t.value, d.value, rest))
        else None
  {
    SplitFieldsOnCommas(timestamp, cpm, accuracy, errors, totalChars, duration, rest);
  }

  /**
   * A row with only three fields: the stream fails on the third, so every later number
   * field repeats the third one and the text keeps its empty start value.
   */
  lemma ShortRowFields(timestamp: string, cpm: string, accuracy: string)
    requires ',' !in timestamp && ',' !in cpm && ',' !in accuracy
    ensures SplitFields(timestamp + "," + cpm + "," + accuracy)
         == RawFields(timestamp, cpm, accuracy, accuracy, accuracy, accuracy, "")
  {
    var r2 := cpm + "," + accuracy;
    assert timestamp + "," + cpm + "," + accuracy == timestamp + [','] + r2;
    GetLineField(timestamp, ',', r2, "");
    GetLineField(cpm, ',', accuracy, "");
    GetLineToEnd(accuracy, ',', cpm);
    var done := LineStream([], false);
    var n2 := ReadFields(done, 2, accuracy);
    assert n2.0 == done && n2.1[0] == accuracy && n2.1[1] == accuracy;
    var n3 := ReadFields(done, 3, accuracy);
    assert n3.0 == done && n3.1[0] == accuracy && n3.1[1..] == n2.1;
    var n4 := ReadFields(LineStream(accuracy, true), 4, cpm);
    assert n4.0 == done && n4.1[0] == accuracy && n4.1[1..] == n3.1;
    var n5 := ReadFields(LineStream(r2, true), 5, "");
    assert n5.0 == done && n5.1[0] == cpm && n5.1[1..] == n4.1;
    assert n5.1[1] == accuracy && n5.1[2] == accuracy && n5.1[3] == accuracy && n5.1[4] == accuracy;
  }

  /**
   * A short row is not rejected: when its third field reads both as a real and as an int,
   * that one value supplies the accuracy, the error count, the total and the duration.
   */
  lemma ShortRowRepeatsField(timestamp: string, cpm: string, accuracy: string)
    requires ',' !in timestamp && ',' !in cpm && ',' !in accuracy
    ensures var c, a, n := ParseReal(cpm), ParseReal(accuracy), ParseInt(accuracy);
      ParseLine(timestamp + "," + cpm + "," + accuracy) ==
        if c.Some? && a.Some? && n.Some? then
          Some(SessionStats(timestamp, c.value, a.value, n.value, n.value, n.value, ""))
        else None
  {
    ShortRowFields(timestamp, cpm, accuracy);
  }

  /** Why the whole load fails: the exception stod or stoi throws on the line with this index. */
  datatype LoadFailure = BadLine(index: nat)

  /** The lines of the language's log; a log that cannot be opened reads as no lines. */
  function LogLines(files: map<string, seq<string>>, language: string): seq<string>
  {
    if LogFileName(language) in files then files[LogFileName(language)] else []
  }

  /**
   * The loop of loadStats over the lines of a log, for a given per-line reader: one record per
   * line in order, stopping at the first line the reader rejects.
   */
  method ParseLines(lines: seq<string>, parse: string -> Option<SessionStats>)
    returns (r: Result<seq<SessionStats>, LoadFailure>)
    ensures r.Ok? ==> |r.value| == |lines| && forall i :: 0 <= i < |lines| ==> parse(lines[i]) == Some(r.value[i])
    ensures r.Err? ==> r.error.index < |lines| && parse(lines[r.error.index]).None?
    ensures r.Err? ==> forall i :: 0 <= i < r.error.index ==> parse(lines[i]).Some?
  {
    var stats := [];
    var i := 0;
    while i < |lines|
      invariant 0 <= i <= |lines| && |stats| == i
      invariant forall j :: 0 <= j < i ==> parse(lines[j]) == Some(stats[j])
    {
      var stat := parse(lines[i]);
      if stat.None? {
        return Err(BadLine(i));
      }
      stats := stats + [stat.value];
      i := i + 1;
    }
    r := Ok(stats);
  }

  /**
   * loadStats: a log that does not exist reads as no history; otherwise each line becomes one
   * record, in file order, and the first line whose numbers do not convert aborts the load.
   */
  method LoadStats(files: map<string, seq<string>>, language: string)
    returns (r: Result<seq<SessionStats>, LoadFailure>)
    ensures LogFileName(language) !in files ==> r == Ok([])
    ensures r.Ok? ==> |r.value| == |LogLines(files, language)|
    ensures r.Ok? ==> forall i :: 0 <= i < |r.value| ==> ParseLine(LogLines(files, language)[i]) == Some(r.value[i])
    ensures r.Err? ==> r.error.index < |LogLines(files, language)|
    ensures r.Err? ==> ParseLine(LogLines(files, language)[r.error.index]).None?
    ensures r.Err? ==> forall i :: 0 <= i < r.error.index ==> ParseLine(LogLines(files, language)[i]).Some?
  {
    r := ParseLines(LogLines(files, language), ParseLine);
  }

  // ---------------------------------------------------------------------------
  // Averages.
  // ---------------------------------------------------------------------------

  /** The three getters the summary averages over. */
  datatype StatField = CpmField | AccuracyField | ErrorsField

  function FieldOf(s: SessionStats, field: StatField): real
  {
    match field
    case CpmField => s.cpm
    case AccuracyField => s.accuracy
    case ErrorsField => s.errors as real
  }

  function Values(stats: seq<SessionStats>, field: StatField): (xs: seq<real>)
    ensures |xs| == |stats|
    ensures forall i :: 0 <= i < |stats| ==> xs[i] == FieldOf(stats[i], field)
  {
    seq(|stats|, i requires 0 <= i < |stats| => FieldOf(stats[i], field))
  }

  function Sum(xs: seq<real>): real
  {
    if xs == [] then 0.0 else Sum(xs[..|xs| - 1]) + xs[|xs| - 1]
  }

  /** The mean, taken as 0 for no values. */
  function Average(xs: seq<real>): real
  {
    if xs == [] then 0.0 else Sum(xs) / |xs| as real
  }

  lemma {:induction false} SumBounds(xs: seq<real>, lo: real, hi: real)
    requires forall i :: 0 <= i < |xs| ==> lo <= xs[i] <= hi
    ensures |xs| as real * lo <= Sum(xs) <= |xs| as real * hi
  {
    if xs != [] {
      SumBounds(xs[..|xs| - 1], lo, hi);
    }
  }

  /** The mean of values that all lie in lo..hi lies in lo..hi too. */
  lemma AverageBounds(xs: seq<real>, lo: real, hi: real)
    requires xs != []
    requires forall i :: 0 <= i < |xs| ==> lo <= xs[i] <= hi
    ensures lo <= Average(xs) <= hi
  {
    SumBounds(xs, lo, hi);
    var n := |xs| as real;
    assert Average(xs) * n == Sum(xs);
  }

  /** The mean of n copies of one value is that value. */
  lemma {:induction false} AverageOfConstant(xs: seq<real>, v: real)
    requires xs != []
    requires forall i :: 0 <= i < |xs| ==> xs[i] == v
    ensures Average(xs) == v
  {
    AverageBounds(xs, v, v);
  }

  /** calculateAverage: 0 for an empty history, otherwise the field's sum over the count. */
  method CalculateAverage(stats: seq<SessionStats>, field: StatField) returns (avg: real)
    ensures avg == Average(Values(stats, field))
  {
    if |stats| == 0 {
      return 0.0;
    }
    var xs := Values(stats, field);
    var sum := 0.0;
    var i := 0;
    while i < |stats|
      invariant 0 <= i <= |stats|
      invariant sum == Sum(xs[..i])
    {
      assert xs[..i + 1][..i] == xs[..i];
      sum := sum + FieldOf(stats[i], field);
      i := i + 1;
    }
    assert xs[..|stats|] == xs;
    avg := sum / |stats| as real;
  }

  // ---------------------------------------------------------------------------
  // Percent change marks.
  // ---------------------------------------------------------------------------

  /**
   * The mark beside a current value: nothing, or "(+x%)" in green / "(x%)" in red, where
   * `prefix` is the opening part and `percent` the number printed with one decimal.
   */
  datatype ChangeText = Blank | Shown(prefix: string, percent: real, improved: bool)

  /** The mark for a change already computed in percent: positive green, negative red, zero nothing. */
  function ShowChange(percent: real): (t: ChangeText)
    ensures t.Blank? <==> percent == 0.0
    ensures t.Shown? ==> t.percent == percent && (t.improved <==> percent > 0.0)
    ensures t.Shown? ==> t.prefix == if percent > 0.0 then "(+" else "("
  {
    if percent > 0.0 then Shown("(+", percent, true)
    else if percent < 0.0 then Shown("(", percent, false)
    else Blank
  }

  /** formatChange: the relative change of `current` against `average`, in percent. */
  function FormatChange(current: real, average: real): (t: ChangeText)
    ensures t.Blank? <==> average == 0.0 || current == average
    ensures t.Shown? ==> t.percent == (current - average) / average * 100.0
    ensures t.Shown? ==> t.prefix == (if t.improved then "(+" else "(")
  {
    if average == 0.0 then Blank
    else
      RelativeChangeZero(current, average);
      ShowChange((current - average) / average * 100.0)
  }

  lemma RelativeChangeZero(current: real, average: real)
    requires average != 0.0
    ensures (current - average) / average * 100.0 == 0.0 <==> current == average
  {
    var q := (current - average) / average;
    assert q * average == current - average;
  }

  /** Against a positive average, the mark is green exactly when the current value is higher. */
  lemma FormatChangeSign(current: real, average: real)
    requires average > 0.0
    ensures FormatChange(current, average).Shown? && FormatChange(current, average).improved <==> current > average
    ensures FormatChange(current, average).Shown? && !FormatChange(current, average).improved <==> current < average
  {
    var q := (current - average) / average;
    assert q * average == current - average;
  }

  /** Negating both the value and the average leaves the mark unchanged. */
  lemma FormatChangeNegation(current: real, average: real)
    ensures FormatChange(-current, -average) == FormatChange(current, average)
  {
    if average != 0.0 {
      assert (-current - -average) / -average == (current - average) / average;
    }
  }

  /** The errors mark as the summary writes it: formatChange(-current_errors, -avg_errors). */
  function ErrorsChangeAsWritten(currentErrors: int, averageErrors: real): (t: ChangeText)
    ensures t == FormatChange(currentErrors as real, averageErrors)
  {
    FormatChangeNegation(currentErrors as real, averageErrors);
    FormatChange(-(currentErrors as real), -averageErrors)
  }

  /** With the negation cancelled, one error against an average of two shows as a red drop of 50%. */
  lemma FewerErrorsShownAsWorse()
    ensures ErrorsChangeAsWritten(1, 2.0) == Shown("(", -50.0, false)
  {
  }

  /** Any round with fewer errors than the average is marked red. */
  lemma {:induction false} ErrorsMarkReversed(currentErrors: int, averageErrors: real)
    requires averageErrors > 0.0 && (currentErrors as real) < averageErrors
    ensures ErrorsChangeAsWritten(currentErrors, averageErrors).Shown?
    ensures !ErrorsChangeAsWritten(currentErrors, averageErrors).improved
  {
    FormatChangeSign(currentErrors as real, averageErrors);
  }

  /**
   * The errors mark as the negation evidently intends: the relative drop in errors, so that
   * fewer errors than the average is shown green.
   */
  function ErrorsChange(currentErrors: int, averageErrors: real): (t: ChangeText)
    ensures t.Blank? <==> averageErrors == 0.0 || currentErrors as real == averageErrors
    ensures averageErrors > 0.0 ==> (t.Shown? && t.improved <==> (currentErrors as real) < averageErrors)
    ensures averageErrors > 0.0 ==> (t.Shown? && !t.improved <==> (currentErrors as real) > averageErrors)
  {
    if averageErrors == 0.0 then Blank
    else
      var c := currentErrors as real;
      var q := (averageErrors - c) / averageErrors;
      assert q * averageErrors == averageErrors - c;
      ShowChange(q * 100.0)
  }

  // ---------------------------------------------------------------------------
  // The summary block.
  // ---------------------------------------------------------------------------

  /** The values displayFullStats shows: three averages, three marks and the session count. */
  datatype Summary = Summary(
    avgCpm: real, avgAccuracy: real, avgErrors: real,
    cpmChange: ChangeText, accuracyChange: ChangeText, errorsChange: ChangeText,
    sessions: nat)

  /**
   * displayFullStats: averages over the history, each current value marked against its
   * average, and the count of sessions including the current one. The errors mark is the
   * one the code writes, formatChange(-current_errors, -avg_errors).
   */
  method FullStats(history: seq<SessionStats>, currentCpm: real, currentAccuracy: real, currentErrors: int)
    returns (s: Summary)
    ensures s.avgCpm == Average(Values(history, CpmField))
    ensures s.avgAccuracy == Average(Values(history, AccuracyField))
    ensures s.avgErrors == Average(Values(history, ErrorsField))
    ensures s.cpmChange == FormatChange(currentCpm, s.avgCpm)
    ensures s.accuracyChange == FormatChange(currentAccuracy, s.avgAccuracy)
    ensures s.errorsChange == ErrorsChangeAsWritten(currentErrors, s.avgErrors)
    ensures s.avgErrors > 0.0 && (currentErrors as real) < s.avgErrors ==>
              s.errorsChange.Shown? && !s.errorsChange.improved
    ensures s.sessions == |history| + 1
    ensures history == [] ==> s.avgCpm == 0.0 && s.avgAccuracy == 0.0 && s.avgErrors == 0.0 &&
                              s.cpmChange == Blank && s.accuracyChange == Blank && s.errorsChange == Blank
  {
    var avgCpm := CalculateAverage(history, CpmField);
    var avgAccuracy := CalculateAverage(history, AccuracyField);
    var avgErrors := CalculateAverage(history, ErrorsField);
    s := Summary(avgCpm, avgAccuracy, avgErrors,
                 FormatChange(currentCpm, avgCpm), FormatChange(currentAccuracy, avgAccuracy),
                 ErrorsChangeAsWritten(currentErrors, avgErrors), |history| + 1);
    if avgErrors > 0.0 && (currentErrors as real) < avgErrors {
      ErrorsMarkReversed(currentErrors, avgErrors);
    }
  }

  /**
   * The summary with the errors mark the negation evidently intends: every other figure is
   * kept, and fewer errors than a positive average are marked green.
   */
  function CorrectedSummary(s: Summary, currentErrors: int): (c: Summary)
    ensures c.(errorsChange := s.errorsChange) == s
    ensures c.errorsChange == ErrorsChange(currentErrors, s.avgErrors)
    ensures s.avgErrors > 0.0 ==>
              (c.errorsChange.Shown? && c.errorsChange.improved <==> (currentErrors as real) < s.avgErrors)
  {
    s.(errorsChange := ErrorsChange(currentErrors, s.avgErrors))
  }

  // ---------------------------------------------------------------------------
  // The speed bar chart.
  // ---------------------------------------------------------------------------

  const ChartHeight: int := 8

  /**
   * The chart's series: the cpm of the last width/2 sessions (all of them when there are
   * fewer), oldest first, then the current cpm.
   */
  method SelectSpeeds(history: seq<SessionStats>, currentCpm: real, width: nat) returns (speeds: seq<real>)
    ensures |speeds| == Min(|history|, width / 2) + 1
    ensures speeds[|speeds| - 1] == currentCpm
    ensures forall k :: 0 <= k < |speeds| - 1 ==> speeds[k] == history[|history| - (|speeds| - 1) + k].cpm
  {
    var maxBars := width / 2;
    var start := Max(0, |history| - maxBars);
    speeds := [];
    var i := start;
    while i < |history|
      invariant start <= i <= |history| && |speeds| == i - start
      invariant forall k :: 0 <= k < |speeds| ==> speeds[k] == history[start + k].cpm
    {
      speeds := speeds + [history[i].cpm];
      i := i + 1;
    }
    speeds := speeds + [currentCpm];
  }

  /** std::max_element's value: the largest element. */
  function MaxOf(xs: seq<real>): (m: real)
    requires xs != []
    ensures m in xs
    ensures forall i :: 0 <= i < |xs| ==> xs[i] <= m
  {
    if |xs| == 1 then xs[0]
    else
      var front := MaxOf(xs[..|xs| - 1]);
      assert forall i :: 0 <= i < |xs| - 1 ==> xs[i] == xs[..|xs| - 1][i];
      if front >= xs[|xs| - 1] then front else xs[|xs| - 1]
  }

  /** static_cast<int> on a real: truncation toward zero. */
  function TruncToInt(x: real): (r: int)
    ensures x >= 0.0 ==> r >= 0 && r as real <= x < r as real + 1.0
    ensures x < 0.0 ==> r <= 0 && r as real - 1.0 < x <= r as real
  {
    if x >= 0.0 then x.Floor else -((-x).Floor)
  }

  /** One column of the chart: its height in cells and the colour role it is drawn in. */
  datatype Bar = Bar(height: int, role: int)

  /** A bar's height: the speed against the largest, scaled to eight cells and truncated. */
  function BarHeight(speed: real, top: real): (h: int)
    requires top != 0.0
    ensures speed == top ==> h == ChartHeight
    ensures 0.0 <= speed <= top ==> 0 <= h <= ChartHeight
  {
    var q := speed / top;
    assert q * top == speed;
    TruncToInt(q * 8.0)
  }

  /**
   * The bars: each speed scaled against the largest to at most eight cells, the last
   * (current) one in the CURRENT role and the history in the TYPED role. An all-zero series
   * divides by zero and is excluded.
   */
  method ScaleBars(speeds: seq<real>) returns (bars: seq<Bar>)
    requires speeds != [] && MaxOf(speeds) != 0.0
    ensures |bars| == |speeds|
    ensures forall i :: 0 <= i < |speeds| ==> bars[i].height == BarHeight(speeds[i], MaxOf(speeds))
    ensures forall i :: 0 <= i < |speeds| ==>
      bars[i].role == if i == |speeds| - 1 then Console.ColorCurrent else Console.ColorTyped
    ensures forall i :: 0 <= i < |speeds| && speeds[i] == MaxOf(speeds) ==> bars[i].height == ChartHeight
    ensures (forall i :: 0 <= i < |speeds| ==> speeds[i] >= 0.0) ==>
      forall i :: 0 <= i < |speeds| ==> 0 <= bars[i].height <= ChartHeight
  {
    var top := MaxOf(speeds);
    bars := [];
    var i := 0;
    while i < |speeds|
      invariant 0 <= i <= |speeds| && |bars| == i
      invariant forall k :: 0 <= k < i ==> bars[k].height == BarHeight(speeds[k], top)
      invariant forall k :: 0 <= k < i ==>
        bars[k].role == if k == |speeds| - 1 then Console.ColorCurrent else Console.ColorTyped
    {
      var role := if i == |speeds| - 1 then Console.ColorCurrent else Console.ColorTyped;
      bars := bars + [Bar(BarHeight(speeds[i], top), role)];
      i := i + 1;
    }
  }
}
