/**
 * The log format as both sides see it: what StatsSaving writes, StatsAnalysis reads back
 * (src/stats_saver.cpp against src/stats_analyzer.cpp).
 */
module StatsRoundTrip {
  import opened Common
  import opened Numerals
  import StatsSaving
  import StatsAnalysis

  /** The saver appends to the very file the analyzer reads. */
  lemma SameLogFile(language: string)
    ensures StatsSaving.GetStatsFilename(language) == StatsAnalysis.LogFileName(language)
  {
  }

  /** An int as the log writes it holds no comma. */
  lemma IntTextHasNoComma(n: int)
    ensures ',' !in IntToString(n)
  {
  }

  /**
   * Reading a saved record: the counts come back exactly, the two rates as their printed
   * text reads, and the text field is the round's text with its surrounding quotes, whatever
   * commas it holds. Only a line break inside the text would split the record.
   */
  lemma {:induction false} RecordRoundTrip(timestamp: string, cpm: string, accuracy: string, errors: int,
                                           totalChars: int, duration: int, text: string)
    requires ',' !in timestamp && ',' !in cpm && ',' !in accuracy
    requires ParseReal(cpm).Some? && ParseReal(accuracy).Some?
    requires IntMin <= errors <= IntMax && IntMin <= totalChars <= IntMax && IntMin <= duration <= IntMax
    requires '\n' !in text
    ensures StatsAnalysis.ParseLine(StatsSaving.FormatRecord(timestamp, cpm, accuracy, errors, totalChars, duration, text))
         == Some(StatsAnalysis.SessionStats(timestamp, ParseReal(cpm).value, ParseReal(accuracy).value,
                                            errors, totalChars, duration, StatsSaving.Quoted(text)))
  {
    var e, c, d := IntToString(errors), IntToString(totalChars), IntToString(duration);
    IntTextHasNoComma(errors);
    IntTextHasNoComma(totalChars);
    IntTextHasNoComma(duration);
    IntRoundTrip(errors);
    IntRoundTrip(totalChars);
    IntRoundTrip(duration);
    var rest := StatsSaving.Quoted(text);
    assert '\n' !in rest;
    assert StatsSaving.FormatRecord(timestamp, cpm, accuracy, errors, totalChars, duration, text)
        == timestamp + "," + cpm + "," + accuracy + "," + e + "," + c + "," + d + "," + rest;
    StatsAnalysis.ParseLineFields(timestamp, cpm, accuracy, e, c, d, rest);
  }

  /** A saved round with a real clock time reads back with that time as its timestamp. */
  lemma {:induction false} TimestampedRecordRoundTrip(now: StatsSaving.DateTime, cpm: nat, accuracy: nat, errors: nat,
                                                      totalChars: nat, duration: nat, text: string)
    requires StatsSaving.ValidDateTime(now)
    requires errors <= IntMax && totalChars <= IntMax && duration <= IntMax
    requires '\n' !in text
    ensures var ts := StatsSaving.FormatTimestamp(now);
      StatsAnalysis.ParseLine(StatsSaving.FormatRecord(ts, NatDigits(cpm), NatDigits(accuracy), errors, totalChars, duration, text))
        == Some(StatsAnalysis.SessionStats(ts, cpm as real, accuracy as real, errors, totalChars, duration, StatsSaving.Quoted(text)))
  {
    WholeNumberRoundTrip(cpm);
    WholeNumberRoundTrip(accuracy);
    assert ',' !in NatDigits(cpm) && ',' !in NatDigits(accuracy);
    RecordRoundTrip(StatsSaving.FormatTimestamp(now), NatDigits(cpm), NatDigits(accuracy), errors, totalChars, duration, text);
  }

  /** The five-character "hello" typed without a mistake in 30 seconds, at 10 cpm and 100% accuracy. */
  lemma HelloRecord(now: StatsSaving.DateTime)
    requires StatsSaving.ValidDateTime(now)
    ensures var ts := StatsSaving.FormatTimestamp(now);
      StatsAnalysis.ParseLine(StatsSaving.FormatRecord(ts, "10", "100", 0, 5, 30, "hello"))
        == Some(StatsAnalysis.SessionStats(ts, 10.0, 100.0, 0, 5, 30, "\"hello\""))
  {
    assert NatDigits(10) == "10" && NatDigits(100) == "100";
    assert StatsSaving.Quoted("hello") == "\"hello\"";
    TimestampedRecordRoundTrip(now, 10, 100, 0, 5, 30, "hello");
  }
}
