# Blind-printing typing trainer — a Dafny model

This project models the core of a terminal touch-typing trainer. It covers:

- **Typing session** (`typing_session.dfy`, `keyboard.dfy`): a round on a random text.
  - The layout (Russian or English) comes from the first letter of the text.
  - The user presses a start key. Keys are then read until the cursor reaches the end of the text or Esc/q/Q is pressed.
  - A wrong key counts an error and the cursor stays where it is.
  - After a completed round, Enter starts another round and Esc/q/Q leaves.
  - Also modelled: the live statistics (speed, accuracy, progress), the figures of the results screen and the on-screen keyboard highlight.
- **Text corpus** (`text_provider.dfy`): the non-empty lines of a language's text file, and a random pick among them.
- **Statistics log** (`stats_saver.dfy`, `stats_analyzer.dfy`, `stats_roundtrip.dfy`, `numerals.dfy`):
  - One CSV line is appended per session to `stats/<language>_results.csv`.
  - The log is read back with `getline` and `stoi`/`stod`.
  - Averages are computed, and each figure's change against its average is marked.
  - The last sessions' speeds are scaled into an eight-row bar chart.
- **Language menu** (`menu_handler.dfy`):
  - The `.txt` entries of `data/` become items with capitalised names, sorted by name.
  - A cursor moves over them with the arrow keys or `k`/`j`.
  - Enter or Space chooses an item. Esc leaves the menu.
- **Terminal wrapper** (`console.dfy`): where centred text lands, and the colour pair and bold state that `setColor`/`resetColor` leave behind.

The program's inputs become parameters:

- The keys pressed are a `seq<int>` of key codes.
- A file is `Option<seq<string>>`, where `None` means it cannot be opened.
- A directory listing is a sequence of entry names.
- The file system the log is written to is a `map` from path to lines.
- The clock reading is a `DateTime` value, and durations are whole seconds.
- The random choice of a text is a nondeterministic choice of index.

Where the C++ works by updating state step by step, the model does the same:

- Loops are methods with loop invariants.
- The provider, saver, menu and console handler are classes whose methods change their fields.

Each such method is proved against a specification function, such as `Run`, `DisplayName`, `SortItems`, `Average` or `NonEmptyLines`, and the lemmas state what the program promises about that function.

Notes on the code as written, which the model follows:

- `TypingSession::start` neither saves nor analyses results. Saving and analysis are separate operations here.
- Accuracy is not clamped at zero. It becomes negative once errors outnumber characters.
- The speed chart shows at most `width / 2` past sessions, plus the current one.
- Esc in the language menu returns the empty path.
- The errors line of the statistics summary negates both of its arguments before marking the change, so fewer errors than average are marked red. `FullStats` keeps that mark. `CorrectedSummary` gives the mark the code evidently intends (see Findings).

## Model

| member | source | states |
|---|---|---|
| Console.PairFor | src/console_handler.cpp:85-105 | Each colour role selects its own registered pair in 1..5. An unknown role, and only an unknown role, falls back to the default pair. |
| Console.PairsDistinct | src/console_handler.cpp:29-33 | The four roles TYPED, CURRENT, ERROR and UNTYPED map to four different colour pairs. |
| Console.ApplyColor | src/console_handler.cpp:85-105 | After setColor, the pair is the role's pair. Bold is on iff it was on before or the role is CURRENT or ERROR, because setColor clears only the colour bits. |
| Console.BoldPersists | src/console_handler.cpp:85-105 | After any series of setColor calls, bold is on iff it was on at the start or some call used CURRENT or ERROR. The pair is the one of the last call. |
| Console.TruncDiv | src/console_handler.cpp:66-67 | C++ int division truncates toward zero: Euclidean division for a non-negative dividend, the negated quotient of the negation otherwise. |
| Console.ConsoleHandler.constructor | src/console_handler.cpp:14-37 | Initialisation records the screen size once and selects the default pair without bold. |
| Console.ConsoleHandler.SetColor | src/console_handler.cpp:85-105 | The new attribute state is ApplyColor of the old state and the role. |
| Console.ConsoleHandler.ResetColor | src/console_handler.cpp:107-111 | resetColor leaves the default pair with bold off, whatever came before. |
| Console.ConsoleHandler.GetScreenSize | src/console_handler.cpp:113-115 | Returns the dimensions captured at initialisation. |
| Console.ConsoleHandler.CenteredPosition | src/console_handler.cpp:57-77 | The column centres the text. The measured width is used, or the code-point count when the width is unknown. The column is never negative, and the free space splits with at most one extra column on the right. The row is half the height plus the offset, clamped into the screen. |
| Keyboard.Layout | src/typing_session.cpp:230-252 | Either layout has exactly three key rows. |
| Keyboard.LayoutsDistinct | src/typing_session.cpp:230-248 | No key face appears twice in either layout, across all three rows. |
| Keyboard.LayoutsWellPlaced | src/typing_session.cpp:230-248 | Within each row, keys sit at strictly increasing columns inside the keyboard frame's borders. |
| Keyboard.CodedKeysDistinct | src/typing_session.cpp:230-248 | If a code gives each key its (row, index) position, then every key face is distinct. |
| Keyboard.RuRowsCoded | src/typing_session.cpp:230-238 | Each Russian key face has a code equal to its row and index. |
| Keyboard.EnRowsCoded | src/typing_session.cpp:240-248 | Each English key face has a code equal to its row and index. |
| Keyboard.FirstMatch | src/typing_session.cpp:291-298 | The row scan finds the key iff the row holds that face. It returns the column of the first key with that face, and stops there. |
| Keyboard.HitsSound | src/typing_session.cpp:289-300 | Every highlight is at a row (1..3) and column where that face is. There is no highlight iff no row holds the face. |
| Keyboard.HitsAtMostOne | src/typing_session.cpp:289-300 | When no face repeats across the rows, at most one key is highlighted. |
| Keyboard.SearchRows | src/typing_session.cpp:290-300 | The nested scan finds exactly the specification's hits: rows in order, each stopping at its first match. |
| Keyboard.HighlightKey | src/typing_session.cpp:289-300 | The highlight loop lights at most one key of the chosen layout. It lights exactly one iff the upper-cased character is on that layout, at its row and column. |
| TextProviding.NonEmptyLines | src/text_provider.cpp:16-21 | The kept lines are no more than the file's lines, and none is empty. |
| TextProviding.NonEmptyLinesExact | src/text_provider.cpp:16-21 | The kept lines are exactly the non-empty lines of the file, and there are no more of them than file lines. |
| TextProviding.NonEmptyLinesAppend | src/text_provider.cpp:16-21 | Filtering commutes with concatenation, so file order is kept. |
| TextProviding.TextProvider.constructor | src/text_provider.cpp:6-8 | A new provider holds no texts. |
| TextProviding.TextProvider.LoadTexts | src/text_provider.cpp:10-26 | An unopenable file is an error and the store is unchanged. Otherwise the file's non-empty lines are appended in order. The result is an error iff no text is stored at the end. Success leaves a usable provider. |
| TextProviding.TextProvider.GetRandomText | src/text_provider.cpp:28-34 | The result is one of the stored texts, which is non-empty. |
| TypingSession.IsRussianLetter | src/typing_session.cpp:220-222 | A Russian letter is a character from 'А' to 'я', or 'Ё' or 'ё'. |
| TypingSession.IsEnglishLetter | src/typing_session.cpp:224-226 | An English letter is an ASCII letter, upper or lower case. |
| TypingSession.LetterClassesDisjoint | src/typing_session.cpp:220-226 | No character is both a Russian and an English letter. |
| TypingSession.DetectLayout | src/typing_session.cpp:38-47 | The layout is Russian iff the first letter of either alphabet in the text is Russian. A text with no letter is English. |
| TypingSession.IsAbortKey | src/typing_session.cpp:85-87 | The keys that end a round: Esc (27), 'q' and 'Q'. |
| TypingSession.Step | src/typing_session.cpp:85-120 | One key in a running round: an abort key ends the round and keeps the counters. The expected key advances the cursor and never aborts: the round completes at the end of the text and keeps running before it. Any other key adds one error. Consistency is kept. |
| TypingSession.Run | src/typing_session.cpp:73-125 | Any key sequence keeps the round consistent. Cursor and error count never decrease, and a finished round ignores further keys. |
| TypingSession.RunAppend | src/typing_session.cpp:73-125 | Typing a + b equals typing a, then b from the resulting state. |
| TypingSession.RunSnoc | src/typing_session.cpp:73-125 | Typing one more key is one Step on the state reached, if the round is still running. |
| TypingSession.ErrorsNeverDecrease | src/typing_session.cpp:92-120 | Over any prefix of the input, errors and progress are at most those over the whole input. |
| TypingSession.Codes | src/typing_session.cpp:92 | A text's key codes are its characters, position by position. |
| TypingSession.TypedInOrder | src/typing_session.cpp:92-98 | The characters the cursor passed over occur in order among the keys typed. |
| TypingSession.CompletedRoundTypedText | src/typing_session.cpp:73-125 | In a completed round, the whole text was typed, in order, as a subsequence of the keys. |
| TypingSession.QuitCharBlocksCompletion | src/typing_session.cpp:85-89 | A 'q' or 'Q' in the text cannot be typed, since it aborts the round. The cursor never passes it and the round never completes. |
| TypingSession.ExactTypingCompletes | src/typing_session.cpp:92-125 | Typing the remaining text exactly, when it holds no abort key, completes the round with no new error. |
| TypingSession.CatScenario | src/typing_session.cpp:92-120 | Typing "c a x t" on "cat" completes it with one error. |
| TypingSession.PlayRound | src/typing_session.cpp:11-142 | One round: an empty text is a conversion failure. The layout follows DetectLayout. An abort key at the prompt quits. Otherwise the round state is Run on the keys after the start key, and each key read is a character passed or an error. A completed round typed the text in order. The outcome and keys used are those of Round. |
| TypingSession.KeysRead | src/typing_session.cpp:73-125 | The number of keys a running round reads before it finishes, at most the keys available. |
| TypingSession.KeysReadStops | src/typing_session.cpp:73-125 | The round's state after the keys it reads is its state after all the keys. If it is still running, it read them all. |
| TypingSession.Round | src/typing_session.cpp:11-125 | One round as a function of the keys: the outcome and the keys used. A played round uses at least the start key. |
| TypingSession.IsChoiceKey | src/typing_session.cpp:136 | The keys that end the wait after a round: Enter, Esc, 'q' and 'Q'. |
| TypingSession.Choice | src/typing_session.cpp:134-136 | The first Enter/Esc/q/Q key at or after position i, and whether it is Enter. Used keys stay within the input. |
| TypingSession.StoppedIsFinal | src/typing_session.cpp:11-142 | Once the session has stopped, drawing more texts changes nothing. |
| TypingSession.AwaitChoice | src/typing_session.cpp:132-140 | The wait skips keys other than Enter, Esc, q and Q. Enter asks for another round and the others leave. The result is Choice from the first key. |
| TypingSession.Start | src/typing_session.cpp:11-142 | The rounds played are exactly those of Session on the texts drawn: the session continues only on Enter after a completed round, and stops at an abort at the prompt, an abort within a round, or input that runs out. Every drawn text is from the corpus. Each completed round's typed keys hold the text in order, one key per character plus one per error. |
| TypingSession.CalculateCpm | src/typing_session.cpp:199-203 | The speed is zero for a zero duration. Otherwise it is characters per minute. |
| TypingSession.CalculateAccuracy | src/typing_session.cpp:205-207 | Accuracy is 100 iff there is no error. It is negative iff errors exceed characters, and lies in 0..100 when errors are between zero and the length. |
| TypingSession.Progress | src/typing_session.cpp:152 | The progress percentage is the floor of 100·pos/total. It is at most 100 and reaches 100 exactly at the end of the text. |
| TypingSession.PercentBounds | src/typing_session.cpp:152 | The truncated percentage brackets 100·pos between p·total and (p+1)·total. A cursor within the text gives at most 100, with 100 only at the end. |
| TypingSession.RealtimeStats | src/typing_session.cpp:144-176 | The live line shows the speed over the characters typed so far (zero in the first second), an accuracy of at most 100 that is 100 iff error-free, the error count, and the progress. |
| TypingSession.HelloScenario | src/typing_session.cpp:199-207 | Five characters in 30 s without an error give 10 per minute and 100 % accuracy. |
| Numerals.NatDigits | src/stats_saver.cpp:25-32 | A number is written as a non-empty run of digits. |
| Numerals.NatDigitsValue | src/stats_saver.cpp:25-32 | Reading back the digits of n gives n. |
| Numerals.IntToString | src/stats_saver.cpp:25-32 | An int is written as digits with a leading '-' iff it is negative. |
| Numerals.SkipSpaces | src/stats_analyzer.cpp:40-44 | The number parsers drop a prefix made only of white space and keep the rest, which starts with a non-space character. |
| Numerals.DigitRun | src/stats_analyzer.cpp:40-44 | The longest run of leading digits. |
| Numerals.ParseInt | src/stats_analyzer.cpp:42-44 | stoi succeeds only with a value in the 32-bit int range. |
| Numerals.SignedValue | src/stats_analyzer.cpp:42-44 | The signed value of the leading digits is accepted only when it lies in the int range. |
| Numerals.ParseSignedDigits | src/stats_analyzer.cpp:42-44 | stoi on an optional minus sign followed by digits reads the value they denote, when it is an int. |
| Numerals.IntRoundTrip | src/stats_analyzer.cpp:42-44 | stoi reads back every int written by operator<<. |
| Numerals.ParseReal | src/stats_analyzer.cpp:40-41 | stod on plain decimal text: optional sign, digits, optional fraction. Its partner is WholeNumberRoundTrip. |
| Numerals.FractionValue | src/stats_analyzer.cpp:40-41 | A fraction's digits give a value between 0 and 1. |
| Numerals.WholeNumberRoundTrip | src/stats_analyzer.cpp:40-41 | stod reads back every whole number written in decimal digits. |
| StatsSaving.GetStatsFilename | src/stats_saver.cpp:36-39 | The log path is "stats/" + language + "_results.csv". |
| StatsSaving.FilenameInjective | src/stats_saver.cpp:36-39 | Different languages log to different files. |
| StatsSaving.FormatTimestamp | src/stats_saver.cpp:46-53 | The "%Y-%m-%d %H:%M:%S" timestamp of a valid date holds no comma and no newline. Its length is the year's digits plus 15. |
| StatsSaving.Quoted | src/stats_saver.cpp:31 | The text field is the text between two double quotes. |
| StatsSaving.FormatRecord | src/stats_saver.cpp:25-32 | The record is one line (no newline) iff none of its string fields holds a newline, and it ends in the closing quote. |
| StatsSaving.StatsSaver.constructor | src/stats_saver.cpp:7-10 | The saver starts from the given file system. |
| StatsSaving.StatsSaver.SaveResult | src/stats_saver.cpp:12-34 | If the log can be opened, exactly one record line is appended to the language's log, and no other file changes. Otherwise nothing changes. |
| StatsAnalysis.FindDelim | src/stats_analyzer.cpp:39-45 | The first delimiter position, or the end of the text. |
| StatsAnalysis.GetLine | src/stats_analyzer.cpp:39-45 | A failed stream leaves the field unchanged. Otherwise the field is the text up to the first delimiter, and the stream stays good. If there is no delimiter, the rest is read and the stream fails. |
| StatsAnalysis.GetLineField | src/stats_analyzer.cpp:39-44 | A delimited field is read exactly, and the stream continues after the delimiter. |
| StatsAnalysis.GetLineToEnd | src/stats_analyzer.cpp:45 | A last field without a delimiter is read to the end, and the stream fails. |
| StatsAnalysis.ReadFields | src/stats_analyzer.cpp:39-44 | Reading n fields yields n values. |
| StatsAnalysis.SplitFields | src/stats_analyzer.cpp:38-45 | The timestamp field never contains a comma. |
| StatsAnalysis.ConvertFields | src/stats_analyzer.cpp:40-47 | A converted record keeps the timestamp and text fields, and its integers are in the int range. |
| StatsAnalysis.ParseLine | src/stats_analyzer.cpp:37-47 | A parsed line has in-range integers and a timestamp without commas. |
| StatsAnalysis.SplitFieldsOnCommas | src/stats_analyzer.cpp:38-45 | Six comma-free fields and a rest without newline split into exactly those seven fields. |
| StatsAnalysis.ParseLineFields | src/stats_analyzer.cpp:37-47 | Such a line parses iff the numeric fields convert, and then to those values. |
| StatsAnalysis.ShortRowFields | src/stats_analyzer.cpp:38-45 | On a line with only three comma-free fields, getline into the failed stream keeps each target's previous value. The third field repeats into errors, total and duration, and the text stays empty. |
| StatsAnalysis.ShortRowRepeatsField | src/stats_analyzer.cpp:37-47 | A three-field line is not rejected. When its third field converts, that value becomes the accuracy, errors, total and duration, with empty text. Otherwise the line fails. |
| StatsAnalysis.ParseLines | src/stats_analyzer.cpp:35-48 | Either every line parses and the results follow the lines one for one, or the error names the first line that does not parse. |
| StatsAnalysis.LoadStats | src/stats_analyzer.cpp:28-51 | A missing log gives no sessions. Otherwise every line of the language's log is parsed, in order. A line whose numbers do not convert makes the whole load fail, at the first such line. |
| StatsAnalysis.LogFileName | src/stats_analyzer.cpp:30 | The analyser opens "stats/" + language + "_results.csv". Its partner is StatsRoundTrip.SameLogFile. |
| StatsAnalysis.Average | src/stats_analyzer.cpp:149-158 | The mean of the values, 0 for none. Its partners are AverageBounds and AverageOfConstant. |
| StatsAnalysis.Values | src/stats_analyzer.cpp:149-158 | The chosen field of each session, in order. |
| StatsAnalysis.SumBounds | src/stats_analyzer.cpp:149-158 | A sum of values within bounds lies within n times those bounds. |
| StatsAnalysis.AverageBounds | src/stats_analyzer.cpp:149-158 | The average of non-empty values lies between their bounds. |
| StatsAnalysis.AverageOfConstant | src/stats_analyzer.cpp:149-158 | Identical values average to that value. |
| StatsAnalysis.CalculateAverage | src/stats_analyzer.cpp:149-158 | The loop computes the average of the field over the sessions, and 0 for none. |
| StatsAnalysis.ShowChange | src/stats_analyzer.cpp:136-146 | A zero change shows nothing. Otherwise the mark shows the percentage, with "(+" and green when it is positive and "(" and red when negative. |
| StatsAnalysis.FormatChange | src/stats_analyzer.cpp:131-147 | The mark is blank iff the average is zero or the current value equals it. Otherwise it shows the relative change in percent. |
| StatsAnalysis.RelativeChangeZero | src/stats_analyzer.cpp:136-137 | The relative change is zero iff current equals the average. |
| StatsAnalysis.FormatChangeSign | src/stats_analyzer.cpp:131-147 | With a positive average, the mark is green iff the value went up and red iff it went down. |
| StatsAnalysis.FormatChangeNegation | src/stats_analyzer.cpp:131-147 | Negating both arguments gives the same mark. |
| StatsAnalysis.ErrorsChangeAsWritten | src/stats_analyzer.cpp:107-108 | The errors line as written is the same mark as for the unnegated values. |
| StatsAnalysis.FewerErrorsShownAsWorse | src/stats_analyzer.cpp:107-108 | As written, one error against an average of two is shown as "(-50.0%)" in red. |
| StatsAnalysis.ErrorsMarkReversed | src/stats_analyzer.cpp:107-108 | As written, every session with fewer errors than average is marked red. |
| StatsAnalysis.ErrorsChange | src/stats_analyzer.cpp:107-108 | Corrected errors mark: it is green iff the errors fell below the average and red iff they rose above it. |
| StatsAnalysis.FullStats | src/stats_analyzer.cpp:91-129 | The summary holds the averages of speed, accuracy and errors over the history, each figure's change mark against its average, and the session count including the current one. The errors mark is the one written, ErrorsChangeAsWritten, so fewer errors than a positive average are marked red. An empty history gives zero averages and blank marks. |
| StatsAnalysis.CorrectedSummary | src/stats_analyzer.cpp:91-129 | The summary with only the errors mark replaced by the corrected one: with a positive average it is green iff the errors fell below it. |
| StatsAnalysis.SelectSpeeds | src/stats_analyzer.cpp:56-66 | The chart shows the last min(n, width/2) speeds in log order, then the current speed. |
| StatsAnalysis.MaxOf | src/stats_analyzer.cpp:69 | The maximum speed is one of the speeds and bounds all of them. |
| StatsAnalysis.TruncToInt | src/stats_analyzer.cpp:79 | The cast to int truncates toward zero. |
| StatsAnalysis.BarHeight | src/stats_analyzer.cpp:79 | The fastest session's bar has full height 8. Speeds between 0 and the maximum give heights in 0..8. |
| StatsAnalysis.ScaleBars | src/stats_analyzer.cpp:68-89 | One bar per speed, scaled to the maximum. Only the last (current) bar is CURRENT-coloured. The maximum's bar is full height, and all heights are in 0..8 for non-negative speeds. |
| StatsRoundTrip.SameLogFile | src/stats_analyzer.cpp:30 | The analyser reads the file the saver writes. |
| StatsRoundTrip.IntTextHasNoComma | src/stats_saver.cpp:25-32 | A written int never contains the field separator. |
| StatsRoundTrip.RecordRoundTrip | src/stats_saver.cpp:25-32 | A saved record loads back with the same timestamp, numbers and the quoted text, when its fields hold no comma or newline. |
| StatsRoundTrip.TimestampedRecordRoundTrip | src/stats_saver.cpp:12-34 | A record with a real timestamp and whole-number speed and accuracy loads back with exactly those values. |
| StatsRoundTrip.HelloRecord | src/stats_saver.cpp:25-32 | The record of a five-character, 30-second perfect session loads back as 10 per minute and 100 %. The text field keeps its quotes. |
| MenuHandling.ToUpper | src/menu_handler.cpp:41 | toupper in the C locale: ASCII lower-case letters map to upper case, and everything else is unchanged. |
| MenuHandling.ToLower | src/menu_handler.cpp:43 | tolower in the C locale: ASCII upper-case letters map to lower case, and everything else is unchanged. |
| MenuHandling.DisplayNameShape | src/menu_handler.cpp:34-47 | The display name has the same length, an upper-cased first character and lower-cased others. |
| MenuHandling.DisplayNameIdempotent | src/menu_handler.cpp:34-47 | Capitalising a display name again changes nothing. |
| MenuHandling.GetDisplayName | src/menu_handler.cpp:34-47 | The loop computes DisplayName. |
| MenuHandling.LastDot | src/menu_handler.cpp:17 | The position of the last '.', if any. |
| MenuHandling.Extension | src/menu_handler.cpp:17 | path::extension is a suffix of the name: the part from the last dot. It is empty for "." and "..", for a name without a dot, or for a name whose only dot is at the start. |
| MenuHandling.Stem | src/menu_handler.cpp:19 | Stem followed by extension is the whole name. |
| MenuHandling.TxtEntry | src/menu_handler.cpp:17 | An entry counts as a text iff it ends in ".txt" and has a non-empty stem. |
| MenuHandling.StrLess | src/menu_handler.cpp:26 | std::string's operator<: character codes compared left to right, and a proper prefix comes first. |
| MenuHandling.ItemLess | src/menu_handler.cpp:26 | std::pair's operator<: by display name, then by path. |
| MenuHandling.StrLessIrreflexive | src/menu_handler.cpp:26 | The name order is irreflexive. |
| MenuHandling.StrLessAsymmetric | src/menu_handler.cpp:26 | The name order is asymmetric. |
| MenuHandling.StrLessTotal | src/menu_handler.cpp:26 | Any two different names are ordered one way or the other. |
| MenuHandling.ItemOrder | src/menu_handler.cpp:26 | The item order (display name, then path) is a strict total order. |
| MenuHandling.Insert | src/menu_handler.cpp:26 | Inserting adds exactly one item. |
| MenuHandling.InsertSorted | src/menu_handler.cpp:26 | Inserting into a sorted list keeps it sorted. |
| MenuHandling.SortItems | src/menu_handler.cpp:26 | std::sort of the items keeps their number. SortItemsCorrect proves the result ordered and a permutation. |
| MenuHandling.SortItemsCorrect | src/menu_handler.cpp:26 | The sorted menu is ordered and a permutation of the found items. |
| MenuHandling.EntryItem | src/menu_handler.cpp:19-21 | A ".txt" entry becomes the item (capitalised stem, "data/" + name). |
| MenuHandling.TxtItems | src/menu_handler.cpp:16-22 | The items of the ".txt" entries, in directory order, at most one per entry. |
| MenuHandling.TxtItemsExact | src/menu_handler.cpp:16-22 | The found items are exactly the ".txt" entries, with their display names and "data/" paths. |
| MenuHandling.MoveCursor | src/menu_handler.cpp:64-73 | Up and k move up unless at the top. Down and j move down unless at the bottom. Other keys keep the cursor, which stays in range. |
| MenuHandling.Navigate | src/menu_handler.cpp:57-80 | Any key sequence keeps the cursor on an item. |
| MenuHandling.ItemLabel | src/menu_handler.cpp:91-98 | The selected item is shown as "> item <" in CURRENT colour, and the others as "  item  " in UNTYPED colour. |
| MenuHandling.ItemLabelInjective | src/menu_handler.cpp:91-98 | Different items or selection states never share a label. |
| MenuHandling.MenuLabels | src/menu_handler.cpp:83-89 | One label per item. |
| MenuHandling.OneItemMarked | src/menu_handler.cpp:83-98 | Exactly the selected item carries the "> " marker. |
| MenuHandling.MenuHandler.constructor | src/menu_handler.cpp:5-8 | A new menu has no items. |
| MenuHandling.MenuHandler.LoadAvailableLanguages | src/menu_handler.cpp:10-32 | A missing directory is an error and leaves no items. Otherwise the items are the ".txt" entries, sorted. Finding none is an error, and success leaves a sorted, non-empty menu. |
| MenuHandling.MenuHandler.ShowLanguageMenu | src/menu_handler.cpp:49-81 | Navigation keys move the cursor as Navigate does. Enter or Space returns the path of the item under the cursor. Esc returns the empty path. The menu is still waiting after the keys iff none of them is Enter, Space or Esc. |

## Left out

- Painting: the ncurses screen output (text, frames, key and bar cells, the layout indicator, the headers and the results screen text) is not modelled. Only the positions, colours and values that decide it are.
- Locale conversion: `mbstowcs`, `wcswidth`, `towupper` and `wcharToUtf8` are not modelled. The measured display width and the upper-cased character are parameters, and texts are sequences of characters.
- Clocks and sleeping: durations are whole seconds given as parameters. The timestamp's clock reading is a `DateTime` parameter, and `localtime` is not modelled.
- Randomness: the text index comes from `std::uniform_int_distribution` over `0..size-1`, driven by a `std::mt19937` seeded from `std::random_device`. The model makes a nondeterministic choice of index in that range, so the distribution is not modelled.
- Floating point: `double` arithmetic is modelled with exact reals. Rounding, and the `1e-4` minute guard of calculateCPM, are therefore approximated: on whole seconds the guard fires exactly for zero.
- Number formatting: the text of `operator<<` with `setprecision` for doubles, `to_string(...).substr` in the live and results lines, and the `setprecision(1)` text and colour escapes of formatChange, are not modelled. A change mark is modelled as its prefix, its percentage and whether it is green. The saver takes the speed and accuracy text as parameters.
- Numerals.ParseReal: only plain decimal text (sign, digits, optional fraction) is read. Exponents, hexadecimal, inf/nan, and the out-of-range error of `stod` are not modelled. The '.' separator is that of the C locale. The program calls `setlocale(LC_ALL, "")` and then resets only LC_CTYPE, so `stod` follows the user's LC_NUMERIC, while `operator<<` always writes '.'. Under a decimal-comma locale `stod("46.6667")` reads 46. ParseReal, and with it the speed and accuracy of StatsRoundTrip.RecordRoundTrip, hold only in a locale whose decimal separator is '.'.
- Directory handling: creating the `stats` directory is not modelled. The directory iterator's order is given as the entry sequence, and entries are not filtered by file type.
- `main.cpp` wiring and the menu-to-session hand-over are not modelled.
- `displayErrorChar` is not modelled, since nothing calls it.
- MenuHandling.ToUpper: `toupper`/`tolower` are modelled in the C locale, on ASCII letters only.
- MenuHandling.MenuHandler.constructor: the C++ constructor also calls the loader. Here loading is the separate method LoadAvailableLanguages.
- TextProviding.TextProvider.constructor: the C++ constructor also loads the file. Here loading is the separate method LoadTexts.
- StatsSaving.StatsSaver.constructor: the C++ constructor creates the `stats` directory. Here it only takes the initial file system.
- Exceptions: thrown errors are `Option`/`Result` error values. In LoadStats, a `stoi`/`stod` failure is the load's error value.
- StatsSaving.StatsSaver.SaveResult: the log is modelled as a sequence of records, one per call. A speed, accuracy or text holding a newline makes the C++ write a record that reads back as two lines. Here it stays one entry, and FormatRecord's contract says exactly when that happens.
- StatsAnalysis.ScaleBars: requires a non-zero maximum speed. The C++ divides by it, and a zero maximum (all past and current speeds zero) is a division by zero that the model does not follow.
- TypingSession.CalculateAccuracy: requires a positive character count. The C++ divides by it, and start() calls it only on non-empty texts.
- TypingSession.RealtimeStats: requires a positive text length, which the progress division needs. start() shows the line only for non-empty texts.

## Findings

| source | as written | input that shows it | evidently intended | confidence | as-written member | corrected member |
|---|---|---|---|---|---|---|
| src/stats_analyzer.cpp:107-108 | The errors line calls `formatChange(-current, -average)`. Negating both arguments leaves the relative change unchanged, so fewer errors than average are shown as a negative change in red. | 1 error this session against an average of 2.0: the mark is "(-50.0%)" in red. | Fewer errors than average count as an improvement and are marked green. | not executed | StatsAnalysis.ErrorsChangeAsWritten | StatsAnalysis.ErrorsChange |
