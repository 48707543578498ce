/**
 * One practice session (src/typing_session.cpp): the layout heuristic, the
 * per-character matching round, the loop that chains rounds, and the CPM,
 * accuracy and progress figures. The text is a sequence of code points and the
 * key input a given sequence of key codes; screen painting, clocks and the
 * 100 ms error flash are not modelled.
 */
module TypingSession {
  import opened Common
  import Console
  import TextProviding

  /** Cyrillic letter: U+0410 (А) to U+044F (я), plus Ё and ё. */
  predicate IsRussianLetter(c: char)
  {
    ('\U{0410}' <= c <= '\U{044F}') || c == '\U{0401}' || c == '\U{0451}'
  }

  /** ASCII Latin letter. */
  predicate IsEnglishLetter(c: char)
  {
    ('A' <= c <= 'Z') || ('a' <= c <= 'z')
  }

  /** The classes are disjoint, so the heuristic below never has to break a tie. */
  lemma LetterClassesDisjoint(c: char)
    ensures !(IsRussianLetter(c) && IsEnglishLetter(c))
  {
  }

  /** No character before index i is a Cyrillic or Latin letter. */
  ghost predicate NoLetterBefore(text: string, i: int)
    requires 0 <= i <= |text|
  {
    forall j :: 0 <= j < i ==> !IsRussianLetter(text[j]) && !IsEnglishLetter(text[j])
  }

  /** The first Cyrillic-or-Latin letter of the text exists and is Cyrillic. */
  ghost predicate FirstLetterIsRussian(text: string)
  {
    exists i :: 0 <= i < |text| && IsRussianLetter(text[i]) && NoLetterBefore(text, i)
  }

  /**
   * The layout flag: Cyrillic exactly when the first letter of either class is
   * Cyrillic; Latin (false) when the first such letter is Latin or there is none.
   */
  method DetectLayout(text: string) returns (isRussian: bool)
    ensures isRussian <==> FirstLetterIsRussian(text)
  {
    isRussian := false;
    for i := 0 to |text|
      invariant !isRussian
      invariant NoLetterBefore(text, i)
    {
      if IsRussianLetter(text[i]) {
        isRussian := true;
        break;
      } else if IsEnglishLetter(text[i]) {
        isRussian := false;
        break;
      }
    }
  }

  /** Esc, q and Q end the round whenever they are read, before any comparison. */
  predicate IsAbortKey(key: int)
  {
    key == Console.KeyEsc || key == 'q' as int || key == 'Q' as int
  }

  datatype Phase = InProgress | Completed | Aborted

  /** The round's counters: the cursor currentPos, the error count, and where the loop stands. */
  datatype RoundState = RoundState(pos: nat, errors: nat, phase: Phase)

  const Initial := RoundState(0, 0, InProgress)

  /** Reachable states: the cursor is within the text and the round is complete exactly at its end. */
  ghost predicate Consistent(text: string, s: RoundState)
  {
    s.pos <= |text| && (s.phase == Completed <==> s.pos == |text|)
  }

  /** One keystroke of the typing loop. */
  function Step(text: string, s: RoundState, key: int): (t: RoundState)
    requires Consistent(text, s) && s.phase == InProgress
    ensures Consistent(text, t)
    ensures IsAbortKey(key) ==> t == s.(phase := Aborted)
    ensures !IsAbortKey(key) && key == text[s.pos] as int ==>
      t.pos == s.pos + 1 && t.errors == s.errors && t.phase != Aborted
    ensures !IsAbortKey(key) && key != text[s.pos] as int ==>
      t.pos == s.pos && t.errors == s.errors + 1 && t.phase == InProgress
  {
    if IsAbortKey(key) then s.(phase := Aborted)
    else if key == text[s.pos] as int then
      RoundState(s.pos + 1, s.errors, if s.pos + 1 == |text| then Completed else InProgress)
    else s.(errors := s.errors + 1)
  }

  /** The state after feeding keys to the typing loop; a finished round ignores further keys. */
  function Run(text: string, s: RoundState, keys: seq<int>): (t: RoundState)
    requires Consistent(text, s)
    ensures Consistent(text, t)
    ensures t.pos >= s.pos && t.errors >= s.errors
    ensures s.phase != InProgress ==> t == s
    decreases |keys|
  {
    if keys == [] || s.phase != InProgress then s
    else Run(text, Step(text, s, keys[0]), keys[1..])
  }

  /** Feeding two batches of keys one after the other is feeding their concatenation. */
  lemma {:induction false} RunAppend(text: string, s: RoundState, a: seq<int>, b: seq<int>)
    requires Consistent(text, s)
    ensures Run(text, s, a + b) == Run(text, Run(text, s, a), b)
    decreases |a|
  {
    if a == [] {
      assert a + b == b;
    } else if s.phase == InProgress {
      assert (a + b)[1..] == a[1..] + b;
      RunAppend(text, Step(text, s, a[0]), a[1..], b);
    }
  }

  /** Neither the error count nor the cursor ever goes back as more keys are read. */
  lemma ErrorsNeverDecrease(text: string, keys: seq<int>, n: nat)
    requires text != [] && n <= |keys|
    ensures Run(text, Initial, keys[..n]).errors <= Run(text, Initial, keys).errors
    ensures Run(text, Initial, keys[..n]).pos <= Run(text, Initial, keys).pos
  {
    assert keys == keys[..n] + keys[n..];
    RunAppend(text, Initial, keys[..n], keys[n..]);
  }

  /** The text as the key codes that match it. */
  function Codes(text: string): (c: seq<int>)
    ensures |c| == |text| && forall i :: 0 <= i < |text| ==> c[i] == text[i] as int
  {
    seq(|text|, i requires 0 <= i < |text| => text[i] as int)
  }

  /** `a` can be picked out of `b` in order (greedily, leftmost first). */
  predicate Subsequence(a: seq<int>, b: seq<int>)
    decreases |b|
  {
    a == [] || (b != [] && if a[0] == b[0] then Subsequence(a[1..], b[1..]) else Subsequence(a, b[1..]))
  }

  /**
   * The characters passed over by the cursor were typed, in order, among the keys read:
   * a completed round means every character was matched in order.
   */
  lemma {:induction false} TypedInOrder(text: string, s: RoundState, keys: seq<int>)
    requires Consistent(text, s)
    ensures Subsequence(Codes(text[s.pos..Run(text, s, keys).pos]), keys)
    decreases |keys|
  {
    var t := Run(text, s, keys);
    if keys == [] || s.phase != InProgress {
      assert Codes(text[s.pos..t.pos]) == [];
    } else {
      var s' := Step(text, s, keys[0]);
      TypedInOrder(text, s', keys[1..]);
      var rest := Codes(text[s'.pos..t.pos]);
      if s'.pos == s.pos + 1 {
        assert Codes(text[s.pos..t.pos]) == [keys[0]] + rest;
      } else if s.pos < t.pos {
        assert Codes(text[s.pos..t.pos])[0] == text[s.pos] as int != keys[0];
      }
    }
  }

  /** A completed round from the start has typed the whole text, in order. */
  lemma CompletedRoundTypedText(text: string, keys: seq<int>)
    requires text != [] && Run(text, Initial, keys).phase == Completed
    ensures Subsequence(Codes(text), keys)
  {
    TypedInOrder(text, Initial, keys);
    assert text[0..|text|] == text;
  }

  /** A text with q or Q at index k cannot be completed: typing that character aborts the round. */
  lemma {:induction false} QuitCharBlocksCompletion(text: string, s: RoundState, keys: seq<int>, k: nat)
    requires Consistent(text, s) && s.phase != Completed
    requires s.pos <= k < |text| && (text[k] == 'q' || text[k] == 'Q')
    ensures Run(text, s, keys).pos <= k && Run(text, s, keys).phase != Completed
    decreases |keys|
  {
    if keys != [] && s.phase == InProgress {
      QuitCharBlocksCompletion(text, Step(text, s, keys[0]), keys[1..], k);
    }
  }

  /** Typing the rest of the text exactly, with no abort character in it, completes the round with no new error. */
  lemma {:induction false} ExactTypingCompletes(text: string, p: nat, e: nat)
    requires p < |text|
    requires forall j :: p <= j < |text| ==> !IsAbortKey(text[j] as int)
    ensures Run(text, RoundState(p, e, InProgress), Codes(text[p..])) == RoundState(|text|, e, Completed)
    decreases |text| - p
  {
    var s := RoundState(p, e, InProgress);
    var keys := Codes(text[p..]);
    var s' := Step(text, s, keys[0]);
    assert keys[1..] == Codes(text[p + 1..]);
    if p + 1 < |text| {
      ExactTypingCompletes(text, p + 1, e);
    }
  }

  /** The "cat" scenario: c, a, x (mismatch, retried), t completes with one error. */
  lemma CatScenario()
    ensures Run("cat", Initial, ['c' as int, 'a' as int, 'x' as int, 't' as int]) == RoundState(3, 1, Completed)
  {
    var text := "cat";
    var keys := ['c' as int, 'a' as int, 'x' as int, 't' as int];
    var s1 := Step(text, Initial, keys[0]);
    assert s1 == RoundState(1, 0, InProgress);
    var s2 := Step(text, s1, keys[1]);
    assert s2 == RoundState(2, 0, InProgress);
    var s3 := Step(text, s2, keys[2]);
    assert s3 == RoundState(2, 1, InProgress);
    var s4 := Step(text, s3, keys[3]);
    assert s4 == RoundState(3, 1, Completed);
    assert keys == keys[..3] + [keys[3]];
    assert keys[..3] == keys[..2] + [keys[2]];
    assert keys[..2] == keys[..1] + [keys[1]];
    assert keys[..1] == [] + [keys[0]];
    RunSnoc(text, Initial, [], keys[0]);
    RunSnoc(text, Initial, keys[..1], keys[1]);
    RunSnoc(text, Initial, keys[..2], keys[2]);
    RunSnoc(text, Initial, keys[..3], keys[3]);
  }

  /** Appending one key to the input extends the run by one step (or not at all once it is over). */
  lemma {:induction false} RunSnoc(text: string, s: RoundState, keys: seq<int>, key: int)
    requires Consistent(text, s)
    ensures Run(text, s, keys + [key]) ==
      (var t := Run(text, s, keys); if t.phase == InProgress then Step(text, t, key) else t)
  {
    RunAppend(text, s, keys, [key]);
    var t := Run(text, s, keys);
    if t.phase == InProgress {
      assert [key][1..] == [];
    }
  }

  datatype RoundOutcome =
    | ConversionFailed         // the text converts to no code point: an error line is shown and start() returns
    | AwaitingStart            // the key input ran out at the "press any key" prompt
    | QuitAtPrompt             // Esc, q or Q at the prompt ends the session before typing
    | Played(state: RoundState)  // the typing loop ran; InProgress means the key input ran out

  /** The number of keys the typing loop reads from state s: until the round ends or the input does. */
  function KeysRead(text: string, s: RoundState, keys: seq<int>): (n: nat)
    requires Consistent(text, s)
    ensures n <= |keys|
    decreases |keys|
  {
    if keys == [] || s.phase != InProgress then 0
    else 1 + KeysRead(text, Step(text, s, keys[0]), keys[1..])
  }

  /**
   * The loop stops where KeysRead says: the keys it reads take the round to its final state,
   * and a round still running has read all of them.
   */
  lemma {:induction false} KeysReadStops(text: string, s: RoundState, keys: seq<int>)
    requires Consistent(text, s)
    ensures var n := KeysRead(text, s, keys);
      Run(text, s, keys[..n]) == Run(text, s, keys) &&
      (Run(text, s, keys).phase == InProgress ==> n == |keys|)
    decreases |keys|
  {
    if keys != [] && s.phase == InProgress {
      var t := Step(text, s, keys[0]);
      KeysReadStops(text, t, keys[1..]);
      var n := KeysRead(text, s, keys);
      assert keys[..n][0] == keys[0] && keys[..n][1..] == keys[1..][..n - 1];
    }
  }

  /** One round as a value: its outcome and the number of keys read, the start key included. */
  function Round(text: string, keys: seq<int>): (r: (RoundOutcome, nat))
    ensures r.1 <= |keys|
    ensures r.0.Played? ==> 1 <= r.1
  {
    if text == [] then (ConversionFailed, 0)
    else if keys == [] then (AwaitingStart, 0)
    else if IsAbortKey(keys[0]) then (QuitAtPrompt, 1)
    else
      var n := KeysRead(text, Initial, keys[1..]);
      (Played(Run(text, Initial, keys[1..n + 1])), n + 1)
  }

  /**
   * One round of start(): check the text, fix the layout, wait for the start key, then
   * read keys until the cursor reaches the end of the text or an abort key is read.
   * `used` counts the keys read.
   */
  method PlayRound(text: string, keys: seq<int>) returns (outcome: RoundOutcome, isRussian: bool, used: nat)
    ensures (outcome, used) == Round(text, keys)
    ensures used <= |keys|
    ensures outcome == ConversionFailed <==> text == []
    ensures outcome == ConversionFailed ==> used == 0
    ensures outcome == AwaitingStart <==> text != [] && keys == []
    ensures outcome == QuitAtPrompt <==> text != [] && keys != [] && IsAbortKey(keys[0])
    ensures outcome == QuitAtPrompt ==> used == 1
    ensures text != [] ==> (isRussian <==> FirstLetterIsRussian(text))
    ensures outcome.Played? ==>
      var s := outcome.state;
      && 1 <= used
      && s == Run(text, Initial, keys[1..used])
      && Consistent(text, s)
      && (s.phase == InProgress ==> used == |keys|)
      && s.pos + s.errors + (if s.phase == Aborted then 1 else 0) == used - 1
      && (forall i :: 1 <= i < used && (s.phase != Aborted || i < used - 1) ==> !IsAbortKey(keys[i]))
      && (s.phase == Aborted ==> IsAbortKey(keys[used - 1]))
      && (s.phase == Completed ==> Subsequence(Codes(text), keys[1..used]))
  {
    if text == [] {
      return ConversionFailed, false, 0;
    }
    isRussian := DetectLayout(text);
    if keys == [] {
      return AwaitingStart, isRussian, 0;
    }
    used := 1;
    if IsAbortKey(keys[0]) {
      return QuitAtPrompt, isRussian, used;
    }
    var currentPos: nat := 0;
    var errors: nat := 0;
    assert keys[1..used] == [];
    while currentPos < |text|
      invariant 1 <= used <= |keys|
      invariant currentPos <= |text|
      invariant Run(text, Initial, keys[1..used]) ==
        RoundState(currentPos, errors, if currentPos == |text| then Completed else InProgress)
      invariant currentPos + errors == used - 1
      invariant forall i :: 1 <= i < used ==> !IsAbortKey(keys[i])
      invariant KeysRead(text, Initial, keys[1..]) == used - 1 +
        KeysRead(text, RoundState(currentPos, errors, if currentPos == |text| then Completed else InProgress), keys[used..])
      decreases |keys| - used
    {
      if used == |keys| {
        return Played(RoundState(currentPos, errors, InProgress)), isRussian, used;
      }
      var input := keys[used];
      assert keys[1..used + 1] == keys[1..used] + [input];
      RunSnoc(text, Initial, keys[1..used], input);
      assert keys[used..][0] == input && keys[used..][1..] == keys[used + 1..];
      used := used + 1;
      if IsAbortKey(input) {
        return Played(RoundState(currentPos, errors, Aborted)), isRussian, used;
      }
      if input == text[currentPos] as int {
        currentPos := currentPos + 1;
      } else {
        errors := errors + 1;
      }
    }
    outcome := Played(RoundState(currentPos, errors, Completed));
    CompletedRoundTypedText(text, keys[1..used]);
  }

  /** Keys that end the wait after a completed round. */
  predicate IsChoiceKey(key: int)
  {
    key == Console.KeyNewline || IsAbortKey(key)
  }

  /** The wait after the results screen as a value, reading from index i: the choice and the keys read. */
  function Choice(keys: seq<int>, i: nat): (r: (Option<bool>, nat))
    requires i <= |keys|
    ensures i <= r.1 <= |keys|
    decreases |keys| - i
  {
    if i == |keys| then (None, i)
    else if IsChoiceKey(keys[i]) then (Some(keys[i] == Console.KeyNewline), i + 1)
    else Choice(keys, i + 1)
  }

  /**
   * The wait after the results screen: other keys are skipped; Enter asks for another
   * round (Some(true)), Esc/q/Q ends the session (Some(false)); None when the input runs out.
   */
  method AwaitChoice(keys: seq<int>) returns (choice: Option<bool>, used: nat)
    ensures (choice, used) == Choice(keys, 0)
    ensures used <= |keys|
    ensures choice.Some? ==> 1 <= used && IsChoiceKey(keys[used - 1]) &&
                             (choice.value <==> keys[used - 1] == Console.KeyNewline) &&
                             forall i :: 0 <= i < used - 1 ==> !IsChoiceKey(keys[i])
    ensures choice.None? ==> used == |keys| && forall i :: 0 <= i < |keys| ==> !IsChoiceKey(keys[i])
  {
    used := 0;
    while used < |keys|
      invariant used <= |keys|
      invariant forall i :: 0 <= i < used ==> !IsChoiceKey(keys[i])
      invariant Choice(keys, 0) == Choice(keys, used)
    {
      var key := keys[used];
      used := used + 1;
      if IsChoiceKey(key) {
        return Some(key == Console.KeyNewline), used;
      }
    }
    return None, used;
  }

  /** A completed round as the results screen reports it, with the keys read while typing. */
  datatype RoundRecord = RoundRecord(text: string, errors: nat, typed: seq<int>)

  /** Where start() stands after a number of drawn texts: still going on the remaining keys, or over. */
  datatype SessionState =
    | Continuing(done: seq<RoundRecord>, rest: seq<int>)
    | Stopped(done: seq<RoundRecord>)

  /**
   * One more drawn text: its round is played on the remaining keys. A round that is not
   * completed ends the session. A completed one is reported, and the session goes on
   * exactly when Enter is chosen afterwards.
   */
  function NextRound(done: seq<RoundRecord>, text: string, rest: seq<int>): SessionState
  {
    var (outcome, used) := Round(text, rest);
    if !(outcome.Played? && outcome.state.phase == Completed) then Stopped(done)
    else
      var record := RoundRecord(text, outcome.state.errors, rest[1..used]);
      var after := rest[used..];
      var (choice, n) := Choice(after, 0);
      if choice == Some(true) then Continuing(done + [record], after[n..])
      else Stopped(done + [record])
  }

  /** start() as a value: the rounds on the drawn texts, in the order they were drawn. */
  function Session(texts: seq<string>, keys: seq<int>): SessionState
    decreases |texts|
  {
    if texts == [] then Continuing([], keys)
    else
      match Session(texts[..|texts| - 1], keys)
      case Stopped(done) => Stopped(done)
      case Continuing(done, rest) => NextRound(done, texts[|texts| - 1], rest)
  }

  /** A session that has stopped stays stopped: texts drawn after that play no round. */
  lemma {:induction false} StoppedIsFinal(texts: seq<string>, more: seq<string>, keys: seq<int>)
    requires Session(texts, keys).Stopped?
    ensures Session(texts + more, keys) == Session(texts, keys)
    decreases |more|
  {
    if more != [] {
      var front := more[..|more| - 1];
      StoppedIsFinal(texts, front, keys);
      assert (texts + more)[..|texts + more| - 1] == texts + front;
    } else {
      assert texts + more == texts;
    }
  }

  /**
   * start(): rounds on random texts until a round is not completed, the user leaves
   * with Esc/q/Q, or the key input runs out. `drawn` holds the texts the random choice
   * produced, one per round; the session is the one those texts give, and it stops at the
   * last of them. Each reported round is on a text of the corpus that its keys typed in
   * order, one key per character plus one per error.
   */
  method Start(provider: TextProviding.TextProvider, keys: seq<int>)
    returns (completed: seq<RoundRecord>, ghost drawn: seq<string>)
    requires provider.Valid()
    ensures forall t :: t in drawn ==> t in provider.texts
    ensures Session(drawn, keys) == Stopped(completed)
    ensures |drawn| >= 1 && Session(drawn[..|drawn| - 1], keys).Continuing?
    ensures forall r :: r in completed ==>
      && r.text in provider.texts
      && Subsequence(Codes(r.text), r.typed)
      && |r.typed| == |r.text| + r.errors
  {
    completed := [];
    drawn := [];
    var rest := keys;
    while true
      invariant forall t :: t in drawn ==> t in provider.texts
      invariant Session(drawn, keys) == Continuing(completed, rest)
      invariant forall r :: r in completed ==>
        && r.text in provider.texts
        && Subsequence(Codes(r.text), r.typed)
        && |r.typed| == |r.text| + r.errors
      decreases |rest|
    {
      var text := provider.GetRandomText();
      ghost var before := drawn;
      drawn := drawn + [text];
      assert drawn[..|drawn| - 1] == before;
      var outcome, isRussian, used := PlayRound(text, rest);
      if !(outcome.Played? && outcome.state.phase == Completed) {
        return;
      }
      completed := completed + [RoundRecord(text, outcome.state.errors, rest[1..used])];
      rest := rest[used..];
      var choice, n := AwaitChoice(rest);
      rest := rest[n..];
      if choice != Some(true) {
        return;
      }
    }
  }

  /**
   * calculateCPM: characters per minute over a whole-second duration. The guard against
   * a near-zero duration fires exactly for a zero duration.
   */
  function CalculateCpm(totalChars: int, seconds: nat): (cpm: real)
    ensures seconds == 0 ==> cpm == 0.0
    ensures seconds > 0 ==> cpm == (totalChars * 60) as real / seconds as real
  {
    var minutes := seconds as real / 60.0;
    if minutes < 0.0001 then 0.0 else totalChars as real / minutes
  }

  /**
   * calculateAccuracy: 100 * (1 - errors / total), not clamped. It is 100 exactly without
   * errors and negative exactly when errors exceed the total.
   */
  function CalculateAccuracy(errors: int, totalChars: int): (accuracy: real)
    requires totalChars > 0
    ensures accuracy == 100.0 <==> errors == 0
    ensures accuracy < 0.0 <==> errors > totalChars
    ensures errors >= 0 ==> accuracy <= 100.0
    ensures 0 <= errors <= totalChars ==> 0.0 <= accuracy <= 100.0
  {
    100.0 * (1.0 - errors as real / totalChars as real)
  }

  /** Progress in percent, truncated: within 0..100 while the cursor is inside the text, 100 only at its end. */
  function Progress(currentPos: nat, totalChars: nat): (p: nat)
    requires totalChars > 0
    ensures p * totalChars <= 100 * currentPos < (p + 1) * totalChars
    ensures currentPos <= totalChars ==> p <= 100 && (p == 100 <==> currentPos == totalChars)
  {
    var p := (100 * currentPos) / totalChars;
    PercentBounds(currentPos, totalChars, p);
    p
  }

  /** The truncated percentage p of currentPos over totalChars brackets 100 * currentPos and is 100 exactly at the end. */
  lemma PercentBounds(currentPos: nat, totalChars: nat, p: int)
    requires totalChars > 0 && p == (100 * currentPos) / totalChars
    ensures p >= 0
    ensures p * totalChars <= 100 * currentPos < (p + 1) * totalChars
    ensures currentPos <= totalChars ==> p <= 100 && (p == 100 <==> currentPos == totalChars)
  {
    var n := 100 * currentPos;
    assert n == p * totalChars + n % totalChars;
    assert (p + 1) * totalChars == p * totalChars + totalChars;
    if currentPos <= totalChars {
      if p > 100 {
        MulMonotone(101, p, totalChars);
      }
      if currentPos == totalChars && p < 100 {
        MulMonotone(p + 1, 100, totalChars);
      }
    }
  }

  lemma MulMonotone(a: nat, b: nat, c: nat)
    requires a <= b
    ensures a * c <= b * c
  {
  }

  datatype LiveStats = LiveStats(cpm: real, accuracy: real, errors: nat, progress: nat)

  /**
   * The live line redrawn after each keystroke: speed so far, accuracy over the characters
   * typed so far (at least one), the error count and the progress.
   */
  function RealtimeStats(errors: nat, totalChars: nat, currentPos: nat, elapsedSeconds: nat): (r: LiveStats)
    requires totalChars > 0
    ensures elapsedSeconds == 0 ==> r.cpm == 0.0
    ensures elapsedSeconds > 0 ==> r.cpm == (currentPos * 60) as real / elapsedSeconds as real
    ensures r.accuracy <= 100.0 && (r.accuracy == 100.0 <==> errors == 0)
    ensures r.errors == errors
    ensures currentPos <= totalChars ==> r.progress <= 100 && (r.progress == 100 <==> currentPos == totalChars)
  {
    LiveStats(
      CalculateCpm(currentPos, elapsedSeconds),
      CalculateAccuracy(errors, if currentPos > 0 then currentPos else 1),
      errors,
      Progress(currentPos, totalChars))
  }

  /** The "hello" scenario: five characters in 30 seconds without a mistake is 10 CPM at 100%. */
  lemma HelloScenario()
    ensures CalculateCpm(5, 30) == 10.0 && CalculateAccuracy(0, 5) == 100.0
  {
  }
}
