/**
 * The practice-text corpus (src/text_provider.cpp): the non-empty lines of the
 * language's text file, in file order, and a random pick among them. The file is
 * given as its lines, or None when it cannot be opened; the random index is a
 * nondeterministic choice.
 */
module TextProviding {
  import opened Common

  datatype LoadError =
    | CannotOpen  // the text file could not be opened
    | NoTexts     // the file holds no non-empty line

  /** The lines the loading loop keeps: the non-empty ones, in file order. */
  function NonEmptyLines(lines: seq<string>): (kept: seq<string>)
    ensures |kept| <= |lines|
    ensures forall i :: 0 <= i < |kept| ==> kept[i] != []
  {
    if lines == [] then []
    else if lines[0] == [] then NonEmptyLines(lines[1..])
    else [lines[0]] + NonEmptyLines(lines[1..])
  }

  /** Exactly the non-empty lines are kept: no empty line, and every non-empty line. */
  lemma {:induction false} NonEmptyLinesExact(lines: seq<string>)
    ensures forall s :: s in NonEmptyLines(lines) <==> s in lines && s != []
    ensures |NonEmptyLines(lines)| <= |lines|
  {
    if lines != [] {
      NonEmptyLinesExact(lines[1..]);
      assert lines == [lines[0]] + lines[1..];
    }
  }

  /** Filtering respects file order: the lines of a longer file keep their relative order. */
  lemma {:induction false} NonEmptyLinesAppend(a: seq<string>, b: seq<string>)
    ensures NonEmptyLines(a + b) == NonEmptyLines(a) + NonEmptyLines(b)
  {
    if a != [] {
      assert (a + b)[1..] == a[1..] + b;
      NonEmptyLinesAppend(a[1..], b);
    } else {
      assert a + b == b;
    }
  }

  class TextProvider {
    var texts: seq<string>

    /** Every stored text is a non-empty line. */
    ghost predicate Clean()
      reads this
    {
      forall t :: t in texts ==> t != []
    }

    /** A usable provider: clean and holding at least one text. */
    ghost predicate Valid()
      reads this
    {
      Clean() && |texts| > 0
    }

    constructor ()
      ensures texts == [] && Clean()
    {
      texts := [];
    }

    /**
     * loadTexts: an unopenable file is an error; otherwise every non-empty line is
     * appended in order, and ending up with no text at all is an error.
     */
    method LoadTexts(file: Option<seq<string>>) returns (err: Option<LoadError>)
      requires Clean()
      modifies this
      ensures Clean()
      ensures file.None? ==> err == Some(CannotOpen) && texts == old(texts)
      ensures file.Some? ==> texts == old(texts) + NonEmptyLines(file.value)
      ensures file.Some? ==> (err == Some(NoTexts) <==> texts == []) && err != Some(CannotOpen)
      ensures err.None? ==> Valid()
      ensures file.Some? && err.Some? ==> !Valid()
    {
      if file.None? {
        return Some(CannotOpen);
      }
      var lines := file.value;
      var i := 0;
      while i < |lines|
        invariant 0 <= i <= |lines|
        invariant texts == old(texts) + NonEmptyLines(lines[..i])
        invariant Clean()
      {
        NonEmptyLinesAppend(lines[..i], [lines[i]]);
        assert lines[..i + 1] == lines[..i] + [lines[i]];
        if lines[i] != [] {
          texts := texts + [lines[i]];
        }
        i := i + 1;
      }
      assert lines[..i] == lines;
      if texts == [] {
        return Some(NoTexts);
      }
      return None;
    }

    /** getRandomText: one of the stored texts, chosen by index; the store is left as it was. */
    method GetRandomText() returns (text: string)
      requires Valid()
      ensures exists i :: 0 <= i < |texts| && text == texts[i]
      ensures text != []
    {
      var i :| 0 <= i < |texts|;
      text := texts[i];
      assert text in texts;
    }
  }
}
