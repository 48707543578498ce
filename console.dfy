/**
 * The arithmetic part of the terminal wrapper (src/console_handler.cpp): where a
 * centred line lands, and which colour pair and bold flag the current attribute
 * state holds. Painting, key reading and locale conversion are not modelled.
 */
module Console {
  import opened Common

  // Colour roles passed to SetColor (ConsoleHandler::COLOR_*).
  const ColorTyped: int := 1
  const ColorCurrent: int := 2
  const ColorError: int := 3
  const ColorUntyped: int := 4

  // The ncurses colour pairs registered at initialisation.
  const PairDefault: int := 1
  const PairTyped: int := 2
  const PairCurrent: int := 3
  const PairError: int := 4
  const PairUntyped: int := 5

  // Key codes as returned by the blocking key read.
  const KeyNewline: int := 10
  const KeyEsc: int := 27
  const KeySpace: int := 32
  const KeyDown: int := 258  // ncurses KEY_DOWN (octal 0402)
  const KeyUp: int := 259    // ncurses KEY_UP (octal 0403)

  /** The part of the ncurses attribute word the handler touches. */
  datatype Attributes = Attributes(pair: int, bold: bool)

  const DefaultAttributes := Attributes(PairDefault, false)

  /** The colour pair a role selects; unknown roles fall back to the default pair. */
  function PairFor(role: int): (p: int)
    ensures PairDefault <= p <= PairUntyped
    ensures p == PairDefault <==> role !in {ColorTyped, ColorCurrent, ColorError, ColorUntyped}
  {
    if role == ColorTyped then PairTyped
    else if role == ColorCurrent then PairCurrent
    else if role == ColorError then PairError
    else if role == ColorUntyped then PairUntyped
    else PairDefault
  }

  /** Two different known roles never share a colour pair. */
  lemma PairsDistinct(r1: int, r2: int)
    requires r1 in {ColorTyped, ColorCurrent, ColorError, ColorUntyped}
    requires r2 in {ColorTyped, ColorCurrent, ColorError, ColorUntyped}
    ensures PairFor(r1) == PairFor(r2) <==> r1 == r2
  {
  }

  /** setColor: clears only the colour bits, then sets the role's pair and, for CURRENT and ERROR, bold. */
  function ApplyColor(a: Attributes, role: int): (r: Attributes)
    ensures r.pair == PairFor(role)
    ensures r.bold <==> a.bold || role == ColorCurrent || role == ColorError
  {
    Attributes(PairFor(role), a.bold || role == ColorCurrent || role == ColorError)
  }

  /** The attribute state after a series of SetColor calls. */
  function ApplyColors(a: Attributes, roles: seq<int>): Attributes
    decreases |roles|
  {
    if roles == [] then a else ApplyColors(ApplyColor(a, roles[0]), roles[1..])
  }

  /**
   * Bold is sticky: once CURRENT or ERROR was set, later TYPED/UNTYPED calls keep it,
   * and only the last role decides the colour pair.
   */
  lemma {:induction false} BoldPersists(a: Attributes, roles: seq<int>)
    ensures ApplyColors(a, roles).bold <==>
      a.bold || exists i :: 0 <= i < |roles| && (roles[i] == ColorCurrent || roles[i] == ColorError)
    ensures ApplyColors(a, roles).pair == if roles == [] then a.pair else PairFor(roles[|roles| - 1])
    decreases |roles|
  {
    if roles != [] {
      var b := ApplyColor(a, roles[0]);
      BoldPersists(b, roles[1..]);
      if b.bold && !a.bold {
        assert roles[0] == ColorCurrent || roles[0] == ColorError;
      }
      if exists i :: 1 <= i < |roles| && (roles[i] == ColorCurrent || roles[i] == ColorError) {
        var i :| 1 <= i < |roles| && (roles[i] == ColorCurrent || roles[i] == ColorError);
        assert roles[1..][i - 1] == roles[i];
      }
      if exists i :: 0 <= i < |roles[1..]| && (roles[1..][i] == ColorCurrent || roles[1..][i] == ColorError) {
        var i :| 0 <= i < |roles[1..]| && (roles[1..][i] == ColorCurrent || roles[1..][i] == ColorError);
        assert roles[i + 1] == roles[1..][i];
      }
    }
  }

  /** C++ integer division, which truncates toward zero. */
  function TruncDiv(a: int, b: int): (q: int)
    requires b > 0
    ensures a >= 0 ==> q == a / b
    ensures a < 0 ==> q == -((-a) / b)
  {
    if a >= 0 then a / b else -((-a) / b)
  }

  class ConsoleHandler {
    /** Dimensions sampled once by getmaxyx at initialisation. */
    const screenHeight: nat
    const screenWidth: nat
    /** The attribute state that SetColor and ResetColor change. */
    var attrs: Attributes

    /** initializeConsole: captures the size and switches the default pair on. */
    constructor (height: nat, width: nat)
      ensures screenHeight == height && screenWidth == width
      ensures attrs == DefaultAttributes
    {
      screenHeight := height;
      screenWidth := width;
      attrs := DefaultAttributes;
    }

    method SetColor(role: int)
      modifies this
      ensures attrs == ApplyColor(old(attrs), role)
    {
      attrs := Attributes(PairFor(role), attrs.bold || role == ColorCurrent || role == ColorError);
    }

    /** resetColor: clears colour and bold, then selects the default pair. */
    method ResetColor()
      modifies this
      ensures attrs == DefaultAttributes
    {
      attrs := Attributes(PairDefault, false);
    }

    /** getScreenSize: the dimensions captured at initialisation, whatever happened since. */
    method GetScreenSize() returns (height: nat, width: nat)
      ensures height == screenHeight && width == screenWidth
    {
      height, width := screenHeight, screenWidth;
    }

    /**
     * displayTextCentered: the (row, column) the text is moved to. `measured` is the
     * terminal width the locale reports for the text (negative when it cannot tell) and
     * `codePoints` its length in code points.
     */
    method CenteredPosition(measured: int, codePoints: nat, yOffset: int) returns (y: int, x: int)
      ensures var w := if measured < 0 then codePoints else measured;
        x == Max(0, TruncDiv(screenWidth - w, 2))
      ensures x >= 0
      ensures var w := if measured < 0 then codePoints else measured;
        w <= screenWidth ==> 2 * x <= screenWidth - w <= 2 * x + 1
      ensures var want := screenHeight / 2 + yOffset;
        screenHeight >= 1 ==> 0 <= y < screenHeight && (0 <= want < screenHeight ==> y == want)
      ensures screenHeight >= 1 && screenHeight / 2 + yOffset < 0 ==> y == 0
      ensures screenHeight >= 1 && screenHeight / 2 + yOffset >= screenHeight ==> y == screenHeight - 1
      ensures screenHeight == 0 ==> y == -1
    {
      var displayWidth := measured;
      if displayWidth < 0 {
        displayWidth := codePoints;
      }
      x := TruncDiv(screenWidth - displayWidth, 2);
      if x < 0 {
        x := 0;
      }
      y := screenHeight / 2 + yOffset;
      if y < 0 {
        y := 0;
      }
      if y >= screenHeight {
        y := screenHeight - 1;
      }
    }
  }
}
