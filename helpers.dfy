/** The box-drawing line builders of the interface. Every frame line is a
    border glyph, `w` fill glyphs and a border glyph; when the sender column
    is wider than one character, the glyph at index `senderWidth` is
    replaced by the divider that separates senders from message text. */
module Helpers {

  const VerticalBorder: char := '│'
  const TopLeft: char := '┌'
  const BottomLeft: char := '└'
  const TopRight: char := '┐'
  const BottomRight: char := '┘'
  const TopDown: char := '┬'
  const BottomUp: char := '┷'
  const LeftT: char := '┝'
  const RightT: char := '┥'
  const HorizontalBorder: char := '─'
  const HorizontalSeparator: char := '━'
  const WavySeparator: char := '╍'
  const RightArrow: char := '⮞'
  const LeftArrow: char := '⮜'
  const Ellipsis: char := '…'

  /** `new string(c, n)`. */
  function Repeat(c: char, n: nat): (r: string)
    ensures |r| == n && forall i :: 0 <= i < n ==> r[i] == c
  {
    seq(n, _ => c)
  }

  /** `s.PadRight(w)`: spaces appended up to width `w`; a longer string is
      kept whole. */
  function PadRight(s: string, w: int): (r: string)
    ensures |r| == if |s| >= w then |s| else w
    ensures r[..|s|] == s
    ensures forall i :: |s| <= i < |r| ==> r[i] == ' '
  {
    if |s| >= w then s else s + Repeat(' ', w - |s|)
  }

  /** `Truncate(value, maxLength)` with the default "…" suffix: a value that
      fits is kept, a one-column field shows the first character, and a
      longer value keeps `maxLength - 1` characters followed by "…". */
  function Truncate(value: string, maxLength: int): (r: string)
    requires maxLength >= 1
    ensures |r| <= maxLength
    ensures |value| <= maxLength ==> r == value
    ensures maxLength == 1 && |value| > 0 ==> r == value[..1]
    ensures maxLength > 1 && |value| > maxLength ==> r == value[..maxLength - 1] + [Ellipsis]
  {
    if maxLength == 1 && |value| > 0 then [value[0]]
    else if |value| > maxLength then value[..maxLength - 1] + [Ellipsis]
    else value
  }

  /** A truncated value already fits, so truncating again keeps it. */
  lemma TruncateIdempotent(value: string, maxLength: int)
    requires maxLength >= 1
    ensures Truncate(Truncate(value, maxLength), maxLength) == Truncate(value, maxLength)
  {
  }

  /** `EncapsulatePadNoSender`: the input padded to `w` between two
      vertical borders, with no sender column. */
  function EncapsulatePadNoSender(input: string, w: int): (r: string)
    ensures |r| == 2 + (if |input| >= w then |input| else w)
    ensures r[0] == VerticalBorder && r[|r| - 1] == VerticalBorder
    ensures r[1..|r| - 1] == PadRight(input, w)
  {
    [VerticalBorder] + PadRight(input, w) + [VerticalBorder]
  }

  /** `BottomLine`: corners around `w` horizontal borders. */
  function BottomLine(w: nat): (r: string)
    ensures |r| == w + 2
    ensures r[0] == BottomLeft && r[w + 1] == BottomRight
    ensures forall i :: 1 <= i <= w ==> r[i] == HorizontalBorder
  {
    [BottomLeft] + Repeat(HorizontalBorder, w) + [BottomRight]
  }

  class InterfaceHelpers {
    const senderWidth: int

    constructor (senderWidth: int)
      ensures this.senderWidth == senderWidth
    {
      this.senderWidth := senderWidth;
    }

    /** Whether index `i` of a frame line carries the sender divider. */
    predicate IsDivider(i: int) {
      senderWidth > 1 && i == senderWidth
    }

    /** A frame line `left`, `w` times `fill`, `right`, with `mark` at the
        divider index: the line the builders produce. */
    function Ruled(left: char, fill: char, right: char, w: nat, mark: char): (r: string)
      requires senderWidth <= 1 || senderWidth < w + 2
      ensures |r| == w + 2
      ensures r[0] == (if IsDivider(0) then mark else left)
      ensures r[w + 1] == (if IsDivider(w + 1) then mark else right)
      ensures forall i :: 1 <= i <= w ==> r[i] == if IsDivider(i) then mark else fill
    {
      seq(w + 2, i => if IsDivider(i) then mark else if i == 0 then left else if i == w + 1 then right else fill)
    }

    /** `ClearLine`: an empty message row. */
    method ClearLine(w: nat) returns (r: string)
      requires senderWidth <= 1 || senderWidth < w + 2
      ensures r == Ruled(VerticalBorder, ' ', VerticalBorder, w, VerticalBorder)
    {
      var output := [VerticalBorder] + Repeat(' ', w) + [VerticalBorder];
      if senderWidth > 1 {
        output := output[senderWidth := VerticalBorder];
      }
      r := output;
    }

    /** `SeparateLine`: arrows at the ends show that the input line is
        scrolled, a wavy fill that the message pane is. */
    method SeparateLine(w: nat, scrolledRight: bool, scrolledLeft: bool, scrolledUp: bool) returns (r: string)
      requires senderWidth <= 1 || senderWidth < w + 2
      ensures r == Ruled(if scrolledRight then LeftArrow else LeftT,
                         if scrolledUp then WavySeparator else HorizontalSeparator,
                         if scrolledLeft then RightArrow else RightT, w, BottomUp)
    {
      var output := [if scrolledRight then LeftArrow else LeftT]
                    + Repeat(if scrolledUp then WavySeparator else HorizontalSeparator, w)
                    + [if scrolledLeft then RightArrow else RightT];
      if senderWidth > 1 {
        output := output[senderWidth := BottomUp];
      }
      r := output;
    }

    /** `TopLine`. */
    method TopLine(w: nat) returns (r: string)
      requires senderWidth <= 1 || senderWidth < w + 2
      ensures r == Ruled(TopLeft, HorizontalBorder, TopRight, w, TopDown)
    {
      var output := [TopLeft] + Repeat(HorizontalBorder, w) + [TopRight];
      if senderWidth > 1 {
        output := output[senderWidth := TopDown];
      }
      r := output;
    }

    /** The sender column: the sender truncated and padded to exactly
        `senderWidth - 1` characters. */
    function SenderField(sender: string): (r: string)
      requires senderWidth > 1
      ensures |r| == senderWidth - 1
    {
      PadRight(Truncate(sender, senderWidth - 1), senderWidth - 1)
    }

    /** `Encapsulate`: a message row, `senderWidth` characters wider than
        its input when there is a sender column. */
    function Encapsulate(input: string, sender: string): (r: string)
      ensures |r| == |input| + 2 + (if senderWidth > 1 then senderWidth else 0)
    {
      if senderWidth > 1 then [VerticalBorder] + SenderField(sender) + [VerticalBorder] + input + [VerticalBorder]
      else [VerticalBorder] + input + [VerticalBorder]
    }

    /** The layout of a message row: borders at both ends, the input just
        inside the right border, and with a sender column the truncated
        sender and the divider at index `senderWidth`, where the frame
        lines put theirs. */
    lemma EncapsulateLayout(input: string, sender: string)
      ensures var r := Encapsulate(input, sender);
              && r[0] == VerticalBorder && r[|r| - 1] == VerticalBorder
              && (senderWidth > 1 ==> && r[1..senderWidth] == SenderField(sender)
                                      && r[senderWidth] == VerticalBorder
                                      && r[senderWidth + 1..|r| - 1] == input)
              && (senderWidth <= 1 ==> r[1..|r| - 1] == input)
    {
      var r := Encapsulate(input, sender);
      if senderWidth > 1 {
        var f := SenderField(sender);
        var head := [VerticalBorder] + f + [VerticalBorder];
        assert r == head + (input + [VerticalBorder]);
        assert |head| == senderWidth + 1;
        assert r[..|head|] == head && r[|head|..] == input + [VerticalBorder];
        assert r[1..senderWidth] == head[1..senderWidth] == f;
        assert r[senderWidth] == head[senderWidth];
        assert r[senderWidth + 1..|r| - 1] == (input + [VerticalBorder])[..|input|];
      } else {
        assert r == [VerticalBorder] + (input + [VerticalBorder]);
        assert r[1..|r| - 1] == (input + [VerticalBorder])[..|input|];
      }
    }

    /** `EncapsulateAndPadRight`: a message row whose text part is the
        input padded to `w`. */
    function EncapsulateAndPadRight(input: string, sender: string, w: int): (r: string)
      ensures |r| == (if |input| >= w then |input| else w) + 2 + (if senderWidth > 1 then senderWidth else 0)
    {
      Encapsulate(PadRight(input, w), sender)
    }

    /** The text part of a padded row is the input followed by spaces. */
    lemma EncapsulateAndPadRightLayout(input: string, sender: string, w: int)
      ensures var r := EncapsulateAndPadRight(input, sender, w);
              r[|r| - 1 - (if |input| >= w then |input| else w)..|r| - 1] == PadRight(input, w)
    {
      EncapsulateLayout(PadRight(input, w), sender);
    }

    /** A sender column wider than one character lines up in the frame:
        the rows put their divider where `TopLine`, `ClearLine` and
        `SeparateLine` put theirs, and only there. */
    lemma DividersAlign(input: string, sender: string, w: nat)
      requires 1 < senderWidth < w + 2 && |input| + senderWidth == w
      ensures var row := Encapsulate(input, sender);
              |row| == w + 2 && row[senderWidth] == VerticalBorder
              && Ruled(TopLeft, HorizontalBorder, TopRight, w, TopDown)[senderWidth] == TopDown
              && Ruled(VerticalBorder, ' ', VerticalBorder, w, VerticalBorder)[senderWidth] == row[senderWidth]
    {
      EncapsulateLayout(input, sender);
    }
  }
}
