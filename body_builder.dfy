/** The message pane's layout engine. Messages are pushed newest first
    until the pane is full; `Build` then pops them (oldest first) and wraps
    each body into rows of `w` characters, the sender shown on a message's
    first row only. When the last message pushed overshoots the pane, its
    first `excess` rows are cut off at the top. */
module BodyBuilder {
  import opened Messages
  import opened Helpers

  // ---------------------------------------------------------------------
  // Row counts

  /** The rows a body of `len` characters takes at width `w`: one row, or
      one more than the rest after a full row. */
  function LinesUsed(len: nat, w: int): (r: nat)
    requires w >= 1
    ensures r >= 1
    ensures r == 1 <==> len <= w
    decreases len
  {
    if len <= w then 1 else 1 + LinesUsed(len - w, w)
  }

  lemma MulAtLeast(d: int, w: int)
    requires d >= 1 && w >= 1
    ensures d * w >= w
    decreases d
  {
    assert d * w == (d - 1) * w + w;
    if d > 1 {
      MulAtLeast(d - 1, w);
    }
  }

  /** Quotient and remainder are the only ones with `0 <= m < w`. */
  lemma DivModUnique(x: int, w: int, q: int, m: int)
    requires w >= 1 && x == q * w + m && 0 <= m < w
    ensures x / w == q && x % w == m
  {
    var q0, m0 := x / w, x % w;
    assert x == q0 * w + m0 && 0 <= m0 < w;
    var d := q - q0;
    assert d * w == m0 - m by {
      assert q * w - q0 * w == (q - q0) * w;
    }
    if d >= 1 {
      MulAtLeast(d, w);
      assert false;
    }
    if d <= -1 {
      MulAtLeast(-d, w);
      assert false;
    }
  }

  lemma DivShift(x: nat, w: int)
    requires w >= 1
    ensures (x + w) / w == x / w + 1 && x / w >= 0
    ensures (x + w) % w == x % w
  {
    var q, m := x / w, x % w;
    assert x + w == (q + 1) * w + m by {
      assert (q + 1) * w == q * w + w;
    }
    DivModUnique(x + w, w, q + 1, m);
  }

  /** The row count is the source's `Math.Max(1, Math.Ceiling(len / w))`,
      written with integer division. */
  lemma {:induction false} LinesUsedIsCeiling(len: nat, w: int)
    requires w >= 1
    ensures var c := (len + w - 1) / w;
            LinesUsed(len, w) == if c < 1 then 1 else c
    decreases len
  {
    if len == 0 {
      DivModUnique(w - 1, w, 0, w - 1);
    } else if len <= w {
      DivModUnique(len + w - 1, w, 1, len - 1);
    } else {
      var k := len - 1 - w;
      LinesUsedIsCeiling(len - w, w);
      assert len - w + w - 1 == k + w;
      DivShift(k, w);
      assert len - 1 == k + w;
      DivShift(len - 1, w);
      assert (len + w - 1) / w == k / w + 2;
    }
  }

  // ---------------------------------------------------------------------
  // Wrapping one body

  /** The rows of one message drawn whole, as the inner loop of `Build`
      draws them: a full `w`-wide slice while more than a row is left,
      then the rest padded to `w`; the sender goes on the first row only. */
  function Rows(helper: InterfaceHelpers, body: string, sender: string, w: int): (r: seq<string>)
    requires w >= 1
    ensures |r| == LinesUsed(|body|, w)
    decreases |body|
  {
    if |body| <= w then [helper.EncapsulateAndPadRight(body, sender, w)]
    else [helper.Encapsulate(body[..w], sender)] + Rows(helper, body[w..], "", w)
  }

  /** The text of each row: `w`-wide slices, the last one padded. */
  function Segments(body: string, w: int): (r: seq<string>)
    requires w >= 1
    ensures |r| == LinesUsed(|body|, w)
    decreases |body|
  {
    if |body| <= w then [PadRight(body, w)] else [body[..w]] + Segments(body[w..], w)
  }

  function Concat(ss: seq<string>): string {
    if ss == [] then [] else ss[0] + Concat(ss[1..])
  }

  /** Every segment is exactly `w` wide. */
  lemma {:induction false} SegmentsWide(body: string, w: int)
    requires w >= 1
    ensures forall i :: 0 <= i < |Segments(body, w)| ==> |Segments(body, w)[i]| == w
    decreases |body|
  {
    if |body| > w {
      SegmentsWide(body[w..], w);
      var ss := Segments(body, w);
      forall i | 1 <= i < |ss|
        ensures |ss[i]| == w
      {
        assert ss[i] == Segments(body[w..], w)[i - 1];
      }
    }
  }

  lemma PadRightPrefix(a: string, b: string, len: int)
    ensures PadRight(a + b, |a| + len) == a + PadRight(b, len)
  {
    if |b| < len {
      assert PadRight(a + b, |a| + len) == (a + b) + Repeat(' ', len - |b|);
    }
  }

  lemma MulSucc(w: int, n: int)
    ensures w * n == w + w * (n - 1)
  {
  }

  /** The segments joined are the body padded to a whole number of rows:
      wrapping loses and reorders nothing. */
  lemma {:induction false} SegmentsCover(body: string, w: int)
    requires w >= 1
    ensures Concat(Segments(body, w)) == PadRight(body, w * LinesUsed(|body|, w))
    decreases |body|
  {
    if |body| > w {
      var n := LinesUsed(|body|, w);
      var ss, tail := Segments(body, w), Segments(body[w..], w);
      var padded := w * (n - 1);
      SegmentsCover(body[w..], w);
      assert ss == [body[..w]] + tail;
      assert Concat(ss) == body[..w] + Concat(tail);
      assert Concat(tail) == PadRight(body[w..], padded);
      PadRightPrefix(body[..w], body[w..], padded);
      assert body[..w] + body[w..] == body;
      MulSucc(w, n);
    }
  }

  /** Row `j` frames segment `j`, with the sender on the first row. */
  lemma {:induction false} RowsFrameSegments(helper: InterfaceHelpers, body: string, sender: string, w: int, j: nat)
    requires w >= 1 && j < LinesUsed(|body|, w)
    ensures Rows(helper, body, sender, w)[j] == helper.Encapsulate(Segments(body, w)[j], if j == 0 then sender else "")
    decreases j
  {
    if j > 0 {
      RowsFrameSegments(helper, body[w..], "", w, j - 1);
    }
  }

  // ---------------------------------------------------------------------
  // The cut-off message

  /** The body with its first `k` rows dropped. */
  function Drop(body: string, w: int, k: nat): (r: string)
    requires w >= 1 && k < LinesUsed(|body|, w)
    ensures LinesUsed(|r|, w) == LinesUsed(|body|, w) - k
    decreases k
  {
    if k == 0 then body else Drop(body[w..], w, k - 1)
  }

  /** Dropping `k` rows is the source's slice from index `w * k`. */
  lemma {:induction false} DropIsSlice(body: string, w: int, k: nat)
    requires w >= 1 && k < LinesUsed(|body|, w)
    ensures w * k <= |body| && Drop(body, w, k) == body[w * k..]
    decreases k
  {
    if k > 0 {
      DropIsSlice(body[w..], w, k - 1);
      assert w * k == w + w * (k - 1);
    }
  }

  /** Dropping one more row drops the next `w` characters. */
  lemma {:induction false} DropNext(body: string, w: int, k: nat)
    requires w >= 1 && k + 1 < LinesUsed(|body|, w)
    ensures Drop(body, w, k + 1) == Drop(body, w, k)[w..]
    decreases k
  {
    if k > 0 {
      DropNext(body[w..], w, k - 1);
    }
  }

  /** `overhangLength`: the length of a body's last row, `w` when the
      body fills its last row (or is empty). */
  function Overhang(len: nat, w: int): (r: int)
    requires w >= 1
    ensures 1 <= r <= w
    decreases len
  {
    if len <= w then (if len == 0 then w else len) else Overhang(len - w, w)
  }

  /** The overhang is the source's `len % w == 0 ? w : len % w`. */
  lemma {:induction false} OverhangIsRemainder(len: nat, w: int)
    requires w >= 1
    ensures Overhang(len, w) == if len % w == 0 then w else len % w
    decreases len
  {
    if len > w {
      OverhangIsRemainder(len - w, w);
      DivShift(len - w, w);
    } else if len == w {
      DivModUnique(len, w, 1, 0);
    } else {
      DivModUnique(len, w, 0, len);
    }
  }

  /** What is left after dropping all rows but the last is the source's
      `body[^overhangLength..]`. */
  lemma {:induction false} LastRowIsOverhang(body: string, w: int)
    requires w >= 1 && |body| > 0
    ensures Drop(body, w, LinesUsed(|body|, w) - 1) == body[|body| - Overhang(|body|, w)..]
    decreases |body|
  {
    if |body| > w {
      LastRowIsOverhang(body[w..], w);
      assert body[w..][|body| - w - Overhang(|body|, w)..] == body[|body| - Overhang(|body|, w)..];
    }
  }

  /** The rows `Build` draws for the message it cuts: the rows of what is
      left after dropping `excess` rows (but never the last row), without
      a sender. */
  function CutRows(helper: InterfaceHelpers, body: string, excess: int, w: int): seq<string>
    requires w >= 1 && excess >= 1
  {
    var n := LinesUsed(|body|, w);
    Rows(helper, Drop(body, w, if excess < n - 1 then excess else n - 1), "", w)
  }

  /** The rows of a body from row `k` on, for `k >= 1`, are the rows of
      what dropping `k` rows leaves, drawn without a sender. */
  lemma {:induction false} RowsAfterDrop(helper: InterfaceHelpers, body: string, sender: string, w: int, k: nat)
    requires w >= 1 && 1 <= k < LinesUsed(|body|, w)
    ensures Rows(helper, Drop(body, w, k), "", w) == Rows(helper, body, sender, w)[k..]
    decreases k
  {
    if k > 1 {
      RowsAfterDrop(helper, body[w..], "", w, k - 1);
      assert Rows(helper, body, sender, w)[k..] == Rows(helper, body[w..], "", w)[k - 1..];
    }
  }

  /** A message cut by `excess` rows shows exactly its last rows as it
      would be drawn whole, the first `excess` missing. */
  lemma CutRowsAreTail(helper: InterfaceHelpers, body: string, sender: string, excess: int, w: int)
    requires w >= 1 && 1 <= excess <= LinesUsed(|body|, w) - 1
    ensures CutRows(helper, body, excess, w) == Rows(helper, body, sender, w)[excess..]
  {
    RowsAfterDrop(helper, body, sender, w, excess);
  }

  // ---------------------------------------------------------------------
  // The whole pane

  /** The lines counted for a stack of messages (last element on top). */
  function SumLines(stack: seq<Message>, w: int): (r: nat)
    requires w >= 1
    ensures r >= |stack|
  {
    if stack == [] then 0 else SumLines(stack[..|stack| - 1], w) + LinesUsed(|stack[|stack| - 1].body|, w)
  }

  /** The rows of the messages popped off a stack, each drawn whole: the
      top (last pushed) first. */
  function PopRows(helper: InterfaceHelpers, stack: seq<Message>, w: int): (r: seq<string>)
    requires w >= 1
    ensures |r| == SumLines(stack, w)
  {
    if stack == [] then []
    else Rows(helper, stack[|stack| - 1].body, stack[|stack| - 1].sender, w) + PopRows(helper, stack[..|stack| - 1], w)
  }

  /** What `Build` emits for a stack and its excess over the pane height. */
  function BuildRows(helper: InterfaceHelpers, stack: seq<Message>, excess: int, w: int): seq<string>
    requires w >= 1 && (excess > 0 ==> stack != [])
  {
    if excess > 0 then
      CutRows(helper, stack[|stack| - 1].body, excess, w) + PopRows(helper, stack[..|stack| - 1], w)
    else PopRows(helper, stack, w)
  }

  /** When the overshoot is less than the top message's rows, `Build`
      draws the whole pane with its first `excess` rows cut off, so it
      fills the pane height exactly; with no overshoot it draws every row. */
  lemma BuildRowsFillPane(helper: InterfaceHelpers, stack: seq<Message>, height: int, w: int)
    requires w >= 1
    requires var excess := SumLines(stack, w) - height;
             excess > 0 ==> stack != [] && excess <= LinesUsed(|stack[|stack| - 1].body|, w) - 1
    ensures var excess := SumLines(stack, w) - height;
            && (excess > 0 ==> BuildRows(helper, stack, excess, w) == PopRows(helper, stack, w)[excess..]
                               && |BuildRows(helper, stack, excess, w)| == height)
            && (excess <= 0 ==> BuildRows(helper, stack, excess, w) == PopRows(helper, stack, w)
                                && |BuildRows(helper, stack, excess, w)| == SumLines(stack, w))
  {
    var excess := SumLines(stack, w) - height;
    if excess > 0 {
      var top := stack[|stack| - 1];
      CutRowsAreTail(helper, top.body, top.sender, excess, w);
      var rows := Rows(helper, top.body, top.sender, w);
      var rest := PopRows(helper, stack[..|stack| - 1], w);
      DropFromAppend(rows, rest, excess);
    }
  }

  /** The width of every row `Build` emits: an encapsulated `w`-wide
      segment. */
  function RowWidth(helper: InterfaceHelpers, w: int): int {
    w + 2 + (if helper.senderWidth > 1 then helper.senderWidth else 0)
  }

  /** Every row is `width` characters wide. */
  predicate AllWide(rows: seq<string>, width: int) {
    forall i :: 0 <= i < |rows| ==> |rows[i]| == width
  }

  lemma AllWideAppend(a: seq<string>, b: seq<string>, width: int)
    requires AllWide(a, width) && AllWide(b, width)
    ensures AllWide(a + b, width)
  {
    forall i | 0 <= i < |a + b|
      ensures |(a + b)[i]| == width
    {
      if i < |a| {
        assert (a + b)[i] == a[i];
      } else {
        assert (a + b)[i] == b[i - |a|];
      }
    }
  }

  lemma {:induction false} RowsWidth(helper: InterfaceHelpers, body: string, sender: string, w: int)
    requires w >= 1
    ensures AllWide(Rows(helper, body, sender, w), RowWidth(helper, w))
    decreases |body|
  {
    if |body| > w {
      RowsWidth(helper, body[w..], "", w);
      AllWideAppend([helper.Encapsulate(body[..w], sender)], Rows(helper, body[w..], "", w), RowWidth(helper, w));
    }
  }

  lemma {:induction false} PopRowsWidth(helper: InterfaceHelpers, stack: seq<Message>, w: int)
    requires w >= 1
    ensures AllWide(PopRows(helper, stack, w), RowWidth(helper, w))
  {
    if stack != [] {
      var top := stack[|stack| - 1];
      RowsWidth(helper, top.body, top.sender, w);
      PopRowsWidth(helper, stack[..|stack| - 1], w);
      AllWideAppend(Rows(helper, top.body, top.sender, w), PopRows(helper, stack[..|stack| - 1], w), RowWidth(helper, w));
    }
  }

  /** Every row `Build` emits has the same width, whether or not a message
      is cut. */
  lemma BuildRowsWidth(helper: InterfaceHelpers, stack: seq<Message>, excess: int, w: int)
    requires w >= 1 && (excess > 0 ==> stack != [])
    ensures AllWide(BuildRows(helper, stack, excess, w), RowWidth(helper, w))
  {
    if excess > 0 {
      var body := stack[|stack| - 1].body;
      var n := LinesUsed(|body|, w);
      RowsWidth(helper, Drop(body, w, if excess < n - 1 then excess else n - 1), "", w);
      PopRowsWidth(helper, stack[..|stack| - 1], w);
      AllWideAppend(CutRows(helper, body, excess, w), PopRows(helper, stack[..|stack| - 1], w), RowWidth(helper, w));
    } else {
      PopRowsWidth(helper, stack, w);
    }
  }

  lemma DropFromAppend<T>(a: seq<T>, b: seq<T>, k: int)
    requires 0 <= k <= |a|
    ensures (a + b)[k..] == a[k..] + b
  {
  }

  lemma AppendAssoc<T>(a: seq<T>, b: seq<T>, c: seq<T>)
    ensures (a + b) + c == a + (b + c)
  {
  }

  // ---------------------------------------------------------------------
  // The builder object

  class MessagesBodyBuilder {
    /** The text appended so far, one entry per `AppendLine`. */
    var output: seq<string>
    /** `Stack<Message> buffer`; the last element is the top. */
    var stack: seq<Message>
    var lines: int
    const helper: InterfaceHelpers
    const usableWidth: int
    const usableHeight: int

    ghost predicate Valid()
      reads this
    {
      usableWidth >= 1 && lines == SumLines(stack, usableWidth)
    }

    constructor (usableWidth: int, usableHeight: int, helper: InterfaceHelpers)
      requires usableWidth >= 1
      ensures Valid() && output == [] && stack == [] && lines == 0
      ensures this.usableWidth == usableWidth && this.usableHeight == usableHeight && this.helper == helper
    {
      this.usableWidth := usableWidth;
      this.usableHeight := usableHeight;
      this.helper := helper;
      output := [];
      stack := [];
      lines := 0;
    }

    method AppendMessage(m: Message)
      requires Valid()
      modifies this`lines, this`stack
      ensures Valid()
      ensures stack == old(stack) + [m] && lines == old(lines) + LinesUsed(|m.body|, usableWidth)
    {
      lines := lines + LinesUsed(|m.body|, usableWidth);
      stack := stack + [m];
      assert stack[..|stack| - 1] == old(stack);
    }

    /** The pushed messages reach the pane height. */
    function IsFull(): (r: bool)
      reads this
      requires Valid()
      ensures r <==> SumLines(stack, usableWidth) >= usableHeight
    {
      lines >= usableHeight
    }

    /** Draws the stacked messages, draining the stack. `lines` keeps its
        value, so a second call that has to cut a message finds the stack
        empty. */
    method Build() returns (built: seq<string>)
      requires Valid()
      requires lines - usableHeight > 0 ==> stack != [] && |stack[|stack| - 1].body| > 0
      modifies this`stack, this`output
      ensures stack == [] && built == output
      ensures output == old(output) + BuildRows(helper, old(stack), old(lines) - usableHeight, usableWidth)
    {
      var w := usableWidth;
      var excess := lines - usableHeight;
      ghost var target := BuildRows(helper, stack, excess, w);
      if excess > 0 {
        var m := stack[|stack| - 1];
        stack := stack[..|stack| - 1];
        DrawCut(m, excess);
      }
      while |stack| > 0
        invariant output + PopRows(helper, stack, w) == old(output) + target
        decreases |stack|
      {
        ghost var left := PopRows(helper, stack, w);
        var m := stack[|stack| - 1];
        stack := stack[..|stack| - 1];
        ghost var before := output;
        assert left == Rows(helper, m.body, m.sender, w) + PopRows(helper, stack, w);
        DrawWhole(m);
        AppendAssoc(before, Rows(helper, m.body, m.sender, w), PopRows(helper, stack, w));
      }
      built := output;
    }

    /** The first part of `Build`: rows `excess` up to the next-to-last of
        the cut message, then its overhang. `rest` stands for
        `body[w * i ..]` (`DropIsSlice`), so `rest[..w]` is
        `body[w * i .. w * (i + 1)]`. */
    method DrawCut(m: Message, excess: int)
      requires usableWidth >= 1 && excess >= 1 && |m.body| > 0
      modifies this`output
      ensures output == old(output) + CutRows(helper, m.body, excess, usableWidth)
    {
      var w := usableWidth;
      var len, n := |m.body|, LinesUsed(|m.body|, usableWidth);
      ghost var cut := CutRows(helper, m.body, excess, w);
      ghost var last := Drop(m.body, w, n - 1);
      if excess < n - 1 {
        var rest := Drop(m.body, w, excess);
        var i := excess;
        while i < n - 1
          invariant excess <= i <= n - 1 && rest == Drop(m.body, w, i)
          invariant output + Rows(helper, rest, "", w) == old(output) + cut
          decreases n - i
        {
          DropNext(m.body, w, i);
          ghost var before := output;
          var row := helper.Encapsulate(rest[..w], "");
          assert Rows(helper, rest, "", w) == [row] + Rows(helper, rest[w..], "", w);
          output := output + [row];
          AppendAssoc(before, [row], Rows(helper, rest[w..], "", w));
          rest := rest[w..];
          i := i + 1;
        }
      } else {
        assert cut == Rows(helper, last, "", w);
      }
      assert output + Rows(helper, last, "", w) == old(output) + cut;
      assert Rows(helper, last, "", w) == [helper.EncapsulateAndPadRight(last, "", w)] by {
        assert |last| <= w;
      }
      var overhang := Overhang(len, w);
      LastRowIsOverhang(m.body, w);
      output := output + [helper.EncapsulateAndPadRight(m.body[len - overhang..], "", w)];
    }

    /** One message drawn whole: the inner loop of `Build`. `rest` stands
        for `body[k * w ..]`, and `|rest| <= w` is `(k + 1) * w >= body.Length`. */
    method DrawWhole(m: Message)
      requires usableWidth >= 1
      modifies this`output
      ensures output == old(output) + Rows(helper, m.body, m.sender, usableWidth)
    {
      var w := usableWidth;
      var rest := m.body;
      var k := 0;
      while |rest| > w
        invariant output + Rows(helper, rest, if k == 0 then m.sender else "", w)
                  == old(output) + Rows(helper, m.body, m.sender, w)
        decreases |rest|
      {
        output := output + [helper.Encapsulate(rest[..w], if k == 0 then m.sender else "")];
        rest := rest[w..];
        k := k + 1;
      }
      output := output + [helper.EncapsulateAndPadRight(rest, if k == 0 then m.sender else "", w)];
    }
  }
}
