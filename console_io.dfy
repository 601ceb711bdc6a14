/** The current console interface: a message pane above an input line,
    framed by box-drawing lines. Keys edit the input line or scroll the
    pane, Enter hands the line to the application, and every change redraws
    the whole screen. The console's size is read on each redraw; here it is
    passed in as `width` and `height`. */
module ConsoleIO {
  import opened Options
  import opened Messages
  import H = Helpers
  import BB = BodyBuilder
  import IL = InputLine

  /** The keys the interface distinguishes; every other key only redraws. */
  datatype ConsoleKey =
    | Enter | LeftArrow | RightArrow | UpArrow | DownArrow
    | PageUp | PageDown | Home | Backspace | Delete | Escape | OtherKey

  /** `ConsoleKeyInfo`: the character a key produces and the key itself. */
  datatype KeyInfo = KeyInfo(keyChar: char, key: ConsoleKey)

  /** The printable ASCII range that is typed into the input line. */
  predicate Printable(c: char) {
    32 <= c as int <= 126
  }

  /** What one key does to the input line and the pane's offset. */
  datatype Effect = Effect(beep: bool, input: IL.InputState, offset: int, submitted: bool, exit: bool)

  /** The key handler as a function of the state it reads: `cw` is the
      console width the state was settled for, `cwNow` the width read when
      a printable key refreshes the size. */
  function OnKey(st: IL.InputState, offset: int, count: nat, k: KeyInfo, cw: int, cwNow: int): Effect
    requires IL.Valid(st)
  {
    if Printable(k.keyChar) then Effect(false, IL.Type(st, k.keyChar, cwNow), offset, false, false)
    else Dispatch(st, offset, count, k.key, cw)
  }

  predicate IsEditKey(key: ConsoleKey) {
    key.LeftArrow? || key.RightArrow? || key.Backspace? || key.Delete?
  }

  predicate IsScrollKey(key: ConsoleKey) {
    key.UpArrow? || key.DownArrow? || key.PageUp? || key.PageDown? || key.Home?
  }

  /** The keys that move the caret or delete a character. */
  function EditOf(key: ConsoleKey, st: IL.InputState, cw: int): IL.Edit
    requires IL.Valid(st) && IsEditKey(key)
  {
    match key
    case LeftArrow => IL.Left(st)
    case RightArrow => IL.Right(st, cw)
    case Backspace => IL.Backspace(st, cw)
    case Delete => IL.Delete(st, cw)
  }

  /** The keys that scroll the pane. Up and PageUp use the guards that keep
      the offset in view. */
  function ScrollOf(key: ConsoleKey, offset: int, count: nat): IL.Scroll
    requires IsScrollKey(key)
  {
    match key
    case UpArrow => IL.ScrollUp(offset, count)
    case DownArrow => IL.ScrollDown(offset)
    case PageUp => IL.PageUp(offset, count)
    case PageDown => IL.PageDown(offset)
    case Home => IL.Scroll(false, 0)
  }

  /** The keys that are not printable. */
  function Dispatch(st: IL.InputState, offset: int, count: nat, key: ConsoleKey, cw: int): Effect
    requires IL.Valid(st)
  {
    if IsEditKey(key) then var e := EditOf(key, st, cw); Effect(e.beep, e.state, offset, false, false)
    else if IsScrollKey(key) then var s := ScrollOf(key, offset, count); Effect(s.beep, st, s.offset, false, false)
    else if key == Enter then Effect(false, IL.InputState("", 0, 0), offset, true, false)
    else if key == Escape then Effect(false, st, offset, false, true)
    else Effect(false, st, offset, false, false)
  }

  /** The editing keys keep the input line valid and settled. */
  lemma EditKeepsInput(key: ConsoleKey, st: IL.InputState, cw: int)
    requires IL.Valid(st) && IL.Settled(st, cw) && cw >= 0 && IsEditKey(key)
    ensures IL.Valid(EditOf(key, st, cw).state) && IL.Settled(EditOf(key, st, cw).state, cw)
  {
    match key
    case LeftArrow => IL.LeftMovesOne(st, cw);
    case RightArrow => IL.RightMovesOne(st, cw);
    case Backspace => IL.BackspaceRemovesOne(st, cw);
    case Delete => IL.DeleteRemovesOne(st, cw);
  }

  /** The scrolling keys keep a message in view. */
  lemma ScrollKeepsOffset(key: ConsoleKey, offset: int, count: nat)
    requires IL.InView(offset, count) && IsScrollKey(key)
    ensures IL.InView(ScrollOf(key, offset, count).offset, count)
  {
    match key
    case UpArrow => IL.ScrollUpStaysInView(offset, count);
    case DownArrow => IL.ScrollDownStaysInView(offset, count);
    case PageUp => IL.ScrollUpStaysInView(offset, count);
    case PageDown => IL.ScrollDownStaysInView(offset, count);
    case Home =>
  }

  /** Every key leaves an input state that the next refresh repairs and an
      offset that keeps a message in view. */
  lemma OnKeyKeepsInvariant(st: IL.InputState, offset: int, count: nat, k: KeyInfo, cw: int, cwNow: int)
    requires IL.Valid(st) && IL.Settled(st, cw) && IL.InView(offset, count) && cw >= 0 && cwNow >= 0
    ensures IL.Loose(OnKey(st, offset, count, k, cw, cwNow).input, cwNow)
    ensures IL.InView(OnKey(st, offset, count, k, cw, cwNow).offset, count)
  {
    if Printable(k.keyChar) {
      IL.TypeAfterResize(st, k.keyChar, cwNow);
    } else {
      if IsEditKey(k.key) {
        EditKeepsInput(k.key, st, cw);
      } else if IsScrollKey(k.key) {
        ScrollKeepsOffset(k.key, offset, count);
      }
    }
  }

  /** Only Enter submits the line, only Escape exits, only the scrolling
      keys move the pane, and only typing, Enter, Backspace and Delete
      change the buffer. */
  lemma OnKeyRoles(st: IL.InputState, offset: int, count: nat, k: KeyInfo, cw: int, cwNow: int)
    requires IL.Valid(st)
    ensures var e := OnKey(st, offset, count, k, cw, cwNow);
            && (e.submitted <==> !Printable(k.keyChar) && k.key == Enter)
            && (e.exit <==> !Printable(k.keyChar) && k.key == Escape)
            && (e.offset != offset ==> !Printable(k.keyChar) && k.key in {UpArrow, DownArrow, PageUp, PageDown, Home})
            && (e.input.buffer != st.buffer ==> Printable(k.keyChar) || k.key in {Enter, Backspace, Delete})
  {
  }

  // ---------------------------------------------------------------------
  // Filling the pane

  /** The stack after pushing the newest `k` of the visible messages, the
      newest first, so the oldest of them is on top. */
  function Pushed(visible: seq<Message>, k: nat): (r: seq<Message>)
    requires k <= |visible|
    ensures |r| == k
  {
    if k == 0 then [] else Pushed(visible, k - 1) + [visible[|visible| - k]]
  }

  /** How many messages the fill loop pushes once it has pushed `k`: it
      stops after the push that makes the pane full, or when none are
      left. */
  function TakenFrom(visible: seq<Message>, k: nat, height: int, w: int): (r: nat)
    requires w >= 1 && k <= |visible|
    ensures k <= r <= |visible| && (k < |visible| ==> k < r)
    decreases |visible| - k
  {
    if k == |visible| then k
    else if BB.SumLines(Pushed(visible, k + 1), w) >= height then k + 1
    else TakenFrom(visible, k + 1, height, w)
  }

  function Taken(visible: seq<Message>, height: int, w: int): nat
    requires w >= 1
  {
    TakenFrom(visible, 0, height, w)
  }

  /** The rows of messages drawn whole, oldest first. */
  function AllRows(helper: H.InterfaceHelpers, ms: seq<Message>, w: int): seq<string>
    requires w >= 1
  {
    if ms == [] then [] else BB.Rows(helper, ms[0].body, ms[0].sender, w) + AllRows(helper, ms[1..], w)
  }

  /** Popping the pushed messages draws them in their order in the log:
      the oldest shown at the top, the newest at the bottom. */
  lemma {:induction false} PushedPopInOrder(helper: H.InterfaceHelpers, visible: seq<Message>, k: nat, w: int)
    requires w >= 1 && k <= |visible|
    ensures BB.PopRows(helper, Pushed(visible, k), w) == AllRows(helper, visible[|visible| - k..], w)
  {
    if k > 0 {
      PushedPopInOrder(helper, visible, k - 1, w);
      var st := Pushed(visible, k);
      assert st[..|st| - 1] == Pushed(visible, k - 1);
      var tail := visible[|visible| - k..];
      assert tail[1..] == visible[|visible| - (k - 1)..];
    }
  }

  lemma {:induction false} PushedTop(visible: seq<Message>, k: nat, w: int)
    requires w >= 1 && 1 <= k <= |visible|
    ensures var st := Pushed(visible, k);
            st[|st| - 1] == visible[|visible| - k]
            && BB.SumLines(st, w) == BB.SumLines(Pushed(visible, k - 1), w) + BB.LinesUsed(|visible[|visible| - k].body|, w)
  {
    assert Pushed(visible, k)[..k - 1] == Pushed(visible, k - 1);
  }

  /** The pushed lines overshoot the pane by less than the top message's
      rows, so `Build` can cut the top message and fill the pane exactly. */
  predicate Fits(stack: seq<Message>, w: int, height: int)
    requires w >= 1
  {
    var excess := BB.SumLines(stack, w) - height;
    excess > 0 ==> stack != [] && excess <= BB.LinesUsed(|stack[|stack| - 1].body|, w) - 1
  }

  /** The fill loop stops as soon as the pane is full, so what it pushes
      fits. */
  lemma {:induction false} TakenFromFits(visible: seq<Message>, k: nat, height: int, w: int)
    requires w >= 1 && k <= |visible|
    requires BB.SumLines(Pushed(visible, k), w) < height
    ensures Fits(Pushed(visible, TakenFrom(visible, k, height, w)), w, height)
    decreases |visible| - k
  {
    if k < |visible| {
      PushedTop(visible, k + 1, w);
      if BB.SumLines(Pushed(visible, k + 1), w) < height {
        TakenFromFits(visible, k + 1, height, w);
      }
    }
  }

  /** The stack the fill loop leaves: the newest visible messages, up to
      the one that fills the pane. */
  function Fill(visible: seq<Message>, height: int, w: int): (stack: seq<Message>)
    requires w >= 1 && height >= 1
    ensures |stack| == Taken(visible, height, w) && Fits(stack, w, height)
    ensures visible != [] ==> stack != []
  {
    TakenFromFits(visible, 0, height, w);
    Pushed(visible, Taken(visible, height, w))
  }

  /** Drawing the filled stack whole shows its messages in the log's
      order. */
  lemma FillInOrder(helper: H.InterfaceHelpers, visible: seq<Message>, height: int, w: int)
    requires w >= 1 && height >= 1
    ensures BB.PopRows(helper, Fill(visible, height, w), w)
            == AllRows(helper, visible[|visible| - Taken(visible, height, w)..], w)
  {
    PushedPopInOrder(helper, visible, Taken(visible, height, w), w);
  }

  /** `n` copies of one row. */
  function Copies(row: string, n: nat): (r: seq<string>)
    ensures |r| == n
  {
    if n == 0 then [] else Copies(row, n - 1) + [row]
  }

  lemma {:induction false} CopiesWide(row: string, n: nat)
    ensures BB.AllWide(Copies(row, n), |row|)
  {
    if n > 0 {
      CopiesWide(row, n - 1);
      BB.AllWideAppend(Copies(row, n - 1), [row], |row|);
    }
  }

  /** The message pane of a redraw for a filled stack: `blank` rows while
      the messages do not fill it, then what `Build` draws. */
  function Pane(helper: H.InterfaceHelpers, stack: seq<Message>, blank: string, uw: int, uh: int): seq<string>
    requires uw >= 1 && Fits(stack, uw, uh)
  {
    var lines := BB.SumLines(stack, uw);
    Copies(blank, if uh - lines > 0 then uh - lines else 0) + BB.BuildRows(helper, stack, lines - uh, uw)
  }

  lemma PaneWhenCut(helper: H.InterfaceHelpers, stack: seq<Message>, blank: string, uw: int, uh: int)
    requires uw >= 1 && Fits(stack, uw, uh) && BB.SumLines(stack, uw) > uh
    ensures Pane(helper, stack, blank, uw, uh) == BB.BuildRows(helper, stack, BB.SumLines(stack, uw) - uh, uw)
  {
    assert Copies(blank, 0) == [];
  }

  lemma PaneWhenShort(helper: H.InterfaceHelpers, stack: seq<Message>, blank: string, uw: int, uh: int)
    requires uw >= 1 && Fits(stack, uw, uh) && BB.SumLines(stack, uw) <= uh
    ensures var lines := BB.SumLines(stack, uw);
            Pane(helper, stack, blank, uw, uh)[uh - lines..] == BB.BuildRows(helper, stack, lines - uh, uw)
  {
    var lines := BB.SumLines(stack, uw);
    var blanks := Copies(blank, uh - lines);
    var built := BB.BuildRows(helper, stack, lines - uh, uw);
    assert (blanks + built)[|blanks|..] == built;
  }

  /** The pane is exactly `uh` rows high: a short stack is drawn whole at
      its bottom, a tall one loses its first rows. */
  lemma PaneFillsHeight(helper: H.InterfaceHelpers, stack: seq<Message>, blank: string, uw: int, uh: int)
    requires uw >= 1 && uh >= 1 && Fits(stack, uw, uh)
    ensures var pane, lines := Pane(helper, stack, blank, uw, uh), BB.SumLines(stack, uw);
            && |pane| == uh
            && (lines <= uh ==> pane[uh - lines..] == BB.PopRows(helper, stack, uw))
            && (lines > uh ==> pane == BB.PopRows(helper, stack, uw)[lines - uh..])
  {
    BB.BuildRowsFillPane(helper, stack, uh, uw);
    if BB.SumLines(stack, uw) <= uh {
      PaneWhenShort(helper, stack, blank, uw, uh);
    } else {
      PaneWhenCut(helper, stack, blank, uw, uh);
    }
  }

  /** A redraw's pane shows the newest visible messages in the log's
      order, the oldest of them cut at the top when they overflow it. */
  lemma PaneShowsNewest(helper: H.InterfaceHelpers, visible: seq<Message>, blank: string, uw: int, uh: int)
    requires uw >= 1 && uh >= 1
    ensures var pane := Pane(helper, Fill(visible, uh, uw), blank, uw, uh);
            var rows := AllRows(helper, visible[|visible| - Taken(visible, uh, uw)..], uw);
            && |pane| == uh
            && (|rows| <= uh ==> pane[uh - |rows|..] == rows)
            && (|rows| > uh ==> pane == rows[|rows| - uh..])
  {
    PaneFillsHeight(helper, Fill(visible, uh, uw), blank, uw, uh);
    FillInOrder(helper, visible, uh, uw);
  }

  /** How many rows `Build` draws for a filled stack. */
  lemma BuiltLength(helper: H.InterfaceHelpers, stack: seq<Message>, uw: int, uh: int)
    requires uw >= 1 && uh >= 1 && Fits(stack, uw, uh)
    ensures var lines := BB.SumLines(stack, uw);
            |BB.BuildRows(helper, stack, lines - uh, uw)| == if lines > uh then uh else lines
  {
    BB.BuildRowsFillPane(helper, stack, uh, uw);
  }

  /** The pane is `blank` rows above `Build`'s rows. */
  lemma PaneParts(helper: H.InterfaceHelpers, stack: seq<Message>, blank: string, uw: int, uh: int)
    requires uw >= 1 && Fits(stack, uw, uh)
    ensures var lines := BB.SumLines(stack, uw);
            Pane(helper, stack, blank, uw, uh)
            == Copies(blank, if uh - lines > 0 then uh - lines else 0) + BB.BuildRows(helper, stack, lines - uh, uw)
  {
  }

  lemma LastRowOf(pane: seq<string>, blanks: seq<string>, built: seq<string>, rw: int)
    requires pane == blanks + built && built != [] && BB.AllWide(built, rw)
    ensures |pane| == |blanks| + |built| && |pane[|pane| - 1]| == rw
  {
    assert pane[|pane| - 1] == built[|built| - 1];
  }

  /** Blank rows stacked on rows of their own width keep that width. */
  lemma BlanksOverRows(blank: string, missing: nat, built: seq<string>, rw: int)
    requires BB.AllWide(built, rw) && rw == |blank|
    ensures BB.AllWide(Copies(blank, missing) + built, |blank|)
  {
    CopiesWide(blank, missing);
    BB.AllWideAppend(Copies(blank, missing), built, |blank|);
  }

  /** With a sender column every pane row is as wide as a blank row. */
  lemma PaneAllWide(helper: H.InterfaceHelpers, stack: seq<Message>, blank: string, uw: int, uh: int)
    requires uw >= 1 && Fits(stack, uw, uh)
    requires helper.senderWidth > 1 && |blank| == uw + helper.senderWidth + 2
    ensures BB.AllWide(Pane(helper, stack, blank, uw, uh), |blank|)
  {
    var lines := BB.SumLines(stack, uw);
    BB.BuildRowsWidth(helper, stack, lines - uh, uw);
    BlanksOverRows(blank, if uh - lines > 0 then uh - lines else 0, BB.BuildRows(helper, stack, lines - uh, uw), BB.RowWidth(helper, uw));
  }

  /** Without a sender column (`helper.senderWidth == 1`) a message row is
      one column narrower than a blank row; the newest message's last row
      closes the pane. */
  lemma PaneLastRow(helper: H.InterfaceHelpers, stack: seq<Message>, blank: string, uw: int, uh: int)
    requires uw >= 1 && uh >= 1 && Fits(stack, uw, uh) && stack != []
    requires helper.senderWidth == 1 && |blank| == uw + 3
    ensures |Pane(helper, stack, blank, uw, uh)| == uh
    ensures |Pane(helper, stack, blank, uw, uh)[uh - 1]| == |blank| - 1
  {
    var lines := BB.SumLines(stack, uw);
    var missing := if uh - lines > 0 then uh - lines else 0;
    var built := BB.BuildRows(helper, stack, lines - uh, uw);
    BuiltLength(helper, stack, uw, uh);
    BB.BuildRowsWidth(helper, stack, lines - uh, uw);
    PaneParts(helper, stack, blank, uw, uh);
    LastRowOf(Pane(helper, stack, blank, uw, uh), Copies(blank, missing), built, BB.RowWidth(helper, uw));
  }

  // ---------------------------------------------------------------------
  // The screen

  /** The text of the input row: the whole buffer when it fits, otherwise
      the `cw` characters from the window's start. */
  function InputText(st: IL.InputState, cw: int): (r: string)
    requires IL.Valid(st) && IL.Settled(st, cw) && cw >= 0
    ensures |r| <= cw
    ensures |st.buffer| <= cw ==> r == st.buffer
    ensures |st.buffer| > cw ==> |r| == cw && r == st.buffer[st.window..st.window + cw]
  {
    if |st.buffer| <= cw then st.buffer else st.buffer[st.window..st.window + cw]
  }

  /** A whole redraw: top line, pane, separator, input row, bottom line. */
  function Screen(helper: H.InterfaceHelpers, visible: seq<Message>, st: IL.InputState, offset: int, cw: int, uw: int, uh: int): seq<string>
    requires uw >= 1 && uh >= 1 && (helper.senderWidth <= 1 || helper.senderWidth < cw + 2) && cw >= 0
    requires IL.Valid(st) && IL.Settled(st, cw)
  {
    [helper.Ruled(H.TopLeft, H.HorizontalBorder, H.TopRight, cw, H.TopDown)]
    + Pane(helper, Fill(visible, uh, uw), helper.Ruled(H.VerticalBorder, ' ', H.VerticalBorder, cw, H.VerticalBorder), uw, uh)
    + [helper.Ruled(if st.window > 0 then H.LeftArrow else H.LeftT,
                    if offset > 0 then H.WavySeparator else H.HorizontalSeparator,
                    if st.window + cw < |st.buffer| then H.RightArrow else H.RightT, cw, H.BottomUp)]
    + [H.EncapsulatePadNoSender(InputText(st, cw), cw)]
    + [H.BottomLine(cw)]
  }

  /** The rows `DrawInterface` writes, each drawn as its part of `Screen`
      prescribes, make up the screen. */
  lemma Assembled(helper: H.InterfaceHelpers, visible: seq<Message>, st: IL.InputState, offset: int, cw: int, uw: int, uh: int,
                  top: string, pane: seq<string>, sep: string, text: string, s: seq<string>)
    requires uw >= 1 && uh >= 1 && (helper.senderWidth <= 1 || helper.senderWidth < cw + 2) && cw >= 0
    requires IL.Valid(st) && IL.Settled(st, cw)
    requires top == helper.Ruled(H.TopLeft, H.HorizontalBorder, H.TopRight, cw, H.TopDown)
    requires pane == Pane(helper, Fill(visible, uh, uw), helper.Ruled(H.VerticalBorder, ' ', H.VerticalBorder, cw, H.VerticalBorder), uw, uh)
    requires sep == helper.Ruled(if st.window > 0 then H.LeftArrow else H.LeftT,
                                 if offset > 0 then H.WavySeparator else H.HorizontalSeparator,
                                 if st.window + cw < |st.buffer| then H.RightArrow else H.RightT, cw, H.BottomUp)
    requires text == (if |st.buffer| <= cw then st.buffer else st.buffer[st.window..st.window + cw])
    requires s == [top] + pane + [sep] + [H.EncapsulatePadNoSender(text, cw)] + [H.BottomLine(cw)]
    ensures s == Screen(helper, visible, st, offset, cw, uw, uh)
  {
  }

  /** The frame around a pane: one row above it and three below. */
  lemma Framed(s: seq<string>, top: string, pane: seq<string>, sep: string, input: string, bottom: string, w: int, h: int)
    requires s == [top] + pane + [sep] + [input] + [bottom] && |pane| == h
    requires |top| == w && |sep| == w && |input| == w && |bottom| == w
    ensures |s| == h + 4
    ensures |s[0]| == w && |s[h + 1]| == w && |s[h + 2]| == w && |s[h + 3]| == w
    ensures BB.AllWide(pane, w) ==> BB.AllWide(s, w)
    ensures h >= 1 ==> |s[h]| == |pane[h - 1]|
  {
    if BB.AllWide(pane, w) {
      BB.AllWideAppend([top], pane, w);
      BB.AllWideAppend([top] + pane, [sep], w);
      BB.AllWideAppend([top] + pane + [sep], [input], w);
      BB.AllWideAppend([top] + pane + [sep] + [input], [bottom], w);
    }
    if h >= 1 {
      assert s[h] == pane[h - 1];
    }
  }

  /** The pane of a redraw: `uh` rows, all `cw + 2` wide with a sender
      column, the last one `cw + 1` wide without one. */
  lemma FilledPane(helper: H.InterfaceHelpers, visible: seq<Message>, blank: string, cw: int, uw: int, uh: int)
    requires uw >= 1 && uh >= 1 && helper.senderWidth >= 1 && uw == cw - helper.senderWidth && |blank| == cw + 2
    ensures var pane := Pane(helper, Fill(visible, uh, uw), blank, uw, uh);
            && |pane| == uh
            && (helper.senderWidth > 1 ==> BB.AllWide(pane, cw + 2))
            && (helper.senderWidth == 1 && visible != [] ==> |pane[uh - 1]| == cw + 1)
  {
    var stack := Fill(visible, uh, uw);
    PaneFillsHeight(helper, stack, blank, uw, uh);
    if helper.senderWidth > 1 {
      PaneAllWide(helper, stack, blank, uw, uh);
    }
    if helper.senderWidth == 1 && visible != [] {
      PaneLastRow(helper, stack, blank, uw, uh);
    }
  }

  /** A redraw covers the console: `uh + 4` rows, the frame rows `cw + 2`
      wide, and with a sender column every row; without one the newest
      message's last row, just above the separator, is `cw + 1` wide. */
  lemma ScreenFillsConsole(helper: H.InterfaceHelpers, visible: seq<Message>, st: IL.InputState, offset: int, cw: int, uw: int, uh: int)
    requires uw >= 1 && uh >= 1 && helper.senderWidth >= 1 && uw == cw - helper.senderWidth
    requires IL.Valid(st) && IL.Settled(st, cw)
    ensures var s := Screen(helper, visible, st, offset, cw, uw, uh);
            && |s| == uh + 4
            && |s[0]| == cw + 2 && |s[uh + 1]| == cw + 2 && |s[uh + 2]| == cw + 2 && |s[uh + 3]| == cw + 2
            && (helper.senderWidth > 1 ==> BB.AllWide(s, cw + 2))
            && (helper.senderWidth == 1 && visible != [] ==> |s[uh]| == cw + 1)
  {
    var blank := helper.Ruled(H.VerticalBorder, ' ', H.VerticalBorder, cw, H.VerticalBorder);
    var pane := Pane(helper, Fill(visible, uh, uw), blank, uw, uh);
    FilledPane(helper, visible, blank, cw, uw, uh);
    Framed(Screen(helper, visible, st, offset, cw, uw, uh),
           helper.Ruled(H.TopLeft, H.HorizontalBorder, H.TopRight, cw, H.TopDown), pane,
           helper.Ruled(if st.window > 0 then H.LeftArrow else H.LeftT,
                        if offset > 0 then H.WavySeparator else H.HorizontalSeparator,
                        if st.window + cw < |st.buffer| then H.RightArrow else H.RightT, cw, H.BottomUp),
           H.EncapsulatePadNoSender(InputText(st, cw), cw), H.BottomLine(cw), cw + 2, uh);
  }

  /** The clear-lines loop of `DrawInterface`: one blank row per line the
      messages leave free, none when they fill the pane. */
  method ClearRows(blank: string, missing: int) returns (rows: seq<string>)
    ensures rows == Copies(blank, if missing > 0 then missing else 0)
  {
    rows := [];
    if missing > 0 {
      var j := 0;
      while j < missing
        invariant 0 <= j <= missing && rows == Copies(blank, j)
      {
        rows := rows + [blank];
        j := j + 1;
      }
    }
  }

  /** The blank rows and the built rows make up the pane. */
  lemma PaneOf(helper: H.InterfaceHelpers, stack: seq<Message>, blank: string, uw: int, uh: int,
               lines: int, rows: seq<string>, body: seq<string>)
    requires uw >= 1 && Fits(stack, uw, uh) && lines == BB.SumLines(stack, uw)
    requires rows == Copies(blank, if uh - lines > 0 then uh - lines else 0)
    requires body == BB.BuildRows(helper, stack, lines - uh, uw)
    ensures rows + body == Pane(helper, stack, blank, uw, uh)
  {
  }

  /** The fill loop of `DrawInterface`: push the visible messages newest
      first until the builder is full or they run out. */
  method PushNewest(builder: BB.MessagesBodyBuilder, visible: seq<Message>)
    requires builder.Valid() && builder.output == [] && builder.stack == [] && builder.usableHeight >= 1
    modifies builder
    ensures builder.Valid() && builder.output == []
    ensures builder.stack == Fill(visible, builder.usableHeight, builder.usableWidth)
  {
    var uw, uh := builder.usableWidth, builder.usableHeight;
    var i := |visible|;
    while i > 0
      invariant 0 <= i <= |visible|
      invariant builder.Valid() && builder.output == [] && builder.stack == Pushed(visible, |visible| - i)
      invariant Taken(visible, uh, uw) == TakenFrom(visible, |visible| - i, uh, uw)
      invariant BB.SumLines(builder.stack, uw) < uh
      decreases i
    {
      builder.AppendMessage(visible[i - 1]);
      i := i - 1;
      if builder.IsFull() {
        break;
      }
    }
  }

  /** The pane part of `DrawInterface`: push the newest visible messages
      until the pane is full, pad with blank rows while they do not fill
      it, and let the builder draw them. */
  method DrawPane(helper: H.InterfaceHelpers, visible: seq<Message>, blank: string, uw: int, uh: int) returns (pane: seq<string>)
    requires uw >= 1 && uh >= 1
    ensures pane == Pane(helper, Fill(visible, uh, uw), blank, uw, uh)
  {
    var builder := new BB.MessagesBodyBuilder(uw, uh, helper);
    PushNewest(builder, visible);
    ghost var stack := Fill(visible, uh, uw);
    assert builder.stack == stack;
    assert stack != [] && BB.LinesUsed(|stack[|stack| - 1].body|, uw) >= 2 ==> |stack[|stack| - 1].body| > 0 by {
      if stack != [] && |stack[|stack| - 1].body| == 0 {
        assert BB.LinesUsed(0, uw) == 1;
      }
    }
    ghost var lines := builder.lines;
    var rows := ClearRows(blank, uh - builder.lines);
    var body := builder.Build();
    pane := rows + body;
    PaneOf(helper, stack, blank, uw, uh, lines, rows, body);
  }

  /** The drawing part of `DrawInterface` for an input line `st` settled
      for the console width `cw`: the top line, the pane, the separator
      showing which ways the input and the pane are scrolled, the visible
      part of the input and the bottom line. */
  method DrawScreen(helper: H.InterfaceHelpers, visible: seq<Message>, st: IL.InputState, offset: int, cw: int, uw: int, uh: int)
    returns (rows: seq<string>)
    requires uw >= 1 && uh >= 1 && (helper.senderWidth <= 1 || helper.senderWidth < cw + 2) && cw >= 0
    requires IL.Valid(st) && IL.Settled(st, cw)
    ensures rows == Screen(helper, visible, st, offset, cw, uw, uh)
  {
    var text := if |st.buffer| <= cw then st.buffer else st.buffer[st.window..st.window + cw];
    var top := helper.TopLine(cw);
    var blank := helper.ClearLine(cw);
    var pane := DrawPane(helper, visible, blank, uw, uh);
    var separator := helper.SeparateLine(cw, st.window > 0, st.window + cw < |st.buffer|, offset > 0);
    rows := [top] + pane + [separator] + [H.EncapsulatePadNoSender(text, cw)] + [H.BottomLine(cw)];
    Assembled(helper, visible, st, offset, cw, uw, uh, top, pane, separator, text, rows);
  }

  class ConsoleInterface {
    var messages: seq<Message>
    var fullWidth: int
    var fullHeight: int
    var inputBuffer: string
    var cursorPosition: int
    var windowOffset: int
    var messageOffset: int
    var exit: bool
    /** The lines handed to `UserInputHandler`, in order. */
    var submitted: seq<string>
    /** The last screen written to the console. */
    var screen: seq<string>
    const senderWidth: nat
    const helper: H.InterfaceHelpers

    function ConsoleWidth(): int
      reads this
    {
      fullWidth - 2
    }

    function UsableWidth(): int
      reads this
    {
      ConsoleWidth() - (senderWidth + 1)
    }

    function UsableHeight(): int
      reads this
    {
      fullHeight - 4
    }

    function Input(): IL.InputState
      reads this
    {
      IL.InputState(inputBuffer, cursorPosition, windowOffset)
    }

    /** The state between keys: the input line settled for the current
        width and the pane's offset in view. */
    ghost predicate Inv()
      reads this
    {
      && helper.senderWidth == senderWidth + 1
      && ConsoleWidth() >= 0
      && IL.Valid(Input()) && IL.Settled(Input(), ConsoleWidth())
      && IL.InView(messageOffset, |messages|)
    }

    /** The console shows the interface drawn at `width` by `height`: the
        state is between keys and the screen is the frame around the
        current log, pane offset and input line. */
    ghost predicate Shown(width: int, height: int)
      reads this
    {
      && Inv() && fullWidth == width && fullHeight == height
      && width >= senderWidth + 4 && height >= 5
      && screen == Screen(helper, IL.Visible(messages, messageOffset), Input(), messageOffset,
                          ConsoleWidth(), UsableWidth(), UsableHeight())
    }

    /** A negative sender width counts as none. */
    constructor (senderWidth: int, width: int, height: int)
      requires width >= 2
      ensures Inv() && messages == [] && submitted == [] && screen == [] && !exit
      ensures this.senderWidth == (if senderWidth > 0 then senderWidth else 0)
      ensures fullWidth == width && fullHeight == height && Input() == IL.InputState("", 0, 0) && messageOffset == 0
    {
      var sw := if senderWidth > 0 then senderWidth else 0;
      this.senderWidth := sw;
      helper := new H.InterfaceHelpers(sw + 1);
      messages := [];
      fullWidth, fullHeight := width, height;
      inputBuffer, cursorPosition, windowOffset, messageOffset := "", 0, 0, 0;
      exit := false;
      submitted, screen := [], [];
    }

    /** `RefreshConsoleSize`: take the new size and settle the input line
        for it. */
    method RefreshConsoleSize(width: int, height: int)
      requires IL.Loose(Input(), width - 2) && width >= 2
      modifies this`fullWidth, this`fullHeight, this`inputBuffer, this`cursorPosition, this`windowOffset
      ensures fullWidth == width && fullHeight == height
      ensures Input() == IL.Refresh(old(Input()), width - 2)
      ensures IL.Valid(Input()) && IL.Settled(Input(), ConsoleWidth())
      ensures messageOffset == old(messageOffset) && submitted == old(submitted) && exit == old(exit)
    {
      fullWidth, fullHeight := width, height;
      var cw := ConsoleWidth();
      if cw > |inputBuffer| {
        windowOffset := 0;
      } else if cw + windowOffset > |inputBuffer| {
        windowOffset := windowOffset + (|inputBuffer| - (cw + windowOffset));
        cursorPosition := cw;
      }
      if cursorPosition > cw {
        windowOffset := windowOffset + (cursorPosition - cw);
        cursorPosition := cw;
      }
      IL.RefreshSettles(old(Input()), cw);
    }

    method ResetInput()
      modifies this`inputBuffer, this`cursorPosition, this`windowOffset
      ensures Input() == IL.InputState("", 0, 0)
    {
      inputBuffer, cursorPosition, windowOffset := "", 0, 0;
    }

    /** `Stop`: leave the alternate buffer (not modelled), raise the exit
        flag that ends the read loop, and call the exit handler (not
        modelled). */
    method Stop()
      modifies this`exit
      ensures exit
      ensures Input() == old(Input()) && messageOffset == old(messageOffset) && screen == old(screen) && submitted == old(submitted)
    {
      exit := true;
    }

    /** `DrawInterface`: refresh the size, draw the pane and write the
        frame around it. */
    method DrawInterface(width: int, height: int)
      requires IL.Loose(Input(), width - 2) && IL.InView(messageOffset, |messages|)
      requires helper.senderWidth == senderWidth + 1
      requires width >= senderWidth + 4 && height >= 5
      modifies this`fullWidth, this`fullHeight, this`inputBuffer, this`cursorPosition, this`windowOffset, this`screen
      ensures Input() == IL.Refresh(old(Input()), width - 2)
      ensures Shown(width, height)
      ensures messageOffset == old(messageOffset) && submitted == old(submitted) && exit == old(exit)
    {
      RefreshConsoleSize(width, height);
      Paint(width, height);
    }

    /** The drawing half of `DrawInterface`, once the size is refreshed. */
    method Paint(width: int, height: int)
      requires Inv() && fullWidth == width && fullHeight == height
      requires width >= senderWidth + 4 && height >= 5
      modifies this`screen
      ensures Shown(width, height)
    {
      screen := DrawScreen(helper, IL.Visible(messages, messageOffset), Input(), messageOffset,
                           ConsoleWidth(), UsableWidth(), UsableHeight());
    }

    /** `AddMessage`: a missing or empty sender is stored as "", and a
        scrolled view moves with the log so it keeps showing the same
        messages. */
    method AddMessage(body: string, sender: Option<string>, width: int, height: int)
      requires Inv() && width >= senderWidth + 4 && height >= 5
      modifies this`messages, this`messageOffset, this`fullWidth, this`fullHeight, this`inputBuffer,
               this`cursorPosition, this`windowOffset, this`screen
      ensures messages == old(messages) + [Message(body, if sender.None? then "" else sender.value)]
      ensures messageOffset == IL.Bumped(old(messageOffset))
      ensures Input() == IL.Refresh(old(Input()), width - 2)
      ensures Shown(width, height)
    {
      IL.AddKeepsView(messages, messageOffset, Message(body, if sender.None? then "" else sender.value));
      messages := messages + [Message(body, if sender.None? then "" else sender.value)];
      if messageOffset != 0 {
        messageOffset := messageOffset + 1;
      }
      DrawInterface(width, height);
    }

    /** The editing keys of `KeyHandler`: Left, Right, Backspace and
        Delete. */
    method MoveCaret(key: ConsoleKey) returns (beep: bool)
      requires IsEditKey(key) && IL.Valid(Input())
      modifies this`inputBuffer, this`cursorPosition, this`windowOffset
      ensures var e := EditOf(key, old(Input()), old(ConsoleWidth()));
              Input() == e.state && beep == e.beep
    {
      var cw := ConsoleWidth();
      beep := false;
      match key {
        case LeftArrow =>
          if cursorPosition + windowOffset == 0 {
            beep := true;
          } else if cursorPosition == 0 && windowOffset > 0 {
            windowOffset := windowOffset - 1;
          } else {
            cursorPosition := cursorPosition - 1;
          }
        case RightArrow =>
          if cursorPosition + windowOffset == |inputBuffer| {
            beep := true;
          } else if cursorPosition == cw {
            windowOffset := windowOffset + 1;
          } else {
            cursorPosition := cursorPosition + 1;
          }
        case Backspace =>
          var p := cursorPosition + windowOffset;
          if p == 0 {
            beep := true;
          } else if windowOffset > 0 && (windowOffset + cw >= |inputBuffer| || cursorPosition == 0) {
            inputBuffer := IL.RemoveAt(inputBuffer, p - 1);
            windowOffset := windowOffset - 1;
          } else {
            inputBuffer := IL.RemoveAt(inputBuffer, p - 1);
            cursorPosition := cursorPosition - 1;
          }
        case Delete =>
          var p := cursorPosition + windowOffset;
          if p == |inputBuffer| {
            beep := true;
          } else if windowOffset > 0 && windowOffset + cw >= |inputBuffer| {
            inputBuffer := IL.RemoveAt(inputBuffer, p);
            windowOffset := windowOffset - 1;
          } else {
            inputBuffer := IL.RemoveAt(inputBuffer, p);
          }
      }
    }

    /** The scrolling keys of `KeyHandler`: Up, Down, PageUp, PageDown and
        Home. */
    method ScrollPane(key: ConsoleKey) returns (beep: bool)
      requires IsScrollKey(key)
      modifies this`messageOffset
      ensures var s := ScrollOf(key, old(messageOffset), |old(messages)|);
              messageOffset == s.offset && beep == s.beep
    {
      beep := false;
      match key {
        case UpArrow =>
          if messageOffset >= |messages| - 1 {
            beep := true;
          } else {
            messageOffset := messageOffset + 1;
          }
        case DownArrow =>
          if messageOffset == 0 {
            beep := true;
          } else {
            messageOffset := messageOffset - 1;
          }
        case PageUp =>
          if messageOffset >= |messages| - 1 {
            beep := true;
          } else {
            messageOffset := if |messages| - 1 < messageOffset + 10 then |messages| - 1 else messageOffset + 10;
          }
        case PageDown =>
          if messageOffset == 0 {
            beep := true;
          } else {
            messageOffset := if 0 > messageOffset - 10 then 0 else messageOffset - 10;
          }
        case Home =>
          messageOffset := 0;
      }
    }

    /** A printable key of `KeyHandler`: insert the character at the caret,
        refresh the size, and move the caret along. */
    method TypeKey(c: char, width: int, height: int)
      requires IL.Valid(Input()) && width >= 2
      modifies this`fullWidth, this`fullHeight, this`inputBuffer, this`cursorPosition, this`windowOffset
      ensures fullWidth == width && fullHeight == height
      ensures Input() == IL.Type(old(Input()), c, width - 2)
      ensures messageOffset == old(messageOffset) && submitted == old(submitted) && exit == old(exit)
    {
      var p := cursorPosition + windowOffset;
      inputBuffer := inputBuffer[..p] + [c] + inputBuffer[p..];
      RefreshConsoleSize(width, height);
      if cursorPosition < ConsoleWidth() {
        cursorPosition := cursorPosition + 1;
      } else {
        windowOffset := windowOffset + 1;
      }
    }

    /** A printable key of `KeyHandler`: type the character, then
        redraw. */
    method TypeAndDraw(c: char, width: int, height: int)
      requires Inv() && width >= senderWidth + 4 && height >= 5
      modifies this`fullWidth, this`fullHeight, this`inputBuffer, this`cursorPosition, this`windowOffset, this`screen
      ensures Input() == IL.Refresh(IL.Type(old(Input()), c, width - 2), width - 2)
      ensures Shown(width, height)
      ensures messageOffset == old(messageOffset) && submitted == old(submitted) && exit == old(exit)
    {
      IL.TypeAfterResize(Input(), c, width - 2);
      TypeKey(c, width, height);
      DrawInterface(width, height);
    }

    /** Records the typed line as handed to `UserInputHandler` and empties it. */
    method SubmitLine()
      modifies this`inputBuffer, this`cursorPosition, this`windowOffset, this`submitted
      ensures submitted == old(submitted) + [old(inputBuffer)]
      ensures Input() == IL.InputState("", 0, 0)
    {
      submitted := submitted + [inputBuffer];
      ResetInput();
    }

    /** The `switch` of `KeyHandler` for every key but Escape: the state
        change its case makes, as `Dispatch` gives it, before the redraw. */
    method ApplyKey(key: ConsoleKey) returns (beep: bool)
      requires key != Escape && Inv()
      modifies this`messageOffset, this`inputBuffer, this`cursorPosition, this`windowOffset, this`submitted
      ensures var e := Dispatch(old(Input()), old(messageOffset), |old(messages)|, key, old(ConsoleWidth()));
              beep == e.beep && messageOffset == e.offset && Input() == e.input
      ensures IL.Valid(Input()) && IL.InView(messageOffset, |messages|)
      ensures key == Enter ==> submitted == old(submitted) + [old(inputBuffer)]
      ensures key != Enter ==> submitted == old(submitted)
      ensures exit == old(exit)
    {
      if IsEditKey(key) {
        EditKeepsInput(key, Input(), ConsoleWidth());
        beep := MoveCaret(key);
      } else if IsScrollKey(key) {
        ScrollKeepsOffset(key, messageOffset, |messages|);
        beep := ScrollPane(key);
      } else if key == Enter {
        SubmitLine();
        beep := false;
      } else {
        beep := false;
      }
    }

    /** A key that is neither a printable character nor Escape: the
        `switch` of `KeyHandler`, then the redraw. */
    method ControlKey(key: ConsoleKey, width: int, height: int) returns (beep: bool)
      requires key != Escape
      requires Inv() && width >= senderWidth + 4 && height >= 5
      modifies this`messageOffset, this`fullWidth, this`fullHeight, this`inputBuffer, this`cursorPosition,
               this`windowOffset, this`submitted, this`screen
      ensures var e := Dispatch(old(Input()), old(messageOffset), |old(messages)|, key, old(ConsoleWidth()));
              && beep == e.beep && messageOffset == e.offset
              && Input() == IL.Refresh(e.input, width - 2)
      ensures Shown(width, height)
      ensures key == Enter ==> submitted == old(submitted) + [old(inputBuffer)]
      ensures key != Enter ==> submitted == old(submitted)
      ensures exit == old(exit)
    {
      beep := ApplyKey(key);
      DrawInterface(width, height);
    }

    /** `KeyHandler`: a printable character is inserted first (after a
        size refresh), otherwise the key is dispatched; every key but
        Escape ends with a redraw. */
    method KeyHandler(k: KeyInfo, width: int, height: int) returns (beep: bool)
      requires Inv() && width >= senderWidth + 4 && height >= 5
      modifies this`messageOffset, this`fullWidth, this`fullHeight, this`inputBuffer, this`cursorPosition,
               this`windowOffset, this`exit, this`submitted, this`screen
      ensures Printable(k.keyChar) ==>
                && !beep && messageOffset == old(messageOffset)
                && Input() == IL.Refresh(IL.Type(old(Input()), k.keyChar, width - 2), width - 2)
      ensures !Printable(k.keyChar) && k.key == Escape ==>
                !beep && Input() == old(Input()) && messageOffset == old(messageOffset) && screen == old(screen)
      ensures !Printable(k.keyChar) && k.key != Escape ==>
                var e := Dispatch(old(Input()), old(messageOffset), |old(messages)|, k.key, old(ConsoleWidth()));
                && beep == e.beep && messageOffset == e.offset
                && Input() == IL.Refresh(e.input, width - 2)
      ensures Printable(k.keyChar) || k.key != Escape ==> Shown(width, height)
      ensures !Printable(k.keyChar) && k.key == Enter ==> submitted == old(submitted) + [old(inputBuffer)]
      ensures Printable(k.keyChar) || k.key != Enter ==> submitted == old(submitted)
      ensures !Printable(k.keyChar) && k.key == Escape ==> exit
      ensures Printable(k.keyChar) || k.key != Escape ==> exit == old(exit)
    {
      if Printable(k.keyChar) {
        TypeAndDraw(k.keyChar, width, height);
        beep := false;
      } else if k.key == Escape {
        Stop();
        beep := false;
      } else {
        beep := ControlKey(k.key, width, height);
      }
    }
  }
}
