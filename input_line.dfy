/** The editing and scrolling rules of the console interface, as functions
    on plain values. The input line is a buffer shown through a window of
    `ConsoleWidth` columns: `window` is the index of the first character on
    screen and `cursor` the column of the caret, so the caret stands before
    character `cursor + window` of the buffer (its logical position). The
    message pane is scrolled by `offset`, the number of newest messages
    hidden below the view. */
module InputLine {

  datatype InputState = InputState(buffer: string, cursor: int, window: int)
  {
    /** Index in the buffer in front of which the caret stands. */
    function Position(): int {
      cursor + window
    }
  }

  /** The result of one key: whether it beeped, and the new input state. */
  datatype Edit = Edit(beep: bool, state: InputState)

  /** The result of one scrolling key. */
  datatype Scroll = Scroll(beep: bool, offset: int)

  /** Both coordinates are non-negative and the caret is inside the buffer. */
  predicate Valid(st: InputState) {
    0 <= st.cursor && 0 <= st.window && st.Position() <= |st.buffer|
  }

  /** The state `RefreshConsoleSize` leaves for width `cw`: the caret is on
      screen, a buffer narrower than the screen is not scrolled, and a wider
      one does not scroll past its end, so `Substring(window, cw)` is in
      bounds. */
  predicate Settled(st: InputState, cw: int) {
    && st.cursor <= cw
    && (cw > |st.buffer| ==> st.window == 0)
    && (cw <= |st.buffer| ==> st.window + cw <= |st.buffer|)
  }

  /** The states `RefreshConsoleSize` repairs: non-negative coordinates and
      either the caret inside the buffer, or the caret on screen over a
      buffer at least as wide as the screen. */
  predicate Loose(st: InputState, cw: int) {
    && 0 <= st.cursor && 0 <= st.window
    && (st.Position() <= |st.buffer| || st.cursor <= cw <= |st.buffer|)
  }

  // ---------------------------------------------------------------------
  // Window size

  /** `RefreshConsoleSize` of the current interface for console width `cw`:
      no scrolling when the buffer fits, pull the window back when it runs
      past the end (placing the caret at the right edge), then fold a caret
      beyond the right edge into the window. */
  function Refresh(st: InputState, cw: int): (r: InputState)
    ensures r.buffer == st.buffer
  {
    var len := |st.buffer|;
    var w1 := if cw > len then 0 else if cw + st.window > len then st.window + (len - (cw + st.window)) else st.window;
    var c1 := if cw > len then st.cursor else if cw + st.window > len then cw else st.cursor;
    if c1 > cw then InputState(st.buffer, cw, w1 + (c1 - cw)) else InputState(st.buffer, c1, w1)
  }

  /** `RefreshConsoleSize` of the older interface: the same without the
      clause that pulls the window back from the end of the buffer. */
  function LegacyRefresh(st: InputState, cw: int): (r: InputState)
    ensures r.buffer == st.buffer
  {
    var w1 := if cw > |st.buffer| then 0 else st.window;
    if st.cursor > cw then InputState(st.buffer, cw, w1 + (st.cursor - cw)) else InputState(st.buffer, st.cursor, w1)
  }

  lemma RefreshSettles(st: InputState, cw: int)
    requires cw >= 0 && Loose(st, cw)
    ensures Valid(Refresh(st, cw)) && Settled(Refresh(st, cw), cw)
  {
  }

  /** A settled state is a fixed point, so refreshing twice at one width
      changes nothing more than refreshing once. */
  lemma RefreshFixesSettled(st: InputState, cw: int)
    requires Valid(st) && Settled(st, cw)
    ensures Refresh(st, cw) == st
  {
  }

  /** When the first two clauses have nothing to do, the last one keeps the
      logical position. */
  lemma RefreshFoldKeepsPosition(st: InputState, cw: int)
    requires Valid(st) && cw >= 0
    requires cw > |st.buffer| ==> st.window == 0
    requires cw <= |st.buffer| ==> st.window + cw <= |st.buffer|
    ensures Refresh(st, cw).Position() == st.Position()
    ensures Refresh(st, cw).cursor <= cw
  {
  }

  /** Widening the console past the buffer resets the window, so the caret
      lands on a different character: "abcdefghij" scrolled by 5 with the
      caret at column 2 (before 'h') ends up before 'c'. */
  lemma RefreshWidenMovesCaret()
    ensures var st := InputState("abcdefghij", 2, 5);
            Refresh(st, 12) == InputState("abcdefghij", 2, 0)
            && Refresh(st, 12).Position() != st.Position()
  {
  }

  /** In general, a console wider than the buffer drops the window, and the
      logical caret moves back by the old window offset. */
  lemma RefreshWidenResetsWindow(st: InputState, cw: int)
    requires Valid(st) && |st.buffer| < cw && st.cursor <= cw
    ensures Refresh(st, cw) == InputState(st.buffer, st.cursor, 0)
    ensures Refresh(st, cw).Position() == st.Position() - st.window
  {
  }

  /** When the window runs past the end of the buffer, the pull-back clause
      puts the caret on the right edge, which is the end of the buffer: the
      logical caret jumps there wherever it was ("abcdefghij" scrolled by 5
      with the caret at column 2, position 7, becomes cursor 8, window 2,
      position 10 at width 8). */
  lemma RefreshPullBackMovesCaretToEnd(st: InputState, cw: int)
    requires Valid(st) && 0 <= cw <= |st.buffer| < cw + st.window
    ensures Refresh(st, cw) == InputState(st.buffer, cw, |st.buffer| - cw)
    ensures Refresh(st, cw).Position() == |st.buffer|
    ensures Refresh(InputState("abcdefghij", 2, 5), 8) == InputState("abcdefghij", 8, 2)
  {
  }

  /** The older refresh can leave the window running past the end of the
      buffer after a widening, where `Substring(window, cw)` fails. */
  lemma LegacyRefreshLeavesWindowPastEnd()
    ensures var r := LegacyRefresh(InputState("abcdefghij", 5, 5), 8);
            r == InputState("abcdefghij", 5, 5) && r.window + 8 > |r.buffer| && 8 <= |r.buffer|
  {
  }

  lemma LegacyRefreshKeepsPosition(st: InputState, cw: int)
    requires Valid(st) && cw >= 0
    ensures Valid(LegacyRefresh(st, cw))
    ensures LegacyRefresh(st, cw).cursor <= cw
    ensures cw > |st.buffer| ==> LegacyRefresh(st, cw).window == 0
    ensures cw <= |st.buffer| ==> LegacyRefresh(st, cw).Position() == st.Position()
  {
  }

  // ---------------------------------------------------------------------
  // Typing

  /** `inputBuffer.Insert(cursorPosition + windowOffset, c)`. */
  function Inserted(st: InputState, c: char): (r: InputState)
    requires 0 <= st.Position() <= |st.buffer|
    ensures |r.buffer| == |st.buffer| + 1 && r.buffer[st.Position()] == c
  {
    var p := st.Position();
    InputState(st.buffer[..p] + [c] + st.buffer[p..], st.cursor, st.window)
  }

  /** Moving along after a typed character: the caret while it is left of
      the right edge, otherwise the window. */
  function Advance(st: InputState, cw: int): (r: InputState)
    ensures r.Position() == st.Position() + 1 && r.buffer == st.buffer
  {
    if st.cursor < cw then st.(cursor := st.cursor + 1) else st.(window := st.window + 1)
  }

  /** A printable key in the current interface: insert, refresh for the
      current width, advance. */
  function Type(st: InputState, c: char, cw: int): InputState
    requires Valid(st)
  {
    Advance(Refresh(Inserted(st, c), cw), cw)
  }

  /** At an unchanged width the character lands at the caret, the rest of
      the buffer keeps its order, and the caret moves one place to the
      right, through the cursor below the right edge and through the window
      at it. */
  lemma TypeInsertsAtCaret(st: InputState, c: char, cw: int)
    requires Valid(st) && Settled(st, cw) && cw >= 0
    ensures var r := Type(st, c, cw);
            && r.buffer == st.buffer[..st.Position()] + [c] + st.buffer[st.Position()..]
            && r.Position() == st.Position() + 1
            && (st.cursor < cw ==> r.cursor == st.cursor + 1 && r.window == st.window)
            && (st.cursor == cw ==> r.cursor == st.cursor && r.window == st.window + 1)
            && Valid(r) && Settled(r, cw)
  {
    var i := Inserted(st, c);
    assert Refresh(i, cw) == i;
  }

  /** After a resize the typed character is still inserted at the old
      caret, and the state stays one that the next refresh repairs. */
  lemma TypeAfterResize(st: InputState, c: char, cw: int)
    requires Valid(st) && cw >= 0
    ensures var r := Type(st, c, cw);
            r.buffer == st.buffer[..st.Position()] + [c] + st.buffer[st.Position()..] && Loose(r, cw)
  {
    var i := Inserted(st, c);
    RefreshSettles(i, cw);
  }

  // ---------------------------------------------------------------------
  // Caret movement and deletion

  function Left(st: InputState): Edit {
    if st.Position() == 0 then Edit(true, st)
    else if st.cursor == 0 && st.window > 0 then Edit(false, st.(window := st.window - 1))
    else Edit(false, st.(cursor := st.cursor - 1))
  }

  function Right(st: InputState, cw: int): Edit {
    if st.Position() == |st.buffer| then Edit(true, st)
    else if st.cursor == cw then Edit(false, st.(window := st.window + 1))
    else Edit(false, st.(cursor := st.cursor + 1))
  }

  /** `string.Remove(i, 1)`. */
  function RemoveAt(s: string, i: int): (r: string)
    requires 0 <= i < |s|
    ensures |r| == |s| - 1
  {
    s[..i] + s[i + 1..]
  }

  /** Backspace as the source writes it: at the right end of a scrolled
      buffer the window moves, otherwise the cursor, even at column 0. */
  function BackspaceAsWritten(st: InputState, cw: int): Edit
    requires Valid(st)
  {
    var p := st.Position();
    if p == 0 then Edit(true, st)
    else if st.window > 0 && st.window + cw >= |st.buffer| then
      Edit(false, InputState(RemoveAt(st.buffer, p - 1), st.cursor, st.window - 1))
    else Edit(false, InputState(RemoveAt(st.buffer, p - 1), st.cursor - 1, st.window))
  }

  /** Backspace with the caret at column 0 of a scrolled window moving the
      window, as `LeftArrow` does. */
  function Backspace(st: InputState, cw: int): Edit
    requires Valid(st)
  {
    var p := st.Position();
    if p == 0 then Edit(true, st)
    else if st.window > 0 && (st.window + cw >= |st.buffer| || st.cursor == 0) then
      Edit(false, InputState(RemoveAt(st.buffer, p - 1), st.cursor, st.window - 1))
    else Edit(false, InputState(RemoveAt(st.buffer, p - 1), st.cursor - 1, st.window))
  }

  function Delete(st: InputState, cw: int): Edit
    requires Valid(st)
  {
    var p := st.Position();
    if p == |st.buffer| then Edit(true, st)
    else if st.window > 0 && st.window + cw >= |st.buffer| then
      Edit(false, InputState(RemoveAt(st.buffer, p), st.cursor, st.window - 1))
    else Edit(false, InputState(RemoveAt(st.buffer, p), st.cursor, st.window))
  }

  lemma LeftMovesOne(st: InputState, cw: int)
    requires Valid(st) && Settled(st, cw)
    ensures var e := Left(st);
            && (e.beep <==> st.Position() == 0)
            && (e.beep ==> e.state == st)
            && (!e.beep ==> e.state.buffer == st.buffer && e.state.Position() == st.Position() - 1)
            && (!e.beep && st.cursor == 0 ==> e.state.window == st.window - 1)
            && Valid(e.state) && Settled(e.state, cw)
  {
  }

  lemma RightMovesOne(st: InputState, cw: int)
    requires Valid(st) && Settled(st, cw)
    ensures var e := Right(st, cw);
            && (e.beep <==> st.Position() == |st.buffer|)
            && (e.beep ==> e.state == st)
            && (!e.beep ==> e.state.buffer == st.buffer && e.state.Position() == st.Position() + 1)
            && (!e.beep && st.cursor == cw ==> e.state.window == st.window + 1)
            && Valid(e.state) && Settled(e.state, cw)
  {
  }

  /** Backspace removes exactly the character before the caret and moves
      the caret back over it, keeping the state valid and settled. */
  lemma BackspaceRemovesOne(st: InputState, cw: int)
    requires Valid(st) && Settled(st, cw)
    ensures var e := Backspace(st, cw);
            && (e.beep <==> st.Position() == 0)
            && (e.beep ==> e.state == st)
            && (!e.beep ==> && e.state.buffer == st.buffer[..st.Position() - 1] + st.buffer[st.Position()..]
                            && e.state.Position() == st.Position() - 1)
            && Valid(e.state) && Settled(e.state, cw)
  {
  }

  /** The source's Backspace with the caret at column 0, the window
      scrolled by 2 and the buffer running past the screen: the cursor
      becomes -1, and a Left afterwards takes it to -2. */
  lemma BackspaceAsWrittenUnderflows()
    ensures var st := InputState("abcdef", 0, 2);
            var e := BackspaceAsWritten(st, 3);
            && e == Edit(false, InputState("acdef", -1, 2))
            && !Valid(e.state)
            && Left(e.state).state.cursor == -2
  {
    var st := InputState("abcdef", 0, 2);
    assert RemoveAt(st.buffer, 1) == "acdef";
  }

  /** The correction changes only the case that underflowed. */
  lemma BackspaceCorrectionAgrees(st: InputState, cw: int)
    requires Valid(st)
    requires !(st.cursor == 0 && st.window > 0 && st.window + cw < |st.buffer|)
    ensures Backspace(st, cw) == BackspaceAsWritten(st, cw)
  {
  }

  /** Delete removes exactly the character after the caret; when the
      window is scrolled to the end of the buffer it moves back by one, and
      the caret with it; otherwise the caret stays. */
  lemma DeleteRemovesOne(st: InputState, cw: int)
    requires Valid(st) && Settled(st, cw)
    ensures var e := Delete(st, cw);
            && (e.beep <==> st.Position() == |st.buffer|)
            && (e.beep ==> e.state == st)
            && (!e.beep ==> e.state.buffer == st.buffer[..st.Position()] + st.buffer[st.Position() + 1..])
            && (!e.beep ==> e.state.cursor == st.cursor)
            && (!e.beep ==> e.state.window == if st.window > 0 && st.window + cw == |st.buffer| then st.window - 1 else st.window)
            && Valid(e.state) && Settled(e.state, cw)
  {
  }

  // ---------------------------------------------------------------------
  // The message pane's scroll offset

  /** The offset keeps at least the oldest message on screen. */
  predicate InView(offset: int, count: nat) {
    0 <= offset && (offset == 0 || offset < count)
  }

  /** The messages from the oldest up to the newest one shown. */
  function Visible<T>(log: seq<T>, offset: int): (r: seq<T>)
    requires 0 <= offset
    ensures |r| <= |log| && r == log[..|r|]
  {
    if offset >= |log| then [] else log[..|log| - offset]
  }

  function ScrollUpAsWritten(offset: int, count: nat): Scroll {
    if offset == count - 1 then Scroll(true, offset) else Scroll(false, offset + 1)
  }

  function PageUpAsWritten(offset: int, count: nat): Scroll {
    if offset == count - 1 then Scroll(true, offset)
    else Scroll(false, if count - 1 < offset + 10 then count - 1 else offset + 10)
  }

  /** Up: one message further back, beeping once the oldest is at the top. */
  function ScrollUp(offset: int, count: nat): Scroll {
    if offset >= count - 1 then Scroll(true, offset) else Scroll(false, offset + 1)
  }

  /** PageUp: ten messages back, stopping at the oldest. */
  function PageUp(offset: int, count: nat): Scroll {
    if offset >= count - 1 then Scroll(true, offset)
    else Scroll(false, if count - 1 < offset + 10 then count - 1 else offset + 10)
  }

  function ScrollDown(offset: int): Scroll {
    if offset == 0 then Scroll(true, offset) else Scroll(false, offset - 1)
  }

  function PageDown(offset: int): Scroll {
    if offset == 0 then Scroll(true, offset) else Scroll(false, if 0 > offset - 10 then 0 else offset - 10)
  }

  /** Up and PageUp move back by one and by up to ten, beep exactly at the
      oldest message, and keep the offset in view. */
  lemma ScrollUpStaysInView(offset: int, count: nat)
    requires InView(offset, count)
    ensures var u := ScrollUp(offset, count);
            && (u.beep <==> (offset == count - 1 || count == 0))
            && (!u.beep ==> u.offset == offset + 1)
            && InView(u.offset, count)
    ensures var p := PageUp(offset, count);
            && (p.beep <==> (offset == count - 1 || count == 0))
            && (!p.beep ==> offset < p.offset <= offset + 10 && (p.offset == offset + 10 || p.offset == count - 1))
            && InView(p.offset, count)
  {
  }

  /** Down and PageDown move forward by one and by up to ten, beep exactly
      at the newest message, and keep the offset in view. */
  lemma ScrollDownStaysInView(offset: int, count: nat)
    requires InView(offset, count)
    ensures var d := ScrollDown(offset);
            (d.beep <==> offset == 0) && (!d.beep ==> d.offset == offset - 1) && InView(d.offset, count)
    ensures var p := PageDown(offset);
            && (p.beep <==> offset == 0)
            && (!p.beep ==> offset - 10 <= p.offset < offset && (p.offset == offset - 10 || p.offset == 0))
            && InView(p.offset, count)
  {
  }

  /** On an empty log the source's guards never fire: Up goes to 1 and
      PageUp to -1, an offset from which the draw loop reads the first
      message of an empty list. */
  lemma ScrollAsWrittenEscapesOnEmptyLog()
    ensures ScrollUpAsWritten(0, 0) == Scroll(false, 1) && !InView(1, 0)
    ensures PageUpAsWritten(0, 0) == Scroll(false, -1) && 0 - (-1) > 0
  {
  }

  /** Over a non-empty log the corrected guards agree with the source. */
  lemma ScrollCorrectionAgrees(offset: int, count: nat)
    requires count >= 1 && InView(offset, count)
    ensures ScrollUp(offset, count) == ScrollUpAsWritten(offset, count)
    ensures PageUp(offset, count) == PageUpAsWritten(offset, count)
  {
  }

  /** `AddMessage`'s offset update: a scrolled view follows the messages it
      shows. */
  function Bumped(offset: int): int {
    if offset != 0 then offset + 1 else 0
  }

  /** A new message leaves a scrolled view showing the same messages, and
      appears at the bottom of an unscrolled one. */
  lemma AddKeepsView<T>(log: seq<T>, offset: int, m: T)
    requires InView(offset, |log|)
    ensures InView(Bumped(offset), |log| + 1)
    ensures offset != 0 ==> Visible(log + [m], Bumped(offset)) == Visible(log, offset)
    ensures offset == 0 ==> Visible(log + [m], Bumped(offset)) == log + [m]
  {
    if offset != 0 {
      assert (log + [m])[..|log| + 1 - (offset + 1)] == log[..|log| - offset];
    }
  }
}
