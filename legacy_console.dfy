/** The older console interface: the same input line over a plain list of
    message texts with a parallel list of senders, and no scrolling of the
    pane. Every key first re-reads the console size. The draw loop fills
    the pane from the oldest message that fits and splits a message longer
    than the console width into chunks taken from its end. */
module LegacyConsole {
  import opened Options
  import CIO = ConsoleIO
  import IL = InputLine
  import BB = BodyBuilder

  /** One row of the message pane: a cleared row, or a piece of a message. */
  datatype PaneRow = Clear | Text(text: string)

  // ---------------------------------------------------------------------
  // One key

  /** What a key other than Escape does to the input line, once the size
      has been refreshed for console width `cw`. Up, Down, PageUp,
      PageDown and Home are not handled here and leave the line alone. */
  function LegacyEdit(st: IL.InputState, k: CIO.KeyInfo, cw: int): IL.Edit
    requires IL.Valid(st)
  {
    if CIO.Printable(k.keyChar) then IL.Edit(false, IL.Advance(IL.Inserted(st, k.keyChar), cw))
    else if CIO.IsEditKey(k.key) then CIO.EditOf(k.key, st, cw)
    else if k.key == CIO.Enter then IL.Edit(false, IL.InputState("", 0, 0))
    else IL.Edit(false, st)
  }

  /** Every key keeps the caret inside the buffer and on screen. */
  lemma {:induction false} LegacyEditKeepsValid(st: IL.InputState, k: CIO.KeyInfo, cw: int)
    requires IL.Valid(st) && st.cursor <= cw
    ensures IL.Valid(LegacyEdit(st, k, cw).state) && LegacyEdit(st, k, cw).state.cursor <= cw
  {
  }

  /** A printable character goes in at the caret and the caret moves past
      it, through the cursor while it is left of the right edge. */
  lemma {:induction false} LegacyTypeInserts(st: IL.InputState, k: CIO.KeyInfo, cw: int)
    requires IL.Valid(st) && st.cursor <= cw && CIO.Printable(k.keyChar)
    ensures var e, p := LegacyEdit(st, k, cw), st.Position();
            && !e.beep && e.state.buffer == st.buffer[..p] + [k.keyChar] + st.buffer[p..]
            && e.state.Position() == p + 1
            && (st.cursor < cw ==> e.state.cursor == st.cursor + 1 && e.state.window == st.window)
            && (st.cursor == cw ==> e.state.cursor == cw && e.state.window == st.window + 1)
  {
  }

  /** Left and Right move the caret by one over an unchanged buffer,
      beeping (and changing nothing) exactly at the ends. */
  lemma {:induction false} LegacyMovesOne(st: IL.InputState, k: CIO.KeyInfo, cw: int)
    requires IL.Valid(st) && st.cursor <= cw && !CIO.Printable(k.keyChar)
    ensures var e, p := LegacyEdit(st, k, cw), st.Position();
            && (k.key == CIO.LeftArrow ==>
                  && (e.beep <==> p == 0) && (e.beep ==> e.state == st)
                  && (!e.beep ==> e.state.buffer == st.buffer && e.state.Position() == p - 1))
            && (k.key == CIO.RightArrow ==>
                  && (e.beep <==> p == |st.buffer|) && (e.beep ==> e.state == st)
                  && (!e.beep ==> e.state.buffer == st.buffer && e.state.Position() == p + 1))
  {
  }

  /** Backspace and Delete remove exactly the character before and after
      the caret, beeping (and changing nothing) exactly when there is none. */
  lemma {:induction false} LegacyRemovesOne(st: IL.InputState, k: CIO.KeyInfo, cw: int)
    requires IL.Valid(st) && st.cursor <= cw && !CIO.Printable(k.keyChar)
    ensures var e, p := LegacyEdit(st, k, cw), st.Position();
            && (k.key == CIO.Backspace ==>
                  && (e.beep <==> p == 0) && (e.beep ==> e.state == st)
                  && (!e.beep ==> e.state.buffer == st.buffer[..p - 1] + st.buffer[p..] && e.state.Position() == p - 1))
            && (k.key == CIO.Delete ==>
                  && (e.beep <==> p == |st.buffer|) && (e.beep ==> e.state == st)
                  && (!e.beep ==> e.state.buffer == st.buffer[..p] + st.buffer[p + 1..]))
  {
  }

  /** Enter empties the line; the keys the older interface does not
      handle change nothing. */
  lemma {:induction false} LegacyOtherKeys(st: IL.InputState, k: CIO.KeyInfo, cw: int)
    requires IL.Valid(st) && !CIO.Printable(k.keyChar)
    ensures k.key == CIO.Enter ==> LegacyEdit(st, k, cw) == IL.Edit(false, IL.InputState("", 0, 0))
    ensures k.key.UpArrow? || k.key.DownArrow? || k.key.PageUp? || k.key.PageDown? || k.key.Home? || k.key.OtherKey?
            ==> LegacyEdit(st, k, cw) == IL.Edit(false, st)
  {
  }

  // ---------------------------------------------------------------------
  // Splitting a long message

  /** `overflow[^overhangLength..]`: the last chunk of a text longer than
      a row, which the loop draws first. */
  function Chunk(m: string, cw: int): (r: string)
    requires cw >= 1 && |m| > cw
    ensures 1 <= |r| <= cw
  {
    m[|m| - BB.Overhang(|m|, cw)..]
  }

  /** `overflow[..^overhangLength]`: what is left of a text longer than a
      row once its last chunk is cut off; never empty. */
  function Carry(m: string, cw: int): (r: string)
    requires cw >= 1 && |m| > cw
    ensures 1 <= |r| < |m| && r + Chunk(m, cw) == m
  {
    m[..|m| - BB.Overhang(|m|, cw)]
  }

  /** The rows the draw loop gives one message: the message when it fits,
      otherwise its last chunk followed by the rows of the rest. */
  function TailFirst(m: string, cw: int): (r: seq<PaneRow>)
    requires cw >= 1
    ensures 1 <= |r|
    decreases |m|
  {
    if |m| <= cw then [Text(m)]
    else [Text(Chunk(m, cw))] + TailFirst(Carry(m, cw), cw)
  }

  /** The text of a row (none for a cleared row). */
  function TextOf(row: PaneRow): string {
    if row.Text? then row.text else ""
  }

  /** The rows read from the bottom up, joined. */
  function ReadUpwards(rows: seq<PaneRow>): string {
    if rows == [] then "" else ReadUpwards(rows[1..]) + TextOf(rows[0])
  }

  /** Read from the bottom up, a message's rows give back the message:
      the loop loses nothing, but shows the pieces in reverse order. */
  lemma {:induction false} TailFirstReadsBack(m: string, cw: int)
    requires cw >= 1
    ensures ReadUpwards(TailFirst(m, cw)) == m
    decreases |m|
  {
    if |m| > cw {
      var rows := TailFirst(m, cw);
      TailFirstReadsBack(Carry(m, cw), cw);
      assert rows[1..] == TailFirst(Carry(m, cw), cw);
    }
  }

  /** Cutting the overhang off a text longer than a row leaves a whole
      number of rows: one row fewer, each of them full. */
  lemma {:induction false} CutOverhang(len: nat, cw: int)
    requires cw >= 1 && len > cw
    ensures BB.LinesUsed(len, cw) == 1 + BB.LinesUsed(len - BB.Overhang(len, cw), cw)
    ensures BB.Overhang(len - BB.Overhang(len, cw), cw) == cw
    decreases len
  {
    if len - cw > cw {
      CutOverhang(len - cw, cw);
      assert BB.Overhang(len, cw) == BB.Overhang(len - cw, cw);
      var rest := len - BB.Overhang(len, cw);
      assert rest > cw;
      assert BB.Overhang(rest, cw) == BB.Overhang(rest - cw, cw);
    }
  }

  /** A text whose overhang is a full row splits into full rows only. */
  lemma {:induction false} FullRows(m: string, cw: int)
    requires cw >= 1 && |m| >= 1 && BB.Overhang(|m|, cw) == cw
    ensures |TailFirst(m, cw)| == BB.LinesUsed(|m|, cw)
    ensures forall j :: 0 <= j < |TailFirst(m, cw)| ==> TailFirst(m, cw)[j].Text? && |TailFirst(m, cw)[j].text| == cw
    decreases |m|
  {
    if |m| > cw {
      var rest := Carry(m, cw);
      CutOverhang(|m|, cw);
      FullRows(rest, cw);
      assert |Chunk(m, cw)| == cw;
    } else {
      assert |m| == cw;
    }
  }

  /** A message takes as many rows as the newer builder gives it: the
      first row shown is its overhang, every later one a full row. */
  lemma {:induction false} TailFirstShape(m: string, cw: int)
    requires cw >= 1
    ensures var r := TailFirst(m, cw);
            && |r| == BB.LinesUsed(|m|, cw)
            && (|m| <= cw ==> r == [Text(m)])
            && (|m| > cw ==> r[0] == Text(Chunk(m, cw)))
            && (forall j :: 1 <= j < |r| ==> r[j].Text? && |r[j].text| == cw)
  {
    if |m| > cw {
      var rest := Carry(m, cw);
      CutOverhang(|m|, cw);
      FullRows(rest, cw);
      var r := TailFirst(m, cw);
      forall j | 1 <= j < |r|
        ensures r[j].Text? && |r[j].text| == cw
      {
        assert r[j] == TailFirst(rest, cw)[j - 1];
      }
    }
  }

  /** The rows of several messages, one after another. */
  function Stream(msgs: seq<string>, cw: int): (r: seq<PaneRow>)
    requires cw >= 1
    ensures |r| >= |msgs|
  {
    if msgs == [] then [] else TailFirst(msgs[0], cw) + Stream(msgs[1..], cw)
  }

  // ---------------------------------------------------------------------
  // The pane loop

  /** `n` cleared rows. */
  function Clears(n: nat): (r: seq<PaneRow>)
    ensures |r| == n
  {
    if n == 0 then [] else [Clear] + Clears(n - 1)
  }

  /** What keeps the index `messages[^(i + overflowOffset)]` inside the log:
      before the first message is read nothing is pending, and from then
      on `i + overflowOffset`, which never grows, is at most the count. */
  predicate Indexable(log: seq<string>, i: int, overflow: string, offset: int) {
    offset >= 0 && (i + offset <= |log| || (offset == 0 && overflow == ""))
  }

  /** One pass of the loop body: the row drawn at counter `i` and the
      `overflow` and `overflowOffset` the next pass starts from. */
  datatype LoopStep = LoopStep(row: PaneRow, overflow: string, offset: int)

  function Step(log: seq<string>, i: int, overflow: string, offset: int, cw: int): (r: LoopStep)
    requires cw >= 1 && i >= 1 && Indexable(log, i, overflow, offset)
    ensures Indexable(log, i - 1, r.overflow, r.offset)
  {
    if |log| - i + offset < 0 then LoopStep(Clear, overflow, offset)
    else
      var cur := if overflow == "" then log[|log| - (i + offset)] else overflow;
      if |cur| <= cw then LoopStep(Text(cur), "", offset)
      else
        LoopStep(Text(Chunk(cur, cw)), Carry(cur, cw), offset + 1)
  }

  /** The rows the loop draws from row counter `i` on, with `overflow` the
      unshown rest of the current message and `offset` the rows taken by
      chunks so far. There is one row per remaining counter value. */
  function PaneFrom(log: seq<string>, i: int, overflow: string, offset: int, cw: int): (r: seq<PaneRow>)
    requires cw >= 1 && Indexable(log, i, overflow, offset)
    ensures |r| == if i > 0 then i else 0
    decreases i
  {
    if i <= 0 then []
    else
      var s := Step(log, i, overflow, offset, cw);
      [s.row] + PaneFrom(log, i - 1, s.overflow, s.offset, cw)
  }

  /** The first `n` rows of `rows` (all of them if there are fewer). */
  function Take(rows: seq<PaneRow>, n: int): (r: seq<PaneRow>)
    ensures |r| == if n <= 0 then 0 else if n < |rows| then n else |rows|
  {
    if n <= 0 then [] else if n < |rows| then rows[..n] else rows
  }

  /** The rows still to come once a message has been read: the rows of
      the unshown part of the current message (the whole message when
      nothing is pending), then the rows of every newer message. The
      current message has index `|log| - (i + offset)`. */
  function Pending(log: seq<string>, i: int, overflow: string, offset: int, cw: int): seq<PaneRow>
    requires cw >= 1 && offset >= 0 && 0 <= i && i + offset <= |log| && (overflow != "" ==> i + offset >= 1)
  {
    var k := |log| - (i + offset);
    if overflow == "" then Stream(log[k..], cw) else TailFirst(overflow, cw) + Stream(log[k + 1..], cw)
  }

  /** The rows of the messages from index `j` on start with those of
      message `j`. */
  lemma {:induction false} StreamNext(log: seq<string>, j: int, cw: int)
    requires cw >= 1 && 0 <= j < |log|
    ensures Stream(log[j..], cw) == TailFirst(log[j], cw) + Stream(log[j + 1..], cw)
  {
    assert log[j..][1..] == log[j + 1..];
  }

  /** The loop body when the current text is longer than a row. */
  lemma {:induction false} CutStep(log: seq<string>, i: int, overflow: string, offset: int, cw: int)
    requires cw >= 1 && offset >= 0 && 1 <= i && i + offset <= |log|
    requires |if overflow == "" then log[|log| - (i + offset)] else overflow| > cw
    ensures var cur := if overflow == "" then log[|log| - (i + offset)] else overflow;
            Step(log, i, overflow, offset, cw) == LoopStep(Text(Chunk(cur, cw)), Carry(cur, cw), offset + 1)
  {
  }

  /** One pass of the loop draws one row in front of the rest. */
  lemma {:induction false} PaneFromStep(log: seq<string>, i: int, overflow: string, offset: int, cw: int)
    requires cw >= 1 && i >= 1 && Indexable(log, i, overflow, offset)
    ensures var s := Step(log, i, overflow, offset, cw);
            PaneFrom(log, i, overflow, offset, cw) == [s.row] + PaneFrom(log, i - 1, s.overflow, s.offset, cw)
  {
  }

  /** The loop body when the current text fits on one row. */
  lemma {:induction false} WholeStep(log: seq<string>, i: int, overflow: string, offset: int, cw: int)
    requires cw >= 1 && offset >= 0 && 1 <= i && i + offset <= |log|
    requires |if overflow == "" then log[|log| - (i + offset)] else overflow| <= cw
    ensures var cur := if overflow == "" then log[|log| - (i + offset)] else overflow;
            Step(log, i, overflow, offset, cw) == LoopStep(Text(cur), "", offset)
  {
  }

  /** One pass of the loop takes the first pending row: a message that
      fits is shown whole and the next one becomes current; a longer one
      shows its overhang and the rest stays pending. */
  lemma {:induction false} StepTakesPending(log: seq<string>, i: int, overflow: string, offset: int, cw: int, s: LoopStep)
    requires cw >= 1 && offset >= 0 && 1 <= i && i + offset <= |log|
    requires s == Step(log, i, overflow, offset, cw)
    ensures s.offset >= 0 && i - 1 + s.offset <= |log| && (s.overflow != "" ==> i - 1 + s.offset >= 1)
    ensures Pending(log, i, overflow, offset, cw) == [s.row] + Pending(log, i - 1, s.overflow, s.offset, cw)
  {
    var k := |log| - (i + offset);
    var cur := if overflow == "" then log[k] else overflow;
    PendingOf(log, i, overflow, offset, cw, k, cur);
    if |cur| <= cw {
      WholeStep(log, i, overflow, offset, cw);
      PendingWhole(log, i, offset, cw, k, cur);
    } else {
      CutStep(log, i, overflow, offset, cw);
      PendingCut(log, i, offset, cw, k, cur);
    }
  }

  /** The pending rows are those of the current text and of the newer
      messages. */
  lemma {:induction false} PendingOf(log: seq<string>, i: int, overflow: string, offset: int, cw: int, k: int, cur: string)
    requires cw >= 1 && offset >= 0 && 1 <= i && i + offset <= |log|
    requires k == |log| - (i + offset) && cur == (if overflow == "" then log[k] else overflow)
    ensures Pending(log, i, overflow, offset, cw) == TailFirst(cur, cw) + Stream(log[k + 1..], cw)
  {
    if overflow == "" {
      StreamNext(log, k, cw);
    }
  }

  /** A text that fits is one row, and the next message becomes current. */
  lemma {:induction false} PendingWhole(log: seq<string>, i: int, offset: int, cw: int, k: int, cur: string)
    requires cw >= 1 && offset >= 0 && 1 <= i && i + offset <= |log| && k == |log| - (i + offset)
    requires |cur| <= cw
    ensures TailFirst(cur, cw) + Stream(log[k + 1..], cw) == [Text(cur)] + Pending(log, i - 1, "", offset, cw)
  {
    assert TailFirst(cur, cw) == [Text(cur)];
    assert Pending(log, i - 1, "", offset, cw) == Stream(log[k + 1..], cw);
  }

  /** A longer text gives its overhang row first and stays current with
      the rest. */
  lemma {:induction false} PendingCut(log: seq<string>, i: int, offset: int, cw: int, k: int, cur: string)
    requires cw >= 1 && offset >= 0 && 1 <= i && i + offset <= |log| && k == |log| - (i + offset)
    requires |cur| > cw
    ensures TailFirst(cur, cw) + Stream(log[k + 1..], cw)
            == [Text(Chunk(cur, cw))] + Pending(log, i - 1, Carry(cur, cw), offset + 1, cw)
  {
    var rest := Stream(log[k + 1..], cw);
    assert Pending(log, i - 1, Carry(cur, cw), offset + 1, cw) == TailFirst(Carry(cur, cw), cw) + rest;
    BB.AppendAssoc([Text(Chunk(cur, cw))], TailFirst(Carry(cur, cw), cw), rest);
  }

  /** `Take` of rows that start with `x` keeps `x` first. */
  lemma {:induction false} TakeCons(x: PaneRow, rows: seq<PaneRow>, n: int)
    requires n >= 1
    ensures Take([x] + rows, n) == [x] + Take(rows, n - 1)
  {
    if n - 1 < |rows| {
      assert ([x] + rows)[..n] == [x] + rows[..n - 1];
    }
  }

  /** Once a message has been read, the loop shows the pending rows, cut
      to the rows left. */
  lemma {:induction false} PaneShowsPending(log: seq<string>, i: int, overflow: string, offset: int, cw: int)
    requires cw >= 1 && offset >= 0 && 0 <= i && i + offset <= |log| && (overflow != "" ==> i + offset >= 1)
    ensures PaneFrom(log, i, overflow, offset, cw) == Take(Pending(log, i, overflow, offset, cw), i)
    decreases i
  {
    if i >= 1 {
      var s := Step(log, i, overflow, offset, cw);
      PaneFromStep(log, i, overflow, offset, cw);
      StepTakesPending(log, i, overflow, offset, cw, s);
      PaneShowsPending(log, i - 1, s.overflow, s.offset, cw);
      TakeCons(s.row, Pending(log, i - 1, s.overflow, s.offset, cw), i);
    }
  }

  /** Above a log shorter than the pane the loop clears the rows it
      cannot fill. */
  lemma {:induction false} ClearsFirst(log: seq<string>, h: int, cw: int)
    requires cw >= 1 && h >= |log|
    ensures PaneFrom(log, h, "", 0, cw) == Clears(h - |log|) + PaneFrom(log, |log|, "", 0, cw)
    decreases h
  {
    if h > |log| {
      ClearsFirst(log, h - 1, cw);
    }
  }

  /** Started with the counter at `n`, at most the length of the log, the
      loop shows the first `n` rows of the newest `n` messages' chunks. */
  lemma {:induction false} NewestRows(log: seq<string>, n: int, cw: int)
    requires cw >= 1 && 0 <= n <= |log|
    ensures |Stream(log[|log| - n..], cw)| >= n
    ensures PaneFrom(log, n, "", 0, cw) == Stream(log[|log| - n..], cw)[..n]
  {
    PaneShowsPending(log, n, "", 0, cw);
  }

  /** The pane shows `h` rows: cleared rows for a log shorter than the
      pane, then the newest `h` messages (all of them if fewer), each
      split from its end, from the oldest of them on, cut off at the
      bottom once the pane is full. */
  lemma {:induction false} PaneShowsChunks(log: seq<string>, h: int, cw: int)
    requires cw >= 1 && h >= 0
    ensures var n := if h < |log| then h else |log|;
            && |Stream(log[|log| - n..], cw)| >= n
            && PaneFrom(log, h, "", 0, cw) == Clears(h - n) + Stream(log[|log| - n..], cw)[..n]
  {
    if h >= |log| {
      ClearsFirst(log, h, cw);
      NewestRows(log, |log|, cw);
    } else {
      NewestRows(log, h, cw);
      assert Clears(0) == [];
    }
  }

  /** A message of eight characters, the oldest of three, in a pane three
      rows high and three columns wide: its last two characters come first
      and its first three last, and the two newer messages are not shown. */
  lemma LongMessageReadsUpwards()
    ensures PaneFrom(["abcdefgh", "y", "z"], 3, "", 0, 3) == [Text("gh"), Text("def"), Text("abc")]
  {
    var log := ["abcdefgh", "y", "z"];
    var m := "abcdefgh";
    assert BB.Overhang(8, 3) == 2 && BB.Overhang(6, 3) == 3;
    assert Chunk(m, 3) == "gh" && Carry(m, 3) == "abcdef";
    assert Step(log, 3, "", 0, 3) == LoopStep(Text("gh"), "abcdef", 1);
    assert Chunk("abcdef", 3) == "def" && Carry("abcdef", 3) == "abc";
    assert Step(log, 2, "abcdef", 1, 3) == LoopStep(Text("def"), "abc", 2);
    assert Step(log, 1, "abc", 2, 3) == LoopStep(Text("abc"), "", 2);
  }

  /** With a single message of eight characters the clearing test, which
      counts the rows already cut as room, clears two rows and the pane
      shows only the message's last two characters. */
  lemma LongNewestShowsOverhangOnly()
    ensures PaneFrom(["abcdefgh"], 3, "", 0, 3) == [Clear, Clear, Text("gh")]
  {
    var log := ["abcdefgh"];
    assert BB.Overhang(8, 3) == 2;
    assert Chunk("abcdefgh", 3) == "gh" && Carry("abcdefgh", 3) == "abcdef";
    assert Step(log, 1, "", 0, 3) == LoopStep(Text("gh"), "abcdef", 1);
  }

  /** The pane loop of `DrawInterface`: counts `i` down from the pane
      height, clears rows while no message reaches them, and either shows
      the current message whole or cuts its overhang off the end. */
  method PaneLoop(log: seq<string>, height: int, cw: int) returns (rows: seq<PaneRow>)
    requires cw >= 1
    ensures rows == PaneFrom(log, height, "", 0, cw)
  {
    rows := [];
    var overflow := "";
    var overflowOffset := 0;
    var i := height;
    ghost var all := PaneFrom(log, height, "", 0, cw);
    while i > 0
      invariant Indexable(log, i, overflow, overflowOffset)
      invariant rows + PaneFrom(log, i, overflow, overflowOffset, cw) == all
      decreases i
    {
      ghost var s := Step(log, i, overflow, overflowOffset, cw);
      ghost var todo := PaneFrom(log, i, overflow, overflowOffset, cw);
      PaneFromStep(log, i, overflow, overflowOffset, cw);
      var row;
      if |log| - i + overflowOffset < 0 {
        row := Clear;
      } else {
        ghost var overflow0, offset0 := overflow, overflowOffset;
        var message := log[|log| - (i + overflowOffset)];
        if overflow == "" {
          overflow := message;
        }
        if |overflow| <= cw {
          WholeStep(log, i, overflow0, offset0, cw);
          row := Text(overflow);
          overflow := "";
        } else {
          CutStep(log, i, overflow0, offset0, cw);
          BB.OverhangIsRemainder(|overflow|, cw);
          var overhangLength := if |overflow| % cw == 0 then cw else |overflow| % cw;
          row := Text(overflow[|overflow| - overhangLength..]);
          overflow := overflow[..|overflow| - overhangLength];
          overflowOffset := overflowOffset + 1;
        }
      }
      assert s == LoopStep(row, overflow, overflowOffset);
      ghost var rest := PaneFrom(log, i - 1, overflow, overflowOffset, cw);
      assert todo == [row] + rest;
      BB.AppendAssoc(rows, [row], rest);
      rows := rows + [row];
      i := i - 1;
    }
  }

  // ---------------------------------------------------------------------
  // The input row

  /** The text of the input row: the whole buffer when it fits, otherwise
      `Substring(windowOffset, cw)`, which fails (`None`) when the window
      runs past the end of the buffer. */
  function InputRow(st: IL.InputState, cw: int): (r: Option<string>)
    requires IL.Valid(st) && cw >= 0
    ensures r.Some? <==> |st.buffer| <= cw || st.window + cw <= |st.buffer|
    ensures r.Some? ==> |r.value| <= cw || r.value == st.buffer
  {
    if |st.buffer| <= cw then Some(st.buffer)
    else if st.window + cw <= |st.buffer| then Some(st.buffer[st.window..st.window + cw])
    else None
  }

  /** Widening the console by three columns while scrolled to the end of a
      long buffer leaves the older refresh with a window past the end, and
      the redraw's `Substring` fails. */
  lemma WideningBreaksInputRow()
    ensures var st := IL.InputState("abcdefghij", 5, 5);
            && IL.Valid(st) && IL.Settled(st, 5)
            && InputRow(IL.LegacyRefresh(st, 8), 8) == None
  {
  }

  /** The newer refresh pulls the window back, so after it the input row
      can always be cut out of the buffer. */
  lemma {:induction false} RefreshKeepsInputRow(st: IL.InputState, cw: int)
    requires cw >= 0 && IL.Loose(st, cw)
    ensures InputRow(IL.Refresh(st, cw), cw).Some?
  {
    IL.RefreshSettles(st, cw);
  }

  // ---------------------------------------------------------------------
  // The interface object

  class ConsoleUI {
    var messages: seq<string>
    /** `null` senders are kept as `None`. */
    var senders: seq<Option<string>>
    var fullWidth: int
    var fullHeight: int
    var inputBuffer: string
    var cursorPosition: int
    var windowOffset: int
    var exit: bool
    /** The lines handed to `UserInputHandler`, oldest first. */
    var submitted: seq<string>
    /** The pane and the input row of the last redraw. */
    var pane: seq<PaneRow>
    var inputRow: Option<string>

    function ConsoleWidth(): int
      reads this
    {
      fullWidth - 2
    }

    function Input(): IL.InputState
      reads this
    {
      IL.InputState(inputBuffer, cursorPosition, windowOffset)
    }

    /** The parallel lists stay aligned and the caret stays inside the
      buffer; the console is at least three columns wide. */
    ghost predicate Inv()
      reads this
    {
      |messages| == |senders| && IL.Valid(Input()) && fullWidth >= 3
    }

    /** The last redraw shows the current state. */
    ghost predicate Drawn()
      reads this
    {
      && Inv()
      && pane == PaneFrom(messages, fullHeight - 4, "", 0, ConsoleWidth())
      && inputRow == InputRow(Input(), ConsoleWidth())
    }

    constructor (width: int, height: int)
      requires width >= 3
      ensures Inv() && messages == [] && senders == [] && submitted == [] && !exit
      ensures fullWidth == width && fullHeight == height && Input() == IL.InputState("", 0, 0)
    {
      messages, senders := [], [];
      fullWidth, fullHeight := width, height;
      inputBuffer, cursorPosition, windowOffset := "", 0, 0;
      exit := false;
      submitted := [];
      pane, inputRow := [], None;
      new;
      assert Input() == IL.InputState("", 0, 0);
    }

    /** `RefreshConsoleSize`: no scrolling when the buffer is narrower than
      the screen, then fold a caret beyond the right edge into the window. */
    method RefreshConsoleSize(width: int, height: int)
      requires IL.Valid(Input()) && width >= 3
      modifies this`fullWidth, this`fullHeight, this`windowOffset, this`cursorPosition
      ensures fullWidth == width && fullHeight == height
      ensures Input() == IL.LegacyRefresh(old(Input()), width - 2)
      ensures IL.Valid(Input()) && cursorPosition <= ConsoleWidth()
      ensures exit == old(exit) && submitted == old(submitted) && messages == old(messages)
      ensures inputBuffer == old(inputBuffer)
    {
      IL.LegacyRefreshKeepsPosition(Input(), width - 2);
      fullWidth, fullHeight := width, height;
      if ConsoleWidth() > |inputBuffer| {
        windowOffset := 0;
      }
      if cursorPosition > ConsoleWidth() {
        windowOffset := windowOffset + cursorPosition - ConsoleWidth();
        cursorPosition := ConsoleWidth();
      }
    }

    method ResetInput()
      modifies this`inputBuffer, this`cursorPosition, this`windowOffset
      ensures Input() == IL.InputState("", 0, 0)
    {
      inputBuffer, cursorPosition, windowOffset := "", 0, 0;
    }

    /** `DrawInterface` at the size last read: the pane loop and the input
      row. */
    method DrawInterface()
      requires Inv()
      modifies this`pane, this`inputRow
      ensures Drawn()
      ensures Input() == old(Input()) && exit == old(exit) && submitted == old(submitted)
    {
      pane := PaneLoop(messages, fullHeight - 4, ConsoleWidth());
      inputRow := InputRow(Input(), ConsoleWidth());
    }

    /** `AddMessage`: the text and the sender go on the two lists
      together, then the screen is redrawn. */
    method AddMessage(message: string, sender: Option<string>)
      requires Inv()
      modifies this`messages, this`senders, this`pane, this`inputRow
      ensures messages == old(messages) + [message] && senders == old(senders) + [sender]
      ensures Drawn()
    {
      messages := messages + [message];
      senders := senders + [sender];
      DrawInterface();
    }

    /** A printable key: the character goes in at the caret, which moves
        past it. */
    method InsertChar(c: char)
      requires IL.Valid(Input())
      modifies this`inputBuffer, this`cursorPosition, this`windowOffset
      ensures Input() == IL.Advance(IL.Inserted(old(Input()), c), ConsoleWidth())
    {
      var p := cursorPosition + windowOffset;
      inputBuffer := inputBuffer[..p] + [c] + inputBuffer[p..];
      if cursorPosition < ConsoleWidth() {
        cursorPosition := cursorPosition + 1;
      } else {
        windowOffset := windowOffset + 1;
      }
    }

    /** Enter: the line goes to `UserInputHandler`, then the input is
        reset. */
    method SubmitLine()
      modifies this`inputBuffer, this`cursorPosition, this`windowOffset, this`submitted
      ensures submitted == old(submitted) + [old(inputBuffer)]
      ensures Input() == IL.InputState("", 0, 0)
    {
      submitted := submitted + [inputBuffer];
      ResetInput();
    }

    /** Left, Right, Backspace and Delete. */
    method MoveCaret(key: CIO.ConsoleKey) returns (beep: bool)
      requires CIO.IsEditKey(key) && IL.Valid(Input())
      modifies this`inputBuffer, this`cursorPosition, this`windowOffset
      ensures var e := CIO.EditOf(key, old(Input()), ConsoleWidth());
              Input() == e.state && beep == e.beep
    {
      var cw := ConsoleWidth();
      var p := cursorPosition + windowOffset;
      beep := false;
      match key {
        case LeftArrow =>
          if p == 0 {
            beep := true;
          } else if cursorPosition == 0 && windowOffset > 0 {
            windowOffset := windowOffset - 1;
          } else {
            cursorPosition := cursorPosition - 1;
          }
        case RightArrow =>
          if p == |inputBuffer| {
            beep := true;
          } else if cursorPosition == cw {
            windowOffset := windowOffset + 1;
          } else {
            cursorPosition := cursorPosition + 1;
          }
        case Backspace =>
          if p == 0 {
            beep := true;
          } else if windowOffset > 0 && (windowOffset + cw >= |inputBuffer| || cursorPosition == 0) {
            inputBuffer := IL.RemoveAt(inputBuffer, p - 1);
            windowOffset := windowOffset - 1;
          } else {
            inputBuffer := IL.RemoveAt(inputBuffer, p - 1);
            cursorPosition := cursorPosition - 1;
          }
        case Delete =>
          if p == |inputBuffer| {
            beep := true;
          } else if windowOffset > 0 && windowOffset + cw >= |inputBuffer| {
            inputBuffer := IL.RemoveAt(inputBuffer, p);
            windowOffset := windowOffset - 1;
          } else {
            inputBuffer := IL.RemoveAt(inputBuffer, p);
          }
      }
    }

    /** The key branches of `KeyHandler` other than Escape, after the
        size refresh. */
    method EditLine(k: CIO.KeyInfo) returns (beep: bool)
      requires IL.Valid(Input()) && cursorPosition <= ConsoleWidth()
      modifies this`inputBuffer, this`cursorPosition, this`windowOffset, this`submitted
      ensures var e := LegacyEdit(old(Input()), k, ConsoleWidth()); beep == e.beep && Input() == e.state
      ensures IL.Valid(Input()) && cursorPosition <= ConsoleWidth()
      ensures !CIO.Printable(k.keyChar) && k.key == CIO.Enter ==> submitted == old(submitted) + [old(inputBuffer)]
      ensures CIO.Printable(k.keyChar) || k.key != CIO.Enter ==> submitted == old(submitted)
      ensures fullWidth == old(fullWidth) && fullHeight == old(fullHeight) && exit == old(exit)
      ensures messages == old(messages) && senders == old(senders)
    {
      ghost var st, cw := Input(), ConsoleWidth();
      ghost var e := LegacyEdit(st, k, cw);
      LegacyEditKeepsValid(st, k, cw);
      if CIO.Printable(k.keyChar) {
        assert e == IL.Edit(false, IL.Advance(IL.Inserted(st, k.keyChar), cw));
        InsertChar(k.keyChar);
        beep := false;
      } else if CIO.IsEditKey(k.key) {
        assert e == CIO.EditOf(k.key, st, cw);
        beep := MoveCaret(k.key);
      } else if k.key == CIO.Enter {
        assert e == IL.Edit(false, IL.InputState("", 0, 0));
        SubmitLine();
        beep := false;
      } else {
        assert e == IL.Edit(false, st);
        beep := false;
      }
      assert fullWidth == old(fullWidth);
    }

    /** Escape: the handler asks the key loop to end. */
    method Stop()
      modifies this`exit
      ensures exit && Input() == old(Input())
    {
      exit := true;
    }

    /** A key other than Escape, once the size is refreshed: apply it and
        redraw. */
    method EditAndDraw(k: CIO.KeyInfo, ghost e: IL.Edit) returns (beep: bool)
      requires Inv() && cursorPosition <= ConsoleWidth()
      requires e == LegacyEdit(Input(), k, ConsoleWidth())
      modifies this`inputBuffer, this`cursorPosition, this`windowOffset, this`submitted, this`pane, this`inputRow
      ensures beep == e.beep && Input() == e.state
      ensures Drawn() && exit == old(exit)
      ensures !CIO.Printable(k.keyChar) && k.key == CIO.Enter ==> submitted == old(submitted) + [old(inputBuffer)]
      ensures CIO.Printable(k.keyChar) || k.key != CIO.Enter ==> submitted == old(submitted)
    {
      beep := EditLine(k);
      DrawInterface();
    }

    /** `KeyHandler`: refresh the size, then apply the key; Escape sets
      `exit` and returns without a redraw, every other key ends with one. */
    method KeyHandler(k: CIO.KeyInfo, width: int, height: int) returns (beep: bool)
      requires Inv() && width >= 3
      modifies this`fullWidth, this`fullHeight, this`inputBuffer, this`cursorPosition, this`windowOffset,
               this`exit, this`submitted, this`pane, this`inputRow
      ensures Inv() && fullWidth == width && fullHeight == height
      ensures var st := IL.LegacyRefresh(old(Input()), width - 2);
              var escape := !CIO.Printable(k.keyChar) && k.key == CIO.Escape;
              && (escape ==> !beep && Input() == st && pane == old(pane) && inputRow == old(inputRow))
              && (!escape ==> var e := LegacyEdit(st, k, width - 2); beep == e.beep && Input() == e.state && Drawn())
      ensures exit == (old(exit) || (!CIO.Printable(k.keyChar) && k.key == CIO.Escape))
      ensures !CIO.Printable(k.keyChar) && k.key == CIO.Enter ==> submitted == old(submitted) + [old(inputBuffer)]
      ensures CIO.Printable(k.keyChar) || k.key != CIO.Enter ==> submitted == old(submitted)
    {
      RefreshConsoleSize(width, height);
      if !CIO.Printable(k.keyChar) && k.key == CIO.Escape {
        Stop();
        beep := false;
      } else {
        ghost var e := LegacyEdit(IL.LegacyRefresh(old(Input()), width - 2), k, width - 2);
        beep := EditAndDraw(k, e);
      }
    }
  }
}
