# ConsoleIO-UI in Dafny

A model of the text-mode chat interface ConsoleIO-UI and its calculator demo.

The interface draws a framed screen with three parts:

- a message pane, with an optional sender column;
- a one-line input field that scrolls sideways;
- box-drawing lines around and between them.

Keys edit the input line or scroll the pane. Enter hands the line to the application, which answers by adding messages.

The model covers these parts:

- **`InputLine`**: the editing and scrolling rules of the current interface (`ConsoleIOUI/Interface.cs`) as functions on values:
  - typing at the caret;
  - Left, Right, Backspace and Delete over a buffer seen through a window of `ConsoleWidth` columns;
  - `RefreshConsoleSize`, which re-settles the line for a new width;
  - the message pane's scroll offset for Up, Down, PageUp, PageDown and Home;
  - the offset bump of `AddMessage`.
- **`ConsoleIO`**: the class `ConsoleInterface` with the source's fields. Its methods update them in place:
  - `KeyHandler`, `RefreshConsoleSize`, `ResetInput`, `AddMessage`, `Stop`, `DrawInterface`.

  The redraw is a sequence of rows: top line, pane, separator, input row, bottom line. It is specified by `Screen` and proved to fill the console.
- **`BodyBuilder`**: `MessagesBodyBuilder` (`ConsoleUI/MessageBodyBuilder.cs`), the stack of messages with a running line count.
  - `Build` word-wraps messages at the usable width.
  - It cuts the oldest message off at the top when the pane overflows.
  - It shows the sender on a message's first row only.
- **`Helpers`**: the frame line builders of `InterfaceHelpers` (`ConsoleUI/InterfaceHelper.cs`) and `Truncate`.
- **`Messages`**: the `Message` record (`ConsoleIOUI/Message.cs`), a value with `body` and `sender`.
- **`LegacyConsole`**: the older class `ConsoleUI` (`ConsoleUI/Interface.cs`). It keeps parallel lists of texts and senders, has a weaker `RefreshConsoleSize`, and draws its pane with a loop that splits long messages from the end.
- **`Tokens`**: the calculator's expression tree (`Showcase/Calculator/Tokenizer/Tokens.cs`), with `Eval` and `ToJSON`. Division truncates toward zero as C# does.
- **`Tokenizer`**: the recursive-descent `Tokenizer` class (`Showcase/Calculator/Tokenizer/Tokenizer.cs`). Its fields are the cursor `progressCounter` and `depth`. Its methods are proved equal to the pure functions `ValueSpec`, `ParentSpec` and `RecSpec`. Every tree in the grammar's shape parses back from its text.
- **`Calculator`**: the demo's `UserInputHandler` (`Showcase/Calculator/Calculator.cs`). It answers every line with the message `"{input} = {value}"`, `"{input} = Invalid Input"` or `"{input} = Division By Zero"`.

Conventions of the model:

- A beep (`Console.Beep()`) is a returned `beep` flag.
- The console size is passed in as `width` and `height`.
- A line handed to `UserInputHandler` is recorded in the field `submitted`.
- The text written to the console is recorded in `screen` (current interface) or in `pane` and `inputRow` (older interface).

`RefreshConsoleSize` (`ConsoleIOUI/Interface.cs:301-321`) does not always keep the logical caret, the character the caret stands before. Its last clause (lines 316-320) folds a caret beyond the right edge into the window and keeps that position (`InputLine.RefreshFoldKeepsPosition`). Its first two clauses (lines 306-314) can move it. A console wider than the buffer resets `windowOffset` to 0, moving the caret back by the old offset (`InputLine.RefreshWidenResetsWindow`). A window running past the end of the buffer is pulled back and the caret put on the right edge, which moves it to the end of the buffer (`InputLine.RefreshPullBackMovesCaretToEnd`). The model follows the code.

## Model

| member | source | states |
|---|---|---|
| InputLine.Refresh | ConsoleIOUI/Interface.cs:301-321 | re-settling for a new width never changes the buffer |
| InputLine.RefreshSettles | ConsoleIOUI/Interface.cs:301-321 | from any state with non-negative coordinates and a caret inside the buffer (or on screen over a buffer at least as wide as the screen), the refresh leaves the caret inside the buffer and at most `ConsoleWidth`; the window is 0 when the buffer is narrower than the screen and ends within the buffer otherwise, so `Substring(windowOffset, ConsoleWidth)` at line 273 is in bounds |
| InputLine.RefreshFixesSettled | ConsoleIOUI/Interface.cs:301-321 | a settled state is a fixed point: refreshing again at the same width changes nothing |
| InputLine.RefreshFoldKeepsPosition | ConsoleIOUI/Interface.cs:316-320 | when only the last clause applies (the console shrank below the caret), the excess is folded into the window and the logical position `cursor + window` is kept |
| InputLine.RefreshWidenMovesCaret | ConsoleIOUI/Interface.cs:306-309 | widening the console past the buffer resets the window, and the logical caret moves ("abcdefghij" scrolled by 5 with the caret at column 2 ends up before 'c') |
| InputLine.RefreshWidenResetsWindow | ConsoleIOUI/Interface.cs:306-309 | for every caret on screen, a console wider than the buffer sets the window to 0 and keeps the cursor column, so the logical caret moves back by the old window offset |
| InputLine.RefreshPullBackMovesCaretToEnd | ConsoleIOUI/Interface.cs:310-314 | whenever the window runs past the end of a buffer at least as wide as the screen, the window is pulled back to end at the buffer's end and the cursor goes to the right edge: the logical caret is then at the end of the buffer, wherever it was (at width 8, ("abcdefghij", 2, 5) becomes ("abcdefghij", 8, 2)) |
| InputLine.LegacyRefresh | ConsoleUI/Interface.cs:228-243 | the older refresh never changes the buffer |
| InputLine.LegacyRefreshKeepsPosition | ConsoleUI/Interface.cs:228-243 | the older refresh keeps the caret in the buffer and on screen, zeroes the window for a buffer narrower than the screen, and otherwise keeps the logical position |
| InputLine.LegacyRefreshLeavesWindowPastEnd | ConsoleUI/Interface.cs:228-243 | without the pull-back clause, a widened console can leave the window running past the end of the buffer |
| InputLine.Inserted | ConsoleIOUI/Interface.cs:82 | `Insert(cursorPosition + windowOffset, c)` grows the buffer by one and puts `c` at the logical position |
| InputLine.Advance | ConsoleIOUI/Interface.cs:86-95 | after typing, the logical position moves one to the right over the same buffer |
| InputLine.Type | ConsoleIOUI/Interface.cs:80-96 | a printable key: insert at the caret, re-settle for the current width, then advance; see `TypeInsertsAtCaret` and `TypeAfterResize` |
| InputLine.TypeInsertsAtCaret | ConsoleIOUI/Interface.cs:80-96 | at an unchanged width, a printable key inserts the character at the caret with the rest of the buffer in order; the caret moves one right, through `cursorPosition` below `ConsoleWidth` and through `windowOffset` at it; the state stays valid and settled |
| InputLine.TypeAfterResize | ConsoleIOUI/Interface.cs:80-96 | after a resize the character is still inserted at the old caret, and the state is one the next refresh repairs |
| InputLine.RemoveAt | ConsoleIOUI/Interface.cs:188 | `Remove(i, 1)` shortens the string by exactly one |
| InputLine.Left | ConsoleIOUI/Interface.cs:110-123 | the LeftArrow branch; see `LeftMovesOne` |
| InputLine.Right | ConsoleIOUI/Interface.cs:124-137 | the RightArrow branch; see `RightMovesOne` |
| InputLine.Backspace | ConsoleIOUI/Interface.cs:181-196 | Backspace with the corrected guard, which moves the window at column 0 of a scrolled window; see `BackspaceRemovesOne` and `BackspaceCorrectionAgrees` |
| InputLine.BackspaceAsWritten | ConsoleIOUI/Interface.cs:181-196 | Backspace with the source's guard; see `BackspaceAsWrittenUnderflows` |
| InputLine.LeftMovesOne | ConsoleIOUI/Interface.cs:110-123 | Left beeps iff the logical position is 0, and then changes nothing; otherwise it moves the logical position back by one over the same buffer, through the window when the cursor is at column 0; it keeps the state valid and settled |
| InputLine.RightMovesOne | ConsoleIOUI/Interface.cs:124-137 | Right beeps iff the caret is at the end of the buffer, and then changes nothing; otherwise it moves the logical position one forward, through the window at column `ConsoleWidth`; it keeps the state valid and settled |
| InputLine.BackspaceRemovesOne | ConsoleIOUI/Interface.cs:181-196 | the corrected Backspace beeps iff the logical position is 0, and then changes nothing; otherwise it removes exactly the character before the caret, keeps the rest in order, moves the logical position back by one, and keeps the state valid and settled |
| InputLine.BackspaceAsWrittenUnderflows | ConsoleIOUI/Interface.cs:186-195 | the source's Backspace with the cursor at column 0, the window scrolled by 2 and the buffer running past the screen takes `cursorPosition` to -1; a following Left takes it to -2 |
| InputLine.BackspaceCorrectionAgrees | ConsoleIOUI/Interface.cs:181-196 | the corrected Backspace equals the source's in every case except the one that underflows |
| InputLine.DeleteRemovesOne | ConsoleIOUI/Interface.cs:197-211 | Delete beeps iff the caret is at the end of the buffer, and then changes nothing; otherwise it removes exactly the character after the caret and keeps the cursor; the window moves back by one only when it is scrolled and reaches the end of the buffer; the state stays valid and settled |
| InputLine.Delete | ConsoleIOUI/Interface.cs:197-211 | the Delete branch; see `DeleteRemovesOne` |
| InputLine.Visible | ConsoleIOUI/Interface.cs:233 | the messages considered for drawing are a prefix of the log: scrolling only ever hides newer messages |
| InputLine.ScrollUp | ConsoleIOUI/Interface.cs:138-147 | Up with the corrected `>=` guard; see `ScrollUpStaysInView` and `ScrollCorrectionAgrees` |
| InputLine.PageUp | ConsoleIOUI/Interface.cs:158-167 | PageUp with the corrected `>=` guard and `Math.Min(Count - 1, offset + 10)`; see `ScrollUpStaysInView` and `ScrollCorrectionAgrees` |
| InputLine.ScrollDown | ConsoleIOUI/Interface.cs:148-157 | the DownArrow branch; see `ScrollDownStaysInView` |
| InputLine.PageDown | ConsoleIOUI/Interface.cs:168-177 | PageDown with `Math.Max(0, offset - 10)`; see `ScrollDownStaysInView` |
| InputLine.ScrollUpAsWritten | ConsoleIOUI/Interface.cs:138-147 | Up with the source's `== Count - 1` guard; see `ScrollAsWrittenEscapesOnEmptyLog` |
| InputLine.PageUpAsWritten | ConsoleIOUI/Interface.cs:158-167 | PageUp with the source's `== Count - 1` guard; see `ScrollAsWrittenEscapesOnEmptyLog` |
| InputLine.ScrollUpStaysInView | ConsoleIOUI/Interface.cs:138-167 | the guarded Up and PageUp beep iff the oldest message is already at the top (or the log is empty); otherwise Up adds one and PageUp adds ten or stops at `Count - 1`; the offset stays in view |
| InputLine.ScrollDownStaysInView | ConsoleIOUI/Interface.cs:148-177 | Down and PageDown beep iff the offset is 0; otherwise Down subtracts one and PageDown subtracts ten or stops at 0; the offset stays in view |
| InputLine.ScrollAsWrittenEscapesOnEmptyLog | ConsoleIOUI/Interface.cs:138-167 | on an empty log the source's `== Count - 1` guards never fire: Up yields 1 and PageUp yields -1, both outside the log |
| InputLine.ScrollCorrectionAgrees | ConsoleIOUI/Interface.cs:138-167 | on a non-empty log the corrected guards agree with the source's |
| InputLine.AddKeepsView | ConsoleIOUI/Interface.cs:286-299 | adding a message keeps the offset in view; a scrolled view keeps showing exactly the same messages, and an unscrolled one gains the new message at the bottom |
| InputLine.Bumped | ConsoleIOUI/Interface.cs:292-295 | the offset bump of `AddMessage`; see `AddKeepsView` |
| ConsoleIO.OnKey | ConsoleIOUI/Interface.cs:78-219 | a printable key types at the caret, any other key goes to `Dispatch`; see `OnKeyKeepsInvariant` and `OnKeyRoles` |
| ConsoleIO.Dispatch | ConsoleIOUI/Interface.cs:102-216 | the switch on the key: editing keys, scrolling keys, Enter, Escape and the ignored rest; see `OnKeyRoles` |
| ConsoleIO.EditOf | ConsoleIOUI/Interface.cs:110-211 | Left, Right, the corrected Backspace and Delete; see `EditKeepsInput` |
| ConsoleIO.ScrollOf | ConsoleIOUI/Interface.cs:138-180 | the corrected Up and PageUp, Down, PageDown and Home; see `ScrollKeepsOffset` |
| ConsoleIO.EditKeepsInput | ConsoleIOUI/Interface.cs:110-211 | Left, Right, the corrected Backspace and Delete keep the input line valid and settled; the source's Backspace does not (first finding below) |
| ConsoleIO.ScrollKeepsOffset | ConsoleIOUI/Interface.cs:138-180 | Down, PageDown, Home and the corrected Up and PageUp keep the pane offset in view; the source's Up and PageUp do not on an empty log (second finding below) |
| ConsoleIO.OnKeyKeepsInvariant | ConsoleIOUI/Interface.cs:78-219 | every key of the handler with the corrected Backspace, Up and PageUp guards leaves an input state that the next refresh repairs and a pane offset in view |
| ConsoleIO.OnKeyRoles | ConsoleIOUI/Interface.cs:78-219 | only Enter submits, only Escape exits, only the scrolling keys move the pane, and only typing, Enter, Backspace and Delete change the buffer |
| ConsoleIO.Pushed | ConsoleIOUI/Interface.cs:233-235 | after `k` pushes the stack holds `k` messages |
| ConsoleIO.TakenFrom | ConsoleIOUI/Interface.cs:233-241 | the fill loop pushes at least one more message while any are left, and never more than there are |
| ConsoleIO.PushedPopInOrder | ConsoleIOUI/Interface.cs:233-241 | popping the newest-first pushes draws the messages in log order: the oldest shown at the top |
| ConsoleIO.PushedTop | ConsoleIOUI/Interface.cs:233-237 | each push puts the next older message on top and adds its `LinesUsed` to the count |
| ConsoleIO.TakenFromFits | ConsoleIOUI/Interface.cs:233-241 | because the loop stops at the first `IsFull`, the lines pushed overshoot the pane by less than the top message's rows |
| ConsoleIO.Fill | ConsoleIOUI/Interface.cs:232-241 | the stack the fill loop leaves overshoots the pane by less than its top message's rows, and it is non-empty whenever some message is visible |
| ConsoleIO.FillInOrder | ConsoleIOUI/Interface.cs:232-261 | drawn whole, the filled stack shows the newest visible messages in log order |
| ConsoleIO.PaneWhenCut | ConsoleIOUI/Interface.cs:250-261 | when the messages overflow the pane, no blank rows are added |
| ConsoleIO.PaneWhenShort | ConsoleIOUI/Interface.cs:250-261 | when the messages do not fill the pane, the built rows sit at the bottom under `UsableHeight - lines` blank rows |
| ConsoleIO.Pane | ConsoleIOUI/Interface.cs:250-261 | the blank rows then `Build`'s rows; see `PaneFillsHeight`, `PaneShowsNewest` and `FilledPane` |
| ConsoleIO.PaneFillsHeight | ConsoleIOUI/Interface.cs:250-261 | the pane is exactly `UsableHeight` rows: a short stack is drawn whole at the bottom, and a tall one loses exactly its first rows |
| ConsoleIO.PaneShowsNewest | ConsoleIOUI/Interface.cs:228-261 | a redraw's pane is `UsableHeight` rows showing the newest visible messages in log order, with the top cut off when they overflow |
| ConsoleIO.BuiltLength | ConsoleIOUI/Interface.cs:250-261 | `Build` draws `UsableHeight` rows for an overflowing stack, and `lines` rows otherwise |
| ConsoleIO.PaneAllWide | ConsoleIOUI/Interface.cs:244-261 | with a sender column every pane row is as wide as a blank row |
| ConsoleIO.PaneLastRow | ConsoleIOUI/Interface.cs:244-261 | without a sender column, the newest message's last row is one column narrower than a blank row |
| ConsoleIO.FilledPane | ConsoleIOUI/Interface.cs:244-261 | a redraw's pane has `UsableHeight` rows, all `ConsoleWidth + 2` wide with a sender column; without one, its last row is `ConsoleWidth + 1` wide |
| ConsoleIO.InputText | ConsoleIOUI/Interface.cs:266-274 | the input row shows the whole buffer when it fits; otherwise exactly `ConsoleWidth` characters starting at the window |
| ConsoleIO.ScreenFillsConsole | ConsoleIOUI/Interface.cs:244-277 | a redraw has `UsableHeight + 4` rows; the frame rows are `ConsoleWidth + 2` wide, and with a sender column every row is |
| ConsoleIO.Screen | ConsoleIOUI/Interface.cs:244-277 | top line, pane, separator, input row and bottom line; see `ScreenFillsConsole` and `DrawScreen` |
| ConsoleIO.ClearRows | ConsoleIOUI/Interface.cs:250-258 | the clear-lines loop emits `missingLines` blank rows, and none when the count is not positive |
| ConsoleIO.PushNewest | ConsoleIOUI/Interface.cs:232-241 | the fill loop leaves exactly the stack `Fill` describes, with nothing drawn yet |
| ConsoleIO.DrawPane | ConsoleIOUI/Interface.cs:228-261 | the blank rows and `Build`'s output together are the pane `Pane` describes |
| ConsoleIO.DrawScreen | ConsoleIOUI/Interface.cs:244-277 | `DrawInterface`'s rows are `Screen`: top line, pane, separator flagged by the three scroll states, input row and bottom line |
| ConsoleIO.ConsoleInterface.constructor | ConsoleIOUI/Interface.cs:35-39 | a negative sender width counts as 0; the interface starts empty and settled, with the input `("", 0, 0)` and offset 0 |
| ConsoleIO.ConsoleInterface.RefreshConsoleSize | ConsoleIOUI/Interface.cs:301-321 | takes the new size and leaves the input line as `Refresh` gives it, valid and settled; the log, offset, submissions and exit flag are untouched |
| ConsoleIO.ConsoleInterface.ResetInput | ConsoleIOUI/Interface.cs:323-328 | the input state becomes `("", 0, 0)` |
| ConsoleIO.ConsoleInterface.Stop | ConsoleIOUI/Interface.cs:58-63 | raises `exit` and changes nothing else that is modelled |
| ConsoleIO.ConsoleInterface.DrawInterface | ConsoleIOUI/Interface.cs:221-284 | refreshes the size and leaves the console showing `Screen` for the current log, offset and input line |
| ConsoleIO.ConsoleInterface.Paint | ConsoleIOUI/Interface.cs:244-282 | writes the screen for the current state |
| ConsoleIO.ConsoleInterface.AddMessage | ConsoleIOUI/Interface.cs:286-299 | appends exactly one message, with a missing sender stored as ""; the offset grows by one iff it was non-zero; the screen is redrawn |
| ConsoleIO.ConsoleInterface.MoveCaret | ConsoleIOUI/Interface.cs:110-211 | the Left, Right, Backspace and Delete branches produce the input state and beep of `EditOf` |
| ConsoleIO.ConsoleInterface.ScrollPane | ConsoleIOUI/Interface.cs:138-180 | the Up, Down, PageUp, PageDown and Home branches produce the offset and beep of `ScrollOf` |
| ConsoleIO.ConsoleInterface.TypeKey | ConsoleIOUI/Interface.cs:80-96 | a printable key inserts, refreshes and advances as `Type` gives it, touching nothing else |
| ConsoleIO.ConsoleInterface.TypeAndDraw | ConsoleIOUI/Interface.cs:80-99 | typing followed by the redraw: the console then shows the updated line |
| ConsoleIO.ConsoleInterface.SubmitLine | ConsoleIOUI/Interface.cs:106-109 | Enter hands the whole buffer over once, then resets the input to `("", 0, 0)` |
| ConsoleIO.ConsoleInterface.ApplyKey | ConsoleIOUI/Interface.cs:102-216 | the `switch` for every key but Escape gives `Dispatch`'s beep, offset and input state, keeps the caret valid and the offset in view, and submits only on Enter |
| ConsoleIO.ConsoleInterface.ControlKey | ConsoleIOUI/Interface.cs:102-218 | a non-printable key other than Escape is dispatched and then redrawn |
| ConsoleIO.ConsoleInterface.KeyHandler | ConsoleIOUI/Interface.cs:78-219 | a printable key never beeps or scrolls and is inserted at the caret; Escape raises `exit` without a redraw; every other key acts as `Dispatch` says and ends with a redraw; Enter submits the buffer exactly once |
| Helpers.Truncate | ConsoleUI/InterfaceHelper.cs:97-106 | for `maxLength >= 1`: a value that fits is returned unchanged; a one-column field shows the first character; a longer value becomes its first `maxLength - 1` characters and '…'; the result never exceeds `maxLength` |
| Helpers.TruncateIdempotent | ConsoleUI/InterfaceHelper.cs:97-106 | truncating twice gives the same as truncating once |
| Helpers.EncapsulatePadNoSender | ConsoleUI/InterfaceHelper.cs:31-34 | '│', the input padded to `w` (not truncated), '│' |
| Helpers.BottomLine | ConsoleUI/InterfaceHelper.cs:92-95 | '└', `w` times '─', '┘': length `w + 2` |
| Helpers.InterfaceHelpers.constructor | ConsoleUI/InterfaceHelper.cs:26-29 | stores the sender width |
| Helpers.InterfaceHelpers.ClearLine | ConsoleUI/InterfaceHelper.cs:55-65 | `w + 2` characters: '│', spaces and '│', with '│' at index `senderWidth` when it exceeds 1 |
| Helpers.InterfaceHelpers.SeparateLine | ConsoleUI/InterfaceHelper.cs:67-78 | first glyph '⮜' iff scrolled right, else '┝'; last glyph '⮞' iff scrolled left, else '┥'; fill '╍' iff scrolled up, else '━'; '┷' at index `senderWidth` when it exceeds 1 |
| Helpers.InterfaceHelpers.TopLine | ConsoleUI/InterfaceHelper.cs:80-90 | '┌', `w` times '─', '┐', with '┬' at index `senderWidth` when it exceeds 1 |
| Helpers.InterfaceHelpers.SenderField | ConsoleUI/InterfaceHelper.cs:43 | the truncated and padded sender is exactly `senderWidth - 1` characters |
| Helpers.InterfaceHelpers.Encapsulate | ConsoleUI/InterfaceHelper.cs:36-48 | a message row is `senderWidth + 2` characters longer than its text with a sender column, and 2 longer without one |
| Helpers.InterfaceHelpers.EncapsulateLayout | ConsoleUI/InterfaceHelper.cs:36-48 | borders at both ends; with a sender column, the sender field, then '│' at index `senderWidth`, then the text; without one, the sender is ignored |
| Helpers.InterfaceHelpers.EncapsulateAndPadRight | ConsoleUI/InterfaceHelper.cs:50-53 | a padded row is as long as `Encapsulate` of the input padded to `w` |
| Helpers.InterfaceHelpers.EncapsulateAndPadRightLayout | ConsoleUI/InterfaceHelper.cs:50-53 | the text part of a padded row is the input followed by spaces up to `w` |
| Helpers.InterfaceHelpers.DividersAlign | ConsoleUI/InterfaceHelper.cs:36-90 | with a sender column, a message row's divider lands where `TopLine` and `ClearLine` put theirs |
| BodyBuilder.LinesUsed | ConsoleUI/MessageBodyBuilder.cs:82-85 | at least one row, and exactly one iff the body fits in a row |
| BodyBuilder.LinesUsedIsCeiling | ConsoleUI/MessageBodyBuilder.cs:82-85 | the row count is `max(1, ceil(len / w))` |
| BodyBuilder.Rows | ConsoleUI/MessageBodyBuilder.cs:58-77 | a message drawn whole takes exactly `LinesUsed` rows |
| BodyBuilder.Segments | ConsoleUI/MessageBodyBuilder.cs:62-76 | a body wraps into exactly `LinesUsed` segments |
| BodyBuilder.SegmentsWide | ConsoleUI/MessageBodyBuilder.cs:62-76 | every segment is exactly `w` characters wide |
| BodyBuilder.SegmentsCover | ConsoleUI/MessageBodyBuilder.cs:62-76 | the segments joined in order are the body padded to a whole number of rows: wrapping loses and reorders nothing |
| BodyBuilder.RowsFrameSegments | ConsoleUI/MessageBodyBuilder.cs:62-76 | row `j` frames segment `j`, and only the first row carries the sender |
| BodyBuilder.Drop | ConsoleUI/MessageBodyBuilder.cs:44-49 | dropping `k` rows leaves a body of `LinesUsed - k` rows |
| BodyBuilder.DropIsSlice | ConsoleUI/MessageBodyBuilder.cs:44-49 | dropping `k` rows is the slice from index `w * k` |
| BodyBuilder.DropNext | ConsoleUI/MessageBodyBuilder.cs:44-49 | dropping one more row drops the next `w` characters |
| BodyBuilder.Overhang | ConsoleUI/MessageBodyBuilder.cs:52 | the last row's length is between 1 and `w` |
| BodyBuilder.OverhangIsRemainder | ConsoleUI/MessageBodyBuilder.cs:52 | the overhang is `len % w`, or `w` when that is 0 |
| BodyBuilder.LastRowIsOverhang | ConsoleUI/MessageBodyBuilder.cs:51-55 | what is left after all rows but the last is `body[^overhangLength..]` |
| BodyBuilder.RowsAfterDrop | ConsoleUI/MessageBodyBuilder.cs:44-56 | the rows of a body from row `k >= 1` on are the rows of what dropping `k` rows leaves, without a sender |
| BodyBuilder.CutRowsAreTail | ConsoleUI/MessageBodyBuilder.cs:37-56 | a message cut by `excess` rows shows exactly its last rows as drawn whole, the first `excess` missing, and no sender |
| BodyBuilder.CutRows | ConsoleUI/MessageBodyBuilder.cs:40-56 | the rows of the cut-off message; see `CutRowsAreTail` |
| BodyBuilder.SumLines | ConsoleUI/MessageBodyBuilder.cs:24-28 | the line count is at least the number of messages |
| BodyBuilder.PopRows | ConsoleUI/MessageBodyBuilder.cs:58-77 | popping and drawing every message whole emits exactly `lines` rows |
| BodyBuilder.BuildRowsFillPane | ConsoleUI/MessageBodyBuilder.cs:35-80 | when the overshoot is less than the top message's rows, `Build` emits exactly `usableHeight` rows, namely all rows with the first `excess` cut; with no overshoot it emits all `lines` rows |
| BodyBuilder.BuildRows | ConsoleUI/MessageBodyBuilder.cs:35-80 | the cut message, if any, then the rest of the stack popped; see `BuildRowsFillPane` and `BuildRowsWidth` |
| BodyBuilder.RowsWidth | ConsoleUI/MessageBodyBuilder.cs:62-76 | every row of a message drawn whole has the same width |
| BodyBuilder.PopRowsWidth | ConsoleUI/MessageBodyBuilder.cs:58-77 | every row of the popped messages has that width |
| BodyBuilder.BuildRowsWidth | ConsoleUI/MessageBodyBuilder.cs:35-80 | every row `Build` emits has that width, whether or not a message is cut |
| BodyBuilder.MessagesBodyBuilder.constructor | ConsoleUI/MessageBodyBuilder.cs:17-22 | an empty builder with no lines and the given sizes |
| BodyBuilder.MessagesBodyBuilder.AppendMessage | ConsoleUI/MessageBodyBuilder.cs:24-28 | pushes the message and adds its `LinesUsed`, so `lines` stays the sum over the stack |
| BodyBuilder.MessagesBodyBuilder.IsFull | ConsoleUI/MessageBodyBuilder.cs:30-33 | full iff the pushed messages' rows reach `usableHeight` |
| BodyBuilder.MessagesBodyBuilder.Build | ConsoleUI/MessageBodyBuilder.cs:35-80 | drains the stack and appends `BuildRows` to the output: the cut oldest message first, then the rest in pop order |
| BodyBuilder.MessagesBodyBuilder.DrawCut | ConsoleUI/MessageBodyBuilder.cs:37-56 | the cut message's rows from `excess` to the next-to-last, then its overhang padded |
| BodyBuilder.MessagesBodyBuilder.DrawWhole | ConsoleUI/MessageBodyBuilder.cs:58-77 | one message's rows, drawn whole |
| Tokens.TruncDivRemainder | Showcase/Calculator/Tokenizer/Tokens.cs:137 | the quotient truncates toward zero: it is 0 or has the sign of `a * b`, and the remainder is smaller than the divisor and never of the opposite sign to the dividend |
| Tokens.TruncDiv | Showcase/Calculator/Tokenizer/Tokens.cs:137 | C#'s `/` on `int`, truncating toward zero; see `TruncDivRemainder` |
| Tokens.Eval | Showcase/Calculator/Tokenizer/Tokens.cs:38-96 | a number evaluates to its value; `ParentToken` and `Tree` are transparent |
| Tokens.BinaryEval | Showcase/Calculator/Tokenizer/Tokens.cs:98-144 | on successful operands, the nodes compute `+`, `-` and `*`; division fails iff the divisor is 0 and otherwise truncates |
| Tokens.EvalFailsIffZeroDivisor | Showcase/Calculator/Tokenizer/Tokens.cs:128-144 | evaluation fails iff some division in the tree has a divisor that evaluates to 0: the exception propagates to the root, and nothing else fails |
| Tokens.NatText | Showcase/Calculator/Tokenizer/Tokens.cs:92-95 | the decimal text of a number is non-empty and made of digits |
| Tokens.IntText | Showcase/Calculator/Calculator.cs:26 | the decimal text of an `int` in the interpolation; see `Calculator.IntTextStart`, `Calculator.IntTextInjective` and `Tokenizer.DigitsValueOfNatText` |
| Tokens.ToJSON | Showcase/Calculator/Tokenizer/Tokens.cs:72-75 | a `Tree` serialises as its entry |
| Tokens.JSONBracesBalanced | Showcase/Calculator/Tokenizer/Tokens.cs:32-96 | the serialisation has exactly one '{' and one '}' per binary or `ParentToken` node, and none for numbers and `Tree` |
| Tokens.ParentBraces | Showcase/Calculator/Tokenizer/Tokens.cs:52-55 | `{"Parent": …}` adds one brace of each kind |
| Tokens.BinaryBraces | Showcase/Calculator/Tokenizer/Tokens.cs:32-35 | `{"Operation": …, "Left": …, "Right": …}` adds one brace of each kind to its operands' |
| Tokens.NumberBraces | Showcase/Calculator/Tokenizer/Tokens.cs:92-95 | a number's text has no braces |
| Tokenizer.RemoveSpaces | Showcase/Calculator/Tokenizer/Tokenizer.cs:19-23 | the sanitised input has no ' ' and keeps every other character |
| Tokenizer.NumberEnd | Showcase/Calculator/Tokenizer/Tokenizer.cs:131-141 | a number is the maximal run of digits from the cursor |
| Tokenizer.DigitsValue | Showcase/Calculator/Tokenizer/Tokenizer.cs:134-140 | `int.Parse` of a digit run, unbounded; see `DigitsValueOfNatText` and `Tokenizer.Tokenizer.TokenizeNumber` |
| Tokenizer.ValueSpec | Showcase/Calculator/Tokenizer/Tokenizer.cs:107-129 | a parsed value consumes at least one character |
| Tokenizer.ParentSpec | Showcase/Calculator/Tokenizer/Tokenizer.cs:143-148 | a parsed group consumes at least one character |
| Tokenizer.RecSpec | Showcase/Calculator/Tokenizer/Tokenizer.cs:41-105 | the rest of an expression never moves the cursor back |
| Tokenizer.Parse | Showcase/Calculator/Tokenizer/Tokenizer.cs:35-39 | empty input is rejected |
| Tokenizer.Tokenizer.constructor | Showcase/Calculator/Tokenizer/Tokenizer.cs:32-33 | a fresh tokenizer has empty input, cursor 0 and depth 0 |
| Tokenizer.Tokenizer.SetInput | Showcase/Calculator/Tokenizer/Tokenizer.cs:19-23 | stores the input and its sanitised form |
| Tokenizer.Tokenizer.Reset | Showcase/Calculator/Tokenizer/Tokenizer.cs:155-159 | cursor and depth back to 0 |
| Tokenizer.Tokenizer.ConsumeChar | Showcase/Calculator/Tokenizer/Tokenizer.cs:150-153 | advances the cursor by one |
| Tokenizer.Tokenizer.Tokenize | Showcase/Calculator/Tokenizer/Tokenizer.cs:35-39 | resets first, so the result is always `Parse` of the sanitised input: repeated calls give the same tree |
| Tokenizer.Tokenizer.TokenizeRec | Showcase/Calculator/Tokenizer/Tokenizer.cs:41-105 | rejects exactly when `RecSpec` does; otherwise returns its tree and leaves its cursor and depth |
| Tokenizer.Tokenizer.TokenizeValue | Showcase/Calculator/Tokenizer/Tokenizer.cs:107-129 | rejects exactly when `ValueSpec` does; otherwise returns its tree, cursor and depth |
| Tokenizer.Tokenizer.TokenizeNumber | Showcase/Calculator/Tokenizer/Tokenizer.cs:131-141 | consumes the maximal run of digits and returns its decimal value |
| Tokenizer.Tokenizer.TokenizeParent | Showcase/Calculator/Tokenizer/Tokenizer.cs:143-148 | rejects exactly when `ParentSpec` does; otherwise returns its group, cursor and depth |
| Tokenizer.ValueFacts | Showcase/Calculator/Tokenizer/Tokenizer.cs:107-129 | a parsed value uses only digits and `+ - * / ( )`, has balanced parentheses, and leaves the depth as it found it |
| Tokenizer.ParentFacts | Showcase/Calculator/Tokenizer/Tokenizer.cs:143-148 | a parsed group is balanced and returns to the depth it started at |
| Tokenizer.RecFacts | Showcase/Calculator/Tokenizer/Tokenizer.cs:41-105 | the rest of an expression either runs to the end at depth 0, or stops just after the ')' that closes the current group, one level up |
| Tokenizer.OperandFacts | Showcase/Calculator/Tokenizer/Tokenizer.cs:45-48 | an operand followed by the rest of the expression has the same shape |
| Tokenizer.FactorFacts | Showcase/Calculator/Tokenizer/Tokenizer.cs:67-81 | `*` or `/`, its value and the rest of the expression have the same shape |
| Tokenizer.ParseAcceptsOnlyBalancedAlphabet | Showcase/Calculator/Tokenizer/Tokenizer.cs:41-128 | whatever is accepted uses only digits and `+ - * / ( )`, has as many ')' as '(', has at least as many '(' as ')' in every prefix (a ')' never takes the depth below 0), and never has a digit or ')' directly before '(' nor a ')' directly before a digit |
| Tokenizer.ClosingFirstRejected | Showcase/Calculator/Tokenizer/Tokenizer.cs:84-91 | any text with a prefix holding more ')' than '(' is rejected, whatever the totals |
| Tokenizer.ClosingFirstExample | Showcase/Calculator/Tokenizer/Tokenizer.cs:84-91 | "1)+(2", with one '(' and one ')', is rejected |
| Tokenizer.BlankInputRejected | Showcase/Calculator/Tokenizer/Tokenizer.cs:107-112 | an empty or all-space input is rejected |
| Tokenizer.JuxtapositionRejected | Showcase/Calculator/Tokenizer/Tokenizer.cs:45-52 | every text with, at any position, a digit or ')' directly before '(' or a ')' directly before a digit is rejected: an operand may not follow a complete one |
| Tokenizer.RemoveSpacesNoop | Showcase/Calculator/Tokenizer/Tokenizer.cs:19-23 | text without spaces is left unchanged by the sanitisation |
| Tokenizer.DigitsValueOfNatText | Showcase/Calculator/Tokenizer/Tokenizer.cs:140 | `int.Parse` reads back the decimal text of every natural number |
| Tokenizer.NumberRoundTrip | Showcase/Calculator/Tokenizer/Tokenizer.cs:131-141 | the text of a number, followed by a non-digit, parses back to that number |
| Tokenizer.AtomRoundTrip | Showcase/Calculator/Tokenizer/Tokenizer.cs:107-129 | the text of an operand parses back to it |
| Tokenizer.ParentRoundTrip | Showcase/Calculator/Tokenizer/Tokenizer.cs:143-148 | the text of a group parses back to it |
| Tokenizer.ParentStep | Showcase/Calculator/Tokenizer/Tokenizer.cs:143-148 | a group is '(' then an expression one level deeper |
| Tokenizer.ProductRoundTrip | Showcase/Calculator/Tokenizer/Tokenizer.cs:67-81 | parsing the text of a product from scratch leaves the same work as holding that product as the left operand |
| Tokenizer.AtomStep | Showcase/Calculator/Tokenizer/Tokenizer.cs:45-48 | a leading operand is parsed as a value, and the expression continues with it as the left operand |
| Tokenizer.FactorStep | Showcase/Calculator/Tokenizer/Tokenizer.cs:67-81 | `*` and `/` bind the next value and fold to the left |
| Tokenizer.FactorRoundTrip | Showcase/Calculator/Tokenizer/Tokenizer.cs:67-81 | the text of a left-folded product parses back to it |
| Tokenizer.BinaryLeft | Showcase/Calculator/Tokenizer/Tokenizer.cs:59-81 | parsing the text of a binary node reaches its operator with its left operand in hand |
| Tokenizer.CloseStep | Showcase/Calculator/Tokenizer/Tokenizer.cs:84-104 | a complete operand followed by the end at depth 0, or by ')' at depth at least 1, is returned |
| Tokenizer.SumRoundTrip | Showcase/Calculator/Tokenizer/Tokenizer.cs:61-66 | the text of a sum, followed by the end or by the ')' closing its group, parses back to it |
| Tokenizer.TermRoundTrip | Showcase/Calculator/Tokenizer/Tokenizer.cs:61-66 | the text of a right-nested `+`/`-` chain parses back to it |
| Tokenizer.TermStep | Showcase/Calculator/Tokenizer/Tokenizer.cs:61-66 | `+` and `-` take the whole rest of the expression as their right operand |
| Tokenizer.ParseRoundTrip | Showcase/Calculator/Tokenizer/Tokenizer.cs:35-39 | every tree in the grammar's shape tokenizes back from its text to `Tree` of itself |
| Tokenizer.SubtractionAssociatesRight | Showcase/Calculator/Tokenizer/Tokenizer.cs:64-66 | "8-2-1" parses as 8-(2-1) and evaluates to 7 |
| Tokenizer.DivisionAssociatesLeft | Showcase/Calculator/Tokenizer/Tokenizer.cs:71-81 | "8/2/2" parses as (8/2)/2 |
| Calculator.Evaluate | Showcase/Calculator/Calculator.cs:22-35 | the answer is "Invalid Input" iff the tokenizer rejects the sanitised line |
| Calculator.MessageText | Showcase/Calculator/Calculator.cs:24-35 | the message starts with the raw line, spaces included, followed by " = " |
| Calculator.AnswerText | Showcase/Calculator/Calculator.cs:26-34 | the text after " = " in each of the three `AddMessage` calls; see `AnswerTextInjective` and `IntTextIsNoError` |
| Calculator.EvaluateCases | Showcase/Calculator/Calculator.cs:22-35 | "Division By Zero" iff the line parses and some divisor in its tree is 0; otherwise a line that parses is answered with its value |
| Calculator.SpacesIgnored | Showcase/Calculator/Calculator.cs:24-25 | removing spaces from the line never changes the answer |
| Calculator.IntTextStart | Showcase/Calculator/Calculator.cs:26 | a value's text starts with a digit, or with '-' exactly when the value is negative |
| Calculator.IntTextInjective | Showcase/Calculator/Calculator.cs:26 | different values read differently |
| Calculator.IntTextIsNoError | Showcase/Calculator/Calculator.cs:26-34 | a value never reads as one of the two error texts |
| Calculator.AnswerTextInjective | Showcase/Calculator/Calculator.cs:26-34 | different answers read differently |
| Calculator.MessageNamesAnswer | Showcase/Calculator/Calculator.cs:24-35 | the message for a line determines the answer it got |
| Calculator.BlankAndJuxtaposedAreInvalid | Showcase/Calculator/Calculator.cs:28-31 | "  " and "2(3)" are answered "Invalid Input" |
| Calculator.SubtractionAnswer | Showcase/Calculator/Calculator.cs:24-26 | "8-2-1" is answered "8-2-1 = 7" |
| Calculator.OneOverZeroParses | Showcase/Calculator/Calculator.cs:24-25 | "1/0" tokenizes to a division of 1 by 0 |
| Calculator.DivisionByZeroAnswer | Showcase/Calculator/Calculator.cs:32-35 | "1/0" is answered "Division By Zero" |
| Calculator.Calculator.constructor | Showcase/Calculator/Calculator.cs:15-18 | the base interface without a sender column, and a fresh tokenizer |
| Calculator.Calculator.Respond | Showcase/Calculator/Calculator.cs:22-35 | the `try` block and its two `catch` clauses produce `MessageText` of the line |
| Calculator.Calculator.UserInputHandler | Showcase/Calculator/Calculator.cs:20-36 | exactly one message, `MessageText(input)` with an empty sender, is added; a scrolled view moves with it; the input line is only re-settled for the console size; nothing is submitted and the exit flag is untouched; the interface is redrawn |
| LegacyConsole.LegacyEditKeepsValid | ConsoleUI/Interface.cs:56-151 | every key of the older handler with the corrected Backspace guard keeps the caret inside the buffer and on screen; the source's Backspace at ConsoleUI/Interface.cs:120-124 does not (first finding below) |
| LegacyConsole.LegacyEdit | ConsoleUI/Interface.cs:60-141 | the older switch on a key, with the corrected Backspace guard; see `LegacyEditKeepsValid`, `LegacyTypeInserts`, `LegacyMovesOne`, `LegacyRemovesOne` and `LegacyOtherKeys` |
| LegacyConsole.LegacyTypeInserts | ConsoleUI/Interface.cs:60-73 | a printable character goes in at the caret, and the caret moves past it through the cursor or the window |
| LegacyConsole.LegacyMovesOne | ConsoleUI/Interface.cs:79-108 | Left and Right move the logical position by one over an unchanged buffer, and beep (changing nothing) exactly at the ends |
| LegacyConsole.LegacyRemovesOne | ConsoleUI/Interface.cs:109-141 | Backspace and Delete remove exactly the character before or after the caret, and beep (changing nothing) exactly when there is none |
| LegacyConsole.LegacyOtherKeys | ConsoleUI/Interface.cs:74-78 | Enter empties the line; the keys this version does not handle change nothing |
| LegacyConsole.Chunk | ConsoleUI/Interface.cs:191-192 | the chunk drawn is 1 to `ConsoleWidth` characters long |
| LegacyConsole.Carry | ConsoleUI/Interface.cs:193 | what stays pending is non-empty and shorter, and together with the chunk gives back the text |
| LegacyConsole.TailFirst | ConsoleUI/Interface.cs:184-195 | every message gives at least one row |
| LegacyConsole.TailFirstReadsBack | ConsoleUI/Interface.cs:184-195 | read from the bottom up, a message's rows give back the message: the loop loses nothing but shows the chunks in reverse order |
| LegacyConsole.CutOverhang | ConsoleUI/Interface.cs:191 | cutting the overhang off leaves a whole number of full rows |
| LegacyConsole.FullRows | ConsoleUI/Interface.cs:184-195 | a text whose overhang is a full row splits into full rows only |
| LegacyConsole.TailFirstShape | ConsoleUI/Interface.cs:184-195 | a message takes `LinesUsed` rows: its overhang first, then full `ConsoleWidth` rows |
| LegacyConsole.Step | ConsoleUI/Interface.cs:171-195 | one pass keeps the index `messages[^(i + overflowOffset)]` inside the log |
| LegacyConsole.PaneFrom | ConsoleUI/Interface.cs:169-196 | the loop draws exactly one row per counter value |
| LegacyConsole.CutStep | ConsoleUI/Interface.cs:189-195 | a text longer than a row shows its last chunk, keeps the rest pending and bumps `overflowOffset` |
| LegacyConsole.WholeStep | ConsoleUI/Interface.cs:184-188 | a text that fits is shown whole and nothing stays pending |
| LegacyConsole.StepTakesPending | ConsoleUI/Interface.cs:169-196 | each pass draws the first pending row, and the rest stays pending |
| LegacyConsole.PaneShowsPending | ConsoleUI/Interface.cs:169-196 | once a message has been read, the loop shows the pending rows cut to the rows left |
| LegacyConsole.ClearsFirst | ConsoleUI/Interface.cs:171-175 | above a log shorter than the pane, the loop clears the rows it cannot fill |
| LegacyConsole.NewestRows | ConsoleUI/Interface.cs:169-196 | starting at a counter no larger than the log, the loop shows the first rows of the newest messages' chunks |
| LegacyConsole.PaneShowsChunks | ConsoleUI/Interface.cs:169-196 | the pane is `ConsoleHeight - 2` rows: cleared rows over a short log, then the newest messages from the oldest of them on, each split from its end, cut off at the bottom |
| LegacyConsole.LongMessageReadsUpwards | ConsoleUI/Interface.cs:177-195 | "abcdefgh" in a pane 3 rows high and 3 wide shows "gh", "def", "abc", and the two newer messages are pushed out |
| LegacyConsole.LongNewestShowsOverhangOnly | ConsoleUI/Interface.cs:171-195 | a single 8-character message shows as two cleared rows and "gh" only |
| LegacyConsole.PaneLoop | ConsoleUI/Interface.cs:166-196 | the loop draws exactly `PaneFrom` |
| LegacyConsole.InputRow | ConsoleUI/Interface.cs:201-208 | the input row exists iff the buffer fits or the window ends within it, and it is at most `ConsoleWidth` wide or the whole buffer |
| LegacyConsole.WideningBreaksInputRow | ConsoleUI/Interface.cs:228-243 | widening by three columns while scrolled to the end leaves the older refresh's window past the end, and the redraw's `Substring` fails |
| LegacyConsole.RefreshKeepsInputRow | ConsoleIOUI/Interface.cs:306-314 | after the newer refresh the input row can always be cut out of the buffer |
| LegacyConsole.ConsoleUI.constructor | ConsoleUI/Interface.cs:7-27 | empty lists, input `("", 0, 0)`, no exit |
| LegacyConsole.ConsoleUI.RefreshConsoleSize | ConsoleUI/Interface.cs:228-243 | takes the new size; the input state becomes `LegacyRefresh` of the old one, with the caret in the buffer and on screen |
| LegacyConsole.ConsoleUI.ResetInput | ConsoleUI/Interface.cs:245-250 | the input state becomes `("", 0, 0)` |
| LegacyConsole.ConsoleUI.DrawInterface | ConsoleUI/Interface.cs:153-215 | the pane and input row drawn are those of the current state |
| LegacyConsole.ConsoleUI.AddMessage | ConsoleUI/Interface.cs:217-226 | the text and the sender go onto the two parallel lists together; then a redraw |
| LegacyConsole.ConsoleUI.InsertChar | ConsoleUI/Interface.cs:62-72 | the character goes in at the caret, which moves past it |
| LegacyConsole.ConsoleUI.SubmitLine | ConsoleUI/Interface.cs:74-78 | Enter hands the buffer over once, then resets the input to `("", 0, 0)` |
| LegacyConsole.ConsoleUI.MoveCaret | ConsoleUI/Interface.cs:79-141 | Left, Right, Backspace and Delete act as `EditOf` |
| LegacyConsole.ConsoleUI.EditLine | ConsoleUI/Interface.cs:60-141 | every branch other than Escape acts as `LegacyEdit`, whose Backspace uses the corrected guard, and keeps the caret valid and on screen |
| LegacyConsole.ConsoleUI.Stop | ConsoleUI/Interface.cs:142-148 | sets `exit` |
| LegacyConsole.ConsoleUI.EditAndDraw | ConsoleUI/Interface.cs:60-150 | a key other than Escape is applied and redrawn |
| LegacyConsole.ConsoleUI.KeyHandler | ConsoleUI/Interface.cs:56-151 | refreshes the size first; Escape sets `exit` and returns without a redraw; every other key acts as `LegacyEdit` on the refreshed state and ends with a redraw; Enter submits the buffer once |

## Left out

- Console I/O is not modelled: `ReadKey`, `Write`, `SetCursorPosition`, `Clear`, the alternate-buffer and cursor-shape escape strings, and reading `WindowWidth`/`WindowHeight`. Sizes are parameters, and a beep is a returned flag.
- Threads and locks are not modelled: `Start`, `ReadWorker`, the three lock objects and the race on `exit`. Each operation is one atomic sequential step. The two `Stop`s model only the `exit` flag; `GotoMainBuffer` and `ExitHandler` are I/O.
- The screen is a sequence of rows rather than one string. The source mixes `Append` and `AppendLine` and relies on the terminal wrapping rows that are exactly the console width; that wrapping is not modelled.
- The final `SetCursorPosition(cursorPosition + 1, ConsoleHeight)` of each redraw is not modelled.
- `UserInputHandler` is abstract in both interfaces. Each interface records the handed-over lines in `submitted`, and `Calculator.Calculator.UserInputHandler` is modelled separately on the current interface (the one that declares the `ExitHandler` the calculator overrides).
- `Showcase/SimpleExample/Program.cs` is not part of this model: it only posts messages from a background thread.
- `ConsoleIO.ConsoleInterface.KeyHandler`: requires a console at least `senderWidth + 4` columns wide and 5 rows high. With a narrower console the message column is 0 or fewer characters wide, and `Build`'s wrapping loop does not end for a non-empty body. The model does not cover that case.
- `ConsoleIO.ConsoleInterface.MoveCaret`: Backspace uses the corrected guard of the first finding below, not the underflowing one. The as-written behaviour is `InputLine.BackspaceAsWritten`.
- `ConsoleIO.ConsoleInterface.ScrollPane`: Up and PageUp use the corrected `>=` guard of the second finding below. The as-written behaviour is `InputLine.ScrollUpAsWritten` and `InputLine.PageUpAsWritten`.
- `LegacyConsole.ConsoleUI.MoveCaret`: Backspace uses the same corrected guard.
- `LegacyConsole.ConsoleUI.KeyHandler`: requires a console at least 3 columns wide, because the draw loop's `% ConsoleWidth` divides by zero at width 2.
- `LegacyConsole.ConsoleUI.DrawInterface`: models the pane loop and the input row, not the frame lines. The older class calls helper signatures that `InterfaceHelpers` does not have (a static `TopLine`, a two-argument `EncapsulateAndPadRight`, a one-argument `Encapsulate`), so its rows are `PaneRow` values. The `senders` list is kept but never drawn, as in the source.
- `BodyBuilder.MessagesBodyBuilder.Build`: requires a non-empty stack whose top body is non-empty whenever the lines exceed the height. Otherwise the source throws, popping an empty stack or slicing an empty body, and those exceptions are not modelled. A second call leaves `lines` unchanged with an empty stack, so it is exactly such a call.
- `Helpers.InterfaceHelpers.ClearLine`, `Helpers.InterfaceHelpers.SeparateLine` and `Helpers.InterfaceHelpers.TopLine`: require the divider column `senderWidth` to lie inside the line (or no sender column at all). The source would raise `IndexOutOfRangeException` at `output[_senderWidth]` otherwise, which is not modelled; every caller meets it, since the console is at least `senderWidth + 4` wide.
- `Helpers.Truncate`: requires `maxLength >= 1`, which holds for the only call, `senderWidth - 1` with `senderWidth > 1`.
- `LinesUsed`'s `double` division and `Math.Ceiling` are integer arithmetic here (`BodyBuilder.LinesUsedIsCeiling`).
- `Tokens.Eval`: integers are unbounded. The source's 32-bit wrap-around and the `OverflowException` of `int.MinValue / -1` are not modelled. The source evaluates a divisor twice, which is indistinguishable for pure trees.
- `Tokenizer.DigitsValue`: `int.Parse` has no 32-bit bound here, so its `OverflowException` is not modelled, and neither is the `Calculator` failure it would cause. Digits are ASCII `'0'..'9'`, while `char.IsNumber` also accepts other Unicode numerals.
- The `Tokens` enum (`Tokens.cs:3-10`) is unused by the source and is not modelled. `ToJSON` and the `Eval` exceptions are modelled as values (`EvalResult`, `Outcome`), not as thrown exceptions.
- `Message`'s settable properties are never set after construction in the source, so `Message` is an immutable datatype.
- With a sender width of 0, the helper's column width is 1 and message rows are one column narrower than the frame. This is modelled as written (`ConsoleIO.PaneLastRow`), not as a finding.

## Findings

| source | as written | input that shows it | evidently intended | confidence | as-written member | corrected member |
|---|---|---|---|---|---|---|
| ConsoleIOUI/Interface.cs:191-195 (also ConsoleUI/Interface.cs:120-124) | Backspace's else-branch decrements `cursorPosition` even when it is 0, whenever the window is scrolled but does not reach the end of the buffer | buffer "abcdef", cursor 0, window 2, console width 3: the cursor becomes -1 (a following Left makes it -2, and the redraw's `SetCursorPosition(cursorPosition + 1, …)` gets a negative column) | at column 0 of a scrolled window, move the window back, as Left does | not executed | InputLine.BackspaceAsWritten, InputLine.BackspaceAsWrittenUnderflows | InputLine.Backspace, InputLine.BackspaceRemovesOne, InputLine.BackspaceCorrectionAgrees |
| ConsoleIOUI/Interface.cs:138-167 | Up and PageUp beep only when `messageOffset == messages.Count - 1`, which never holds on an empty log | no messages, offset 0: Up yields offset 1, and PageUp yields `Math.Min(-1, 10) = -1`, after which the draw loop reads `messages[0]` of an empty list | stop at the oldest message (`>=`), so the offset stays in `[0, Count - 1]` or at 0 | not executed | InputLine.ScrollUpAsWritten, InputLine.PageUpAsWritten, InputLine.ScrollAsWrittenEscapesOnEmptyLog | InputLine.ScrollUp, InputLine.PageUp, InputLine.ScrollUpStaysInView, InputLine.ScrollCorrectionAgrees |
