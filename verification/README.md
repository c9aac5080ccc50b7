# A verified model of the terminal UI, the agent loop and the harness store

A Dafny model of the stateful parts of this repository and proofs of what they are for.
`dafny verify dfyconfig.toml` checks all of it.

| files | model |
|---|---|
| Terminal, RenderSpec, InlineRenderer | the inline differential renderer against a terminal with scrollback |
| StdinSplitter, StdinBuffer, StdinKeys | the tokenizer of terminal input, with paste mode, and the keys it reads |
| AnsiScan, AnsiStyle, AnsiCodes, AnsiTracker, AnsiWrap, AnsiOverlay | text with SGR and OSC 8 codes: scanning, style tracking, wrapping, slicing, overlays |
| AgentEvents, AgentQueue, AgentLoop | the agent and its loop as a protocol |
| FullscreenSpec, FullscreenViewport | the alternate-screen viewport |
| HarnessSpec, HarnessStore | the harness store, several caches of one file |

**The renderer.** The terminal is scrollback, rows and a cursor, with the control functions
that are emitted (CUU, CUD, CHA, CUP, ED and EL, sections 8.3.22, 8.3.19, 8.3.9, 8.3.21,
8.3.39 and 8.3.41 of ECMA-48, with CR and LF). `Renders` relates the states around one
render without any terminal operation; the class `Tui` follows the code branch by branch and
is proved to meet it, and the theorems about runs are proved of `Renders`. The branch for a
target below the window and the size check of the delete-only branch turn out to be dead.
Resizes may leave anything on the screen, provided the next inline render sees the new size.

**Text.** A text is read by the scanner into codes and characters, and its meaning is the
list of characters with their styles. Each output line of wrapping and compositing is read
from a cleared style. Wrapping returns, beside its lines, the span of the text that each line
takes (`Laid`): the line shows its span but for spaces at its end.

**Terminal input.** `StdinKeys` lists the keys a terminal sends and how each is spelled,
without reference to the splitter, and relates the two.

**The agent.** Providers, tools, hooks, completion order, aborts, and messages queued or
removed from outside are nondeterministic steps between the statements of the loop. The agent
records its events with what it and the loop held at that moment; `Step` is the event grammar
agent_start (turn_start messages assistant tools turn_end)+ agent_end.

## Where the code does less than it says

- The delete-only branch clears from the second row on, so a frame that loses all its lines
  leaves the first one on the screen (`EmptiedFrame`); `CouplingExactlyWhen` has the exact
  condition.
- A forced redraw prints the last screenful only, so lines that leave the window of a frame
  that has grown meanwhile are lost to scrollback (`ForcedRedrawLosesLine`);
  `HistoryExactlyWhen` has the exact condition for every render.
- A shrinking frame keeps its window, so the marker scan can ask for the cursor above it
  (`MarkerAboveWindow`); `CouplingExactlyWhen` has that condition too.
- `sliceWithWidth` puts codes that stand right at the first column before the codes it held
  back from the left (`SliceReordersCodes`); `SliceWithWidth` has the exact condition. The
  composition of overlays is not affected: it slices from column 0.
- A paste marker that starts inside an open escape sequence makes the events depend on how
  the input was chunked (`EscapeBeforePasteIsUnsafe`, `ChunksMatterExactlyWhenUnsafe`).
- The continuation hook is called even when the run is aborted, and an aborted run passes over
  its queues, so the hook can be called with messages still waiting
  (`ContinuationBeforeFollowUps`): both queues were found empty if and only if neither of the
  two polls before was skipped (`ContinuationsComeLast`).
- An abort between a drain and its injection drops the batch: it has left the queue and is not
  in the transcript (`TakenAndNotInjected`). `QueuesAreConserved` has the exact condition.
- A selection that reaches below the last transcript line changes with appends
  (`SelectionBelowTheEnd`); the ones that keep their text are exactly those inside the
  transcript (`SelectionKeptExactlyInside`).
- A resize undone before the next paint is not noticed (`UnseenResize`); `FaithfulExactly` has
  the exact condition.
- Two writes of the harness file with one time stamp lose the first (`StaleStampLosesUpdate`);
  the calls of a store are atomic if and only if its copy is coherent
  (`AtomicExactlyWhenCoherent`).
- An ESC that starts no code is taken for a character, but text appended later can complete it:
  an open title swallows the code that closes a hyperlink (`CloseCanBeSwallowed`).
  `TextsJoinExactlyWhen` and `CloseTakesExactlyWhen` have the exact conditions.

## Model

| member | source | states |
|---|---|---|
| `Terminal.NewLineStep` | packages/tui/src/tui.ts:1647-1650 | CR LF either moves the cursor down one row or, on the last row, scrolls the window over the lines by exactly one and sends its top row to scrollback |
| `RenderSpec.LastChangedIsLast` | packages/tui/src/tui.ts:1711-1731 | the last changed line of two equally long frames differs, and every line after it is equal |
| `RenderSpec.LastChangedAt` | packages/tui/src/tui.ts:1711-1724 | it is the only line with that property |
| `RenderSpec.RepaintIsDrawn` | packages/tui/src/tui.ts:1575-1668 | a repaint of the bottom screenful is a correct drawing of the frame, whatever the screen held |
| `RenderSpec.CouplingExactlyWhen` | packages/tui/src/tui.ts:1535-1953 | a render from a coupled state (or one that will clear) leaves shadow and screen coupled if and only if the marked cursor row is not above the window and the frame is not emptied through the delete-only branch |
| `RenderSpec.DeletionFitsScreen` | packages/tui/src/tui.ts:1761-1767 | in the delete-only branch no more lines can be deleted than the screen has rows, so the size check there never fires |
| `RenderSpec.HistoryExactReadsAsTranscript` | packages/tui/src/tui.ts:1640-1662 | exact scrollback followed by the content rows of the screen reads as the whole transcript |
| `RenderSpec.HistoryExactlyWhen` | packages/tui/src/tui.ts:1575-1662 | a render of any kind, forced or after a resize too, keeps scrollback free of gaps and duplicates if and only if it is the first, or does not repaint, or repaints with the lines above the window being those above the window before |
| `RenderSpec.KeepsHistoryWithoutClear` | packages/tui/src/tui.ts:1678-1713 | when it is neither forced nor after a resize, that is: nothing above the window changes and a shrinking redraw keeps the window where it is |
| `RenderSpec.ForcedRedrawLosesLine` | packages/tui/src/tui.ts:632-641 | a forced redraw of a frame that has grown by one line at an unchanged size: the line that leaves the window is neither on the screen nor in scrollback |
| `RenderSpec.MarkerAboveWindow` | packages/tui/src/tui.ts:1457-1475 | a concrete frame whose cursor marker the scan finds above the window; every render of it loses coupling |
| `RenderSpec.EmptiedFrame` | packages/tui/src/tui.ts:1746-1790 | a concrete frame without lines after which the first old line is still on the screen |
| `RenderSpec.WindowAfterRender` | packages/tui/src/tui.ts:1678-1708 | which lines a render shows: after any change of width or height, on a first frame, and on a shrink that clears, the window ends with the frame; while the lines above the window are the same it moves down by no more than it must |
| `RenderSpec.ResizeRepaints` | packages/tui/src/tui.ts:1695-1699 | after a resize in either dimension the next render shows the last screenful of the frame, whatever the screen held |
| `RenderSpec.ForcedRedrawRepaints` | packages/tui/src/tui.ts:632-641 | after a forced redraw the next render shows the last screenful of the frame, whatever has become of the screen meanwhile |
| `RenderSpec.StepKeepsInv` | packages/tui/src/tui.ts:1535-1953 | every render, forced redraw, resize, and fullscreen entry or exit keeps the coupling invariant |
| `RenderSpec.RunKeepsInv` | packages/tui/src/tui.ts:632-733 | so does every run of them, from any coupled state |
| `RenderSpec.RunKeepsScreen` | packages/tui/src/tui.ts:1535-1953 | after every inline render of any such run, with any resize of either dimension in between, screen row r shows line V+r of the frame (blank past its end), max(0,n-h) <= V <= max(0,n-1), V = max(0,n-h) if the size is not the one drawn for last, and the cursor is on row hardwareCursorRow-V, or on the marked row and column if there is a marker |
| `RenderSpec.StepKeepsHistory` | packages/tui/src/tui.ts:632-733 | renders with that condition, forced redraws, resizes that leave scrollback alone, and fullscreen entry and exit keep scrollback exact |
| `RenderSpec.RunKeepsHistory` | packages/tui/src/tui.ts:632-733 | over any run of them, forced redraws and fullscreen sessions included, scrollback followed by the content rows is, after every inline render, exactly the transcript after what was there before |
| `InlineRenderer.FrameOfIsValid` | packages/tui/src/tui.ts:1568-1571 | the frame drawn has only non-empty lines, and its cursor is among the bottom screenful |
| `InlineRenderer.ExtractCursorPosition` | packages/tui/src/tui.ts:1457-1475 | finds the lowest marked line among the bottom `height` ones, strips that one marker and changes no other line |
| `InlineRenderer.ApplyLineResets` | packages/tui/src/tui.ts:1343-1354 | every line, and nothing else, gets the reset appended |
| `InlineRenderer.RewriteNext` | packages/tui/src/tui.ts:1848-1882 | one pass of the differential loop writes one more line and scrolls into history exactly the line that leaves the window |
| `InlineRenderer.PrintNext` | packages/tui/src/tui.ts:1647-1650 | one pass of the full repaint does the same on rows that are still empty |
| `InlineRenderer.PaintLines` | packages/tui/src/tui.ts:1640-1651 | printing from an empty screen shows the last screenful and sends the lines before it to scrollback, in order |
| `InlineRenderer.RepaintRows` | packages/tui/src/tui.ts:1584-1621 | the viewport-preserving repaint shows the given window on exactly the rows used before, and scrolls nothing |
| `InlineRenderer.FindChanges` | packages/tui/src/tui.ts:1710-1733 | first and last changed line, or -1 exactly when the frames are equal; everything before the first one is unchanged |
| `InlineRenderer.ClearDeleted` | packages/tui/src/tui.ts:1748-1779 | the delete-only branch clears exactly the rows of the deleted lines, except that row 0 of an emptied frame keeps its old line |
| `InlineRenderer.LastChangedCovers` | packages/tui/src/tui.ts:1887-1901 | past the last changed line the old frame already is the new one; deleted lines count as changes |
| `InlineRenderer.UnchangedTail` | packages/tui/src/tui.ts:1847-1885 | so after rewriting up to that line the window is the new frame |
| `InlineRenderer.ClearBelow` | packages/tui/src/tui.ts:1887-1901 | clearing below a shorter frame neither scrolls nor touches a row above |
| `InlineRenderer.MoveToFirstChange` | packages/tui/src/tui.ts:1820-1843 | the relative moves reach the first changed line, and the scroll-first branch for a target below the window is never taken |
| `InlineRenderer.WriteChanges` | packages/tui/src/tui.ts:1816-1953 | rewriting only the changed lines shows the whole new frame, scrolls into history exactly the lines that leave the window, and leaves the cursor where it is recorded |
| `InlineRenderer.Tui.PositionHardwareCursor` | packages/tui/src/tui.ts:1960-1991 | moves the cursor to the wanted row and column and records the row; rows and history stay as they are |
| `InlineRenderer.Tui.FullRender` | packages/tui/src/tui.ts:1575-1668 | every variant of the full redraw meets the specification of a render |
| `InlineRenderer.Tui.RenderDeletion` | packages/tui/src/tui.ts:1745-1790 | the delete-only branch meets it |
| `InlineRenderer.Tui.RenderChanges` | packages/tui/src/tui.ts:1816-1953 | the differential branch meets it |
| `InlineRenderer.Tui.RenderDifference` | packages/tui/src/tui.ts:1710-1813 | the choice between no change, deletion, redraw and difference meets it |
| `InlineRenderer.Tui.RenderFrame` | packages/tui/src/tui.ts:1678-1708 | so does every branch of the renderer |
| `InlineRenderer.Tui.RenderInline` | packages/tui/src/tui.ts:1560-1571 | so does the whole inline render, marker and resets included |
| `InlineRenderer.Tui.DoRender` | packages/tui/src/tui.ts:1535-1545 | a render is one step of the run model; on the alternate screen it leaves the primary one alone, and the preserve-viewport request is used up either way |
| `InlineRenderer.Tui.RequestForcedRender` | packages/tui/src/tui.ts:632-641 | a forced redraw is one step of the run model |
| `InlineRenderer.Tui.EnterFullscreen` | packages/tui/src/tui.ts:681-703 | entering takes a snapshot once and is one step of the run model |
| `InlineRenderer.Tui.ExitFullscreen` | packages/tui/src/tui.ts:712-733 | leaving restores the snapshot and, with flush, renders from it |
| `StdinSplitter.ExtractKeepsInput` | packages/tui/src/stdin-buffer.ts:192-232 | the sequences and the remainder spell the buffer: nothing is lost, added or moved |
| `StdinSplitter.ExtractContinues` | packages/tui/src/stdin-buffer.ts:192-232 | cutting a+b gives the sequences of a, then those of the remainder of a followed by b |
| `StdinSplitter.EmitAllAppends` | packages/tui/src/stdin-buffer.ts:366-375 | duplicate suppression over two lists is suppression over the first, then over the second from the state it left |
| `StdinSplitter.FeedSplits` | packages/tui/src/stdin-buffer.ts:264-364 | feeding a+b at once gives the events and the state of feeding a and then b, wherever the cut falls, as long as no paste marker starts inside an open sequence |
| `StdinSplitter.ChunksDoNotMatter` | packages/tui/src/stdin-buffer.ts:264-364 | so any division of the input into non-empty chunks gives the same events and the same final state |
| `StdinSplitter.UnsafeSplits` | packages/tui/src/stdin-buffer.ts:264-364 | when a paste marker does start inside an open sequence, some division into two chunks gives other events |
| `StdinSplitter.ChunksMatterExactlyWhenUnsafe` | packages/tui/src/stdin-buffer.ts:264-364 | for the splitter of the program: every division agrees with the whole if and only if no paste marker starts inside an open sequence |
| `StdinSplitter.NothingOpenIsSafe` | packages/tui/src/stdin-buffer.ts:314-346 | a marker that follows complete sequences only is safe |
| `StdinSplitter.EscapeBeforePasteIsUnsafe` | packages/tui/src/stdin-buffer.ts:314-346 | a lone ESC before a paste marker has a division into chunks whose events differ from those of the whole |
| `StdinKeys.CutsIntoKeysExactlyWhen` | packages/tui/src/stdin-buffer.ts:26-232 | for a grammar of keys (a character, ESC c, SS3, CSI with parameters, old and SGR mouse reports, OSC ended by BEL or ST, DCS and APC ended by ST) and its printer: the buffer is cut into the spellings of some keys and a rest if and only if it is those spellings followed by that rest, from which no key can be read |
| `StdinKeys.CutsIntoKeys` | packages/tui/src/stdin-buffer.ts:26-232 | and whatever comes in, every sequence cut off is the spelling of a key |
| `StdinKeys.UnfinishedKeyIsOpen` | packages/tui/src/stdin-buffer.ts:192-232 | no proper prefix of a key yields a sequence |
| `StdinKeys.KittyExactlyWhen` | packages/tui/src/stdin-buffer.ts:184-190 | a key reports a printable code point if and only if it is CSI, a number of at least 32, optionally with the shifted code and the base layout code, and a final u |
| `StdinKeys.EmitsDelivered` | packages/tui/src/stdin-buffer.ts:366-375 | keys are delivered in order, and left out is exactly a plain character right behind its own report |
| `StdinKeys.SessionIsReceived` | packages/tui/src/stdin-buffer.ts:264-375 | a session of keys and pastes, divided into non-empty chunks in any way: every key and every paste is received whole, in order, but for a character right behind its own report; nothing stays in the buffer |
| `StdinBuffer.FindSequenceEnd` | packages/tui/src/stdin-buffer.ts:200-223 | the search for the end of a sequence finds the first complete candidate; `CutsIntoKeysExactlyWhen` says which that is |
| `StdinBuffer.ExtractCompleteSequences` | packages/tui/src/stdin-buffer.ts:192-232 | the loop computes the specified cut, which `CutsIntoKeysExactlyWhen` describes by the grammar of keys |
| `StdinBuffer.StdinBuffer.constructor` | packages/tui/src/stdin-buffer.ts:251-262 | a new buffer is idle |
| `StdinBuffer.StdinBuffer.EmitDataSequence` | packages/tui/src/stdin-buffer.ts:366-375 | one sequence is delivered, or swallowed as the duplicate of a pending kitty code point |
| `StdinBuffer.StdinBuffer.EmitSequences` | packages/tui/src/stdin-buffer.ts:351-353 | a list of them, in order |
| `StdinBuffer.StdinBuffer.Process` | packages/tui/src/stdin-buffer.ts:264-364 | one chunk changes the state and delivers the events exactly as specified, through any number of pastes inside it |
| `StdinBuffer.StdinBuffer.ProcessBuffer` | packages/tui/src/stdin-buffer.ts:314-353 | outside a paste |
| `StdinBuffer.StdinBuffer.EnterPaste` | packages/tui/src/stdin-buffer.ts:315-345 | at a start marker: what precedes it is delivered, an unfinished sequence before it is dropped |
| `StdinBuffer.StdinBuffer.FinishPaste` | packages/tui/src/stdin-buffer.ts:292-311 | inside a paste: delivered once its end has arrived, and what follows is processed |
| `StdinBuffer.StdinBuffer.Flush` | packages/tui/src/stdin-buffer.ts:377-391 | hands over the open sequence as it is, and forgets it |
| `AnsiScan.ControlEndIsNearest` | packages/tui/src/utils.ts:379-388 | the forward search ends at whichever of BEL (where accepted) and ST comes first |
| `AnsiScan.CacheStep` | packages/tui/src/utils.ts:350-370 | one step of the backward pass records the end the forward search would find |
| `AnsiScan.CacheControlStringEnds` | packages/tui/src/utils.ts:346-371 | the single backward pass records, for every control string from a position on, exactly what the forward search finds |
| `AnsiScan.AnsiScanner.ExtractControlStringEnd` | packages/tui/src/utils.ts:373-395 | the caching search answers like the plain one and leaves the cache faithful |
| `AnsiScan.AnsiScanner.ExtractAnsiEnd` | packages/tui/src/utils.ts:397-436 | over any sequence of queries the stateful scanner answers exactly like the stateless one |
| `AnsiScan.CodeIsLocal` | packages/tui/src/utils.ts:397-436 | a code is recognised by itself, whatever stands around it |
| `AnsiScan.FoundIsCode` | packages/tui/src/utils.ts:438-441 | what the scanner finds is such a code |
| `AnsiScan.TextOfLex` | packages/tui/src/utils.ts:720-732 | reading a text as codes and characters loses nothing |
| `AnsiScan.LexOfText` | packages/tui/src/utils.ts:720-732 | printing clean items and reading them again gives the items back |
| `AnsiScan.TextsJoinExactlyWhen` | packages/tui/src/utils.ts:397-436 | two texts put together read as they do apart if and only if no ESC left over in the first starts a code in both together |
| `AnsiScan.CleanJoins` | packages/tui/src/utils.ts:397-436 | in particular when the first has none left over |
| `AnsiStyle.ProcessKeepsWellFormed` | packages/tui/src/utils.ts:512-644 | no code whatever leads to a style that could not be printed back |
| `AnsiStyle.LinkOfCode` | packages/tui/src/utils.ts:467-489 | a hyperlink read from a code is printed as that very code, terminator included |
| `AnsiStyle.ActiveCodesRestore` | packages/tui/src/utils.ts:666-684 | the active codes, replayed on a cleared style, rebuild every attribute, both colours and the hyperlink |
| `AnsiStyle.ReplayRoundTrip` | packages/tui/src/utils.ts:512-684 | on strings: for any codes processed before, scanning the printed active codes from a cleared tracker gives the same state |
| `AnsiStyle.LineEndResetCloses` | packages/tui/src/utils.ts:708-717 | the line-end reset ends underline and hyperlink, and nothing else |
| `AnsiStyle.CloseCanBeSwallowed` | packages/tui/src/utils.ts:708-717 | after a title left open, the code that closes a hyperlink becomes part of it, and the hyperlink stays open |
| `AnsiStyle.CloseTakesExactlyWhen` | packages/tui/src/utils.ts:708-717 | behind any text, the code that closes a hyperlink leaves none open if and only if the text has no ESC that it completes, or none was open in front of the first such ESC and the code made of the rest opens none |
| `AnsiStyle.ActiveCodesAreClean` | packages/tui/src/utils.ts:666-684 | what is printed is read back as the same codes |
| `AnsiCodes.CodesExactlyWhen` | packages/tui/src/utils.ts:379-441 | a text is one code if and only if it is CSI with parameters, intermediates and a final byte, or an OSC or APC string ended by BEL or ST, or a DCS, PM or SOS string ended by ST |
| `AnsiCodes.CodesOfText` | packages/tui/src/utils.ts:397-441 | every code found in any text is one of these |
| `AnsiCodes.DirectivesAreRead` | packages/tui/src/utils.ts:534-644 | printed SGR parameters, any mixture of codes and of colours of three or five parameters, take effect one after the other: no number of a colour is read as a code |
| `AnsiCodes.AttributeIsLastSaid` | packages/tui/src/utils.ts:534-644 | behind any such mixture an attribute is on if and only if its own code comes after the last one that turns it off, or it was on before and none does; 22 turns off bold and dim, 0 everything |
| `AnsiCodes.ColorsAreLastSaid` | packages/tui/src/utils.ts:553-644 | of the two colours the last of the mixture sets or clears the one it names, 0 clears both, and anything else leaves them; the hyperlink stays |
| `AnsiTracker.AnsiCodeTracker.ProcessCode` | packages/tui/src/utils.ts:512-545 | the tracker follows the style specification for every code |
| `AnsiTracker.AnsiCodeTracker.ApplyParts` | packages/tui/src/utils.ts:545-644 | also through several parameters with 256 and RGB colours among them |
| `AnsiTracker.AnsiCodeTracker.UpdateFromText` | packages/tui/src/utils.ts:720-732 | scanning a text leaves the tracker in the style the whole text leads to |
| `AnsiWrap.DropsKeepsTheRest` | packages/tui/src/utils.ts:786-791 | dropping only spaces keeps every other character, in order and with its style |
| `AnsiWrap.LineIsSlice` | packages/tui/src/utils.ts:880-896 | each line shows a contiguous slice of the text, the first from its start; between two slices, and behind the last one, there are only spaces |
| `AnsiWrap.BreakLongWord` | packages/tui/src/utils.ts:946-1014 | the pieces of a long word, each read from a cleared style, show the word in its styles; a piece ends only where the next character would not fit, and none is wider than the width if every character fits |
| `AnsiWrap.SplitIntoTokensWithAnsi` | packages/tui/src/utils.ts:737-784 | the tokens spell the text, and alternate between words and runs of spaces |
| `AnsiWrap.WrapToken` | packages/tui/src/utils.ts:836-887 | one more token: the finished lines and the one under construction show all that was read, in order and in its styles, with spaces left out at line ends only; a line is ended only where the token would not fit, a word is broken only where it has the line to itself, and plain text begins no line but the first with a space |
| `AnsiWrap.WrapTokens` | packages/tui/src/utils.ts:829-892 | so after the whole loop |
| `AnsiWrap.WrapSingleLine` | packages/tui/src/utils.ts:819-896 | the wrapped lines, each read from a cleared style, show consecutive slices of the line, from its start to its end, with only spaces left out between them; a line ends only where the next word would not fit, and a word is broken only where it has the line to itself; every line but the last ends with underline and hyperlink closed; no line that was wrapped ends in a space, and none is wider than the width |
| `AnsiWrap.WrapTextWithAnsi` | packages/tui/src/utils.ts:797-817 | the same for a text of several lines, each wrapped by itself: every non-space character appears once, in order, in the style it had, spaces are lost only at line ends, and every line fits |
| `AnsiOverlay.RangeIsSlice` | packages/tui/src/utils.ts:1194-1240 | taking the characters of a column range is slicing the columns, when none straddles an edge |
| `AnsiOverlay.RangeIsRun` | packages/tui/src/utils.ts:1194-1240 | in any case the characters of a range are consecutive characters of the line: exactly those that begin in the range, and, for a strict range, end in it |
| `AnsiOverlay.StrictRangeFits` | packages/tui/src/utils.ts:1224-1232 | a strict range is never wider than asked for |
| `AnsiOverlay.SliceWithWidth` | packages/tui/src/utils.ts:1194-1240 | the width and the characters are right; the first character has the style of the codes at its column followed by those before; the slice shows the range in its styles if and only if it is empty or these two groups of codes commute |
| `AnsiOverlay.SliceReordersCodes` | packages/tui/src/utils.ts:1211-1230 | every slice of bold, a, reset, b at column 1 shows b bold, though b is plain in the line |
| `AnsiOverlay.ExtractSegments` | packages/tui/src/utils.ts:1310-1382 | one pass collects the characters before and after an overlay, each in its style |
| `AnsiOverlay.SpliceColumns` | packages/tui/src/tui.ts:1415-1433 | the padded parts put together are the base with the overlay columns replaced |
| `AnsiOverlay.CompositionIsRight` | packages/tui/src/tui.ts:1415-1433 | the composed line is the splice, exactly `totalWidth` wide, whenever nothing straddles an edge |
| `AnsiOverlay.SliceFromStart` | packages/tui/src/tui.ts:1413 | a strict slice from column 0 keeps the styles and never exceeds the length |
| `AnsiOverlay.CompositeLineAt` | packages/tui/src/tui.ts:1399-1447 | never wider than `totalWidth`, and always base, overlay, and base again, each a consecutive part shown in its styles and padded with blanks; when nothing straddles an edge, exactly `totalWidth` wide, with the base outside the overlay columns and the overlay inside |
| `AgentEvents.AgreesAtEveryTurn` | packages/agent/src/agent-loop.ts:357-373 | at each turn_end the messages completed so far, the new messages, the context after the start of the run and the transcript after it are the same list, no call is pending, and calls of unknown tools have failed; and a call starts while another is open only where that is allowed |
| `AgentEvents.EndsOnceAndLast` | packages/agent/src/agent-loop.ts:457-461 | a run the grammar accepts has exactly one agent_end, which is its last event, after at least one turn |
| `AgentEvents.AbortedTurnIsLast` | packages/agent/src/agent-loop.ts:351-377 | after an aborted turn, or one with a failed message, only agent_end follows |
| `AgentEvents.BracketsAlternate` | packages/agent/src/agent-loop.ts:261-461 | agent, turn and message events alternate between start and end, and so do those of assistant messages alone |
| `AgentEvents.OthersEndAtOnce` | packages/agent/src/agent-loop.ts:339-340 | a prompted, injected or result message ends right after it starts |
| `AgentEvents.OneResponseATurn` | packages/agent/src/agent-loop.ts:328-373 | every turn has exactly one assistant message, which has ended when the turn ends |
| `AgentEvents.WholeRun` | packages/agent/src/agent-loop.ts:261-461 | in a run the grammar accepts agent_start is the first event, everything that starts ends, and there are as many responses as turns |
| `AgentEvents.OwesExactlyWhen` | packages/agent/src/agent-loop.ts:361-366 | after a turn that was neither aborted nor failed another one is owed if and only if it has tool results and not all of its executions asked to stop |
| `AgentEvents.RunningIsStartedNotEnded` | packages/agent/src/agent-loop.ts:690-749 | at any point the open calls are those started and not yet ended, counted per id |
| `AgentEvents.ExecutionsAreClosed` | packages/agent/src/agent-loop.ts:735-749 | none is open when a turn or the run ends |
| `AgentEvents.OverlapIsAllowed` | packages/agent/src/agent-loop.ts:608-623 | a tool starts while another is open only if the agent runs tools in parallel and no tool called in the batch is to run alone |
| `AgentEvents.NoUpdateAfterEnd` | packages/agent/src/agent-loop.ts:855-904 | an update is only reported for a call that is still open |
| `AgentEvents.TurnResultsAnswerCalls` | packages/agent/src/agent-loop.ts:738-743 | the results of a turn answer its first tool calls, one each, in source order |
| `AgentEvents.EveryCallAnswered` | packages/agent/src/agent-loop.ts:608-749 | every call of a turn has its result unless the message failed or an abort cut one-by-one execution short |
| `AgentEvents.UnknownToolsFail` | packages/agent/src/agent-loop.ts:795-810 | the result of a call of a tool that does not exist is an error, in every turn |
| `AgentQueue.PendingMessageQueue.Enqueue` | packages/agent/src/agent.ts:125-130 | appends a batch; an empty one is ignored |
| `AgentQueue.PendingMessageQueue.HasItems` | packages/agent/src/agent.ts:132-134 | something enqueued has not been taken |
| `AgentQueue.PendingMessageQueue.Drain` | packages/agent/src/agent.ts:136-149 | takes all batches, or the oldest one, in order and by the mode; an empty answer means nothing was waiting |
| `AgentQueue.PendingMessageQueue.Clear` | packages/agent/src/agent.ts:151-153 | forgets what waits, and nothing that was taken |
| `AgentQueue.PendingMessageQueue.RemoveWhere` | packages/agent/src/agent.ts:155-167 | removes the batches with a match, whole, and keeps the others in order |
| `AgentQueue.RemovalKeepsTheRest` | packages/agent/src/agent.ts:155-167 | every batch without a match stays, as often as it was there, and no other does |
| `AgentQueue.RemovalTakesMatches` | packages/agent/src/agent.ts:155-167 | every batch with a match is returned, as often as it was there, and no other is |
| `AgentQueue.RemovalIsInOrder` | packages/agent/src/agent.ts:155-167 | removal goes batch by batch, so what is kept and what is returned stay in order |
| `AgentQueue.FollowUpsComeAfterSteering` | packages/agent/src/agent-loop.ts:406-435 | the follow-up queue is looked into only right after the steering queue was looked into and found empty |
| `AgentQueue.TakenAndNotInjected` | packages/agent/src/agent-loop.ts:318-345 | books and polls of a run aborted right after a steering message was taken: the queue no longer has it, and the run does not have it |
| `AgentQueue.ContinuationBeforeFollowUps` | packages/agent/src/agent-loop.ts:422-455 | polls of a run aborted while steering was polled: the continuation is asked for with a follow-up still waiting |
| `AgentQueue.DrainBalances` | packages/agent/src/agent-loop.ts:406-435 | what is drained is pending, and the books balance |
| `AgentQueue.InjectBalances` | packages/agent/src/agent-loop.ts:337-345 | a pending message that joins the run still balances |
| `AgentQueue.ContinuationsComeLast` | packages/agent/src/agent-loop.ts:422-455 | a continuation is asked for only right after steering and then follow-ups had their turn; both were found empty if and only if neither poll was skipped because of an abort |
| `AgentLoop.AbortedMessage` | packages/agent/src/agent-loop.ts:132-147 | the message that stands for an aborted response keeps the partial tool calls and is marked aborted |
| `AgentLoop.PendingStaysRunning` | packages/agent/src/agent.ts:594-606 | the pending calls of the agent are always among the running ones, also with repeated ids |
| `AgentLoop.OpenAfter` | packages/agent/src/agent-loop.ts:720-732 | closing one of several calls leaves exactly the others open |
| `AgentLoop.WorkShrinks` | packages/agent/src/agent-loop.ts:735-737 | each step of an open call brings the batch closer to its end |
| `AgentLoop.Agent.constructor` | packages/agent/src/agent.ts:234-254 | a new agent is idle with empty queues |
| `AgentLoop.Agent.Race` | packages/agent/src/agent-loop.ts:48-92 | an operation raced against an abort that has already happened is refused, or throws by itself before the race |
| `AgentLoop.Agent.Reduce` | packages/agent/src/agent.ts:579-617 | the agent state after one event |
| `AgentLoop.Agent.ProcessEvents` | packages/agent/src/agent.ts:579-626 | every event is recorded with what agent and loop held; the transcript grows by exactly the ended messages |
| `AgentLoop.Agent.FinishMessage` | packages/agent/src/agent-loop.ts:588-596 | the final message takes the place of the partial one, in the context and in the events |
| `AgentLoop.Agent.HearStart` | packages/agent/src/agent-loop.ts:537-542 | the start event opens the message |
| `AgentLoop.Agent.HearUpdate` | packages/agent/src/agent-loop.ts:544-562 | an update replaces the partial message, and is ignored without a start |
| `AgentLoop.Agent.HearEnd` | packages/agent/src/agent-loop.ts:564-584 | a terminal event ends the message, also when an abort keeps its result from arriving |
| `AgentLoop.Agent.StreamAssistantResponse` | packages/agent/src/agent-loop.ts:467-603 | whatever the stream does: one assistant message starts and ends and is last in the context, or the loop throws having ended none |
| `AgentLoop.Agent.PrepareToolCall` | packages/agent/src/agent-loop.ts:795-848 | an unknown tool always gets an error result at once; an immediate result is an error that does not end the run |
| `AgentLoop.Agent.ExecuteOne` | packages/agent/src/agent-loop.ts:641-677 | one sequential call: start, updates, end, and a result message with what the tool returned; an unknown tool fails |
| `AgentLoop.Agent.ExecuteSequential` | packages/agent/src/agent-loop.ts:630-688 | the results answer a prefix of the calls, in order; a proper prefix only after an abort, and none at all if it came before |
| `AgentLoop.Agent.StartAndPrepare` | packages/agent/src/agent-loop.ts:700-718 | a parallel call starts, and ends at once, with an error, if it cannot be prepared, as that of an unknown tool |
| `AgentLoop.Agent.Settle` | packages/agent/src/agent-loop.ts:735-737 | any interleaving of updates and completions ends every open call |
| `AgentLoop.Agent.EmitResults` | packages/agent/src/agent-loop.ts:738-749 | then one result per call, in source order, with what the call ended with |
| `AgentLoop.Agent.ExecuteParallel` | packages/agent/src/agent-loop.ts:690-749 | whatever the interleaving and whatever is aborted, every call gets exactly one result, in source order |
| `AgentLoop.Agent.ExecuteToolCalls` | packages/agent/src/agent-loop.ts:608-623 | a missing result implies an abort and one-by-one execution |
| `AgentLoop.Agent.InjectPending` | packages/agent/src/agent-loop.ts:337-345 | pending messages join context, new messages and events, in order |
| `AgentLoop.Agent.StartTurn` | packages/agent/src/agent-loop.ts:329-346 | a turn starts, and everything pending joins the run before the response |
| `AgentLoop.Agent.Respond` | packages/agent/src/agent-loop.ts:348-349 | the response joins the run as its last new message, and a run that is to look at steering only after one has it now |
| `AgentLoop.Agent.Speak` | packages/agent/src/agent-loop.ts:328-349 | the first half of a turn: nothing pending is lost, and the response is the last new message |
| `AgentLoop.Agent.UseTools` | packages/agent/src/agent-loop.ts:357-371 | the tool results join context and new messages, and another turn is owed exactly if one of them does not ask to stop |
| `AgentLoop.Agent.EndTurn` | packages/agent/src/agent-loop.ts:373 | turn_end is emitted with all transcripts in agreement and no call pending |
| `AgentLoop.Agent.Act` | packages/agent/src/agent-loop.ts:351-377 | a failed message or an abort ends the run right after the turn |
| `AgentLoop.Agent.PollQueue` | packages/agent/src/agent-loop.ts:167-175 | a poll answers what was drained, or fails only because of an abort, and then drops exactly that; an empty answer means the queue was found empty or passed over, and it is passed over if and only if the run is already aborted |
| `AgentLoop.Agent.AfterTurn` | packages/agent/src/agent-loop.ts:385-419 | steering drained at a turn boundary is never dropped by a stop hook; a throwing hook leaves the loop with nothing lost |
| `AgentLoop.Agent.MayStopBeforeTurn` | packages/agent/src/agent-loop.ts:320 | the stop hook may answer, throw, abort or queue messages: it ends the run, leaves the loop, or neither, with nothing lost |
| `AgentLoop.Agent.MayStopAfterTurn` | packages/agent/src/agent-loop.ts:385-404 | so may the hook after a turn |
| `AgentLoop.Agent.GiveUp` | packages/agent/src/agent-loop.ts:108-118 | an abort error of an aborted run ends it with agent_end; any other error leaves the loop |
| `AgentLoop.Agent.AskContinuation` | packages/agent/src/agent-loop.ts:439-460 | without a continuation the run ends |
| `AgentLoop.Agent.FindMore` | packages/agent/src/agent-loop.ts:422-455 | follow-ups before continuations; a throwing hook leaves the loop with nothing lost |
| `AgentLoop.Agent.RunTurn` | packages/agent/src/agent-loop.ts:328-420 | one pass of the inner loop |
| `AgentLoop.Agent.RunTurns` | packages/agent/src/agent-loop.ts:324-420 | the inner loop stops only when no results are owed and steering was found empty |
| `AgentLoop.Agent.RunRounds` | packages/agent/src/agent-loop.ts:323-461 | the outer loop: rounds until one ends the run or throws |
| `AgentLoop.Agent.RunLoop` | packages/agent/src/agent-loop.ts:307-461 | the loop ends with one agent_end that carries all new messages, or throws with nothing emitted missing from them; when it ends with nothing left to do, the last turn owed nothing and its last three polls found steering, then follow-ups, then the continuation empty |
| `AgentLoop.Agent.RunAgentLoop` | packages/agent/src/agent-loop.ts:247-270 | a run from prompts, which come first |
| `AgentLoop.Agent.RunAgentLoopContinue` | packages/agent/src/agent-loop.ts:272-295 | a run from the transcript as it is |
| `AgentLoop.Agent.HandleRunFailure` | packages/agent/src/agent.ts:543-562 | a run that threw ends with one empty failure message, marked aborted exactly if the run was aborted when it was emitted and failed otherwise, and an agent_end that reports only it |
| `AgentLoop.Agent.FinishRun` | packages/agent/src/agent.ts:564-570 | afterwards the agent is idle |
| `AgentLoop.Agent.Finish` | packages/agent/src/agent.ts:534-541 | whatever way the loop went |
| `AgentLoop.Agent.RunPromptMessages` | packages/agent/src/agent.ts:449-463 | a whole run, with what had been drained for it accounted to it |
| `AgentLoop.Agent.RunContinuation` | packages/agent/src/agent.ts:465-475 | a whole run without prompts |
| `AgentLoop.Agent.Prompt` | packages/agent/src/agent.ts:364-375 | refused, without any change, exactly while a run is active; otherwise a whole run that begins with the prompts and by which the transcript grows |
| `AgentLoop.Agent.RunQueuedMessages` | packages/agent/src/agent.ts:383-395 | starts a run exactly if one of the queues holds something; the run begins with the steering messages if there are any, all of them or the oldest batch by the mode, and has its response before it takes more steering; it begins with follow-ups only if no steering was waiting |
| `AgentLoop.Agent.Continue` | packages/agent/src/agent.ts:378-428 | busy exactly while a run is active; nothing to continue exactly if the transcript needs queued messages and both queues are empty; otherwise a whole run, from the queues in that order when the transcript is empty or ends in an assistant or custom message and something is queued, and from the transcript as it is otherwise |
| `AgentLoop.EveryRunEndsOnce` | packages/agent/src/agent.ts:518-570 | whatever way a run ends, by an answer, an abort or a throwing hook: exactly one agent_end, which is last; an idle agent with nothing pending; a transcript that grew by exactly the messages that ended |
| `AgentLoop.ReturnedRunsAreAccepted` | packages/agent/src/agent-loop.ts:307-461 | a run whose loop returned follows the event grammar; at each turn_end all transcripts agree, nothing is pending and the results answer the calls |
| `AgentLoop.IdleRunsAreDone` | packages/agent/src/agent-loop.ts:422-461 | a run that ends by itself looked into steering, then the follow-ups, then asked for a continuation, all in vain, and its last turn had no tool results or all of its executions asked to stop |
| `AgentLoop.QueuesAreConserved` | packages/agent/src/agent-loop.ts:318-457 | over every run: what it took from a queue is in its messages once and in order, followed by what it dropped at its end: something if and only if its last poll took something from a queue and no message joined the run since, and then only after an abort; what was enqueued and not removed is what was taken followed by what still waits |
| `FullscreenSpec.PaintIsFull` | packages/tui/src/fullscreen.ts:642-675 | a paint from a faithful memory shows every row of the clamped frame, though unchanged rows are not written |
| `FullscreenSpec.FaithfulExactly` | packages/tui/src/fullscreen.ts:655-661 | all frames are painted right if and only if the remembered rows are on the screen or the paint will clear it |
| `FullscreenSpec.RunPaintsFull` | packages/tui/src/fullscreen.ts:642-680 | over any run of paints, resets and seen resizes, the screen after every paint is the frame |
| `FullscreenSpec.UnseenResize` | packages/tui/src/fullscreen.ts:655-658 | a resize there and back that no paint saw leaves a lost row lost |
| `FullscreenSpec.DockHeight` | packages/tui/src/fullscreen.ts:16-19 | the dock is cut only as far as the rows kept for the transcript demand, and the window always keeps those, if the screen has them |
| `FullscreenSpec.OrderedEitherWay` | packages/tui/src/fullscreen.ts:135-141 | a selection dragged either way is the same, with its start before its end |
| `FullscreenSpec.CoveredExactly` | packages/tui/src/fullscreen.ts:541-557 | what a range takes of a line are exactly the columns of the points selected, less the spaces at its end |
| `FullscreenSpec.JoinedLines` | packages/tui/src/fullscreen.ts:541-557 | the lines of the text are told apart by newlines |
| `FullscreenSpec.NoTextExactlyWhen` | packages/tui/src/fullscreen.ts:541-557 | there is no text if and only if only blanks are selected |
| `FullscreenSpec.AppendsKeepSelection` | packages/tui/src/fullscreen.ts:541-557 | what is appended does not change the text of a selection inside the transcript, which may end at the very start of the line below it |
| `FullscreenSpec.SelectionKeptExactlyInside` | packages/tui/src/fullscreen.ts:541-557 | and of no other: a selection keeps its text under every append if and only if it is inside the transcript |
| `FullscreenSpec.SelectionBelowTheEnd` | packages/tui/src/fullscreen.ts:547 | a drag over an empty window picks up the line appended there |
| `FullscreenSpec.RunKeepsSelection` | packages/tui/src/fullscreen.ts:99-133 | over any interleaving of scrolling and appending, a selection inside the transcript selects the same text of it |
| `FullscreenSpec.PausedWindowStays` | packages/tui/src/fullscreen.ts:114-118 | a paused window keeps its first line however much is appended |
| `FullscreenSpec.PausedWindowIsFrozen` | packages/tui/src/fullscreen.ts:114-124 | and, when full, shows the same lines |
| `FullscreenSpec.FollowingShowsTheEnd` | packages/tui/src/fullscreen.ts:114-116 | a following window shows the end of the transcript |
| `FullscreenSpec.ScrollBack` | packages/tui/src/fullscreen.ts:683-687 | scrolling is undone by scrolling back, unless an end was reached |
| `FullscreenViewport.FullscreenViewport.ComposeFrame` | packages/tui/src/fullscreen.ts:99-133 | exactly `height` rows: the window at scrollTop, blank below the transcript, over the bottom lines of the dock; scrollTop within its bounds |
| `FullscreenViewport.FullscreenViewport.MarksWhatIsSelected` | packages/tui/src/fullscreen.ts:143-166 | a line of the window is marked on exactly its selected columns, and is unchanged without any |
| `FullscreenViewport.FullscreenViewport.ScrollBy` | packages/tui/src/fullscreen.ts:683-687 | clamped; reaching the bottom resumes following |
| `FullscreenViewport.FullscreenViewport.ScrollToTop` | packages/tui/src/fullscreen.ts:689-692 | at the top, following only if everything fits |
| `FullscreenViewport.FullscreenViewport.ScrollToBottom` | packages/tui/src/fullscreen.ts:694-697 | at the bottom, following |
| `FullscreenViewport.FullscreenViewport.Paint` | packages/tui/src/fullscreen.ts:642-675 | the absolute addressing writes exactly the rows that are not skipped, scrolls nothing, and leaves the cursor where it is asked for |
| `FullscreenViewport.FullscreenViewport.Reset` | packages/tui/src/fullscreen.ts:678-680 | the next paint clears |
| `FullscreenViewport.FullscreenViewport.ApplyFrameSelection` | packages/tui/src/fullscreen.ts:267-270 | remembers which frame line each screen row shows |
| `FullscreenViewport.FullscreenViewport.LineForScreenRow` | packages/tui/src/fullscreen.ts:379-387 | the transcript line under a screen row, or no line of the window is nearer |
| `FullscreenViewport.FullscreenViewport.BeginSelection` | packages/tui/src/fullscreen.ts:169-188 | succeeds exactly on window rows, and anchors to the line shown there |
| `FullscreenViewport.FullscreenViewport.ExtendSelection` | packages/tui/src/fullscreen.ts:190-195 | moves the head to the line shown under the pointer, or to the nearest one in the window |
| `FullscreenViewport.FullscreenViewport.ScrollSelection` | packages/tui/src/fullscreen.ts:219-229 | scrolls by one row and takes the head to the edge row of the new window, or reports that nothing moved |
| `FullscreenViewport.FullscreenViewport.EndSelection` | packages/tui/src/fullscreen.ts:232-245 | returns the text between the two points of the last transcript, and forgets them |
| `FullscreenViewport.FullscreenViewport.ExtractSelectionText` | packages/tui/src/fullscreen.ts:541-557 | the text of the range, line by line |
| `FullscreenViewport.Apply` | packages/tui/src/fullscreen.ts:99-133 | wheel, jump or redraw: the viewport takes exactly the step of the run model |
| `FullscreenViewport.ApplyAll` | packages/tui/src/fullscreen.ts:99-133 | so do any number of them |
| `FullscreenViewport.Pull` | packages/tui/src/fullscreen.ts:190-195 | from the press of the button over any gestures to the pointer: the head is the line of the window nearest to it |
| `FullscreenViewport.Drag` | packages/tui/src/fullscreen.ts:169-245 | a whole drag over a scrolled and growing transcript returns the text between the line pressed on and the line nearest the pointer at the end; if both are inside the transcript as it was at the press or at the end of the pull, the text is of that transcript |
| `HarnessSpec.ParsedIsProper` | vsurf-runtime/src/rlm/harness.py:216-254 | whatever a file holds, what is read are entries under their own kind and id, with a known scope |
| `HarnessSpec.EntryRoundTrip` | vsurf-runtime/src/rlm/harness.py:224-253 | reading a written entry gives the entry back |
| `HarnessSpec.RoundTrip` | vsurf-runtime/src/rlm/harness.py:199-301 | loading undoes saving, for a store of either scope |
| `HarnessSpec.ReadExactlyWhen` | vsurf-runtime/src/rlm/harness.py:216-231 | a record is read if and only if it is an object whose title and content are text |
| `HarnessSpec.BareRecordReadsAsCreated` | vsurf-runtime/src/rlm/harness.py:232-253 | a record of no more than these reads as an entry created with no more than these |
| `HarnessSpec.IllTypedIsAbsent` | vsurf-runtime/src/rlm/harness.py:232-253 | a field of the wrong type, or a version that is no number, is read as if it were missing |
| `HarnessSpec.VersionIsSpelled` | vsurf-runtime/src/rlm/harness.py:238-246 | a version is read from a number, from text that spells one, and from a flag |
| `HarnessSpec.PerformIsProper` | vsurf-runtime/src/rlm/harness.py:345-424 | every call keeps the entries proper, and one that writes nothing changes nothing |
| `HarnessSpec.FailsExactlyWhen` | vsurf-runtime/src/rlm/harness.py:345-529 | a call fails if and only if the kind is unknown, or it creates an entry that a read would find, or it updates one that a read would not; then the file is untouched |
| `HarnessSpec.WrittenIsReadBack` | vsurf-runtime/src/rlm/harness.py:345-424 | after a call that wrote, a read by any store of the file, of either scope, finds title, content and source as given, every optional field as given or, when omitted, as it was or as its default, the scope kept or the own one of the creator, and the version one up or 1; after a deletion it finds nothing; and every other entry reads as before |
| `HarnessSpec.CallIsAtomic` | vsurf-runtime/src/rlm/harness.py:187-197 | from a coherent copy, a call answers and changes the file as on the shared map, and memory equals the file after it |
| `HarnessSpec.AtomicExactlyWhenCoherent` | vsurf-runtime/src/rlm/harness.py:187-197 | every call of a store is atomic, with answer and file as on the shared map, if and only if its copy is coherent: it equals what the file means, unless the next sync sees a new time stamp |
| `HarnessSpec.StepIsSequential` | vsurf-runtime/src/rlm/harness.py:187-301 | with fresh time stamps every call of any store of either scope, and every rewrite by others, is a step of one shared map and keeps all copies coherent |
| `HarnessSpec.RunIsSequential` | vsurf-runtime/src/rlm/harness.py:187-529 | over any run from any file, any number of stores, local and global mixed, answer as one sequential map: no update is lost |
| `HarnessSpec.ReadFindsLastWrite` | vsurf-runtime/src/rlm/harness.py:187-529 | over any run, a read by any store finds the entry that the last call on it answered, or nothing after a deletion, whichever stores made the calls |
| `HarnessSpec.SameStampIsNotReloaded` | vsurf-runtime/src/rlm/harness.py:187-197 | a store that sees no new time stamp overwrites the file from its own copy |
| `HarnessSpec.StaleStampLosesUpdate` | vsurf-runtime/src/rlm/harness.py:187-197 | two stores create an entry each at one time stamp: both are told it is written, and the entry of the first is gone |
| `HarnessSpec.VersionCountsWritings` | vsurf-runtime/src/rlm/harness.py:366-399 | from any file and over any calls and rewrites, the version of an entry is the one a file brought along, or 1 at its creation, plus its updates since, by whichever store |
| `HarnessSpec.DisplayedIds` | vsurf-runtime/src/rlm/harness.py:60-68 | an id as displayed, with its scope in front, is understood |
| `HarnessSpec.PlainIds` | vsurf-runtime/src/rlm/harness.py:60-68 | any other id is left alone |
| `HarnessStore.HarnessState.constructor` | vsurf-runtime/src/rlm/harness.py:145-173 | a new store holds what the file means |
| `HarnessStore.HarnessState.Load` | vsurf-runtime/src/rlm/harness.py:199-275 | reads the file; a missing one is left alone |
| `HarnessStore.HarnessState.SyncFromDisk` | vsurf-runtime/src/rlm/harness.py:187-197 | afterwards the copy is what the file means |
| `HarnessStore.HarnessState.Save` | vsurf-runtime/src/rlm/harness.py:285-301 | afterwards the file means what the copy holds |
| `HarnessStore.HarnessState.NextEntry` | vsurf-runtime/src/rlm/harness.py:366-398 | field by field: fields left out keep their value or take their default, the others are as given, and the version counts up |
| `HarnessStore.HarnessState.Put` | vsurf-runtime/src/rlm/harness.py:345-401 | creates or changes one entry and writes the file |
| `HarnessStore.HarnessState.Remove` | vsurf-runtime/src/rlm/harness.py:412-424 | removes an entry that is there; otherwise the file is not written |
| `HarnessStore.HarnessState.Work` | vsurf-runtime/src/rlm/harness.py:438-529 | creation over an entry and an update of none are refused |
| `HarnessStore.HarnessState.Do` | vsurf-runtime/src/rlm/harness.py:303-529 | each public call is one atomic step of the map all stores share; a written entry is as given, field by field |

## Left out

- Kitty and iTerm2 images, the Termux height path, debug and crash logs, synchronized output, `start` and `stop`, mouse routing, throttling; `cursorRow`, which nothing reads.
- Lines wider than the terminal: the renderer stops with an error on one, and the model takes lines that fit; lines are opaque strings with the appended reset, tab normalisation included.
- A buffer of output is modelled as the screen it leads to, operation by operation, not as a string.
- `compositeOverlays`, `subtractSelectionCoverage`, `createDockSelectionRegions`: layout and selection regions around the compositing of a line.
- InlineRenderer.Tui.ExitFullscreen: does not model `leaveAltScreen: false`, where the primary screen is not shown again, or the `stopped` flag.
- InlineRenderer.ExtractCursorPosition: does not model the search for the marker inside the string or the width of the text before it; a marked line is a constructor with the line and the column.
- InlineRenderer.ApplyLineResets: does not model tab normalisation, or image lines, which get no reset.
- Graphemes are single characters with a width given as a function; segmentation, East Asian width, tabs and zero-width clusters are not modelled, and the space is the only white space besides the newline.
- AnsiWrap.WrapTextWithAnsi: takes text whose ESC characters all start codes; with a stray ESC, which the code treats as a character, the codes it appends may read differently (`TextsJoinExactlyWhen`).
- AnsiWrap.WrapSingleLine: the same.
- AnsiWrap.WrapTokens: the same.
- AnsiWrap.WrapToken: the same.
- AnsiWrap.BreakLongWord: the same.
- AnsiOverlay.SliceWithWidth: the same.
- AnsiOverlay.SliceFromStart: the same.
- AnsiOverlay.ExtractSegments: the same, and takes lines whose characters are at least one column wide.
- AnsiOverlay.CompositionIsRight: the same as `ExtractSegments`.
- AnsiOverlay.CompositeLineAt: the same as `ExtractSegments`.
- The SGR pattern of `AnsiCodeTracker.process` is not anchored; it is applied only to codes the scanner has found, and so is the model.
- Characters of the terminal input are single UTF-16 units: one above U+FFFF, which the program cuts in two, is outside the model.
- `StdinBuffer.process` on a Node buffer with a single high byte, the flush timer, and `clear`; `Flush` is what the timer would do.
- `StdinBuffer.cut` is a field that the constructor sets to the splitter of the program, so that the machine can be reasoned about for any splitter.
- Messages that are prompted, queued or given as a continuation are not assistant messages; event listeners do not throw; `reset` is not called during a run.
- AgentLoop.Agent.RunLoop: does not model runs that never end; `responses` bounds how often the provider answers, arbitrarily, after which it fails.
- AgentEvents.NoUpdateAfterEnd: is about the order of emission; an asynchronous listener that an abort leaves behind may be handed an update later.
- AgentLoop.Agent.Reduce: does not model the error message kept at turn_end.
- Argument validation, transforms, API keys and payload hooks of the agent are nondeterministic failures; usage, diagnostics and error texts are not modelled.
- FullscreenViewport.FullscreenViewport.BeginSelection: does not model table mode.
- FullscreenViewport.FullscreenViewport.EndSelection: does not model table mode.
- FullscreenViewport.FullscreenViewport.ApplyFrameSelection: does not model the highlighting of a frame selection.
- FullscreenViewport.FullscreenViewport.ExtractSelectionText: the plain text of a line is a function it is given, with one column per character.
- Table-cell and frame selection, hyperlink lookup and auto-scroll direction of the fullscreen viewport; cutting a line, marking columns of it, and its plain text are functions it is given, with one column per character of the plain text.
- HarnessSpec.EntryRoundTrip: does not model time stamps in entries, or the values of floating-point numbers.
- HarnessSpec.RoundTrip: does not model refinements or the JSON text.
- The harness store's refinement list, time stamps in entries, `_slug`, `_global_target`, skill validation, in-memory mode and write errors; a state file is not deleted once a store has seen it.
