# A verified model of pygbag's byte-at-a-time line editor

pygbag runs Python programs in the browser. Its `readline` support module is
an incremental line editor. It receives terminal input one byte at a time
through `process_char`. An escape-sequence decoder picks the routine that
handles each byte from one of six dispatch tables. The routines edit a line
buffer (`line`, `caret`, `overwrite`), track the damaged columns
(`inval_start`, `inval_end`), scroll (`line_start`) and follow the terminal
cursor (`cursor_col`). Everything meant for the terminal goes into a
`CmdWriteQueue`. This is a FIFO of write commands and of input commands that
wait for the terminal's reply to a cursor-position query. Completed lines can
be appended to a history list.

The model has two layers.

- **Value layer.**
  - `Actions` holds every action routine as a function on the line state. This
    is the buffer plus the decoder's fields.
  - `LineEditor` holds an `Editor` record. It has every attribute of a
    `readline` instance, the pending queue (`queue`) and what has reached the
    terminal so far (`sink`). `Step` is `process_char` and `Feed` is
    `process_char` over a byte sequence.
  - `Decoder` holds the dispatch tables. `Terminal` holds the queue's
    commands, their rendering and what processing them does. `Text` holds
    Python's string helpers: `int()`, `str.split`, slicing and `printable`.
- **Object layer.**
  - `Console.Readline` is a class with the instance's attributes as mutable
    fields and one method per source method. Each method is proved to leave
    `State()` equal to the value-layer function applied to the old state.
  - The attributes are grouped into five record-valued fields, one per part
    of the editor:
    - `buf` holds `line`, `caret` and `overwrite`.
    - `dec` holds `state`, `esc_seq`, `mouse`, `mread` and `touch`.
    - `view` holds `line_start`, `cursor_col`, `inval_start` and `inval_end`.
    - `win` holds `rows`, `columns`, `ps1`, `ps1_width` and `resized`.
    - `extra` holds `string`, `prev_line_len` and `input_width`.
  - `Terminal.CmdWriteQueue` is the queue class. It has the `while` loop of
    `process`.
  - `Console.History` is the history list.
  - `KeyProperties` and `EditorProperties` prove what the editor promises
    over whole byte sequences.

The module-level `FBO` switch turns all output off. The model has an
explicit `outputEnabled` flag instead, which is the negation of `FBO`. When
output is off, `write`, `get_cursor_location` and `get_window_size` queue
nothing, `CmdWrite.process` writes nothing and `process_char` does not
redraw.

The model follows the code where the code and its documentation differ:

- `csi_typed_char` compares the byte's value with 0..9, not the characters
  '0'..'9'. So ESC [ 3 ~ does not delete: '3' ends the sequence and '~' is
  typed.
  - A parameter sequence typed from the idle state therefore always starts
    with a character of value 0..9. When `~` closes such a sequence, none of
    the `~` dispatch cases matches and no key action is performed
    (`KeyProperties.TildeNeverEdits`).
  - `reset` clears `esc_seq` but leaves `state` alone. After a `reset` in the
    middle of a parameter sequence, the characters that follow do reach the
    dispatch: '3' then '~' deletes the character at the caret
    (`KeyProperties.ClearedSequenceDeletes`, `EditorProperties.ResetMidSequence`).
  - A cursor report entered from idle parses only when its first character
    is byte 9 (TAB), which `int()` skips as white space
    (`KeyProperties.ParseReplyNeedsTab`). After a `reset` in the middle of a
    parameter sequence, a plain rows;cols report parses
    (`KeyProperties.ParseReplyDecimal` with no leading white space).
- `readline.__init__` passes its `ps1` argument to `reset` as the first
  positional argument. So a new editor's line holds the prompt's text.
- `cancel` returns `""`, not `None`. `process_char` treats Ctrl-C as a
  completed empty line.
- `redraw` computes a width of 0 when `columns` and `ps1_width` are both 0.
  Only a negative difference falls back to the line's length.
- `redraw` does not always keep `cursor_col` in step with the terminal
  cursor. Take width 0 (no window size known yet), type "abc" and press
  Ctrl-U. The scrolled line becomes empty, and the damaged region starts at
  -3, left of the line. `redraw` moves the cursor back 3 columns (so
  `cursor_col` is -3) and writes the empty slice `line[-3:0]`, but it adds the
  3 columns it meant to write to `cursor_col`. Its final move then sees the
  caret's column 0 as already reached, while the terminal cursor is 3 columns
  further left. `EditorProperties.TypeUnsized`, `ClearThenSettle`,
  `SettleAfterClear` and `CtrlURedrawDesync` follow this run step by step.
  For a line of one character it does not happen: the region (-1, 0) starts
  at the "no damage" value -1 and is seeded afresh.
- Any byte without a table entry is typed, control characters included. The
  line is not limited to printable characters.
- `CmdWriteQueue.process` drains every entry, input entries too.

## Model

| member | source | states |
|---|---|---|
| Text.Printable | src/pygbag/support/readline.py:39-44 | the result is always in ' '..'~', and it is the character itself exactly when that character is in ' '..'~' |
| Text.Decimal | src/pygbag/support/readline.py:644-656 | the numeral written by "%u" is non-empty and all digits |
| Text.DecimalValue | src/pygbag/support/readline.py:644-656 | the digits of "%u" % n read back as n |
| Text.ParseIntDecimal | src/pygbag/support/readline.py:441-452 | `int()` of a decimal numeral, after any white space, gives back the number |
| Text.ParseIntBadHead | src/pygbag/support/readline.py:441-452 | `int()` fails on a string that starts with neither white space nor a digit |
| Text.ParseInt | src/pygbag/support/readline.py:441-452 | a number read by `int()` is non-negative and comes from a non-empty string |
| Text.Split | src/pygbag/support/readline.py:441-452 | `split(";")` gives at least one piece, and no piece holds the separator |
| Text.SplitJoin | src/pygbag/support/readline.py:441-452 | joining the pieces of `split` with the separator gives the string back |
| Text.SplitAt | src/pygbag/support/readline.py:441-452 | a string whose first separator follows `a` splits into `a` followed by the pieces of the rest |
| Text.PyIndex | src/pygbag/support/readline.py:625-632 | a Python slice bound, negative counted from the end, lands within 0..len |
| Text.PySlice | src/pygbag/support/readline.py:625-632 | `s[i:j]` is no longer than `s`, is the ordinary slice for in-range bounds, and has length max(j - i, 0) when both bounds are non-negative and j is within `s` |
| Terminal.Render | src/pygbag/support/readline.py:641-656 | text is written as it is; every control function begins with ESC [ and ends with its final byte C, D or K |
| Terminal.RenderMove | src/pygbag/support/readline.py:644-656 | a relative move renders as ESC [ n C or ESC [ n D, whose middle reads back as n |
| Terminal.Effects | src/pygbag/support/readline.py:72-118 | processing a queue produces at most one event per entry; with output disabled only the reads of replies remain |
| Terminal.EffectsAppend | src/pygbag/support/readline.py:135-138 | draining two queues one after the other is the same as draining their concatenation |
| Terminal.EffectsEnabled | src/pygbag/support/readline.py:72-118 | with output enabled every entry reaches the terminal, in order, as its own event |
| Terminal.ShiftAppend | src/pygbag/support/readline.py:644-656 | the cursor displacement of concatenated queue segments is the sum of their displacements |
| Terminal.CmdWriteQueue.constructor | src/pygbag/support/readline.py:122-124 | a new queue is empty and nothing has reached the terminal |
| Terminal.CmdWriteQueue.Write | src/pygbag/support/readline.py:126-127 | a write entry is appended at the tail and nothing else changes |
| Terminal.CmdWriteQueue.QueueInput | src/pygbag/support/readline.py:129-130 | an input entry is appended at the tail and nothing else changes |
| Terminal.CmdWriteQueue.WaitForInput | src/pygbag/support/readline.py:132-133 | the same as `queue_input` |
| Terminal.CmdWriteQueue.ProcessCmd | src/pygbag/support/readline.py:72-118 | processing one entry adds its effect to the terminal and leaves the queue alone |
| Terminal.CmdWriteQueue.Process | src/pygbag/support/readline.py:135-138 | the loop empties the queue and the terminal receives the effects of every old entry in FIFO order |
| Terminal.CmdWriteQueue.ProcessInput | src/pygbag/support/readline.py:140-145 | succeeds exactly when the head is an input entry, and then drains the whole queue in order; when the assertion fails nothing changes; rows and cols are ignored |
| Decoder.Lookup | src/pygbag/support/readline.py:555-563 | a byte that is not one of the table's keys goes to the table's wildcard routine; `KeyNeverWildcard` adds that a key never does |
| Actions.TypedChar | src/pygbag/support/readline.py:530-538 | in insert mode the character goes in at the caret; in overwrite mode it replaces the one at the caret or is appended at the end; the caret advances by one; [old caret, new length) is damaged; the invariant is kept |
| Actions.Backspace | src/pygbag/support/readline.py:399-405 | nothing happens at caret 0; otherwise the character before the caret is removed, the caret steps back and [new caret, old length) is damaged |
| Actions.Delete | src/pygbag/support/readline.py:407-412 | nothing happens at the end of the line; otherwise the character at the caret is removed, the caret stays and [caret, old length) is damaged |
| Actions.ClearBeforeCursor | src/pygbag/support/readline.py:391-395 | the line becomes its old suffix from the caret, the caret goes to 0 and [0, old length) is damaged |
| Actions.Cancel | src/pygbag/support/readline.py:386-389 | the line is emptied, the caret is left as it was and "" is returned |
| Actions.Eof | src/pygbag/support/readline.py:424-430 | end of input is raised exactly on an empty line, after a CRLF write and a drain of the queue; otherwise it does what `delete` does |
| Actions.LineComplete | src/pygbag/support/readline.py:521-523 | the line is returned and nothing changes |
| Actions.Insert | src/pygbag/support/readline.py:501-503 | overwrite mode flips, and line, caret and decoder stay |
| Actions.Home | src/pygbag/support/readline.py:496-499 | the caret goes to 0, the line and mode are kept and the decoder returns to idle |
| Actions.End | src/pygbag/support/readline.py:419-422 | the caret goes to the end of the line, the line and mode are kept and the decoder returns to idle |
| Actions.LeftArrow | src/pygbag/support/readline.py:516-519 | the caret steps back by one unless it is at 0; only the caret and the decoder state change |
| Actions.RightArrow | src/pygbag/support/readline.py:525-528 | the caret steps forward by one unless it is at the end; only the caret and the decoder state change |
| Actions.ToIdle | src/pygbag/support/readline.py:540-541 | only the decoder state changes, to idle |
| Actions.CaretKeys | src/pygbag/support/readline.py:416-541 | home, end and the arrows keep the line and the invariant and return the decoder to idle; home gives 0, end the length, left and right step by one clamped to the line; up, down and the unknown ESC and ESC O bytes change only the decoder state |
| Actions.BeginEsc | src/pygbag/support/readline.py:432-435 | ESC moves to the ESC table with an empty sequence and keeps the buffer |
| Actions.EscBracket | src/pygbag/support/readline.py:437-439 | ESC [ moves to the CSI table and keeps everything else |
| Actions.BeginEscO | src/pygbag/support/readline.py:488-489 | ESC O moves to the ESC O table and keeps everything else |
| Actions.CsiTypedChar | src/pygbag/support/readline.py:474-481 | a byte of value 0..9 starts a parameter sequence holding that byte's character; any other byte returns to idle; the buffer, the mouse fields and the touch flag are kept |
| Actions.CsiDigitTypedChar | src/pygbag/support/readline.py:467-472 | digits and ';' are appended to the sequence, other bytes are dropped, and the state stays |
| Actions.CsiDigitTilde | src/pygbag/support/readline.py:454-465 | the decoder returns to idle and nothing is returned; sequence 3 does what `delete` does; 2 flips overwrite mode; 1 and 7 move the caret to 0; 4 and 8 move it to the end; only 3 changes the line; any other sequence changes nothing else |
| Actions.ParseReply | src/pygbag/support/readline.py:441-452 | a parsed reply comes from at least two ';'-separated pieces whose first two read back through `int()` as the two non-negative numbers |
| Actions.CsiDigitR | src/pygbag/support/readline.py:441-452 | the decoder returns to idle; a reply is resumed exactly when the sequence parses as rows;cols, and then with those two numbers |
| Actions.CsiMouse | src/pygbag/support/readline.py:220-228 | ESC [ M moves to the mouse table with no packet bytes read and the position reset to -1 |
| Actions.CsiMouseAnyEvent | src/pygbag/support/readline.py:235-251 | each packet byte is recorded; the first three set button, x and y to the byte minus 32; the third returns to idle and sets the touch flag |
| Actions.TouchClearEvt | src/pygbag/support/readline.py:230-233 | the touch flag is reported and cleared, and nothing else changes |
| Actions.Act | src/pygbag/support/readline.py:555-573 | running any routine keeps the invariant 0 <= caret <= len(line) when it returns no value; a routine that returns a value leaves the decoder alone (`cancel` leaves the caret past the emptied line until `process_char` resets it) |
| Actions.ActReturns | src/pygbag/support/readline.py:386-523 | only `cancel` and `line_complete` return a value; only `eof` on an empty line raises, and only then is the end-of-line written; only `csi_digit_R` resumes a query |
| Actions.KeyStep | src/pygbag/support/readline.py:555-591 | one byte of `process_char` on the line state keeps the invariant 0 <= caret <= len(line) |
| Actions.KeyFeed | src/pygbag/support/readline.py:555-591 | any number of bytes keeps the invariant |
| LineEditor.Write | src/pygbag/support/readline.py:658-662 | a write is queued exactly when output is enabled, and nothing else changes |
| LineEditor.QueueInput | src/pygbag/support/readline.py:129-130 | an input entry is appended and nothing else changes |
| LineEditor.Process | src/pygbag/support/readline.py:135-138 | the queue is emptied into the terminal in FIFO order and nothing else changes |
| LineEditor.ProcessInput | src/pygbag/support/readline.py:140-145 | defined exactly when the head is an input entry, and then the same as a full drain |
| LineEditor.Invalidate | src/pygbag/support/readline.py:505-514 | the damaged region, taken relative to `line_start`, covers the new range; it is seeded when empty and otherwise only widened to the smaller start and the larger end; scroll and cursor are kept |
| LineEditor.MaxWidth | src/pygbag/support/readline.py:594-596 | the width is `columns - ps1_width`, or the line's length when that is negative; it is never negative |
| LineEditor.MoveCursorToCol | src/pygbag/support/readline.py:644-656 | `cursor_col` becomes `col`; at most one relative move is queued; it is queued exactly when output is enabled and the column differs; it moves the terminal cursor from the old column to `col` |
| LineEditor.Scroll | src/pygbag/support/readline.py:603-608 | after scrolling the caret is within the visible width; nothing moves when it already was; a scroll damages the whole visible width |
| LineEditor.Clamp | src/pygbag/support/readline.py:593-609 | after the scroll and clamp the region ends within the width, the caret is visible and `cursor_col` is unchanged |
| LineEditor.WriteCols | src/pygbag/support/readline.py:625-632 | the number of columns written is the smaller of the region's width and the columns left on the line from the region's start |
| LineEditor.Flush | src/pygbag/support/readline.py:625-637 | the region is cleared to (-1, -1), `cursor_col` advances by the columns written, the queue only grows, and with output disabled nothing is queued |
| LineEditor.Redraw | src/pygbag/support/readline.py:593-639 | the caret ends within the viewport with `cursor_col == caret - line_start`; a non-empty clamped region is reset to (-1, -1); only the view and the queue change; nothing is queued with output disabled |
| LineEditor.GetCursorLocation | src/pygbag/support/readline.py:358-362 | with output enabled the query is queued followed by an input entry for the continuation; otherwise nothing changes |
| LineEditor.GetWindowSize | src/pygbag/support/readline.py:364-369 | with output enabled the save-and-move-far write, the cursor query, the input entry for `store_window_size` and the restore write are queued in that order; otherwise nothing changes |
| LineEditor.StoreWindowSize | src/pygbag/support/readline.py:371-375 | rows and columns are recorded; after a resize the editor is redrawn, otherwise nothing else changes |
| LineEditor.StorePs1Width | src/pygbag/support/readline.py:383-384 | the prompt width becomes the reported column and nothing else changes |
| LineEditor.SetPs1 | src/pygbag/support/readline.py:377-381 | the prompt is recorded; a non-empty prompt is written and followed by a cursor query whose reply goes to `store_ps1_width` |
| LineEditor.Reset | src/pygbag/support/readline.py:334-349 | the new line holds `line` with caret 0, no scroll, no damage and an empty sequence; the prompt is kept unless a new one is given; the queue is emptied into the terminal: the old entries, then (with output enabled and a non-empty prompt) the prompt, the cursor query and the wait for its reply; the invariant is kept |
| LineEditor.HandleSigwinch | src/pygbag/support/readline.py:351-356 | only the resized flag is set |
| LineEditor.Unset | src/pygbag/support/readline.py:314-325 | before `reset`, a new editor has no window size, the given prompt, insert mode, an idle decoder with no touch, and an empty queue with nothing sent |
| LineEditor.Initial | src/pygbag/support/readline.py:286-332 | a new editor satisfies the invariant, holds the prompt text as its line with caret 0, is idle with mouse [0, 0, 0], has no damage and an empty queue |
| LineEditor.Perform | src/pygbag/support/readline.py:424-514 | installing a routine's result keeps its buffer; a damage request widens the region over its range and leaves queue and terminal alone; the end-of-line request queues CRLF (with output enabled) and drains the queue into the terminal; a resumed query whose input entry heads the queue drains it and clears the sequence, and otherwise changes nothing but the routine's result |
| LineEditor.Run | src/pygbag/support/readline.py:555-573 | the editor gets the routine's buffer and keeps its window and extras; the routine's value is returned; a routine that returns nothing keeps the invariant |
| LineEditor.Step | src/pygbag/support/readline.py:555-591 | one byte keeps the invariant, leaves the queue empty, and does to the buffer and the outcome what `KeyStep` does on the line state alone |
| LineEditor.Settle | src/pygbag/support/readline.py:580-591 | the view is the redraw's (with output enabled); the queue is drained into the terminal: the old entries, the redraw's writes, then CRLF when a value was returned; `string` records the line (with a newline for a value); the decoder is kept; a returned value ends the line with an empty buffer and caret 0 |
| LineEditor.Feed | src/pygbag/support/readline.py:550-553 | a run of `process_char` over any bytes keeps the invariant |
| LineEditor.FeedAdvance | src/pygbag/support/readline.py:550-553 | one more byte of a run either ends it (end of input) or continues it from the stepped editor with its outcome appended |
| EditorProperties.FeedLineState | src/pygbag/support/readline.py:555-591 | from an editor with an empty queue, the whole editor's run over a byte sequence and the line state's run agree on the line state and on every outcome |
| EditorProperties.ReplyWithoutQuery | src/pygbag/support/readline.py:441-452 | a cursor report that arrives with no query waiting fails the assertion, and only the state returns to idle |
| EditorProperties.InvalidateWidens | src/pygbag/support/readline.py:505-514 | `invalidate(2, 5)` then `invalidate(0, 3)` on an empty region gives [0, 5) |
| EditorProperties.FlushQueue | src/pygbag/support/readline.py:625-637 | a flush queues the move to the region's start, then the visible text of the region, then an erase exactly when fewer columns were written than damaged |
| EditorProperties.FlushOutput | src/pygbag/support/readline.py:625-637 | erase-in-line is sent exactly when fewer columns were written than were damaged, and some text is always written |
| EditorProperties.FlushTracksCursor | src/pygbag/support/readline.py:625-656 | when the region's start lies within the line, the queued moves and text carry the terminal cursor to the new `cursor_col`; not for a region starting left of the line (see `CtrlURedrawDesync`) |
| EditorProperties.RedrawTracksCursor | src/pygbag/support/readline.py:593-639 | the same for a whole redraw, when the clamped region's start lies within the line: the terminal cursor ends where `cursor_col` says; after Ctrl-U on a scrolled line it does not (see `CtrlURedrawDesync`) |
| EditorProperties.FreshIsUnsized | src/pygbag/support/readline.py:286-349 | a new editor with no prompt and no size probe is the unsized editor with an empty line and no damage |
| EditorProperties.TypeUnsized | src/pygbag/support/readline.py:530-538 | with width 0, typing a plain character appends it, scrolls the line so that `line_start` is the new length, and leaves the region at (0, 0) with `cursor_col` 0 |
| EditorProperties.ClearThenSettle | src/pygbag/support/readline.py:391-395 | Ctrl-U on such a line of length n > 1 empties it and leaves the damaged region at (-n, 0) for the redraw |
| EditorProperties.SettleAfterClear | src/pygbag/support/readline.py:593-639 | the redraw that follows sends a move of n columns back and an empty text, and leaves `cursor_col` at 0 |
| EditorProperties.CtrlURedrawDesync | src/pygbag/support/readline.py:593-639 | for that state, `redraw` as written queues exactly those two writes, and `cursor_col` plus their displacement differs from the `cursor_col` it records |
| EditorProperties.ResetMidSequence | src/pygbag/support/readline.py:334-349 | after `reset` in the middle of a parameter sequence, '3' then '~' deletes the first character of the new line |
| EditorProperties.UnknownWindowScrolls | src/pygbag/support/readline.py:593-609 | with no known window size the width is 0 and a redraw scrolls the caret to the left edge |
| EditorProperties.InitialOutput | src/pygbag/support/readline.py:286-381 | with output enabled a new editor has sent the size probe when asked and the prompt with its query when there is one; with output disabled nothing reached the terminal |
| EditorProperties.ResetSends | src/pygbag/support/readline.py:334-349 | with output enabled, `reset` sends the pending entries, then the prompt and its cursor query, and waits for the reply |
| EditorProperties.LineEndsWithCrlf | src/pygbag/support/readline.py:580-591 | with output enabled, a completed line reaches the terminal as the redraw's output followed by CRLF |
| EditorProperties.EofWritesCrlf | src/pygbag/support/readline.py:424-430 | with output enabled, `eof` on an empty line sends the pending entries and then CRLF, leaving the queue empty |
| EditorProperties.ProbeEffects | src/pygbag/support/readline.py:135-138 | with output enabled a queue sends and awaits its entries in order |
| KeyProperties.FeedOne | src/pygbag/support/readline.py:555-591 | a run over one byte is one step |
| KeyProperties.FeedCons | src/pygbag/support/readline.py:555-591 | a run that does not end at its first byte continues from the state that byte left |
| KeyProperties.FeedOutcomes | src/pygbag/support/readline.py:555-591 | each byte gives one outcome until input ends; an end of input comes only last, and bytes are left unread only after it |
| KeyProperties.StepTyped | src/pygbag/support/readline.py:530-538 | a byte without an idle-table entry is typed at the caret, in insert or overwrite mode |
| KeyProperties.StepClear | src/pygbag/support/readline.py:391-395 | Ctrl-U keeps the text from the caret on, with the caret at 0 |
| KeyProperties.IdleCaretKeys | src/pygbag/support/readline.py:287-298 | Ctrl-A and Ctrl-E move the caret to the start and the end and change nothing else |
| KeyProperties.CsiKeys | src/pygbag/support/readline.py:302-311 | the final byte of ESC [ A/B/C/D/H/F moves the caret as the matching key does and returns to idle |
| KeyProperties.EscOKeys | src/pygbag/support/readline.py:313 | ESC O H and ESC O F move the caret to the start and the end |
| KeyProperties.Fallthrough | src/pygbag/support/readline.py:474-494 | an unrecognised byte after ESC, after ESC O, or after ESC [ returns to idle without touching the buffer |
| KeyProperties.StepEsc | src/pygbag/support/readline.py:432-435 | ESC in the idle state enters the ESC table and keeps the buffer |
| KeyProperties.StepBracket | src/pygbag/support/readline.py:437-439 | '[' after ESC enters the CSI table and keeps the buffer |
| KeyProperties.StepCsiDigit | src/pygbag/support/readline.py:474-481 | after ESC [, a byte of value 0..9 starts a parameter sequence holding its character |
| KeyProperties.StepCsiParam | src/pygbag/support/readline.py:467-472 | inside a parameter sequence every byte but R and ~ keeps the state and the sequence's first character |
| KeyProperties.StepTildeNoKey | src/pygbag/support/readline.py:454-465 | ~ closing a sequence whose first character has value 0..9 edits nothing and returns to idle |
| KeyProperties.StepMouseStart | src/pygbag/support/readline.py:220-228 | M after ESC [ enters the mouse table with no packet bytes read |
| KeyProperties.StepMouseByte | src/pygbag/support/readline.py:235-251 | the first two packet bytes are recorded as value - 32 and the state stays |
| KeyProperties.StepMouseLast | src/pygbag/support/readline.py:235-251 | the third packet byte completes the packet, returns to idle and flags a touch |
| KeyProperties.TypedCons | src/pygbag/support/readline.py:530-538 | typing a byte in insert mode, then the rest, is inserting its character and continuing from there |
| KeyProperties.FeedTyped | src/pygbag/support/readline.py:530-538 | typing plain bytes in insert mode puts their characters, in order, at the caret, advances the caret by their number and returns nothing |
| KeyProperties.TypedFromEmpty | src/pygbag/support/readline.py:530-538 | from an empty line, typing plain bytes gives exactly their characters |
| KeyProperties.TypeThenBackspace | src/pygbag/support/readline.py:399-405 | typing a character and then BS or DEL restores line and caret |
| KeyProperties.ClearThenType | src/pygbag/support/readline.py:391-395 | Ctrl-U then typing gives the typed characters followed by the old suffix from the caret |
| KeyProperties.ClearThenAbc | src/pygbag/support/readline.py:391-395 | with the caret at the end, Ctrl-U then "abc" leaves exactly "abc" |
| KeyProperties.CtrlD | src/pygbag/support/readline.py:424-430 | Ctrl-D ends input exactly on an empty line, and on any other line does what `delete` does |
| KeyProperties.CarriageReturn | src/pygbag/support/readline.py:555-591 | CR returns the line typed so far and starts an empty one |
| KeyProperties.CtrlC | src/pygbag/support/readline.py:555-591 | Ctrl-C returns "" as a completed line and starts an empty one |
| KeyProperties.TypeLine | src/pygbag/support/readline.py:555-591 | typing plain bytes then CR returns the line with their characters inserted at the caret and leaves an empty line |
| KeyProperties.TypeHi | src/pygbag/support/readline.py:555-591 | 'h', 'i', CR on an empty line returns "hi" |
| KeyProperties.EnterCsi | src/pygbag/support/readline.py:432-439 | ESC [ enters the CSI table without touching the text, and a run continues from there |
| KeyProperties.UpArrowKeepsBuffer | src/pygbag/support/readline.py:302-311 | ESC [ A leaves line and caret alone and returns to idle |
| KeyProperties.EscBracketThreeTilde | src/pygbag/support/readline.py:474-538 | ESC [ 3 ~ does not delete: '~' is typed at the caret |
| KeyProperties.ThreeTildeTail | src/pygbag/support/readline.py:474-538 | after ESC [, '3' ends the sequence and '~' is typed |
| KeyProperties.CsiDigitThenTilde | src/pygbag/support/readline.py:454-472 | parameter bytes other than R and ~, then ~, edit nothing when the sequence began with a value 0..9 |
| KeyProperties.TildeNeverEdits | src/pygbag/support/readline.py:454-481 | ESC [ d … ~, with d a byte of value 0..9 (not the character '0'..'9') and no R or ~ in between, performs no key action: line and caret stay and the decoder is idle |
| KeyProperties.ClearedSequenceDeletes | src/pygbag/support/readline.py:454-472 | with the decoder in the parameter table and an empty sequence (as `reset` leaves it), '3' then '~' does what `delete` does |
| KeyProperties.ParseReplyDecimal | src/pygbag/support/readline.py:441-452 | a report of the form (white space) rows;cols parses to those numbers |
| KeyProperties.ParseReplyNeedsTab | src/pygbag/support/readline.py:441-452 | a sequence that starts with a byte 0..8 never parses as a report |
| KeyProperties.MousePartial | src/pygbag/support/readline.py:220-251 | after ESC [ M the next two bytes keep the decoder in the mouse table |
| KeyProperties.MousePacket | src/pygbag/support/readline.py:220-251 | the packet after ESC [ M is exactly three bytes, each taken as value - 32; then the decoder is idle, a touch is flagged and the buffer is untouched |
| Console.Readline.constructor | src/pygbag/support/readline.py:286-332 | a new instance is in the state `Initial` describes, with a fresh queue |
| Console.Readline.Write | src/pygbag/support/readline.py:658-662 | the state moves as `LineEditor.Write` says |
| Console.Readline.EraseLineFromCursor | src/pygbag/support/readline.py:641-642 | an erase-in-line write is queued |
| Console.Readline.MoveCursorToCol | src/pygbag/support/readline.py:644-656 | the state moves as `LineEditor.MoveCursorToCol` says |
| Console.Readline.Invalidate | src/pygbag/support/readline.py:505-514 | only the view changes, as `LineEditor.Invalidate` says |
| Console.Readline.Redraw | src/pygbag/support/readline.py:593-639 | the state moves as `LineEditor.Redraw` says |
| Console.Readline.ScrollToCaret | src/pygbag/support/readline.py:593-609 | only the view changes, to the scrolled and clamped one |
| Console.Readline.FlushDamage | src/pygbag/support/readline.py:625-637 | the state moves as `LineEditor.Flush` says |
| Console.Readline.GetCursorLocation | src/pygbag/support/readline.py:358-362 | the state moves as `LineEditor.GetCursorLocation` says |
| Console.Readline.GetWindowSize | src/pygbag/support/readline.py:364-369 | the state moves as `LineEditor.GetWindowSize` says |
| Console.Readline.StoreWindowSize | src/pygbag/support/readline.py:371-375 | the state moves as `LineEditor.StoreWindowSize` says |
| Console.Readline.SetPs1 | src/pygbag/support/readline.py:377-381 | the state moves as `LineEditor.SetPs1` says |
| Console.Readline.StorePs1Width | src/pygbag/support/readline.py:383-384 | the state moves as `LineEditor.StorePs1Width` says |
| Console.Readline.Reset | src/pygbag/support/readline.py:334-349 | the state moves as `LineEditor.Reset` says |
| Console.Readline.HandleSigwinch | src/pygbag/support/readline.py:351-356 | the state moves as `LineEditor.HandleSigwinch` says |
| Console.Readline.TypedChar | src/pygbag/support/readline.py:530-538 | the state is the result of `Actions.TypedChar`, with its damage recorded |
| Console.Readline.Backspace | src/pygbag/support/readline.py:399-405 | the state is the result of `Actions.Backspace`, with its damage recorded |
| Console.Readline.Delete | src/pygbag/support/readline.py:407-412 | the state is the result of `Actions.Delete`, with its damage recorded |
| Console.Readline.ClearBeforeCursor | src/pygbag/support/readline.py:391-395 | the state is the result of `Actions.ClearBeforeCursor`, with its damage recorded |
| Console.Readline.Cancel | src/pygbag/support/readline.py:386-389 | the state and the returned "" are those of `Actions.Cancel` |
| Console.Readline.Eof | src/pygbag/support/readline.py:424-430 | the state and whether end of input is raised are those of `Actions.Eof` |
| Console.Readline.LineComplete | src/pygbag/support/readline.py:521-523 | the line is returned and the state is unchanged |
| Console.Readline.Insert | src/pygbag/support/readline.py:501-503 | only the buffer changes, as `Actions.Insert` says |
| Console.Readline.Home | src/pygbag/support/readline.py:496-499 | the state is that of `Actions.Home` |
| Console.Readline.End | src/pygbag/support/readline.py:419-422 | the state is that of `Actions.End` |
| Console.Readline.LeftArrow | src/pygbag/support/readline.py:516-519 | the state is that of `Actions.LeftArrow` |
| Console.Readline.RightArrow | src/pygbag/support/readline.py:525-528 | the state is that of `Actions.RightArrow` |
| Console.Readline.UpArrow | src/pygbag/support/readline.py:540-541 | only the decoder returns to idle |
| Console.Readline.DownArrow | src/pygbag/support/readline.py:416-417 | only the decoder returns to idle |
| Console.Readline.EscTypedChar | src/pygbag/support/readline.py:483-486 | only the decoder returns to idle |
| Console.Readline.EscOTypedChar | src/pygbag/support/readline.py:491-494 | only the decoder returns to idle |
| Console.Readline.Esc | src/pygbag/support/readline.py:432-435 | the state is that of `Actions.BeginEsc` |
| Console.Readline.EscBracket | src/pygbag/support/readline.py:437-439 | the state is that of `Actions.EscBracket` |
| Console.Readline.EscO | src/pygbag/support/readline.py:488-489 | the state is that of `Actions.BeginEscO` |
| Console.Readline.CsiTypedChar | src/pygbag/support/readline.py:474-481 | the state is that of `Actions.CsiTypedChar` |
| Console.Readline.CsiDigitTypedChar | src/pygbag/support/readline.py:467-472 | the state is that of `Actions.CsiDigitTypedChar` |
| Console.Readline.CsiDigitTilde | src/pygbag/support/readline.py:454-465 | the state is the result of `Actions.CsiDigitTilde` |
| Console.Readline.CsiDigitR | src/pygbag/support/readline.py:441-452 | the state is the result of `Actions.CsiDigitR`, with the reply resumed on the queue when one was waiting |
| Console.Readline.CsiMouse | src/pygbag/support/readline.py:220-228 | the state is that of `Actions.CsiMouse` |
| Console.Readline.CsiMouseAnyEvent | src/pygbag/support/readline.py:235-251 | the state is that of `Actions.CsiMouseAnyEvent` |
| Console.Readline.TouchClearEvt | src/pygbag/support/readline.py:230-233 | the flag returned and the new state are those of `Actions.TouchClearEvt` |
| Console.Readline.Dispatch | src/pygbag/support/readline.py:557-573 | running the routine a table entry names gives the state and the return value of `Actions.Act` followed by `Perform` |
| Console.Readline.DispatchLine | src/pygbag/support/readline.py:555-573 | the same for the idle table's routines |
| Console.Readline.DispatchSequence | src/pygbag/support/readline.py:555-573 | the same for the escape-sequence and mouse routines |
| Console.Readline.ProcessChar | src/pygbag/support/readline.py:555-591 | the new state and the outcome are those of `LineEditor.Step`, and the invariant is kept |
| Console.Readline.Settle | src/pygbag/support/readline.py:580-591 | the state moves as `LineEditor.Settle` says |
| Console.Readline.ProcessBstr | src/pygbag/support/readline.py:550-553 | the new state and the outcomes are those of `LineEditor.Feed` over the bytes, and the invariant is kept |
| Console.History.constructor | src/pygbag/support/readline.py:211-212 | the history starts empty |
| Console.History.AddHistory | src/pygbag/support/readline.py:665-666 | the line is appended at the end and the earlier entries stay |
| Console.History.GetCurrentHistoryLength | src/pygbag/support/readline.py:672-673 | the number of entries is returned |

## Left out

- Terminal I/O is left out. `CmdWrite.process` writing to stdout and `CmdInput.process` reading stdin are modelled as events appended to `sink`: an output, or `AwaitReply` naming the continuation. The bytes of the reply are not read, and the continuation (`store_window_size` or `store_ps1_width`) is not called from the queue. Both continuations are modelled as methods that callers invoke with the reported numbers.
- The `logger` function and every `log` call are left out. They only write to the browser console.
- Signal registration is left out. `handle_sigwinch` is modelled, and it only sets the resized flag.
- `FBO` is the constant `outputEnabled` (its negation), fixed when an editor is created, rather than a module-level global.
- Python exceptions are modelled as values. `EOFError` from `eof` is the `RaisedEof` return and ends a run. The caught `AssertionError` of `process_input` is the `None` of `LineEditor.ProcessInput`.
- `process_line` is left out. It calls `process_str`, which is not part of this model. `process_bstr` relies on `iter_byte`, which is not part of this model either. `ProcessBstr` assumes that it yields the bytes of its argument in order.
- `csi_mouseC` is left out. No dispatch table names it.
- `get_history_item` is left out. It is a stub with no body.
- The commented-out xterm mouse-tracking notes are left out.
- The `Mouse` and `History` base classes are folded in. `Mouse`'s fields (`mouse`, `mread`, `touch`) and its routines live on `Readline`. The class attribute `history`, shared by every instance, is the single `Console.History` object.
- EditorProperties.FlushTracksCursor: holds only when the damaged region starts within the line. After Ctrl-U on a scrolled line, the source's `cursor_col` and the terminal cursor part (`CtrlURedrawDesync`, for lines of two or more characters).
- EditorProperties.RedrawTracksCursor: holds only when the clamped region starts within the line, for the same reason.
- Text.ParseInt: `int()` is modelled only on the strings the decoder can build. Surrounding white space is skipped. A sign, underscores and non-ASCII digits are not accepted.
- Actions.KeyStep: states only that the invariant is kept. What a byte does is stated by the `KeyProperties` lemmas and tied to the editor by `LineEditor.Step`.
- Actions.KeyFeed: states only that the invariant is kept. Its outcomes are stated by `KeyProperties.FeedOutcomes` and the other run lemmas.
- LineEditor.Feed: states only that the invariant is kept. `EditorProperties.FeedLineState` relates it to `Actions.KeyFeed` when the queue starts empty.
- The terminal side of the ECMA-48 control functions is left out: CUF (section 8.3.20 of ECMA-48), CUB (section 8.3.18) and EL (section 8.3.41). The model keeps the text `redraw` writes for them. `Terminal.Displacement` records how far each one moves the cursor.
- `Console.Readline.ScrollToCaret`, `FlushDamage`, `Settle`, `DispatchLine` and `DispatchSequence` are not source methods. They split `redraw` and `process_char` into steps that the model's proofs can handle.
