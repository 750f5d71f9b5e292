/** The line editor as a value: every field of a `readline` instance, its
    write queue, and what has reached the terminal so far. The action
    routines (module Actions) edit the line state; this module carries out
    what they request, redraws, and drains the queue. `Step` is
    `process_char` and `Feed` runs it over a byte sequence. */
module LineEditor {
  import opened Text
  import opened Terminal
  import opened Decoder
  import opened Actions

  /** What the terminal shows: the index of the first visible character,
      where the terminal's cursor was last put, and the damaged columns
      [invalStart, invalEnd), or -1, -1. */
  datatype View = View(lineStart: int, cursorCol: int, invalStart: int, invalEnd: int)

  /** The terminal's size, the prompt and the columns it occupies, and the
      flag the window-change handler sets. */
  datatype Window = Window(rows: int, columns: int, ps1: string, ps1Width: int, resized: bool)

  /** Fields the editor sets and does not read back: the source's `string`,
      `prev_line_len` and `input_width`. */
  datatype Extras = Extras(text: string, prevLineLen: int, inputWidth: int)

  /** A `readline` instance. `outputEnabled` is the negation of the global
      `FBO`; `queue` holds the write queue's pending entries and `sink`
      what processing the queue has done. */
  datatype Editor = Editor(buf: Buffer, dec: Decoding, view: View, win: Window, extra: Extras,
                           outputEnabled: bool, queue: seq<Cmd>, sink: seq<Event>)

  /** The part of the editor the action routines edit. */
  function LineStateOf(e: Editor): LineState
  {
    LineState(e.buf, e.dec)
  }

  /** The invariant every action keeps between two input bytes. */
  predicate Inv(e: Editor)
  {
    Valid(LineStateOf(e))
  }

  // ---------------------------------------------------------------------------
  // Output queue

  /** `write`: queue a write, unless output is disabled. */
  function Write(e: Editor, o: Output): (r: Editor)
    ensures r.queue == if e.outputEnabled then e.queue + [WriteCmd(o)] else e.queue
    ensures r == e.(queue := r.queue)
  {
    if e.outputEnabled then e.(queue := e.queue + [WriteCmd(o)]) else e
  }

  /** `queue_input`: queue a read of the terminal's reply. */
  function QueueInput(e: Editor, k: Continuation): (r: Editor)
    ensures r.queue == e.queue + [InputCmd(k)]
    ensures r == e.(queue := r.queue)
  {
    e.(queue := e.queue + [InputCmd(k)])
  }

  /** `write_queue.process()`: every entry is processed, in order. */
  function Process(e: Editor): (r: Editor)
    ensures r.queue == [] && r.sink == e.sink + Effects(e.queue, e.outputEnabled)
    ensures r == e.(queue := [], sink := r.sink)
  {
    e.(queue := [], sink := e.sink + Effects(e.queue, e.outputEnabled))
  }

  /** `write_queue.process_input(rows, cols)`; None where its assertion fails. */
  function ProcessInput(e: Editor, rows: int, cols: int): (r: Option<Editor>)
    ensures r.Some? <==> e.queue != [] && e.queue[0].InputCmd?
    ensures r.Some? ==> r.value == Process(e)
  {
    if e.queue == [] || !e.queue[0].InputCmd? then None
    else Some(Process(e))
  }

  // ---------------------------------------------------------------------------
  // Damage tracking

  /** The damaged region covers buffer positions [from, to). */
  predicate Covers(v: View, from: int, to: int)
  {
    v.invalStart <= from - v.lineStart && to - v.lineStart <= v.invalEnd
  }

  /** `invalidate`: the smallest widening of the region that covers
      [from, to), or the range itself when the region holds the sentinel. */
  function Invalidate(v: View, from: int, to: int): (r: View)
    ensures r.lineStart == v.lineStart && r.cursorCol == v.cursorCol
    ensures Covers(r, from, to)
    ensures v.invalStart != -1 ==> r.invalStart <= v.invalStart && v.invalEnd <= r.invalEnd
    ensures r.invalStart == from - v.lineStart || (v.invalStart != -1 && r.invalStart == v.invalStart)
    ensures r.invalEnd == to - v.lineStart || (v.invalStart != -1 && r.invalEnd == v.invalEnd)
  {
    var fromCol := from - v.lineStart;
    var toCol := to - v.lineStart;
    if v.invalStart == -1 then v.(invalStart := fromCol, invalEnd := toCol)
    else v.(invalStart := Min(fromCol, v.invalStart), invalEnd := Max(toCol, v.invalEnd))
  }

  // ---------------------------------------------------------------------------
  // Redraw

  /** The columns available to the line; the line's length when the prompt
      is wider than the known terminal. */
  function MaxWidth(e: Editor): (w: int)
    ensures w >= 0
    ensures w == e.win.columns - e.win.ps1Width || (e.win.columns < e.win.ps1Width && w == |e.buf.line|)
  {
    if e.win.columns - e.win.ps1Width < 0 then |e.buf.line| else e.win.columns - e.win.ps1Width
  }

  /** `move_cursor_to_col`: one relative move from `cursorCol` to `col`, or
      none when they agree; `cursorCol` becomes `col`. */
  function MoveCursorToCol(e: Editor, col: int): (r: Editor)
    ensures r == e.(view := e.view.(cursorCol := col), queue := r.queue)
    ensures |e.queue| <= |r.queue| <= |e.queue| + 1 && r.queue[..|e.queue|] == e.queue
    ensures (col == e.view.cursorCol || !e.outputEnabled) <==> r.queue == e.queue
    ensures e.outputEnabled ==> e.view.cursorCol + Shift(r.queue[|e.queue|..]) == col
    ensures forall i :: |e.queue| <= i < |r.queue| ==>
      r.queue[i].WriteCmd? && (r.queue[i].out.CursorForward? || r.queue[i].out.CursorBack?)
  {
    var cc := e.view.cursorCol;
    if col < cc then
      var cols := cc - col;
      var r := Write(e, CursorBack(cols)).(view := e.view.(cursorCol := cc - cols));
      assert e.outputEnabled ==> r.queue[|e.queue|..] == [WriteCmd(CursorBack(cols))];
      r
    else if col > cc then
      var cols := col - cc;
      var r := Write(e, CursorForward(cols)).(view := e.view.(cursorCol := cc + cols));
      assert e.outputEnabled ==> r.queue[|e.queue|..] == [WriteCmd(CursorForward(cols))];
      r
    else e
  }

  /** The scrolling step of `redraw`: move `lineStart` so that the caret is
      visible in a viewport of `w` columns, damaging the whole viewport
      whenever it moves. */
  function Scroll(v: View, caret: int, w: int): (r: View)
    requires w >= 0
    ensures 0 <= caret - r.lineStart <= w
    ensures r.cursorCol == v.cursorCol
    ensures v.lineStart <= caret <= v.lineStart + w ==> r == v
    ensures r.lineStart != v.lineStart ==> Covers(r, r.lineStart, r.lineStart + w)
  {
    var v1 := if caret < v.lineStart then Invalidate(v.(lineStart := caret), caret, caret + w) else v;
    if caret - v1.lineStart > w then Invalidate(v1.(lineStart := caret - w), caret - w, caret)
    else v1
  }

  /** `redraw` up to the damage test: scroll, then clamp the region's end to
      the viewport. */
  function Clamp(e: Editor): (r: View)
    ensures r.invalEnd <= MaxWidth(e)
    ensures 0 <= e.buf.caret - r.lineStart <= MaxWidth(e)
    ensures r.cursorCol == e.view.cursorCol
  {
    var w := MaxWidth(e);
    var v := Scroll(e.view, e.buf.caret, w);
    v.(invalEnd := Min(w, v.invalEnd))
  }

  /** How many characters the redraw of a damaged region writes: the
      damaged width, cut short at the end of the line. */
  function WriteCols(e: Editor): (w: int)
    ensures w <= e.view.invalEnd - e.view.invalStart
    ensures w <= |e.buf.line| - e.view.lineStart - e.view.invalStart
    ensures w == e.view.invalEnd - e.view.invalStart || w == |e.buf.line| - e.view.lineStart - e.view.invalStart
  {
    Min(|e.buf.line| - e.view.lineStart - e.view.invalStart, e.view.invalEnd - e.view.invalStart)
  }

  /** The damaged part of `redraw`: go to the region's start, write what
      the line has there, erase the rest of the terminal line when fewer
      columns were written than were damaged, and forget the region. */
  function Flush(e: Editor): (r: Editor)
    requires e.view.invalStart < e.view.invalEnd
    ensures r.view == View(e.view.lineStart, e.view.invalStart + WriteCols(e), -1, -1)
    ensures r == e.(view := r.view, queue := r.queue)
    ensures |e.queue| <= |r.queue| && r.queue[..|e.queue|] == e.queue
    ensures !e.outputEnabled ==> r.queue == e.queue
  {
    var v := e.view;
    var e1 := MoveCursorToCol(e, v.invalStart);
    var writeCols := WriteCols(e);
    var startIdx := v.invalStart + v.lineStart;
    var e2 := Write(e1, Text(PySlice(e.buf.line, startIdx, startIdx + writeCols)));
    var e3 := if v.invalStart + writeCols < v.invalEnd then Write(e2, EraseInLine) else e2;
    e3.(view := View(v.lineStart, v.invalStart + writeCols, -1, -1))
  }

  /** `redraw`: the caret ends inside the viewport with the terminal cursor
      on it, and no damage is left. */
  function Redraw(e: Editor): (r: Editor)
    ensures var c := Clamp(e);
      && r.view.lineStart == c.lineStart
      && (c.invalStart < c.invalEnd ==> r.view.invalStart == -1 && r.view.invalEnd == -1)
      && (!(c.invalStart < c.invalEnd) ==> r.view.invalStart == c.invalStart && r.view.invalEnd == c.invalEnd)
    ensures 0 <= r.buf.caret - r.view.lineStart <= MaxWidth(e)
    ensures r.view.cursorCol == r.buf.caret - r.view.lineStart
    ensures !(r.view.invalStart < r.view.invalEnd)
    ensures r == e.(view := r.view, queue := r.queue)
    ensures |e.queue| <= |r.queue| && r.queue[..|e.queue|] == e.queue
    ensures !e.outputEnabled ==> r.queue == e.queue
  {
    var c := e.(view := Clamp(e));
    var f := if c.view.invalStart < c.view.invalEnd then Flush(c) else c;
    MoveCursorToCol(f, f.buf.caret - f.view.lineStart)
  }

  // ---------------------------------------------------------------------------
  // Window size, prompt and reset

  /** `get_cursor_location`: ask for a cursor-position report and queue the
      function that will receive it. */
  function GetCursorLocation(e: Editor, k: Continuation): (r: Editor)
    ensures e.outputEnabled ==>
      r.queue == e.queue + [WriteCmd(Text(REPORT_CURSOR_LOCATION)), InputCmd(k)]
    ensures !e.outputEnabled ==> r == e
    ensures r == e.(queue := r.queue)
  {
    if !e.outputEnabled then e
    else QueueInput(Write(e, Text(REPORT_CURSOR_LOCATION)), k)
  }

  /** `get_window_size`: probe the window size by moving far to the bottom
      right and asking where the cursor ended. */
  function GetWindowSize(e: Editor): (r: Editor)
    ensures e.outputEnabled ==>
      r.queue == e.queue + [WriteCmd(Text(REPORT_WINDOW_SIZE_1)), WriteCmd(Text(REPORT_CURSOR_LOCATION)),
                            InputCmd(Continuation.StoreWindowSize), WriteCmd(Text(REPORT_WINDOW_SIZE_2))]
    ensures !e.outputEnabled ==> r == e
    ensures r == e.(queue := r.queue)
  {
    if !e.outputEnabled then e
    else Write(GetCursorLocation(Write(e, Text(REPORT_WINDOW_SIZE_1)), Continuation.StoreWindowSize),
               Text(REPORT_WINDOW_SIZE_2))
  }

  /** `store_window_size`: record the reported size; redraw after a resize. */
  function StoreWindowSize(e: Editor, rows: int, cols: int): (r: Editor)
    ensures r.win == e.win.(rows := rows, columns := cols)
    ensures !e.win.resized ==> r == e.(win := r.win)
    ensures e.win.resized ==> r == Redraw(e.(win := r.win))
  {
    var e1 := e.(win := e.win.(rows := rows, columns := cols));
    if e1.win.resized then Redraw(e1) else e1
  }

  /** `store_ps1_width`: the prompt ends at the reported column. */
  function StorePs1Width(e: Editor, rows: int, cols: int): (r: Editor)
    ensures r.win == e.win.(ps1Width := cols) && r == e.(win := r.win)
  {
    e.(win := e.win.(ps1Width := cols))
  }

  /** `set_ps1`: a non-empty prompt is written and followed by a query of
      where it left the cursor. */
  function SetPs1(e: Editor, p: string): (r: Editor)
    ensures r.win == e.win.(ps1 := p)
    ensures e.outputEnabled && p != [] ==>
      r.queue == e.queue + [WriteCmd(Text(p)), WriteCmd(Text(REPORT_CURSOR_LOCATION)),
                            InputCmd(Continuation.StorePs1Width)]
    ensures !e.outputEnabled || p == [] ==> r.queue == e.queue
    ensures r == e.(win := r.win, queue := r.queue)
  {
    var e1 := e.(win := e.win.(ps1 := p));
    if p != [] then GetCursorLocation(Write(e1, Text(p)), Continuation.StorePs1Width) else e1
  }

  /** `reset(line, ps1)`: start a new line holding `line`, with no scroll,
      no damage and the prompt given (the current one when None); the
      queue is drained. */
  function Reset(e: Editor, line: string, ps1: Option<string>): (r: Editor)
    ensures r.buf == e.buf.(line := line, caret := 0)
    ensures r.view == View(0, 0, -1, -1)
    ensures r.dec == e.dec.(escSeq := [])
    ensures r.win == e.win.(ps1 := if ps1.Some? then ps1.value else e.win.ps1, ps1Width := 0, resized := false)
    ensures r.extra == e.extra.(text := [], inputWidth := 128)
    ensures r.queue == [] && r.outputEnabled == e.outputEnabled
    ensures var p := r.win.ps1;
      r.sink == e.sink + Effects(if e.outputEnabled && p != [] then
        e.queue + [WriteCmd(Text(p)), WriteCmd(Text(REPORT_CURSOR_LOCATION)), InputCmd(Continuation.StorePs1Width)]
        else e.queue, e.outputEnabled)
    ensures Inv(e) ==> Inv(r)
  {
    var e1 := e.(buf := e.buf.(line := line, caret := 0), dec := e.dec.(escSeq := []),
                 view := View(0, 0, -1, -1), win := e.win.(ps1Width := 0, resized := false),
                 extra := e.extra.(text := [], inputWidth := 128));
    var p := if ps1.None? then e.win.ps1 else ps1.value;
    Process(SetPs1(e1, p))
  }

  /** `handle_sigwinch`: only the flag is set. */
  function HandleSigwinch(e: Editor): (r: Editor)
    ensures r.win.resized && r == e.(win := e.win.(resized := true))
  {
    e.(win := e.win.(resized := true))
  }

  /** The fields as `readline.__init__` sets them before its calls. */
  function Unset(ps1: string, outputEnabled: bool): (r: Editor)
    ensures r.win == Window(0, 0, ps1, 0, false) && r.outputEnabled == outputEnabled
    ensures r.buf.overwrite == false && r.dec.state == Idle && !r.dec.touch
    ensures r.queue == [] && r.sink == []
  {
    Editor(Buffer([], 0, false), Decoding(Idle, [], [], [], false), View(0, 0, -1, -1),
           Window(0, 0, ps1, 0, false), Extras([], 0, 0), outputEnabled, [], [])
  }

  /** `readline.__init__`: optionally probe the window size, then
      `self.reset(ps1)`, which passes the prompt as the LINE argument, and
      finally `self.mouse = [0, 0, 0]`. The new editor's line is therefore
      the prompt, with the caret at its start. */
  function Initial(ps1: Option<string>, getSize: bool, outputEnabled: bool): (r: Editor)
    ensures Inv(r) && r.buf == Buffer(if ps1.Some? then ps1.value else [], 0, false)
    ensures r.win.ps1 == r.buf.line && r.dec.state == Idle && r.dec.mouse == [0, 0, 0]
    ensures r.view == View(0, 0, -1, -1) && r.queue == [] && r.outputEnabled == outputEnabled
  {
    var p := if ps1.Some? then ps1.value else [];
    var e0 := Unset(p, outputEnabled);
    var e1 := if getSize then GetWindowSize(e0) else e0;
    var e2 := Reset(e1, p, None);
    e2.(dec := e2.dec.(mouse := [0, 0, 0]))
  }

  // ---------------------------------------------------------------------------
  // process_char

  /** Install what an action left in the line state and carry out its
      request: `invalidate`, the write and drain of `eof`, or
      `process_input`, after which `csi_digit_R` clears the sequence. When
      `process_input`'s assertion fails, `process_char` catches it and the
      sequence stays. */
  function Perform(e: Editor, res: Result): (r: Editor)
    ensures r.buf == res.next.buf && r.win == e.win && r.extra == e.extra
    ensures r.outputEnabled == e.outputEnabled
    ensures !res.req.ResumeQuery? || e.queue == [] ==> r.dec == res.next.dec
    ensures res.req.Damage? ==> Covers(r.view, res.req.from, res.req.to)
    ensures !res.req.Damage? ==> r.view == e.view
    ensures res.req.NoRequest? || res.req.Damage? ==> r.queue == e.queue && r.sink == e.sink
    ensures res.req.EndWrite? ==>
      && r.queue == []
      && r.sink == e.sink + Effects(if e.outputEnabled then e.queue + [WriteCmd(Text(CRLF))] else e.queue, e.outputEnabled)
    ensures res.req.ResumeQuery? && e.queue != [] && e.queue[0].InputCmd? ==>
      r.dec == res.next.dec.(escSeq := []) && r.queue == [] && r.sink == e.sink + Effects(e.queue, e.outputEnabled)
    ensures res.req.ResumeQuery? && !(e.queue != [] && e.queue[0].InputCmd?) ==>
      r.dec == res.next.dec && r.queue == e.queue && r.sink == e.sink
  {
    var e1 := e.(buf := res.next.buf, dec := res.next.dec);
    match res.req
    case NoRequest => e1
    case Damage(from, to) => e1.(view := Invalidate(e1.view, from, to))
    case EndWrite => Process(Write(e1, Text(CRLF)))
    case ResumeQuery(rows, cols) =>
      match ProcessInput(e1, rows, cols)
      case None => e1
      case Some(e2) => e2.(dec := e2.dec.(escSeq := []))
  }

  /** Run the action a table entry names on the editor: the buffer is the
      routine's, the window and extras are kept, the routine's value is
      returned, and a routine that returns nothing keeps the invariant. */
  function Run(e: Editor, a: Action): (r: (Editor, Return))
    requires Inv(e)
    ensures r.0.buf == Act(LineStateOf(e), a).next.buf && r.0.win == e.win && r.0.extra == e.extra
    ensures r.1 == Act(LineStateOf(e), a).ret
    ensures r.1.NoValue? ==> Inv(r.0)
  {
    var res := Act(LineStateOf(e), a);
    (Perform(e, res), res.ret)
  }

  /** `process_char`: look the byte up in the current table and run the
      action; unless it raised, redraw (when output is enabled), and when it
      returned a value end the line and return that value; drain the queue.
      What it does to the line state is `KeyStep`, whenever no query was
      pending (between two steps the queue is always empty). */
  function Step(e: Editor, b: byte): (r: (Editor, Outcome))
    requires Inv(e)
    ensures Inv(r.0)
    ensures r.0.queue == []
    ensures var k := KeyStep(LineStateOf(e), b);
      && r.1 == k.1 && r.0.buf == k.0.buf
      && (e.queue == [] ==> r.0.dec == k.0.dec)
  {
    var e0 := e.(extra := e.extra.(prevLineLen := |e.buf.line|));
    var (e1, ret) := Run(e0, Lookup(e.dec.state, b));
    if ret.RaisedEof? then (e1, EndOfInput)
    else (Settle(e1, ret), if ret.Value? then Completed(ret.s) else Pending)
  }

  /** The rest of `process_char` once the routine has returned without
      raising: redraw (when output is enabled), record the line as
      `string`, end the line when a value was returned, and drain the
      queue. */
  function Settle(e: Editor, ret: Return): (r: Editor)
    requires !ret.RaisedEof?
    ensures r.queue == [] && r.dec == e.dec && r.outputEnabled == e.outputEnabled
    ensures r.buf == if ret.Value? then e.buf.(line := [], caret := 0) else e.buf
    ensures r.extra.text == e.buf.line + (if ret.Value? then "\n" else [])
    ensures var d := if e.outputEnabled then Redraw(e) else e;
      && r.view == d.view
      && r.sink == e.sink + Effects(if ret.Value? && e.outputEnabled then d.queue + [WriteCmd(Text(CRLF))] else d.queue,
                                    e.outputEnabled)
  {
    var e2 := if e.outputEnabled then Redraw(e) else e;
    var e3 := e2.(extra := e2.extra.(text := e2.buf.line));
    var e4 :=
      if ret.Value? then
        var w := Write(e3.(extra := e3.extra.(text := e3.extra.text + "\n")), Text(CRLF));
        w.(buf := w.buf.(line := [], caret := 0))
      else e3;
    Process(e4)
  }

  /** `process_char` over each byte in turn, collecting what each returned;
      an end of input stops the run, as the exception would. */
  function Feed(e: Editor, bs: seq<byte>): (r: (Editor, seq<Outcome>))
    requires Inv(e)
    ensures Inv(r.0)
    decreases |bs|
  {
    if bs == [] then (e, [])
    else
      var s := Step(e, bs[0]);
      if s.1.EndOfInput? then (s.0, [s.1])
      else
        var rest := Feed(s.0, bs[1..]);
        (rest.0, [s.1] + rest.1)
  }

  /** One more byte of a run: if `total` is what was collected so far,
      `outs`, followed by the run from `e` over `rest`, then after the step
      from `e` it is `outs` and that step's outcome followed by the run over
      the rest of `rest`, or just that when the step ended the input. */
  lemma {:induction false} FeedAdvance(total: (Editor, seq<Outcome>), outs: seq<Outcome>, e: Editor,
                                       rest: seq<byte>, next: Editor, o: Outcome)
    requires Inv(e) && rest != [] && Step(e, rest[0]) == (next, o)
    requires total == (Feed(e, rest).0, outs + Feed(e, rest).1)
    ensures Inv(next)
    ensures o.EndOfInput? ==> total == (next, outs + [o])
    ensures !o.EndOfInput? ==> total == (Feed(next, rest[1..]).0, (outs + [o]) + Feed(next, rest[1..]).1)
  {
    if !o.EndOfInput? {
      assert outs + ([o] + Feed(next, rest[1..]).1) == (outs + [o]) + Feed(next, rest[1..]).1;
    }
  }
}
