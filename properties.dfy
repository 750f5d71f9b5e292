/** Properties of the whole editor: `process_char` does to the line state
    exactly what `KeyStep` does (so every result of module KeyProperties
    holds of it), a report never finds its query, and what redraw, reset
    and construction send to the terminal. */
module EditorProperties {
  import opened Text
  import opened Terminal
  import opened Decoder
  import opened Actions
  import opened LineEditor
  import KeyProperties

  // ---------------------------------------------------------------------------
  // process_char and the line state

  /** Running `process_char` over a byte sequence, from an editor with no
      pending query, returns what `KeyFeed` returns and leaves the line
      state it leaves; the queue is empty afterwards. */
  lemma {:induction false} FeedLineState(e: Editor, bs: seq<byte>)
    requires Inv(e) && e.queue == []
    ensures var r := Feed(e, bs); var k := KeyFeed(LineStateOf(e), bs);
      LineStateOf(r.0) == k.0 && r.1 == k.1 && r.0.queue == []
    decreases |bs|
  {
    if bs != [] {
      var st := Step(e, bs[0]);
      if !st.1.EndOfInput? {
        FeedLineState(st.0, bs[1..]);
      }
    }
  }

  /** Between two bytes the queue is empty, so a report never finds the
      query it answers: `csi_digit_R` only returns to idle (the assertion
      in `process_input` fails and is caught). */
  lemma {:induction false} ReplyWithoutQuery(e: Editor)
    requires Inv(e) && e.queue == []
    ensures Run(e, Action.CsiDigitR) == (e.(dec := e.dec.(state := Idle)), NoValue)
  {
  }

  /** `reset` clears the sequence text but keeps the decoder's table, so an
      editor reset in the middle of ESC [ n keeps collecting parameters; '3'
      and '~' then reach the dispatch of `csi_digit_tilde` and delete. */
  lemma {:induction false} ResetMidSequence(e: Editor, line: string)
    requires Inv(e) && e.dec.state == CsiDigit && line != []
    ensures var r := Feed(Reset(e, line, None), [0x33, KEY_TILDE]);
      r.0.buf.line == line[1..] && r.0.buf.caret == 0 && r.0.dec.state == Idle && r.1 == [Pending, Pending]
  {
    var e1 := Reset(e, line, None);
    FeedLineState(e1, [0x33, KEY_TILDE]);
    KeyProperties.ClearedSequenceDeletes(LineStateOf(e1));
    var l' := Actions.Delete(LineStateOf(e1)).next.buf.line;
    assert l' == l'[..0] + l'[0..];
  }

  // ---------------------------------------------------------------------------
  // Damage and redraw

  /** `invalidate(2, 5)` then `invalidate(0, 3)` on an empty region with no
      scroll damages [0, 5). */
  lemma {:induction false} InvalidateWidens(v: View)
    requires v.invalStart == -1 && v.lineStart == 0
    ensures var r := Invalidate(Invalidate(v, 2, 5), 0, 3);
      r.invalStart == 0 && r.invalEnd == 5
  {
  }

  /** What a flush adds to the queue: the cursor moves to the region's
      start, the slice of the line shown there, and an erase when fewer
      columns were written than were damaged. */
  lemma {:induction false} FlushQueue(e: Editor)
    requires e.view.invalStart < e.view.invalEnd && e.outputEnabled
    ensures var mv := MoveCursorToCol(e, e.view.invalStart).queue[|e.queue|..];
      var w := WriteCols(e);
      var start := e.view.invalStart + e.view.lineStart;
      var txt := WriteCmd(Text(PySlice(e.buf.line, start, start + w)));
      Flush(e).queue[|e.queue|..] ==
        mv + (if w < e.view.invalEnd - e.view.invalStart then [txt, WriteCmd(EraseInLine)] else [txt])
  {
    var e1 := MoveCursorToCol(e, e.view.invalStart);
    var mv := e1.queue[|e.queue|..];
    assert e1.queue == e.queue + mv;
  }

  /** The text written for a damaged region, and whether the line is
      erased after it. */
  lemma {:induction false} FlushOutput(e: Editor)
    requires e.view.invalStart < e.view.invalEnd && e.outputEnabled
    ensures var out := Flush(e).queue[|e.queue|..];
      && (WriteCmd(EraseInLine) in out <==> WriteCols(e) < e.view.invalEnd - e.view.invalStart)
      && exists k :: 0 <= k < |out| && out[k].WriteCmd? && out[k].out.Text?
  {
    FlushQueue(e);
    var mv := MoveCursorToCol(e, e.view.invalStart).queue[|e.queue|..];
    assert WriteCmd(EraseInLine) !in mv;
    var out := Flush(e).queue[|e.queue|..];
    assert out[|mv|].WriteCmd? && out[|mv|].out.Text?;
  }

  /** When the damaged region lies within the line, `cursorCol` follows the
      terminal's cursor through a flush: the moves and the text written add
      up to the change of `cursorCol`. */
  lemma {:induction false} FlushTracksCursor(e: Editor)
    requires e.view.invalStart < e.view.invalEnd && e.outputEnabled
    requires 0 <= e.view.invalStart + e.view.lineStart <= |e.buf.line|
    ensures e.view.cursorCol + Shift(Flush(e).queue[|e.queue|..]) == Flush(e).view.cursorCol
  {
    FlushQueue(e);
    var w := WriteCols(e);
    var start := e.view.invalStart + e.view.lineStart;
    var slice := PySlice(e.buf.line, start, start + w);
    assert |slice| == w;
    var mv := MoveCursorToCol(e, e.view.invalStart).queue[|e.queue|..];
    var tail := if w < e.view.invalEnd - e.view.invalStart then [WriteCmd(Text(slice)), WriteCmd(EraseInLine)]
                else [WriteCmd(Text(slice))];
    ShiftAppend(mv, tail);
    if w < e.view.invalEnd - e.view.invalStart {
      assert tail[1..] == [WriteCmd(EraseInLine)];
      assert [WriteCmd(EraseInLine)][1..] == [];
    }
  }

  /** The same for a whole redraw: when the region left after scrolling lies
      within the line (or is empty), the terminal's cursor ends on the caret
      column that `cursorCol` records. */
  lemma {:induction false} RedrawTracksCursor(e: Editor)
    requires e.outputEnabled
    requires var c := Clamp(e);
      c.invalStart < c.invalEnd ==> 0 <= c.invalStart + c.lineStart <= |e.buf.line|
    ensures e.view.cursorCol + Shift(Redraw(e).queue[|e.queue|..]) == Redraw(e).view.cursorCol
  {
    var c := e.(view := Clamp(e));
    var f := if c.view.invalStart < c.view.invalEnd then Flush(c) else c;
    var r := Redraw(e);
    var a := f.queue[|e.queue|..];
    var b := r.queue[|f.queue|..];
    if c.view.invalStart < c.view.invalEnd {
      FlushTracksCursor(c);
    } else {
      assert a == [];
    }
    assert e.view.cursorCol + Shift(a) == f.view.cursorCol;
    assert f.view.cursorCol + Shift(b) == r.view.cursorCol;
    assert r.queue[|e.queue|..] == a + b;
    ShiftAppend(a, b);
  }

  /** With no window size known (0 columns, prompt width 0) the viewport is
      0 columns wide, so the caret is kept in the first visible column. */
  lemma {:induction false} UnknownWindowScrolls(e: Editor)
    requires e.win.columns == 0 && e.win.ps1Width == 0
    ensures MaxWidth(e) == 0 && Redraw(e).view.lineStart == e.buf.caret
  {
  }

  /** An editor with no known window size (0 columns, prompt width 0),
      output enabled, idle, holding `line` with the caret at its end. */
  function Unsized(line: string, v: View, x: Extras, sink: seq<Event>): Editor
  {
    Editor(Buffer(line, |line|, false), Decoding(Idle, [], [0, 0, 0], [], false), v,
           Window(0, 0, [], 0, false), x, true, [], sink)
  }

  /** A fresh editor with no prompt, whose size was not asked for, is such
      an editor, empty. */
  lemma {:induction false} FreshIsUnsized()
    ensures Initial(None, false, true) == Unsized([], View(0, 0, -1, -1), Extras([], 0, 128), [])
  {
  }

  /** With a 0-column viewport each typed character scrolls the line by one;
      the damaged region is left at (0, 0) and nothing is written. From a
      fresh editor (`FreshIsUnsized`), "a", "b" and "c" are three such
      steps, after which Ctrl-U (`ClearThenSettle`) leads to the redraw of
      `CtrlURedrawDesync`. */
  lemma {:induction false} TypeUnsized(l: string, v: View, b: byte, t: string, p: int, w: int)
    requires KeyProperties.Plain(b)
    requires v == View(|l|, 0, -1, -1) || v == View(|l|, 0, 0, 0)
    ensures var l' := l + [CharOf(b)];
      Step(Unsized(l, v, Extras(t, p, w), []), b) == (Unsized(l', View(|l'|, 0, 0, 0), Extras(l', |l|, w), []), Pending)
  {
    var e := Unsized(l, v, Extras(t, p, w), []);
    var l' := l + [CharOf(b)];
    assert Lookup(Idle, b) == Wildcard(Idle, b);
    var res := Actions.TypedChar(LineStateOf(e), b);
    assert l'[..|l|] == l;
    assert res == Result(LineState(Buffer(l', |l'|, false), e.dec), Damage(|l|, |l'|), NoValue);
    var e1 := Unsized(l', View(|l|, 0, 0, 1), Extras(t, |l|, w), []);
    assert Perform(e.(extra := Extras(t, |l|, w)), res) == e1;
    assert MaxWidth(e1) == 0;
    assert Clamp(e1) == View(|l'|, 0, 0, 0);
    assert Redraw(e1) == e1.(view := View(|l'|, 0, 0, 0));
    assert Settle(e1, NoValue) == Process(e1.(view := View(|l'|, 0, 0, 0), extra := Extras(l', |l|, w)));
  }

  /** Ctrl-U with the caret at the end of a line of n >= 2 characters that
      starts the 0-column viewport, as `TypeUnsized` leaves it: the line is
      emptied and [0, n) damaged, which `invalidate` stores relative to the
      scroll as columns -n to 0; nothing is returned, so `process_char`
      goes on to settle. */
  lemma {:induction false} ClearThenSettle(l: string, t: string, p: int, w: int)
    requires |l| > 1
    ensures Step(Unsized(l, View(|l|, 0, 0, 0), Extras(t, p, w), []), CTRL_U)
         == (Settle(Unsized([], View(|l|, 0, -|l|, 0), Extras(t, |l|, w), []), NoValue), Pending)
  {
    var e := Unsized(l, View(|l|, 0, 0, 0), Extras(t, p, w), []);
    assert Lookup(Idle, CTRL_U) == Action.ClearBeforeCursor;
    var res := Actions.ClearBeforeCursor(LineStateOf(e));
    assert res == Result(LineState(Buffer([], 0, false), e.dec), Damage(0, |l|), NoValue);
    assert Perform(e.(extra := Extras(t, |l|, w)), res) == Unsized([], View(|l|, 0, -|l|, 0), Extras(t, |l|, w), []);
  }

  /** The rest of `process_char` after that Ctrl-U: the redraw of
      `CtrlURedrawDesync`, drained to the terminal, which receives a move n
      columns back and an empty text. */
  lemma {:induction false} SettleAfterClear(n: int, t: string, w: int)
    requires n > 1
    ensures Settle(Unsized([], View(n, 0, -n, 0), Extras(t, n, w), []), NoValue)
         == Unsized([], View(0, 0, -1, -1), Extras([], n, w), [Emit(CursorBack(n)), Emit(Text([]))])
  {
    var e := Unsized([], View(n, 0, -n, 0), Extras(t, n, w), []);
    var cmds := [WriteCmd(CursorBack(n)), WriteCmd(Text([]))];
    CtrlURedrawDesync(n, Extras(t, n, w));
    assert Effects(cmds, true) == [Emit(CursorBack(n)), Emit(Text([]))] by {
      assert cmds[1..] == [WriteCmd(Text([]))] && cmds[1..][1..] == [];
    }
    assert Settle(e, NoValue) == Process(e.(view := View(0, 0, -1, -1), queue := cmds, extra := Extras([], n, w)));
  }

  /** As written, `redraw` loses track of the terminal cursor after Ctrl-U
      on a scrolled line (`TypeUnsized`, `ClearThenSettle`): the scroll
      back to column 0 keeps the region's start at -n, so the flush moves
      the cursor n columns back, writes `line[-n:0]`, which is empty, and
      still advances `cursor_col` by n, to 0. The terminal cursor ends n columns left of
      where it was while `cursor_col` says it has not moved. (For n = 1 the
      start -1 reads as the "no damage" sentinel and nothing is written.) */
  lemma {:induction false} CtrlURedrawDesync(n: int, x: Extras)
    requires n > 1
    ensures var e := Unsized([], View(n, 0, -n, 0), x, []);
      var r := Redraw(e);
      && r == e.(view := View(0, 0, -1, -1), queue := [WriteCmd(CursorBack(n)), WriteCmd(Text([]))])
      && e.view.cursorCol + Displacement(CursorBack(n)) + Displacement(Text([])) != r.view.cursorCol
  {
    var e := Unsized([], View(n, 0, -n, 0), x, []);
    var c := e.(view := View(0, 0, -n, 0));
    assert Clamp(e) == c.view by {
      assert MaxWidth(e) == 0;
      assert Invalidate(View(0, 0, -n, 0), 0, 0) == View(0, 0, -n, 0);
      assert Scroll(e.view, 0, 0) == View(0, 0, -n, 0);
    }
    assert WriteCols(c) == n;
    assert PySlice([], -n, 0) == [];
    assert MoveCursorToCol(c, -n) == c.(view := View(0, -n, -n, 0), queue := [WriteCmd(CursorBack(n))]);
  }

  // ---------------------------------------------------------------------------
  // Draining the queue

  /** `reset` drains what was queued before it, then sends the prompt and
      the query of where it left the cursor, and waits for the reply. */
  lemma {:induction false} ResetSends(e: Editor, line: string, ps1: Option<string>)
    requires e.outputEnabled
    ensures var p := if ps1.Some? then ps1.value else e.win.ps1;
      Reset(e, line, ps1).sink == e.sink + Effects(e.queue, true) + (if p != [] then PromptProbe(p) else [])
  {
    var p := if ps1.Some? then ps1.value else e.win.ps1;
    if p != [] {
      var ps := [WriteCmd(Text(p)), WriteCmd(Text(REPORT_CURSOR_LOCATION)), InputCmd(Continuation.StorePs1Width)];
      EffectsAppend(e.queue, ps, true);
      ProbeEffects(ps, PromptProbe(p));
    }
  }

  /** A completed line is followed on the terminal by CRLF, after whatever
      the redraw sent. */
  lemma {:induction false} LineEndsWithCrlf(e: Editor, s: string)
    requires e.outputEnabled
    ensures Settle(e, Value(s)).sink == e.sink + Effects(Redraw(e).queue, true) + [Emit(Text(CRLF))]
  {
    EffectsAppend(Redraw(e).queue, [WriteCmd(Text(CRLF))], true);
    ProbeEffects([WriteCmd(Text(CRLF))], [Emit(Text(CRLF))]);
  }

  /** `eof` on an empty line writes CRLF and drains the queue before it
      raises: the pending entries, then CRLF, reach the terminal. */
  lemma {:induction false} EofWritesCrlf(e: Editor)
    requires Inv(e) && e.outputEnabled && e.buf.line == []
    ensures var r := Perform(e, Actions.Eof(LineStateOf(e)));
      r.queue == [] && r.sink == e.sink + Effects(e.queue, true) + [Emit(Text(CRLF))]
  {
    EffectsAppend(e.queue, [WriteCmd(Text(CRLF))], true);
    ProbeEffects([WriteCmd(Text(CRLF))], [Emit(Text(CRLF))]);
  }

  // ---------------------------------------------------------------------------
  // Construction

  /** With output enabled a new editor has sent the size probe (when asked
      to) and the prompt with its cursor query (when there is a prompt);
      with output disabled nothing has been sent or awaited. */
  lemma {:induction false} InitialOutput(ps1: string, getSize: bool, outputEnabled: bool)
    ensures var e := Initial(Some(ps1), getSize, outputEnabled);
      && (outputEnabled ==>
            e.sink == (if getSize then SizeProbe() else []) + (if ps1 != [] then PromptProbe(ps1) else []))
      && (!outputEnabled ==> e.sink == [])
  {
    var e0 := Unset(ps1, outputEnabled);
    var e1 := if getSize then GetWindowSize(e0) else e0;
    var e2 := e1.(buf := e1.buf.(line := ps1, caret := 0), dec := e1.dec.(escSeq := []),
                  view := View(0, 0, -1, -1), win := e1.win.(ps1Width := 0, resized := false),
                  extra := e1.extra.(text := [], inputWidth := 128));
    var q := SetPs1(e2, ps1).queue;
    assert Initial(Some(ps1), getSize, outputEnabled).sink == Effects(q, outputEnabled);
    if outputEnabled {
      var ws := if getSize then [WriteCmd(Text(REPORT_WINDOW_SIZE_1)), WriteCmd(Text(REPORT_CURSOR_LOCATION)),
                                 InputCmd(Continuation.StoreWindowSize), WriteCmd(Text(REPORT_WINDOW_SIZE_2))]
               else [];
      var ps := if ps1 != [] then [WriteCmd(Text(ps1)), WriteCmd(Text(REPORT_CURSOR_LOCATION)),
                                   InputCmd(Continuation.StorePs1Width)]
                else [];
      assert q == ws + ps;
      EffectsAppend(ws, ps, true);
      if getSize {
        ProbeEffects(ws, SizeProbe());
      }
      if ps1 != [] {
        ProbeEffects(ps, PromptProbe(ps1));
      }
    } else {
      assert q == [];
    }
  }

  /** With output enabled, a queue sends and awaits its entries in order. */
  lemma {:induction false} ProbeEffects(cmds: seq<Cmd>, events: seq<Event>)
    requires |cmds| == |events| && forall i :: 0 <= i < |cmds| ==> events[i] == EventOf(cmds[i])
    ensures Effects(cmds, true) == events
  {
    EffectsEnabled(cmds);
  }

  /** What the window-size probe sends and waits for. */
  function SizeProbe(): seq<Event>
  {
    [Emit(Text(REPORT_WINDOW_SIZE_1)), Emit(Text(REPORT_CURSOR_LOCATION)),
     AwaitReply(Continuation.StoreWindowSize), Emit(Text(REPORT_WINDOW_SIZE_2))]
  }

  /** What setting a non-empty prompt sends and waits for. */
  function PromptProbe(ps1: string): seq<Event>
  {
    [Emit(Text(ps1)), Emit(Text(REPORT_CURSOR_LOCATION)), AwaitReply(Continuation.StorePs1Width)]
  }
}
