/** The `readline` object itself: its fields, updated in place by its
    methods, and the `CmdWriteQueue` it owns. Every method is proved to do
    to `State()` what the function of the same name in module LineEditor
    does to an `Editor`, so the properties proved there hold of it. */
module Console {
  import opened Text
  import opened Terminal
  import opened Decoder
  import opened Actions
  import opened LineEditor

  /** The routines that edit the line or move the caret within it. */
  predicate LineRoutine(a: Action)
  {
    || a.Home? || a.Cancel? || a.Eof? || a.End? || a.ClearBeforeCursor? || a.Backspace?
    || a.LineComplete? || a.TypedChar? || a.RightArrow? || a.LeftArrow?
  }

  /** The object's attributes are kept in five record-valued fields, one per
      component of an `Editor`: `buf` holds `line`, `caret` and `overwrite`;
      `dec` holds `state`, `esc_seq` and the mouse fields; `view` holds
      `line_start`, `cursor_col`, `inval_start` and `inval_end`; `win` holds
      `rows`, `columns`, `ps1`, `ps1_width` and `resized`; `extra` holds
      `string`, `prev_line_len` and `input_width`. A method that sets an
      attribute reassigns the field that holds it. */
  class Readline {
    var buf: Buffer
    var dec: Decoding
    var view: View
    var win: Window
    var extra: Extras
    /** The negation of the global `FBO` flag. */
    const outputEnabled: bool
    const writeQueue: CmdWriteQueue

    /** The object as an `Editor` value. */
    function State(): Editor
      reads this, writeQueue
    {
      Editor(buf, dec, view, win, extra, outputEnabled, writeQueue.queue, writeQueue.sink)
    }

    /** The queue writes to the same terminal the object does. */
    ghost predicate Linked()
      reads this, writeQueue
    {
      writeQueue.outputEnabled == outputEnabled
    }

    ghost predicate Valid()
      reads this, writeQueue
    {
      Linked() && Inv(State())
    }

    /** `readline.__init__`. */
    constructor (ps1: Option<string>, getSize: bool, outputEnabled: bool)
      ensures Valid() && fresh(writeQueue)
      ensures State() == Initial(ps1, getSize, outputEnabled)
    {
      var p := if ps1.Some? then ps1.value else [];
      buf := Buffer([], 0, false);
      dec := Decoding(Idle, [], [], [], false);
      view := View(0, 0, -1, -1);
      win := Window(0, 0, p, 0, false);
      extra := Extras([], 0, 0);
      this.outputEnabled := outputEnabled;
      writeQueue := new CmdWriteQueue(outputEnabled);
      new;
      assert State() == Unset(p, outputEnabled);
      if getSize {
        GetWindowSize();
      }
      ghost var e1 := State();
      Reset(p, None);
      assert State() == LineEditor.Reset(e1, p, None);
      dec := dec.(mouse := [0, 0, 0]);
    }

    // -------------------------------------------------------------------------
    // Output

    /** `write`. */
    method Write(o: Output)
      requires Linked()
      modifies writeQueue
      ensures State() == LineEditor.Write(old(State()), o)
    {
      if outputEnabled {
        writeQueue.Write(o);
      }
    }

    /** `erase_line_from_cursor`. */
    method EraseLineFromCursor()
      requires Linked()
      modifies writeQueue
      ensures State() == LineEditor.Write(old(State()), EraseInLine)
    {
      Write(EraseInLine);
    }

    /** `move_cursor_to_col`. */
    method MoveCursorToCol(col: int)
      requires Linked()
      modifies this, writeQueue
      ensures State() == LineEditor.MoveCursorToCol(old(State()), col)
    {
      if col < view.cursorCol {
        var cols := view.cursorCol - col;
        Write(CursorBack(cols));
        view := view.(cursorCol := view.cursorCol - cols);
      } else if col > view.cursorCol {
        var cols := col - view.cursorCol;
        Write(CursorForward(cols));
        view := view.(cursorCol := view.cursorCol + cols);
      }
    }

    /** `invalidate`. */
    method Invalidate(from: int, to: int)
      modifies this
      ensures State() == old(State()).(view := LineEditor.Invalidate(old(State()).view, from, to))
    {
      var fromCol := from - view.lineStart;
      var toCol := to - view.lineStart;
      if view.invalStart == -1 {
        view := view.(invalStart := fromCol, invalEnd := toCol);
      } else {
        view := view.(invalStart := Min(fromCol, view.invalStart), invalEnd := Max(toCol, view.invalEnd));
      }
    }

    /** `redraw`. */
    method Redraw()
      requires Linked()
      modifies this, writeQueue
      ensures State() == LineEditor.Redraw(old(State()))
    {
      var maxWidth := win.columns - win.ps1Width;
      if maxWidth < 0 {
        maxWidth := |buf.line|;
      }
      ScrollToCaret(maxWidth);
      ghost var c := State();
      if view.invalStart < view.invalEnd {
        FlushDamage();
      }
      assert State() == if c.view.invalStart < c.view.invalEnd then Flush(c) else c;
      MoveCursorToCol(buf.caret - view.lineStart);
    }

    /** The first part of `redraw`: scroll so that the caret is visible in a
        viewport of `maxWidth` columns and clamp the damage to it. */
    method ScrollToCaret(maxWidth: int)
      requires maxWidth == MaxWidth(State())
      modifies this
      ensures State() == old(State()).(view := Clamp(old(State())))
    {
      if buf.caret < view.lineStart {
        view := view.(lineStart := buf.caret);
        Invalidate(view.lineStart, view.lineStart + maxWidth);
      }
      if buf.caret - view.lineStart > maxWidth {
        view := view.(lineStart := buf.caret - maxWidth);
        Invalidate(view.lineStart, view.lineStart + maxWidth);
      }
      view := view.(invalEnd := Min(maxWidth, view.invalEnd));
    }

    /** The damaged part of `redraw`. */
    method FlushDamage()
      requires Linked() && view.invalStart < view.invalEnd
      modifies this, writeQueue
      ensures State() == Flush(old(State()))
    {
      MoveCursorToCol(view.invalStart);
      var lineEndCol := |buf.line| - view.lineStart;
      var writeCols := Min(lineEndCol - view.invalStart, view.invalEnd - view.invalStart);
      var startIdx := view.invalStart + view.lineStart;
      Write(Text(PySlice(buf.line, startIdx, startIdx + writeCols)));
      view := view.(cursorCol := view.cursorCol + writeCols, invalStart := view.invalStart + writeCols);
      if view.invalStart < view.invalEnd {
        EraseLineFromCursor();
      }
      view := view.(invalStart := -1, invalEnd := -1);
    }

    // -------------------------------------------------------------------------
    // Window size, prompt and reset

    /** `get_cursor_location`. */
    method GetCursorLocation(k: Continuation)
      requires Linked()
      modifies writeQueue
      ensures State() == LineEditor.GetCursorLocation(old(State()), k)
    {
      if !outputEnabled {
        return;
      }
      Write(Text(REPORT_CURSOR_LOCATION));
      writeQueue.QueueInput(k);
    }

    /** `get_window_size`. */
    method GetWindowSize()
      requires Linked()
      modifies writeQueue
      ensures State() == LineEditor.GetWindowSize(old(State()))
    {
      if !outputEnabled {
        return;
      }
      Write(Text(REPORT_WINDOW_SIZE_1));
      GetCursorLocation(Continuation.StoreWindowSize);
      Write(Text(REPORT_WINDOW_SIZE_2));
    }

    /** `store_window_size`. */
    method StoreWindowSize(rows: int, cols: int)
      requires Linked()
      modifies this, writeQueue
      ensures State() == LineEditor.StoreWindowSize(old(State()), rows, cols)
    {
      win := win.(rows := rows, columns := cols);
      if win.resized {
        Redraw();
      }
    }

    /** `set_ps1`. */
    method SetPs1(p: string)
      requires Linked()
      modifies this, writeQueue
      ensures State() == LineEditor.SetPs1(old(State()), p)
    {
      win := win.(ps1 := p);
      if p != [] {
        Write(Text(p));
        GetCursorLocation(Continuation.StorePs1Width);
      }
    }

    /** `store_ps1_width`. */
    method StorePs1Width(rows: int, cols: int)
      modifies this
      ensures State() == LineEditor.StorePs1Width(old(State()), rows, cols)
    {
      win := win.(ps1Width := cols);
    }

    /** `reset(line, ps1)`. */
    method Reset(line: string, ps1: Option<string>)
      requires Linked()
      modifies this, writeQueue
      ensures State() == LineEditor.Reset(old(State()), line, ps1)
    {
      extra := extra.(text := [], inputWidth := 128);
      buf := buf.(line := line, caret := 0);
      dec := dec.(escSeq := []);
      view := View(0, 0, -1, -1);
      win := win.(ps1Width := 0, resized := false);
      var p := if ps1.None? then win.ps1 else ps1.value;
      SetPs1(p);
      writeQueue.Process();
    }

    /** `handle_sigwinch`. */
    method HandleSigwinch()
      modifies this
      ensures State() == LineEditor.HandleSigwinch(old(State()))
    {
      win := win.(resized := true);
    }

    // -------------------------------------------------------------------------
    // Line-buffer edits

    /** `typed_char`. */
    method TypedChar(b: byte)
      requires Valid()
      modifies this
      ensures State() == Perform(old(State()), Actions.TypedChar(old(LineStateOf(State())), b))
    {
      var line := buf.line;
      var caret := buf.caret;
      var tail := if buf.overwrite then (if caret + 1 <= |line| then line[caret + 1..] else []) else line[caret..];
      buf := buf.(line := line[..caret] + [CharOf(b)] + tail);
      Invalidate(caret, |buf.line|);
      buf := buf.(caret := caret + 1);
    }

    /** `backspace`. */
    method Backspace()
      requires Valid()
      modifies this
      ensures State() == Perform(old(State()), Actions.Backspace(old(LineStateOf(State()))))
    {
      if buf.caret > 0 {
        var oldLineLen := |buf.line|;
        buf := buf.(line := buf.line[..buf.caret - 1] + buf.line[buf.caret..], caret := buf.caret - 1);
        Invalidate(buf.caret, oldLineLen);
      }
    }

    /** `delete`, which `eof` and `csi_digit_tilde` call. */
    method Delete()
      requires Valid()
      modifies this
      ensures State() == Perform(old(State()), Actions.Delete(LineStateOf(old(State()))))
    {
      if buf.caret < |buf.line| {
        var oldLineLen := |buf.line|;
        buf := buf.(line := buf.line[..buf.caret] + buf.line[buf.caret + 1..]);
        Invalidate(buf.caret, oldLineLen);
      }
    }

    /** `clear_before_cursor`. */
    method ClearBeforeCursor()
      requires Valid()
      modifies this
      ensures State() == Perform(old(State()), Actions.ClearBeforeCursor(old(LineStateOf(State()))))
    {
      var oldLineLen := |buf.line|;
      buf := buf.(line := buf.line[buf.caret..], caret := 0);
      Invalidate(0, oldLineLen);
    }

    /** `cancel`. */
    method Cancel() returns (s: string)
      requires Valid()
      modifies this
      ensures State() == Perform(old(State()), Actions.Cancel(old(LineStateOf(State()))))
      ensures Value(s) == Actions.Cancel(old(LineStateOf(State()))).ret
    {
      buf := buf.(line := []);
      s := buf.line;
    }

    /** `eof`: `raised` stands for the `EOFError`. */
    method Eof() returns (raised: bool)
      requires Valid()
      modifies this, writeQueue
      ensures State() == Perform(old(State()), Actions.Eof(old(LineStateOf(State()))))
      ensures (if raised then RaisedEof else NoValue) == Actions.Eof(old(LineStateOf(State()))).ret
    {
      if |buf.line| == 0 {
        Write(Text(CRLF));
        writeQueue.Process();
        return true;
      }
      Delete();
      raised := false;
    }

    /** `line_complete`. */
    method LineComplete() returns (s: string)
      requires Valid()
      ensures Value(s) == Actions.LineComplete(LineStateOf(State())).ret
    {
      s := buf.line;
    }

    /** `insert`. */
    method Insert()
      requires Valid()
      modifies this
      ensures LineStateOf(State()) == Actions.Insert(LineStateOf(old(State())))
      ensures State() == old(State()).(buf := State().buf)
    {
      buf := buf.(overwrite := !buf.overwrite);
    }

    // -------------------------------------------------------------------------
    // Caret movement

    /** `home`. */
    method Home()
      requires Valid()
      modifies this
      ensures State() == Perform(old(State()), Result(Actions.Home(old(LineStateOf(State()))), NoRequest, NoValue))
    {
      buf := buf.(caret := 0);
      dec := dec.(state := Idle);
    }

    /** `end`. */
    method End()
      requires Valid()
      modifies this
      ensures State() == Perform(old(State()), Result(Actions.End(old(LineStateOf(State()))), NoRequest, NoValue))
    {
      buf := buf.(caret := |buf.line|);
      dec := dec.(state := Idle);
    }

    /** `left_arrow`. */
    method LeftArrow()
      requires Valid()
      modifies this
      ensures State() == Perform(old(State()), Result(Actions.LeftArrow(old(LineStateOf(State()))), NoRequest, NoValue))
    {
      if buf.caret > 0 {
        buf := buf.(caret := buf.caret - 1);
      }
      dec := dec.(state := Idle);
    }

    /** `right_arrow`. */
    method RightArrow()
      requires Valid()
      modifies this
      ensures State() == Perform(old(State()), Result(Actions.RightArrow(old(LineStateOf(State()))), NoRequest, NoValue))
    {
      if buf.caret < |buf.line| {
        buf := buf.(caret := buf.caret + 1);
      }
      dec := dec.(state := Idle);
    }

    /** `up_arrow`. */
    method UpArrow()
      requires Valid()
      modifies this
      ensures State() == Perform(old(State()), Result(Actions.ToIdle(old(LineStateOf(State()))), NoRequest, NoValue))
    {
      dec := dec.(state := Idle);
    }

    /** `down_arrow`. */
    method DownArrow()
      requires Valid()
      modifies this
      ensures State() == Perform(old(State()), Result(Actions.ToIdle(old(LineStateOf(State()))), NoRequest, NoValue))
    {
      dec := dec.(state := Idle);
    }

    /** `esc_typed_char`. */
    method EscTypedChar(b: byte)
      requires Valid()
      modifies this
      ensures State() == Perform(old(State()), Result(Actions.ToIdle(old(LineStateOf(State()))), NoRequest, NoValue))
    {
      dec := dec.(state := Idle);
    }

    /** `esc_O_typed_char`. */
    method EscOTypedChar(b: byte)
      requires Valid()
      modifies this
      ensures State() == Perform(old(State()), Result(Actions.ToIdle(old(LineStateOf(State()))), NoRequest, NoValue))
    {
      dec := dec.(state := Idle);
    }

    // -------------------------------------------------------------------------
    // Escape sequences

    /** `esc`. */
    method Esc()
      requires Valid()
      modifies this
      ensures State() == Perform(old(State()), Result(Actions.BeginEsc(old(LineStateOf(State()))), NoRequest, NoValue))
    {
      dec := dec.(state := Decoder.Esc, escSeq := []);
    }

    /** `esc_bracket`. */
    method EscBracket()
      requires Valid()
      modifies this
      ensures State() == Perform(old(State()), Result(Actions.EscBracket(old(LineStateOf(State()))), NoRequest, NoValue))
    {
      dec := dec.(state := Csi);
    }

    /** `esc_O`. */
    method EscO()
      requires Valid()
      modifies this
      ensures State() == Perform(old(State()), Result(Actions.BeginEscO(old(LineStateOf(State()))), NoRequest, NoValue))
    {
      dec := dec.(state := Decoder.EscO);
    }

    /** `csi_typed_char`. */
    method CsiTypedChar(b: byte)
      requires Valid()
      modifies this
      ensures State() == Perform(old(State()), Result(Actions.CsiTypedChar(old(LineStateOf(State())), b), NoRequest, NoValue))
    {
      if b <= 9 {
        dec := dec.(escSeq := [CharOf(b)], state := CsiDigit);
      } else {
        dec := dec.(state := Idle);
      }
    }

    /** `csi_digit_typed_char`. */
    method CsiDigitTypedChar(b: byte)
      requires Valid()
      modifies this
      ensures State() == Perform(old(State()), Result(Actions.CsiDigitTypedChar(old(LineStateOf(State())), b), NoRequest, NoValue))
    {
      if (KEY_0 <= b <= KEY_9) || b == KEY_SEMI {
        dec := dec.(escSeq := dec.escSeq + [CharOf(b)]);
      }
    }

    /** `csi_digit_tilde`. */
    method CsiDigitTilde()
      requires Valid()
      modifies this
      ensures State() == Perform(old(State()), Actions.CsiDigitTilde(old(LineStateOf(State()))))
    {
      dec := dec.(state := Idle);
      var q := dec.escSeq;
      if q == "3" {
        Delete();
      } else if q == "2" {
        Insert();
      } else if q == "1" || q == "7" {
        Home();
      } else if q == "4" || q == "8" {
        End();
      }
    }

    /** `csi_digit_R`: `process_input`'s failed assertion is caught by
        `process_char`, so the sequence is then left as it was. */
    method CsiDigitR()
      requires Valid()
      modifies this, writeQueue
      ensures State() == Perform(old(State()), Actions.CsiDigitR(old(LineStateOf(State()))))
    {
      dec := dec.(state := Idle);
      var reply := ParseReply(dec.escSeq);
      if reply.Some? {
        var ok := writeQueue.ProcessInput(reply.value.0, reply.value.1);
        if ok {
          dec := dec.(escSeq := []);
        }
      }
    }

    // -------------------------------------------------------------------------
    // Mouse packets

    /** `csi_mouse`. */
    method CsiMouse()
      requires Valid()
      modifies this
      ensures State() == Perform(old(State()), Result(Actions.CsiMouse(old(LineStateOf(State()))), NoRequest, NoValue))
    {
      dec := dec.(mread := [], mouse := [-1, -1, -1], state := MouseTrack);
    }

    /** `csi_mouse_ANY_EVENT`. */
    method CsiMouseAnyEvent(b: byte)
      requires Valid()
      modifies this
      ensures State() == Perform(old(State()), Result(Actions.CsiMouseAnyEvent(old(LineStateOf(State())), b), NoRequest, NoValue))
    {
      var l := |dec.mread|;
      if l == 0 {
        dec := dec.(escSeq := [CharOf(b)], mouse := dec.mouse[0 := b as int - 32]);
      } else if l == 1 {
        dec := dec.(mouse := dec.mouse[1 := b as int - 32], escSeq := dec.escSeq + " " + Decimal(b as nat));
      } else if l == 2 {
        dec := dec.(escSeq := dec.escSeq + " " + Decimal(b as nat), mouse := dec.mouse[2 := b as int - 32],
                    state := Idle, touch := true);
      }
      dec := dec.(mread := dec.mread + [b]);
    }

    /** `touch_clear_evt`. */
    method TouchClearEvt() returns (t: bool)
      modifies this
      ensures (State(), t) == (old(State()).(dec := Actions.TouchClearEvt(LineStateOf(old(State()))).0.dec),
                               Actions.TouchClearEvt(LineStateOf(old(State()))).1)
    {
      t := dec.touch;
      dec := dec.(touch := false);
    }

    // -------------------------------------------------------------------------
    // process_char

    /** Call the routine a table entry names; the `char` argument goes only
        to the wildcard routines. */
    method Dispatch(a: Action) returns (ret: Return)
      requires Valid()
      modifies this, writeQueue
      ensures State() == Perform(old(State()), Act(old(LineStateOf(State())), a))
      ensures ret == Act(old(LineStateOf(State())), a).ret
    {
      if LineRoutine(a) {
        ret := DispatchLine(a);
      } else {
        ret := DispatchSequence(a);
      }
    }

    /** The routines that edit the line or move the caret. */
    method DispatchLine(a: Action) returns (ret: Return)
      requires Valid() && LineRoutine(a)
      modifies this, writeQueue
      ensures State() == Perform(old(State()), Act(old(LineStateOf(State())), a))
      ensures ret == Act(old(LineStateOf(State())), a).ret
    {
      ret := NoValue;
      match a
      case Home => Home();
      case Cancel => var s := Cancel(); ret := Value(s);
      case Eof =>
        var raised := Eof();
        if raised {
          ret := RaisedEof;
        }
      case End => End();
      case ClearBeforeCursor => ClearBeforeCursor();
      case Backspace => Backspace();
      case LineComplete => var s := LineComplete(); ret := Value(s);
      case TypedChar(b) => TypedChar(b);
      case RightArrow => RightArrow();
      case LeftArrow => LeftArrow();
    }

    /** The routines that decode escape sequences and mouse packets. */
    method DispatchSequence(a: Action) returns (ret: Return)
      requires Valid() && !LineRoutine(a)
      modifies this, writeQueue
      ensures State() == Perform(old(State()), Act(old(LineStateOf(State())), a))
      ensures ret == Act(old(LineStateOf(State())), a).ret
    {
      ret := NoValue;
      match a
      case BeginEsc => Esc();
      case EscBracket => EscBracket();
      case BeginEscO => EscO();
      case EscTypedChar(b) => EscTypedChar(b);
      case UpArrow => UpArrow();
      case DownArrow => DownArrow();
      case CsiMouse => CsiMouse();
      case CsiTypedChar(b) => CsiTypedChar(b);
      case CsiDigitR => CsiDigitR();
      case CsiDigitTilde => CsiDigitTilde();
      case CsiDigitTypedChar(b) => CsiDigitTypedChar(b);
      case EscOTypedChar(b) => EscOTypedChar(b);
      case CsiMouseAnyEvent(b) => CsiMouseAnyEvent(b);
    }

    /** `process_char`. */
    method ProcessChar(b: byte) returns (o: Outcome)
      requires Valid()
      modifies this, writeQueue
      ensures Valid()
      ensures Step(old(State()), b) == (State(), o)
    {
      extra := extra.(prevLineLen := |buf.line|);
      var ret := Dispatch(Lookup(dec.state, b));
      if ret.RaisedEof? {
        return EndOfInput;
      }
      Settle(ret);
      o := if ret.Value? then Completed(ret.s) else Pending;
    }

    /** The rest of `process_char` once the routine has returned. */
    method Settle(ret: Return)
      requires Linked() && !ret.RaisedEof?
      modifies this, writeQueue
      ensures State() == LineEditor.Settle(old(State()), ret)
    {
      if outputEnabled {
        Redraw();
      }
      extra := extra.(text := buf.line);
      if ret.Value? {
        extra := extra.(text := extra.text + "\n");
        Write(Text(CRLF));
        buf := buf.(line := [], caret := 0);
      }
      writeQueue.Process();
    }

    /** `process_bstr`: `process_char` for each byte in turn; the outcomes
        are collected, and an end of input stops the run. */
    method ProcessBstr(bs: seq<byte>) returns (outs: seq<Outcome>)
      requires Valid()
      modifies this, writeQueue
      ensures Valid()
      ensures Feed(old(State()), bs) == (State(), outs)
    {
      ghost var total := Feed(State(), bs);
      outs := [];
      var rest := bs;
      assert outs + Feed(State(), rest).1 == Feed(State(), rest).1;
      while rest != []
        invariant Valid()
        invariant total == (Feed(State(), rest).0, outs + Feed(State(), rest).1)
        decreases |rest|
      {
        ghost var before := State();
        var o := ProcessChar(rest[0]);
        FeedAdvance(total, outs, before, rest, State(), o);
        outs := outs + [o];
        if o.EndOfInput? {
          return;
        }
        rest := rest[1..];
      }
      assert outs + Feed(State(), rest).1 == outs;
    }
  }

  /** The history shared by every `readline` object (a class attribute in
      the source). */
  class History {
    var history: seq<string>

    constructor ()
      ensures history == []
    {
      history := [];
    }

    /** `add_history`. */
    method AddHistory(line: string)
      modifies this
      ensures history == old(history) + [line]
    {
      history := history + [line];
    }

    /** `get_current_history_length`. */
    method GetCurrentHistoryLength() returns (n: nat)
      ensures n == |history|
    {
      n := |history|;
    }
  }
}
