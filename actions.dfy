/** The action routines of the `readline` state machine, on the part of the
    editor they edit: the line buffer and the escape-sequence decoder.
    Where a routine also damages the display, writes, or resumes a query,
    it returns that as a `Request`, which the editor carries out (module
    LineEditor). `KeyStep` is what `process_char` does to this part. */
module Actions {
  import opened Text
  import opened Decoder

  /** The text being edited, where the next character goes, and whether it
      replaces the character there. */
  datatype Buffer = Buffer(line: string, caret: int, overwrite: bool)

  /** The decoder's fields: the current table, what an escape sequence has
      accumulated, and the `Mouse` fields (button, x, y of the last packet,
      the packet's bytes so far, and whether a packet completed and was not
      yet taken). */
  datatype Decoding = Decoding(state: DecoderState, escSeq: string, mouse: seq<int>, mread: seq<byte>, touch: bool)

  datatype LineState = LineState(buf: Buffer, dec: Decoding)

  /** What a routine asks of the rest of the editor: nothing,
      `invalidate(from, to)`, the "\r\n" that `eof` writes and flushes, or
      `write_queue.process_input(rows, cols)`. */
  datatype Request = NoRequest | Damage(from: int, to: int) | EndWrite | ResumeQuery(rows: int, cols: int)

  /** What a routine returns: None, a string, or a raised `EOFError`. */
  datatype Return = NoValue | Value(s: string) | RaisedEof

  datatype Result = Result(next: LineState, req: Request, ret: Return)

  /** What `process_char` gives back: None, a completed line, or the
      `EOFError` it lets through. */
  datatype Outcome = Pending | Completed(value: string) | EndOfInput

  /** The invariant every routine keeps between two input bytes. */
  predicate Valid(s: LineState)
  {
    && 0 <= s.buf.caret <= |s.buf.line|
    && |s.dec.mouse| == 3
    && (s.dec.state == MouseTrack ==> |s.dec.mread| < 3)
  }

  /** Only the buffer changed. */
  predicate BufferEdit(s: LineState, r: Result)
  {
    r.next.dec == s.dec && r.ret == NoValue
  }

  // ---------------------------------------------------------------------------
  // Line-buffer edits

  /** `typed_char`: the byte's character goes at the caret, shifting the
      tail right (insert mode) or replacing the character there (overwrite
      mode, appending at the end); the caret moves past it and the line
      from the caret on is damaged. */
  function TypedChar(s: LineState, b: byte): (r: Result)
    requires Valid(s)
    ensures Valid(r.next) && BufferEdit(s, r)
    ensures var k := s.buf.caret; var l := s.buf.line; var l' := r.next.buf.line;
      && r.next.buf.caret == k + 1 && r.next.buf.overwrite == s.buf.overwrite
      && |l'| >= k + 1 && l'[..k] == l[..k] && l'[k] == CharOf(b)
      && (!s.buf.overwrite ==> l'[k + 1..] == l[k..])
      && (s.buf.overwrite && k < |l| ==> l'[k + 1..] == l[k + 1..])
      && (s.buf.overwrite && k == |l| ==> |l'| == |l| + 1)
      && r.req == Damage(k, |l'|)
  {
    var k := s.buf.caret;
    var l := s.buf.line;
    var tail := if s.buf.overwrite then (if k + 1 <= |l| then l[k + 1..] else []) else l[k..];
    var newLine := l[..k] + [CharOf(b)] + tail;
    Result(s.(buf := s.buf.(line := newLine, caret := k + 1)), Damage(k, |newLine|), NoValue)
  }

  /** `backspace`: nothing at the start of the line; otherwise the character
      before the caret goes and the caret steps back onto its place. */
  function Backspace(s: LineState): (r: Result)
    requires Valid(s)
    ensures Valid(r.next) && BufferEdit(s, r)
    ensures s.buf.caret == 0 ==> r == Result(s, NoRequest, NoValue)
    ensures var k := s.buf.caret; var l := s.buf.line; var l' := r.next.buf.line;
      k > 0 ==>
        && r.next.buf.caret == k - 1 && r.next.buf.overwrite == s.buf.overwrite
        && |l'| == |l| - 1 && l'[..k - 1] == l[..k - 1] && l'[k - 1..] == l[k..]
        && r.req == Damage(k - 1, |l|)
  {
    var k := s.buf.caret;
    var l := s.buf.line;
    if k > 0 then Result(s.(buf := s.buf.(line := l[..k - 1] + l[k..], caret := k - 1)), Damage(k - 1, |l|), NoValue)
    else Result(s, NoRequest, NoValue)
  }

  /** `delete`: nothing at the end of the line; otherwise the character at
      the caret goes and the caret stays. */
  function Delete(s: LineState): (r: Result)
    requires Valid(s)
    ensures Valid(r.next) && BufferEdit(s, r)
    ensures s.buf.caret == |s.buf.line| ==> r == Result(s, NoRequest, NoValue)
    ensures var k := s.buf.caret; var l := s.buf.line; var l' := r.next.buf.line;
      k < |l| ==>
        && |l'| == |l| - 1 && l'[..k] == l[..k] && l'[k..] == l[k + 1..]
        && r.req == Damage(k, |l|)
    ensures r.next.buf.caret == s.buf.caret && r.next.buf.overwrite == s.buf.overwrite
  {
    var k := s.buf.caret;
    var l := s.buf.line;
    if k < |l| then Result(s.(buf := s.buf.(line := l[..k] + l[k + 1..])), Damage(k, |l|), NoValue)
    else Result(s, NoRequest, NoValue)
  }

  /** `clear_before_cursor` (Ctrl-U): only the text from the caret on stays,
      the caret goes to the start and the whole old width is damaged. */
  function ClearBeforeCursor(s: LineState): (r: Result)
    requires Valid(s)
    ensures Valid(r.next) && BufferEdit(s, r)
    ensures r.next.buf == Buffer(s.buf.line[s.buf.caret..], 0, s.buf.overwrite)
    ensures r.req == Damage(0, |s.buf.line|)
  {
    Result(s.(buf := s.buf.(line := s.buf.line[s.buf.caret..], caret := 0)), Damage(0, |s.buf.line|), NoValue)
  }

  /** `cancel` (Ctrl-C): the line is emptied and "" is returned; the caret is
      left as it was, so `Valid` holds again only once `process_char` has
      reset it. */
  function Cancel(s: LineState): (r: Result)
    ensures r.ret == Value("") && r.req == NoRequest
    ensures r.next == s.(buf := s.buf.(line := []))
  {
    var s1 := s.(buf := s.buf.(line := []));
    Result(s1, NoRequest, Value(s1.buf.line))
  }

  /** `eof` (Ctrl-D): on an empty line it asks for "\r\n" to be written and
      the queue drained, and raises; otherwise it is `delete`. */
  function Eof(s: LineState): (r: Result)
    requires Valid(s)
    ensures Valid(r.next)
    ensures r.ret.RaisedEof? <==> s.buf.line == []
    ensures s.buf.line == [] ==> r == Result(s, EndWrite, RaisedEof)
    ensures s.buf.line != [] ==> r == Delete(s)
  {
    if |s.buf.line| == 0 then Result(s, EndWrite, RaisedEof) else Delete(s)
  }

  /** `line_complete` (CR): the line is returned and nothing changes. */
  function LineComplete(s: LineState): (r: Result)
    ensures r == Result(s, NoRequest, Value(s.buf.line))
  {
    Result(s, NoRequest, Value(s.buf.line))
  }

  /** `insert`: toggles overwrite mode. */
  function Insert(s: LineState): (r: LineState)
    requires Valid(s)
    ensures Valid(r) && r.buf.overwrite != s.buf.overwrite
    ensures r.dec == s.dec && r.buf.line == s.buf.line && r.buf.caret == s.buf.caret
  {
    s.(buf := s.buf.(overwrite := !s.buf.overwrite))
  }

  // ---------------------------------------------------------------------------
  // Caret movement

  /** `home`. */
  function Home(s: LineState): (r: LineState)
    ensures r.buf == s.buf.(caret := 0) && r.dec == s.dec.(state := Idle)
  {
    s.(buf := s.buf.(caret := 0), dec := s.dec.(state := Idle))
  }

  /** `end`. */
  function End(s: LineState): (r: LineState)
    ensures r.buf == s.buf.(caret := |s.buf.line|) && r.dec == s.dec.(state := Idle)
  {
    s.(buf := s.buf.(caret := |s.buf.line|), dec := s.dec.(state := Idle))
  }

  /** `left_arrow`: one step left, not past the start. */
  function LeftArrow(s: LineState): (r: LineState)
    ensures r.buf == s.buf.(caret := r.buf.caret) && r.dec == s.dec.(state := Idle)
    ensures s.buf.caret > 0 ==> r.buf.caret == s.buf.caret - 1
    ensures s.buf.caret <= 0 ==> r.buf.caret == s.buf.caret
  {
    var k := s.buf.caret;
    s.(buf := s.buf.(caret := if k > 0 then k - 1 else k), dec := s.dec.(state := Idle))
  }

  /** `right_arrow`: one step right, not past the end. */
  function RightArrow(s: LineState): (r: LineState)
    ensures r.buf == s.buf.(caret := r.buf.caret) && r.dec == s.dec.(state := Idle)
    ensures s.buf.caret < |s.buf.line| ==> r.buf.caret == s.buf.caret + 1
    ensures s.buf.caret >= |s.buf.line| ==> r.buf.caret == s.buf.caret
  {
    var k := s.buf.caret;
    s.(buf := s.buf.(caret := if k < |s.buf.line| then k + 1 else k), dec := s.dec.(state := Idle))
  }

  /** `up_arrow`, `down_arrow`, `esc_typed_char` and `esc_O_typed_char`:
      only the decoder goes back to its idle table (there is no history
      recall, and an unknown sequence is dropped). */
  function ToIdle(s: LineState): (r: LineState)
    ensures r.buf == s.buf && r.dec == s.dec.(state := Idle)
  {
    s.(dec := s.dec.(state := Idle))
  }

  /** Every caret key leaves the line alone, puts the caret within it and
      returns the decoder to its idle table. */
  lemma {:induction false} CaretKeys(s: LineState)
    requires Valid(s)
    ensures var rs := [Home(s), End(s), LeftArrow(s), RightArrow(s), ToIdle(s)];
      forall i :: 0 <= i < |rs| ==>
        && Valid(rs[i]) && rs[i].buf.line == s.buf.line && rs[i].buf.overwrite == s.buf.overwrite
        && rs[i].dec == s.dec.(state := Idle)
    ensures Home(s).buf.caret == 0 && End(s).buf.caret == |s.buf.line|
    ensures LeftArrow(s).buf.caret == Max(s.buf.caret - 1, 0)
    ensures RightArrow(s).buf.caret == Min(s.buf.caret + 1, |s.buf.line|)
    ensures ToIdle(s).buf == s.buf
  {
    var rs := [Home(s), End(s), LeftArrow(s), RightArrow(s), ToIdle(s)];
    forall i | 0 <= i < |rs|
      ensures Valid(rs[i]) && rs[i].buf.line == s.buf.line && rs[i].dec == s.dec.(state := Idle)
    {
    }
  }

  // ---------------------------------------------------------------------------
  // Escape sequences

  /** `esc`: start an escape sequence. */
  function BeginEsc(s: LineState): (r: LineState)
    ensures r.buf == s.buf && r.dec == s.dec.(state := Esc, escSeq := [])
  {
    s.(dec := s.dec.(state := Esc, escSeq := []))
  }

  /** `esc_bracket`: ESC [ starts a control sequence. */
  function EscBracket(s: LineState): (r: LineState)
    ensures r.buf == s.buf && r.dec == s.dec.(state := Csi)
  {
    s.(dec := s.dec.(state := Csi))
  }

  /** `esc_O`. */
  function BeginEscO(s: LineState): (r: LineState)
    ensures r.buf == s.buf && r.dec == s.dec.(state := EscO)
  {
    s.(dec := s.dec.(state := EscO))
  }

  /** `csi_typed_char`: a byte whose VALUE is 0..9 starts a parameter (the
      test compares `char[0]` with the integers 0 and 9); any other byte
      ends the sequence. */
  function CsiTypedChar(s: LineState, b: byte): (r: LineState)
    ensures r.buf == s.buf && r.dec.mouse == s.dec.mouse && r.dec.mread == s.dec.mread && r.dec.touch == s.dec.touch
    ensures r.dec.state == (if b <= 9 then CsiDigit else Idle)
    ensures r.dec.escSeq == (if b <= 9 then [CharOf(b)] else s.dec.escSeq)
  {
    if b <= 9 then s.(dec := s.dec.(escSeq := [CharOf(b)], state := CsiDigit))
    else s.(dec := s.dec.(state := Idle))
  }

  predicate IsParamChar(c: char) { IsDigit(c) || c == ';' }

  /** `csi_digit_typed_char`: digits and ';' are appended to the sequence;
      any other byte is ignored and the state stays. */
  function CsiDigitTypedChar(s: LineState, b: byte): (r: LineState)
    ensures r.buf == s.buf
    ensures r.dec == s.dec.(escSeq := s.dec.escSeq + (if IsParamChar(CharOf(b)) then [CharOf(b)] else []))
  {
    if (KEY_0 <= b <= KEY_9) || b == KEY_SEMI then s.(dec := s.dec.(escSeq := s.dec.escSeq + [CharOf(b)]))
    else s
  }

  /** `csi_digit_tilde`: ESC [ n ~ dispatches on the accumulated sequence:
      3 deletes, 2 toggles insert mode, 1 and 7 go home, 4 and 8 go to the
      end; anything else only ends the sequence. */
  function CsiDigitTilde(s: LineState): (r: Result)
    requires Valid(s)
    ensures Valid(r.next) && r.ret == NoValue && r.next.dec == s.dec.(state := Idle)
    ensures var q := s.dec.escSeq;
      && (q == "3" ==> r.next.buf == Delete(s).next.buf && r.req == Delete(s).req)
      && (q == "2" ==> r.next.buf == s.buf.(overwrite := !s.buf.overwrite) && r.req == NoRequest)
      && (q == "1" || q == "7" ==> r.next.buf == s.buf.(caret := 0) && r.req == NoRequest)
      && (q == "4" || q == "8" ==> r.next.buf == s.buf.(caret := |s.buf.line|) && r.req == NoRequest)
      && (q != "3" ==> r.next.buf.line == s.buf.line)
      && (q !in {"1", "2", "3", "4", "7", "8"} ==> r == Result(s.(dec := s.dec.(state := Idle)), NoRequest, NoValue))
  {
    var s1 := s.(dec := s.dec.(state := Idle));
    var q := s.dec.escSeq;
    if q == "3" then Delete(s1)
    else if q == "2" then Result(Insert(s1), NoRequest, NoValue)
    else if q == "1" || q == "7" then Result(Home(s1), NoRequest, NoValue)
    else if q == "4" || q == "8" then Result(End(s1), NoRequest, NoValue)
    else Result(s1, NoRequest, NoValue)
  }

  /** The `rows;columns` of a cursor-position report, as `csi_digit_R`
      parses it with `split(";")` and `int()`; None where that raises. */
  function ParseReply(q: string): (r: Option<(int, int)>)
    ensures r.Some? ==> |Split(q, ';')| >= 2 && r.value.0 >= 0 && r.value.1 >= 0
    ensures r.Some? ==> ParseInt(Split(q, ';')[0]) == Some(r.value.0) && ParseInt(Split(q, ';')[1]) == Some(r.value.1)
  {
    var parts := Split(q, ';');
    match ParseInt(parts[0])
    case None => None
    case Some(rows) =>
      if |parts| < 2 then None
      else match ParseInt(parts[1])
        case None => None
        case Some(cols) => Some((rows, cols))
  }

  /** `csi_digit_R`: a cursor-position report ends the sequence and, when it
      parses, resumes the pending query (an unparsable one is dropped). */
  function CsiDigitR(s: LineState): (r: Result)
    ensures r.next == s.(dec := s.dec.(state := Idle)) && r.ret == NoValue
    ensures r.req.ResumeQuery? <==> ParseReply(s.dec.escSeq).Some?
    ensures r.req.ResumeQuery? ==> ParseReply(s.dec.escSeq) == Some((r.req.rows, r.req.cols))
    ensures !r.req.ResumeQuery? ==> r.req == NoRequest
  {
    var s1 := s.(dec := s.dec.(state := Idle));
    match ParseReply(s.dec.escSeq)
    case None => Result(s1, NoRequest, NoValue)
    case Some(rc) => Result(s1, ResumeQuery(rc.0, rc.1), NoValue)
  }

  // ---------------------------------------------------------------------------
  // Mouse packets

  /** `csi_mouse`: ESC [ M starts a three-byte mouse packet. */
  function CsiMouse(s: LineState): (r: LineState)
    ensures r.buf == s.buf && r.dec == s.dec.(mread := [], mouse := [-1, -1, -1], state := MouseTrack)
  {
    s.(dec := s.dec.(mread := [], mouse := [-1, -1, -1], state := MouseTrack))
  }

  /** `csi_mouse_ANY_EVENT`: the packet's bytes are button, x and y, each
      sent as value + 32; the third ends the packet and flags a touch. */
  function CsiMouseAnyEvent(s: LineState, b: byte): (r: LineState)
    requires Valid(s)
    ensures Valid(r) && r.buf == s.buf
    ensures r.dec.mread == s.dec.mread + [b]
    ensures |s.dec.mread| < 3 ==> r.dec.mouse == s.dec.mouse[|s.dec.mread| := b - 32]
    ensures r.dec.state == (if |s.dec.mread| == 2 then Idle else s.dec.state)
    ensures r.dec.touch == (s.dec.touch || |s.dec.mread| == 2)
  {
    var d := s.dec;
    var l := |d.mread|;
    var d1 :=
      if l == 0 then d.(escSeq := [CharOf(b)], mouse := d.mouse[0 := b - 32])
      else if l == 1 then d.(mouse := d.mouse[1 := b - 32], escSeq := d.escSeq + " " + Decimal(b))
      else if l == 2 then
        d.(escSeq := d.escSeq + " " + Decimal(b), mouse := d.mouse[2 := b - 32], state := Idle, touch := true)
      else d;
    s.(dec := d1.(mread := d1.mread + [b]))
  }

  /** `touch_clear_evt`: reports and clears the touch flag. */
  function TouchClearEvt(s: LineState): (r: (LineState, bool))
    ensures r.1 == s.dec.touch && !r.0.dec.touch
    ensures r.0 == s.(dec := s.dec.(touch := false))
  {
    (s.(dec := s.dec.(touch := false)), s.dec.touch)
  }

  // ---------------------------------------------------------------------------
  // Dispatch

  /** Run the routine a table entry names. */
  function Act(s: LineState, a: Action): (r: Result)
    requires Valid(s)
    ensures !r.ret.Value? ==> Valid(r.next)
    ensures r.ret.Value? ==> r.next.dec == s.dec
  {
    match a
    case Home => Result(Home(s), NoRequest, NoValue)
    case Cancel => Cancel(s)
    case Eof => Eof(s)
    case End => Result(End(s), NoRequest, NoValue)
    case ClearBeforeCursor => ClearBeforeCursor(s)
    case Backspace => Backspace(s)
    case LineComplete => LineComplete(s)
    case BeginEsc => Result(BeginEsc(s), NoRequest, NoValue)
    case TypedChar(b) => TypedChar(s, b)
    case EscBracket => Result(EscBracket(s), NoRequest, NoValue)
    case BeginEscO => Result(BeginEscO(s), NoRequest, NoValue)
    case EscTypedChar(_) => Result(ToIdle(s), NoRequest, NoValue)
    case UpArrow => Result(ToIdle(s), NoRequest, NoValue)
    case DownArrow => Result(ToIdle(s), NoRequest, NoValue)
    case RightArrow => Result(RightArrow(s), NoRequest, NoValue)
    case LeftArrow => Result(LeftArrow(s), NoRequest, NoValue)
    case CsiMouse => Result(CsiMouse(s), NoRequest, NoValue)
    case CsiTypedChar(b) => Result(CsiTypedChar(s, b), NoRequest, NoValue)
    case CsiDigitR => CsiDigitR(s)
    case CsiDigitTilde => CsiDigitTilde(s)
    case CsiDigitTypedChar(b) => Result(CsiDigitTypedChar(s, b), NoRequest, NoValue)
    case EscOTypedChar(_) => Result(ToIdle(s), NoRequest, NoValue)
    case CsiMouseAnyEvent(b) => Result(CsiMouseAnyEvent(s, b), NoRequest, NoValue)
  }

  /** Only `cancel` and `line_complete` return a value, only `eof` on an
      empty line raises, and only the raising `eof` writes; only
      `csi_digit_R` resumes a query. */
  lemma {:induction false} ActReturns(s: LineState, a: Action)
    requires Valid(s)
    ensures var r := Act(s, a);
      && (r.ret.Value? <==> a == Action.Cancel || a == Action.LineComplete)
      && (r.ret.RaisedEof? <==> a == Action.Eof && s.buf.line == [])
      && (r.req.EndWrite? <==> r.ret.RaisedEof?)
      && (r.req.ResumeQuery? ==> a == Action.CsiDigitR)
  {
  }

  /** What `process_char` does to the line state when no query is waiting
      for a reply: look the byte up, run the routine, and start an empty
      line after a returned value. */
  function KeyStep(s: LineState, b: byte): (r: (LineState, Outcome))
    requires Valid(s)
    ensures Valid(r.0)
  {
    var res := Act(s, Lookup(s.dec.state, b));
    match res.ret
    case RaisedEof => (res.next, EndOfInput)
    case Value(v) => (res.next.(buf := res.next.buf.(line := [], caret := 0)), Completed(v))
    case NoValue => (res.next, Pending)
  }

  /** `KeyStep` over each byte in turn; an end of input stops the run. */
  function KeyFeed(s: LineState, bs: seq<byte>): (r: (LineState, seq<Outcome>))
    requires Valid(s)
    ensures Valid(r.0)
    decreases |bs|
  {
    if bs == [] then (s, [])
    else
      var t := KeyStep(s, bs[0]);
      if t.1.EndOfInput? then (t.0, [t.1])
      else
        var rest := KeyFeed(t.0, bs[1..]);
        (rest.0, [t.1] + rest.1)
  }
}
