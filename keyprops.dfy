/** What `process_char` does to the line state over whole bytes and byte
    sequences: typing, editing keys, escape sequences, mouse packets and
    line endings. Module EditorProperties carries these over to the
    editor (`FeedLineState`). */
module KeyProperties {
  import opened Text
  import opened Decoder
  import opened Actions

  /** A byte that the idle table has no entry for: it is typed. */
  predicate Plain(b: byte) { b !in Keys(Idle) }

  function Pendings(n: nat): seq<Outcome> { seq(n, i => Pending) }

  // ---------------------------------------------------------------------------
  // Feeding one byte after another

  lemma {:induction false} FeedOne(s: LineState, b: byte)
    requires Valid(s)
    ensures KeyFeed(s, [b]) == (KeyStep(s, b).0, [KeyStep(s, b).1])
  {
    var t := KeyStep(s, b);
    assert [b][0] == b && [b][1..] == [];
    if !t.1.EndOfInput? {
      var rest := KeyFeed(t.0, [b][1..]);
      assert rest == (t.0, []);
      assert [t.1] + rest.1 == [t.1];
    }
  }

  lemma {:induction false} FeedCons(s: LineState, b: byte, bs: seq<byte>)
    requires Valid(s) && !KeyStep(s, b).1.EndOfInput?
    ensures var st := KeyStep(s, b);
      KeyFeed(s, [b] + bs) == (KeyFeed(st.0, bs).0, [st.1] + KeyFeed(st.0, bs).1)
  {
    assert ([b] + bs)[0] == b && ([b] + bs)[1..] == bs;
  }

  lemma {:induction false} PendingsCons(n: nat)
    ensures Pendings(n + 1) == [Pending] + Pendings(n)
  {
  }

  /** The outcomes end with an end of input. */
  predicate Ended(outs: seq<Outcome>)
  {
    outs != [] && outs[|outs| - 1] == EndOfInput
  }

  /** Each byte yields one outcome until input ends; an end of input comes
      only last, and only then are bytes left unread. */
  lemma {:induction false} FeedOutcomes(s: LineState, bs: seq<byte>)
    requires Valid(s)
    ensures var r := KeyFeed(s, bs);
      && |r.1| <= |bs|
      && (|r.1| < |bs| ==> Ended(r.1))
      && forall i :: 0 <= i < |r.1| - 1 ==> r.1[i] != EndOfInput
    decreases |bs|
  {
    if bs != [] {
      var st := KeyStep(s, bs[0]);
      if !st.1.EndOfInput? {
        FeedOutcomes(st.0, bs[1..]);
        var fr := KeyFeed(st.0, bs[1..]).1;
        var outs := [st.1] + fr;
        assert forall i :: 1 <= i < |outs| ==> outs[i] == fr[i - 1];
      }
    }
  }

  // ---------------------------------------------------------------------------
  // Single bytes

  /** One plain byte in the idle state inserts (or overwrites) its character
      at the caret and moves the caret past it. */
  lemma {:induction false} StepTyped(s: LineState, b: byte)
    requires Valid(s) && s.dec.state == Idle && Plain(b)
    ensures var r := KeyStep(s, b);
      && r.1 == Pending && r.0.dec.state == Idle && r.0.buf.overwrite == s.buf.overwrite
      && r.0.buf.caret == s.buf.caret + 1
      && (!s.buf.overwrite ==> r.0.buf.line == s.buf.line[..s.buf.caret] + [CharOf(b)] + s.buf.line[s.buf.caret..])
      && (s.buf.overwrite ==> r.0.buf.line == s.buf.line[..s.buf.caret] + [CharOf(b)] +
                                      (if s.buf.caret < |s.buf.line| then s.buf.line[s.buf.caret + 1..] else []))
  {
    assert Lookup(Idle, b) == Wildcard(Idle, b);
    var t := Actions.TypedChar(s, b).next;
    assert t.buf.line == t.buf.line[..s.buf.caret] + [t.buf.line[s.buf.caret]] + t.buf.line[s.buf.caret + 1..];
  }

  /** Ctrl-U keeps the text from the caret on, with the caret at its start. */
  lemma {:induction false} StepClear(s: LineState)
    requires Valid(s) && s.dec.state == Idle
    ensures var r := KeyStep(s, CTRL_U);
      && r.1 == Pending && r.0.dec.state == Idle && r.0.buf.overwrite == s.buf.overwrite
      && r.0.buf.line == s.buf.line[s.buf.caret..] && r.0.buf.caret == 0
  {
    assert Lookup(Idle, CTRL_U) == Action.ClearBeforeCursor;
  }

  /** Ctrl-A and Ctrl-E move the caret to the start and the end. */
  lemma {:induction false} IdleCaretKeys(s: LineState, b: byte)
    requires Valid(s) && s.dec.state == Idle && (b == CTRL_A || b == CTRL_E)
    ensures var r := KeyStep(s, b);
      && r.1 == Pending && r.0.dec.state == Idle && r.0.buf.line == s.buf.line && r.0.buf.overwrite == s.buf.overwrite
      && r.0.buf.caret == (if b == CTRL_A then 0 else |s.buf.line|)
  {
    assert Lookup(Idle, b) == (if b == CTRL_A then Action.Home else Action.End);
  }

  /** The final byte of ESC [ A/B/C/D/H/F: arrows left and right move the
      caret by one and stop at the ends, H and F go to the start and the
      end, up and down change nothing but the state. */
  lemma {:induction false} CsiKeys(s: LineState, b: byte)
    requires Valid(s) && s.dec.state == Csi && b in {KEY_A, KEY_B, KEY_C, KEY_D, KEY_H, KEY_F}
    ensures var r := KeyStep(s, b);
      && r.1 == Pending && r.0.dec.state == Idle && r.0.buf.line == s.buf.line && r.0.buf.overwrite == s.buf.overwrite
      && r.0.buf.caret == (if b == KEY_H then 0
                       else if b == KEY_F then |s.buf.line|
                       else if b == KEY_C then Min(s.buf.caret + 1, |s.buf.line|)
                       else if b == KEY_D then Max(s.buf.caret - 1, 0)
                       else s.buf.caret)
  {
  }

  /** ESC O H and ESC O F: start and end of line. */
  lemma {:induction false} EscOKeys(s: LineState, b: byte)
    requires Valid(s) && s.dec.state == EscO && (b == KEY_H || b == KEY_F)
    ensures var r := KeyStep(s, b);
      && r.1 == Pending && r.0.dec.state == Idle && r.0.buf.line == s.buf.line && r.0.buf.overwrite == s.buf.overwrite
      && r.0.buf.caret == (if b == KEY_H then 0 else |s.buf.line|)
  {
    assert Lookup(EscO, b) == (if b == KEY_H then Action.Home else Action.End);
  }

  /** An unrecognised byte after ESC, after ESC O, or after ESC [ (a byte
      that is not a key and whose value is above 9) drops the sequence and
      touches neither line nor caret. */
  lemma {:induction false} Fallthrough(s: LineState, b: byte)
    requires Valid(s)
    requires (s.dec.state == Esc || s.dec.state == EscO || (s.dec.state == Csi && b > 9)) && b !in Keys(s.dec.state)
    ensures var r := KeyStep(s, b);
      r.1 == Pending && r.0.dec.state == Idle && r.0.buf == s.buf
  {
  }

  lemma {:induction false} StepEsc(s: LineState)
    requires Valid(s) && s.dec.state == Idle
    ensures var r := KeyStep(s, ESC); r.1 == Pending && r.0.dec.state == Esc && r.0.buf == s.buf
  {
    assert Lookup(Idle, ESC) == Action.BeginEsc;
  }

  lemma {:induction false} StepBracket(s: LineState)
    requires Valid(s) && s.dec.state == Esc
    ensures var r := KeyStep(s, KEY_LBRACKET); r.1 == Pending && r.0.dec.state == Csi && r.0.buf == s.buf
  {
    assert Lookup(Esc, KEY_LBRACKET) == Action.EscBracket;
  }

  /** After ESC [, a byte of VALUE 0..9 starts a parameter sequence. */
  lemma {:induction false} StepCsiDigit(s: LineState, d: byte)
    requires Valid(s) && s.dec.state == Csi && d <= 9
    ensures var r := KeyStep(s, d);
      r.1 == Pending && r.0.dec.state == CsiDigit && r.0.dec.escSeq == [CharOf(d)] && r.0.buf == s.buf
  {
    assert Lookup(Csi, d) == Action.CsiTypedChar(d);
  }

  /** In a parameter sequence every byte but R and ~ keeps the state, and the
      sequence only grows. */
  lemma {:induction false} StepCsiParam(s: LineState, b: byte)
    requires Valid(s) && s.dec.state == CsiDigit && s.dec.escSeq != [] && b != KEY_R && b != KEY_TILDE
    ensures var r := KeyStep(s, b);
      && r.1 == Pending && r.0.dec.state == CsiDigit && r.0.buf == s.buf
      && r.0.dec.escSeq != [] && r.0.dec.escSeq[0] == s.dec.escSeq[0]
  {
    assert Lookup(CsiDigit, b) == Action.CsiDigitTypedChar(b);
  }

  /** ~ closing a sequence whose first character is a value 0..9 edits
      nothing. */
  lemma {:induction false} StepTildeNoKey(s: LineState)
    requires Valid(s) && s.dec.state == CsiDigit && s.dec.escSeq != [] && s.dec.escSeq[0] as int <= 9
    ensures var r := KeyStep(s, KEY_TILDE); r.1 == Pending && r.0.dec.state == Idle && r.0.buf == s.buf
  {
    assert Lookup(CsiDigit, KEY_TILDE) == Action.CsiDigitTilde;
  }

  lemma {:induction false} StepMouseStart(s: LineState)
    requires Valid(s) && s.dec.state == Csi
    ensures var r := KeyStep(s, KEY_M);
      r.1 == Pending && r.0.dec.state == MouseTrack && r.0.dec.mread == [] && r.0.buf == s.buf
  {
    assert Lookup(Csi, KEY_M) == Action.CsiMouse;
  }

  /** The first two bytes of a mouse packet are recorded, each as value - 32. */
  lemma {:induction false} StepMouseByte(s: LineState, b: byte)
    requires Valid(s) && s.dec.state == MouseTrack && |s.dec.mread| < 2
    ensures var r := KeyStep(s, b);
      && r.1 == Pending && r.0.dec.state == MouseTrack && r.0.buf == s.buf
      && r.0.dec.mread == s.dec.mread + [b] && r.0.dec.mouse == s.dec.mouse[|s.dec.mread| := b - 32]
  {
  }

  /** The third byte completes the packet: idle again, touch flagged. */
  lemma {:induction false} StepMouseLast(s: LineState, b: byte)
    requires Valid(s) && s.dec.state == MouseTrack && |s.dec.mread| == 2
    ensures var r := KeyStep(s, b);
      && r.1 == Pending && r.0.dec.state == Idle && r.0.buf == s.buf
      && r.0.dec.mouse == s.dec.mouse[2 := b - 32] && r.0.dec.touch
  {
  }

  // ---------------------------------------------------------------------------
  // Typing and editing

  lemma {:induction false} InsertAlgebra(l: string, c: nat, x: char, more: string)
    requires c <= |l|
    ensures var l1 := l[..c] + [x] + l[c..];
      l1[..c + 1] + more + l1[c + 1..] == l[..c] + ([x] + more) + l[c..]
  {
    var l1 := l[..c] + [x] + l[c..];
    assert l1[..c + 1] == l[..c] + [x];
    assert l1[c + 1..] == l[c..];
  }

  lemma {:induction false} TypedCons(s: LineState, b: byte, rest: seq<byte>)
    requires Valid(s) && s.dec.state == Idle && !s.buf.overwrite && Plain(b)
    ensures var st := KeyStep(s, b);
      && st.0.dec.state == Idle && !st.0.buf.overwrite && st.0.buf.caret == s.buf.caret + 1
      && st.0.buf.line == s.buf.line[..s.buf.caret] + [CharOf(b)] + s.buf.line[s.buf.caret..]
      && KeyFeed(s, [b] + rest) == (KeyFeed(st.0, rest).0, [Pending] + KeyFeed(st.0, rest).1)
  {
    StepTyped(s, b);
    FeedCons(s, b, rest);
  }

  /** Typing plain bytes in insert mode puts their characters, in order, at
      the caret; the caret ends after them and every byte returns None. */
  lemma {:induction false} FeedTyped(s: LineState, bs: seq<byte>)
    requires Valid(s) && s.dec.state == Idle && !s.buf.overwrite
    requires forall i :: 0 <= i < |bs| ==> Plain(bs[i])
    ensures var r := KeyFeed(s, bs);
      && r.0.buf.line == s.buf.line[..s.buf.caret] + Chars(bs) + s.buf.line[s.buf.caret..]
      && r.0.buf.caret == s.buf.caret + |bs|
      && r.0.dec.state == Idle && !r.0.buf.overwrite
      && r.1 == Pendings(|bs|)
    decreases |bs|
  {
    if bs == [] {
      assert s.buf.line[..s.buf.caret] + s.buf.line[s.buf.caret..] == s.buf.line;
      assert Pendings(0) == [];
    } else {
      var b := bs[0];
      var rest := bs[1..];
      assert [b] + rest == bs;
      TypedCons(s, b, rest);
      var s1 := KeyStep(s, b).0;
      FeedTyped(s1, rest);
      InsertAlgebra(s.buf.line, s.buf.caret, CharOf(b), Chars(rest));
      assert Chars(bs) == [CharOf(b)] + Chars(rest);
      PendingsCons(|rest|);
    }
  }

  /** From an empty line, typing plain bytes gives exactly their characters. */
  lemma {:induction false} TypedFromEmpty(s: LineState, bs: seq<byte>)
    requires Valid(s) && s.dec.state == Idle && !s.buf.overwrite && s.buf.line == []
    requires forall i :: 0 <= i < |bs| ==> Plain(bs[i])
    ensures KeyFeed(s, bs).0.buf.line == Chars(bs) && KeyFeed(s, bs).0.buf.caret == |bs|
  {
    FeedTyped(s, bs);
  }

  /** Typing a character and then backspace (BS or DEL) restores the line
      and the caret. */
  lemma {:induction false} TypeThenBackspace(s: LineState, b: byte, bs: byte)
    requires Valid(s) && s.dec.state == Idle && !s.buf.overwrite && Plain(b)
    requires bs == BS || bs == DEL
    ensures var r := KeyStep(KeyStep(s, b).0, bs);
      r.0.buf.line == s.buf.line && r.0.buf.caret == s.buf.caret && r.1 == Pending
  {
    StepTyped(s, b);
    var s1 := KeyStep(s, b).0;
    assert Lookup(Idle, bs) == Action.Backspace;
    var t := Actions.Backspace(s1).next;
    assert t.buf.line == t.buf.line[..s.buf.caret] + t.buf.line[s.buf.caret..];
    assert s.buf.line == s.buf.line[..s.buf.caret] + s.buf.line[s.buf.caret..];
  }

  /** Ctrl-U keeps only the text from the caret on; what is typed next goes
      before it. */
  lemma {:induction false} ClearThenType(s: LineState, bs: seq<byte>)
    requires Valid(s) && s.dec.state == Idle && !s.buf.overwrite
    requires forall i :: 0 <= i < |bs| ==> Plain(bs[i])
    ensures var r := KeyFeed(s, [CTRL_U] + bs);
      r.0.buf.line == Chars(bs) + s.buf.line[s.buf.caret..] && r.0.buf.caret == |bs| && r.1 == Pendings(|bs| + 1)
  {
    StepClear(s);
    var st := KeyStep(s, CTRL_U);
    FeedCons(s, CTRL_U, bs);
    FeedTyped(st.0, bs);
    PendingsCons(|bs|);
  }

  /** With the caret at the end, Ctrl-U then "abc" leaves exactly "abc". */
  lemma {:induction false} ClearThenAbc(s: LineState)
    requires Valid(s) && s.dec.state == Idle && !s.buf.overwrite && s.buf.caret == |s.buf.line|
    ensures var r := KeyFeed(s, [CTRL_U, 0x61, 0x62, 0x63]);
      r.0.buf.line == "abc" && r.0.buf.caret == 3
  {
    var bs: seq<byte> := [0x61, 0x62, 0x63];
    assert [CTRL_U] + bs == [CTRL_U, 0x61, 0x62, 0x63];
    ClearThenType(s, bs);
    assert s.buf.line[s.buf.caret..] == [];
    assert Chars(bs) == "abc";
  }

  /** Ctrl-D on an empty line ends input; on any other line it does what
      delete does. */
  lemma {:induction false} CtrlD(s: LineState)
    requires Valid(s) && s.dec.state == Idle
    ensures s.buf.line == [] <==> KeyStep(s, CTRL_D).1 == EndOfInput
    ensures s.buf.line != [] ==>
      var r := KeyStep(s, CTRL_D);
      var d := Delete(s).next;
      r.1 == Pending && r.0.buf.line == d.buf.line && r.0.buf.caret == d.buf.caret
  {
    assert Lookup(Idle, CTRL_D) == Action.Eof;
  }

  // ---------------------------------------------------------------------------
  // Line endings

  /** CR returns the line typed so far and starts an empty one. */
  lemma {:induction false} CarriageReturn(s: LineState)
    requires Valid(s) && s.dec.state == Idle
    ensures var r := KeyStep(s, CR);
      r.1 == Completed(s.buf.line) && r.0.buf.line == [] && r.0.buf.caret == 0
  {
    assert Lookup(Idle, CR) == Action.LineComplete;
  }

  /** Ctrl-C cancels: "" is returned as if an empty line had been entered. */
  lemma {:induction false} CtrlC(s: LineState)
    requires Valid(s) && s.dec.state == Idle
    ensures var r := KeyStep(s, CTRL_C);
      r.1 == Completed([]) && r.0.buf.line == [] && r.0.buf.caret == 0
  {
    assert Lookup(Idle, CTRL_C) == Action.Cancel;
  }

  /** Typing plain bytes then CR returns the line with their characters
      inserted at the caret, and starts an empty line. */
  lemma {:induction false} TypeLine(s: LineState, bs: seq<byte>)
    requires Valid(s) && s.dec.state == Idle && !s.buf.overwrite
    requires forall i :: 0 <= i < |bs| ==> Plain(bs[i])
    ensures var r := KeyFeed(s, bs + [CR]);
      && r.1 == Pendings(|bs|) + [Completed(s.buf.line[..s.buf.caret] + Chars(bs) + s.buf.line[s.buf.caret..])]
      && r.0.buf.line == [] && r.0.buf.caret == 0
    decreases |bs|
  {
    if bs == [] {
      assert bs + [CR] == [CR];
      CarriageReturn(s);
      FeedOne(s, CR);
      assert Pendings(0) == [] && Chars(bs) == [];
      assert s.buf.line[..s.buf.caret] + [] + s.buf.line[s.buf.caret..] == s.buf.line;
    } else {
      var b, rest := bs[0], bs[1..];
      assert bs + [CR] == [b] + (rest + [CR]);
      TypedCons(s, b, rest + [CR]);
      var s1 := KeyStep(s, b).0;
      TypeLine(s1, rest);
      InsertAlgebra(s.buf.line, s.buf.caret, CharOf(b), Chars(rest));
      assert Chars(bs) == [CharOf(b)] + Chars(rest);
      var done := Completed(s.buf.line[..s.buf.caret] + Chars(bs) + s.buf.line[s.buf.caret..]);
      assert KeyFeed(s1, rest + [CR]).1 == Pendings(|rest|) + [done];
      PendingsCons(|rest|);
      assert [Pending] + (Pendings(|rest|) + [done]) == Pendings(|bs|) + [done];
    }
  }

  /** 'h', 'i', CR on an empty line returns "hi". */
  lemma {:induction false} TypeHi(s: LineState)
    requires Valid(s) && s.dec.state == Idle && !s.buf.overwrite && s.buf.line == []
    ensures KeyFeed(s, [0x68, 0x69, CR]).1 == [Pending, Pending, Completed("hi")]
  {
    var bs: seq<byte> := [0x68, 0x69];
    assert bs + [CR] == [0x68, 0x69, CR];
    TypeLine(s, bs);
    assert Chars(bs) == "hi";
    assert s.buf.line[..s.buf.caret] + "hi" + s.buf.line[s.buf.caret..] == "hi";
  }

  // ---------------------------------------------------------------------------
  // Escape sequences

  /** ESC [ enters the control-sequence table without touching the text. */
  lemma {:induction false} EnterCsi(s: LineState, rest: seq<byte>)
    requires Valid(s) && s.dec.state == Idle
    ensures var c := KeyStep(KeyStep(s, ESC).0, KEY_LBRACKET).0;
      && c.dec.state == Csi && c.buf == s.buf
      && KeyFeed(s, [ESC, KEY_LBRACKET] + rest) == (KeyFeed(c, rest).0, [Pending, Pending] + KeyFeed(c, rest).1)
  {
    StepEsc(s);
    StepBracket(KeyStep(s, ESC).0);
    FeedTwo(s, ESC, KEY_LBRACKET, rest);
  }

  /** A run over two bytes that do not end the input, then the rest. */
  lemma {:induction false} FeedTwo(s: LineState, b1: byte, b2: byte, rest: seq<byte>)
    requires Valid(s) && !KeyStep(s, b1).1.EndOfInput? && !KeyStep(KeyStep(s, b1).0, b2).1.EndOfInput?
    ensures var s1 := KeyStep(s, b1); var s2 := KeyStep(s1.0, b2);
      KeyFeed(s, [b1, b2] + rest) == (KeyFeed(s2.0, rest).0, [s1.1, s2.1] + KeyFeed(s2.0, rest).1)
  {
    var s1 := KeyStep(s, b1);
    var t := [b2] + rest;
    assert [b1, b2] + rest == [b1] + t;
    FeedCons(s, b1, t);
    FeedCons(s1.0, b2, rest);
    var o := KeyFeed(KeyStep(s1.0, b2).0, rest).1;
    assert [s1.1] + ([KeyStep(s1.0, b2).1] + o) == [s1.1, KeyStep(s1.0, b2).1] + o;
  }

  /** ESC [ A (up arrow) leaves the line and caret alone and returns to idle. */
  lemma {:induction false} UpArrowKeepsBuffer(s: LineState)
    requires Valid(s) && s.dec.state == Idle
    ensures var r := KeyFeed(s, [ESC, KEY_LBRACKET, KEY_A]);
      && r.0.buf.line == s.buf.line && r.0.buf.caret == s.buf.caret && r.0.dec.state == Idle
      && r.1 == [Pending, Pending, Pending]
  {
    EnterCsi(s, [KEY_A]);
    var c := KeyStep(KeyStep(s, ESC).0, KEY_LBRACKET).0;
    CsiKeys(c, KEY_A);
    FeedOne(c, KEY_A);
    assert [ESC, KEY_LBRACKET] + [KEY_A] == [ESC, KEY_LBRACKET, KEY_A];
  }

  /** As written, ESC [ 3 ~ does not delete: '3' (byte 0x33) is not a value
      0..9, so it ends the sequence and '~' is typed like any character. */
  lemma {:induction false} EscBracketThreeTilde(s: LineState)
    requires Valid(s) && s.dec.state == Idle && !s.buf.overwrite
    ensures var r := KeyFeed(s, [ESC, KEY_LBRACKET, 0x33, KEY_TILDE]);
      && r.0.buf.line == s.buf.line[..s.buf.caret] + "~" + s.buf.line[s.buf.caret..]
      && r.0.buf.caret == s.buf.caret + 1
      && r.1 == Pendings(4)
  {
    var tail: seq<byte> := [0x33, KEY_TILDE];
    EnterCsi(s, tail);
    assert [ESC, KEY_LBRACKET] + tail == [ESC, KEY_LBRACKET, 0x33, KEY_TILDE];
    ThreeTildeTail(KeyStep(KeyStep(s, ESC).0, KEY_LBRACKET).0);
    assert Pendings(4) == [Pending, Pending] + [Pending, Pending];
  }

  /** The last two bytes of ESC [ 3 ~: '3' ends the sequence, '~' is typed. */
  lemma {:induction false} ThreeTildeTail(c: LineState)
    requires Valid(c) && c.dec.state == Csi && !c.buf.overwrite
    ensures var r := KeyFeed(c, [0x33, KEY_TILDE]);
      && r.0.buf.line == c.buf.line[..c.buf.caret] + "~" + c.buf.line[c.buf.caret..]
      && r.0.buf.caret == c.buf.caret + 1
      && r.1 == [Pending, Pending]
  {
    Fallthrough(c, 0x33);
    var s3 := KeyStep(c, 0x33).0;
    FeedCons(c, 0x33, [KEY_TILDE]);
    assert [0x33] + [KEY_TILDE] == [0x33, KEY_TILDE];
    StepTyped(s3, KEY_TILDE);
    FeedOne(s3, KEY_TILDE);
  }

  /** Bytes other than R and ~ inside a parameter sequence, then ~, edit
      nothing when the sequence started with a value 0..9. */
  lemma {:induction false} CsiDigitThenTilde(s: LineState, ps: seq<byte>)
    requires Valid(s) && s.dec.state == CsiDigit && s.dec.escSeq != [] && s.dec.escSeq[0] as int <= 9
    requires forall i :: 0 <= i < |ps| ==> ps[i] != KEY_R && ps[i] != KEY_TILDE
    ensures var r := KeyFeed(s, ps + [KEY_TILDE]);
      r.0.dec.state == Idle && r.0.buf == s.buf && r.1 == Pendings(|ps| + 1)
    decreases |ps|
  {
    if ps == [] {
      assert ps + [KEY_TILDE] == [KEY_TILDE];
      StepTildeNoKey(s);
      FeedOne(s, KEY_TILDE);
      PendingsCons(0);
    } else {
      var p, rest := ps[0], ps[1..];
      assert ps + [KEY_TILDE] == [p] + (rest + [KEY_TILDE]);
      StepCsiParam(s, p);
      var s1 := KeyStep(s, p).0;
      CsiDigitThenTilde(s1, rest);
      FeedCons(s, p, rest + [KEY_TILDE]);
      PendingsCons(|ps|);
    }
  }

  /** As written, no ESC [ n ~ sequence typed from the idle state performs a
      key action: the sequence can only be entered by a byte of value 0..9,
      which stays its first character, so it never equals "1", "2", "3",
      "4", "7" or "8". */
  lemma {:induction false} TildeNeverEdits(s: LineState, d: byte, ps: seq<byte>)
    requires Valid(s) && s.dec.state == Idle && d <= 9
    requires forall i :: 0 <= i < |ps| ==> ps[i] != KEY_R && ps[i] != KEY_TILDE
    ensures var r := KeyFeed(s, [ESC, KEY_LBRACKET, d] + ps + [KEY_TILDE]);
      && r.0.buf.line == s.buf.line && r.0.buf.caret == s.buf.caret && r.0.buf.overwrite == s.buf.overwrite
      && r.0.dec.state == Idle && r.1 == Pendings(|ps| + 4)
  {
    var tail := ps + [KEY_TILDE];
    EnterCsi(s, [d] + tail);
    var c := KeyStep(KeyStep(s, ESC).0, KEY_LBRACKET).0;
    StepCsiDigit(c, d);
    var s3 := KeyStep(c, d);
    FeedCons(c, d, tail);
    CsiDigitThenTilde(s3.0, ps);
    assert [ESC, KEY_LBRACKET, d] + ps + [KEY_TILDE] == [ESC, KEY_LBRACKET] + ([d] + tail);
    assert Pendings(|ps| + 4) == [Pending, Pending] + ([Pending] + Pendings(|ps| + 1));
  }

  /** The dispatch of `csi_digit_tilde` is reached when the sequence text is
      cleared while the decoder stays in the parameter table, as `reset`
      does: then '3' and '~' delete the character at the caret. */
  lemma {:induction false} ClearedSequenceDeletes(s: LineState)
    requires Valid(s) && s.dec.state == CsiDigit && s.dec.escSeq == []
    ensures var r := KeyFeed(s, [0x33, KEY_TILDE]);
      && r.0.buf == Actions.Delete(s).next.buf && r.0.dec.state == Idle && r.1 == [Pending, Pending]
  {
    var s1 := KeyStep(s, 0x33);
    assert s1.0 == s.(dec := s.dec.(escSeq := "3")) && s1.1 == Pending;
    FeedCons(s, 0x33, [KEY_TILDE]);
    FeedOne(s1.0, KEY_TILDE);
    assert [0x33, KEY_TILDE] == [0x33 as byte] + [KEY_TILDE];
  }

  // ---------------------------------------------------------------------------
  // Cursor-position reports

  /** A report parses when its first piece, after white space, and its
      second are decimal numbers; TAB (byte 9) is white space to `int()`. */
  lemma {:induction false} ParseReplyDecimal(pre: string, rows: nat, cols: nat)
    requires forall i :: 0 <= i < |pre| ==> IsPySpace(pre[i])
    ensures ParseReply(pre + Decimal(rows) + ";" + Decimal(cols)) == Some((rows, cols))
  {
    var a := pre + Decimal(rows);
    assert ';' !in a by {
      assert forall i :: 0 <= i < |a| ==> a[i] != ';';
    }
    SplitAt(a, Decimal(cols), ';');
    assert pre + Decimal(rows) + ";" + Decimal(cols) == a + [';'] + Decimal(cols);
    assert Split(Decimal(cols), ';') == [Decimal(cols)] by {
      NoSepSplit(Decimal(cols), ';');
    }
    ParseIntDecimal(pre, rows);
    ParseIntDecimal([], cols);
    assert [] + Decimal(cols) == Decimal(cols);
  }

  lemma {:induction false} NoSepSplit(s: string, sep: char)
    requires sep !in s
    ensures Split(s, sep) == [s]
    decreases |s|
  {
    if s != [] {
      NoSepSplit(s[1..], sep);
      assert [s[0]] + s[1..] == s;
    }
  }

  /** A sequence entered by a byte 0..8 never parses: that byte is neither
      white space nor a digit, so `int()` of the first piece raises. */
  lemma {:induction false} ParseReplyNeedsTab(s: string)
    requires s != [] && s[0] as int < 9
    ensures ParseReply(s) == None
  {
    SplitHead(s, ';');
    ParseIntBadHead(Split(s, ';')[0]);
  }

  lemma {:induction false} SplitHead(s: string, sep: char)
    requires s != [] && s[0] != sep
    ensures Split(s, sep)[0] != [] && Split(s, sep)[0][0] == s[0]
  {
  }

  // ---------------------------------------------------------------------------
  // Mouse packets

  /** After ESC [ M the next two bytes keep the decoder in the mouse table. */
  lemma {:induction false} MousePartial(s: LineState, b1: byte, b2: byte)
    requires Valid(s) && s.dec.state == Csi
    ensures KeyFeed(s, [KEY_M, b1, b2]).0.dec.state == MouseTrack
  {
    StepMouseStart(s);
    var s0 := KeyStep(s, KEY_M);
    StepMouseByte(s0.0, b1);
    var s1 := KeyStep(s0.0, b1);
    StepMouseByte(s1.0, b2);
    FeedOne(s1.0, b2);
    FeedCons(s0.0, b1, [b2]);
    FeedCons(s, KEY_M, [b1] + [b2]);
    assert [KEY_M, b1, b2] == [KEY_M] + ([b1] + [b2]);
  }

  /** ESC [ M is followed by exactly three bytes, each taken as value - 32;
      after the third the decoder is idle and a touch is flagged. Line and
      caret are untouched. */
  lemma {:induction false} MousePacket(s: LineState, b1: byte, b2: byte, b3: byte)
    requires Valid(s) && s.dec.state == Csi
    ensures var r := KeyFeed(s, [KEY_M, b1, b2, b3]);
      && r.0.dec.state == Idle && r.0.dec.mouse == [b1 - 32, b2 - 32, b3 - 32] && r.0.dec.touch
      && r.0.buf.line == s.buf.line && r.0.buf.caret == s.buf.caret
      && r.1 == Pendings(4)
  {
    StepMouseStart(s);
    var s0 := KeyStep(s, KEY_M);
    StepMouseByte(s0.0, b1);
    var s1 := KeyStep(s0.0, b1);
    StepMouseByte(s1.0, b2);
    var s2 := KeyStep(s1.0, b2);
    StepMouseLast(s2.0, b3);
    FeedOne(s2.0, b3);
    FeedCons(s1.0, b2, [b3]);
    FeedCons(s0.0, b1, [b2] + [b3]);
    FeedCons(s, KEY_M, [b1] + ([b2] + [b3]));
    assert [KEY_M, b1, b2, b3] == [KEY_M] + ([b1] + ([b2] + [b3]));
    assert Pendings(4) == [Pending, Pending, Pending, Pending];
  }

}
