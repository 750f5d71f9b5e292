/** What the editor sends to the terminal, and the queue that orders it
    (`CmdWrite`, `CmdInput`, `CmdWriteQueue`). Output is kept as abstract
    commands; `Render` gives the bytes each stands for. */
module Terminal {
  import opened Text

  const ESC_CHAR: char := 27 as char

  /** One `write` of the editor. The cursor moves and the line erase are the
      ECMA-48 control functions CUF (section 8.3.20), CUB (section 8.3.18)
      and EL (section 8.3.41) with their default parameter. */
  datatype Output =
    | Text(s: string)
    | CursorForward(n: nat)
    | CursorBack(n: nat)
    | EraseInLine

  /** `\r\n`, written when a line ends. */
  const CRLF: string := "\r\n"
  /** ESC 7, ESC [r, ESC [999;999H: save cursor, full scroll region, go far. */
  const REPORT_WINDOW_SIZE_1: string := [ESC_CHAR] + "7" + [ESC_CHAR] + "[r" + [ESC_CHAR] + "[999;999H"
  /** ESC 8: restore cursor. */
  const REPORT_WINDOW_SIZE_2: string := [ESC_CHAR] + "8"
  /** ESC [6n: device status report, answered by ESC [ row ; col R. */
  const REPORT_CURSOR_LOCATION: string := [ESC_CHAR] + "[6n"

  /** The bytes written for each command. */
  function Render(o: Output): (r: string)
    ensures o.Text? ==> r == o.s
    ensures !o.Text? ==> |r| >= 3 && r[..2] == [ESC_CHAR, '['] && r[|r| - 1] in "CDK"
  {
    match o
    case Text(s) => s
    case CursorForward(n) => [ESC_CHAR, '['] + Decimal(n) + "C"
    case CursorBack(n) => [ESC_CHAR, '['] + Decimal(n) + "D"
    case EraseInLine => [ESC_CHAR, '[', 'K']
  }

  /** A relative cursor move is rendered as ESC [ n C or ESC [ n D, whose
      parameter reads back as n. */
  lemma {:induction false} RenderMove(o: Output)
    requires o.CursorForward? || o.CursorBack?
    ensures var r := Render(o);
      |r| >= 4 && r[..2] == [ESC_CHAR, '['] &&
      r[|r| - 1] == (if o.CursorForward? then 'C' else 'D') &&
      ParseInt(r[2..|r| - 1]) == Some(o.n)
  {
    var d := Decimal(o.n);
    var r := Render(o);
    var fin := if o.CursorForward? then "C" else "D";
    assert r == [ESC_CHAR, '['] + d + fin;
    Middle([ESC_CHAR, '['], d, fin);
    assert r[2..|r| - 1] == d;
    assert ParseInt(d) == Some(o.n) by {
      ParseIntDecimal([], o.n);
      assert [] + d == d;
    }
  }

  /** The middle of a concatenation of three strings is the middle part. */
  lemma {:induction false} Middle(a: string, d: string, b: string)
    ensures var r := a + d + b;
      r[..|a|] == a && r[|a|..|r| - |b|] == d && r[|r| - |b|..] == b
  {
    var r := a + d + b;
    assert r[..|a|] == a;
    assert r[|a|..|r| - |b|] == d;
    assert r[|r| - |b|..] == b;
  }

  /** How far a command moves the terminal's cursor to the right, for text
      of printable characters that does not wrap. */
  function Displacement(o: Output): int
  {
    match o
    case Text(s) => |s|
    case CursorForward(n) => n
    case CursorBack(n) => 0 - n as int
    case EraseInLine => 0
  }

  /** The function an Input entry resumes once the terminal answers. */
  datatype Continuation = StoreWindowSize | StorePs1Width

  /** A queue entry: `CmdWrite` or `CmdInput`. */
  datatype Cmd = WriteCmd(out: Output) | InputCmd(k: Continuation)

  /** What reached the terminal: an output, or a blocking read of its reply. */
  datatype Event = Emit(out: Output) | AwaitReply(k: Continuation)

  /** `cmd.process()`: a write reaches the terminal only when output is
      enabled; an input entry always reads the terminal's reply. */
  function Effect(c: Cmd, outputEnabled: bool): seq<Event>
  {
    match c
    case WriteCmd(o) => if outputEnabled then [Emit(o)] else []
    case InputCmd(k) => [AwaitReply(k)]
  }

  /** The events of processing `cmds` in order. */
  function Effects(cmds: seq<Cmd>, outputEnabled: bool): (r: seq<Event>)
    ensures |r| <= |cmds|
    ensures !outputEnabled ==> forall i :: 0 <= i < |r| ==> r[i].AwaitReply?
    decreases |cmds|
  {
    if cmds == [] then [] else Effect(cmds[0], outputEnabled) + Effects(cmds[1..], outputEnabled)
  }

  /** Draining two queues one after the other is draining their concatenation. */
  lemma {:induction false} EffectsAppend(a: seq<Cmd>, b: seq<Cmd>, outputEnabled: bool)
    ensures Effects(a + b, outputEnabled) == Effects(a, outputEnabled) + Effects(b, outputEnabled)
    decreases |a|
  {
    if a != [] {
      assert (a + b)[1..] == a[1..] + b;
      EffectsAppend(a[1..], b, outputEnabled);
    } else {
      assert a + b == b;
    }
  }

  /** The event a command produces when output is enabled. */
  function EventOf(c: Cmd): Event
  {
    match c
    case WriteCmd(o) => Emit(o)
    case InputCmd(k) => AwaitReply(k)
  }

  /** With output enabled nothing is dropped: every entry reaches the
      terminal, in order, one event each. */
  lemma {:induction false} EffectsEnabled(cmds: seq<Cmd>)
    ensures |Effects(cmds, true)| == |cmds|
    ensures forall i :: 0 <= i < |cmds| ==> Effects(cmds, true)[i] == EventOf(cmds[i])
    decreases |cmds|
  {
    if cmds != [] {
      EffectsEnabled(cmds[1..]);
      assert Effect(cmds[0], true) == [EventOf(cmds[0])];
    }
  }

  /** The summed displacement of the write entries of a queue segment. */
  function Shift(cmds: seq<Cmd>): int
    decreases |cmds|
  {
    if cmds == [] then 0
    else (if cmds[0].WriteCmd? then Displacement(cmds[0].out) else 0) + Shift(cmds[1..])
  }

  lemma {:induction false} ShiftAppend(a: seq<Cmd>, b: seq<Cmd>)
    ensures Shift(a + b) == Shift(a) + Shift(b)
    decreases |a|
  {
    if a != [] {
      assert (a + b)[1..] == a[1..] + b;
      ShiftAppend(a[1..], b);
    } else {
      assert a + b == b;
    }
  }

  /** `CmdWriteQueue`: a FIFO of pending commands. `sink` stands for the
      terminal: it records, in order, what processing the queue did. */
  class CmdWriteQueue {
    /** The negation of the source's global `FBO` flag. */
    const outputEnabled: bool
    var queue: seq<Cmd>
    var sink: seq<Event>

    constructor (outputEnabled: bool)
      ensures this.outputEnabled == outputEnabled
      ensures queue == [] && sink == []
    {
      this.outputEnabled := outputEnabled;
      queue := [];
      sink := [];
    }

    /** `write`: append a write entry. */
    method Write(o: Output)
      modifies this
      ensures queue == old(queue) + [WriteCmd(o)] && sink == old(sink)
    {
      queue := queue + [WriteCmd(o)];
    }

    /** `queue_input`: append an input entry. */
    method QueueInput(k: Continuation)
      modifies this
      ensures queue == old(queue) + [InputCmd(k)] && sink == old(sink)
    {
      queue := queue + [InputCmd(k)];
    }

    /** `wait_for_input`: the same as `queue_input`. */
    method WaitForInput(k: Continuation)
      modifies this
      ensures queue == old(queue) + [InputCmd(k)] && sink == old(sink)
    {
      QueueInput(k);
    }

    /** `CmdWrite.process` and `CmdInput.process` for one entry. */
    method ProcessCmd(c: Cmd)
      modifies this
      ensures sink == old(sink) + Effect(c, outputEnabled) && queue == old(queue)
    {
      match c
      case WriteCmd(o) =>
        if outputEnabled {
          sink := sink + [Emit(o)];
        }
      case InputCmd(k) =>
        sink := sink + [AwaitReply(k)];
    }

    /** `process`: pop and process entries until the queue is empty. */
    method Process()
      modifies this
      ensures queue == []
      ensures sink == old(sink) + Effects(old(queue), outputEnabled)
    {
      while |queue| > 0
        invariant sink + Effects(queue, outputEnabled) == old(sink) + Effects(old(queue), outputEnabled)
        decreases |queue|
      {
        var c := queue[0];
        queue := queue[1..];
        ProcessCmd(c);
      }
    }

    /** `process_input`: the head must be an input entry (the source asserts
        it; `ok` is false where that assertion fails, with nothing changed);
        it is processed, then the rest of the queue. `rows` and `cols` are
        ignored, as in the source. */
    method ProcessInput(rows: int, cols: int) returns (ok: bool)
      modifies this
      ensures ok <==> old(queue) != [] && old(queue)[0].InputCmd?
      ensures ok ==> queue == [] && sink == old(sink) + Effects(old(queue), outputEnabled)
      ensures !ok ==> queue == old(queue) && sink == old(sink)
    {
      if |queue| == 0 || !queue[0].InputCmd? {
        return false;
      }
      var c := queue[0];
      queue := queue[1..];
      ProcessCmd(c);
      Process();
      ok := true;
    }
  }
}
