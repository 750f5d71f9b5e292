/** The escape-sequence decoder's states and the dispatch tables that
    `readline.__init__` builds: one table per state, mapping an exact byte to
    an action, with a wildcard entry that receives the byte itself. */
module Decoder {
  import opened Text

  /** The table currently in `self.state`: ESEQ_NONE, ESEQ_ESC, ESEQ_CSI,
      ESEQ_CSI_DIGIT, ESEQ_ESC_O and CSI_MOUSE. */
  datatype DecoderState = Idle | Esc | Csi | CsiDigit | EscO | MouseTrack

  const CTRL_A: byte := 0x01
  const CTRL_C: byte := 0x03
  const CTRL_D: byte := 0x04
  const CTRL_E: byte := 0x05
  const BS: byte := 0x08
  const CR: byte := 0x0D
  const CTRL_U: byte := 0x15
  const ESC: byte := 0x1B
  const DEL: byte := 0x7F

  const KEY_LBRACKET: byte := 0x5B  // '['
  const KEY_O: byte := 0x4F         // 'O'
  const KEY_A: byte := 0x41         // 'A'
  const KEY_B: byte := 0x42         // 'B'
  const KEY_C: byte := 0x43         // 'C'
  const KEY_D: byte := 0x44         // 'D'
  const KEY_F: byte := 0x46         // 'F'
  const KEY_H: byte := 0x48         // 'H'
  const KEY_M: byte := 0x4D         // 'M'
  const KEY_R: byte := 0x52         // 'R'
  const KEY_TILDE: byte := 0x7E     // '~'
  const KEY_SEMI: byte := 0x3B      // ';'
  const KEY_0: byte := 0x30         // '0'
  const KEY_9: byte := 0x39         // '9'

  /** The action methods a table entry can name; wildcard entries carry the
      byte they were called with. */
  datatype Action =
    | Home | Cancel | Eof | End | ClearBeforeCursor | Backspace | LineComplete
    | BeginEsc | TypedChar(b: byte)
    | EscBracket | BeginEscO | EscTypedChar(b: byte)
    | UpArrow | DownArrow | RightArrow | LeftArrow | CsiMouse | CsiTypedChar(b: byte)
    | CsiDigitR | CsiDigitTilde | CsiDigitTypedChar(b: byte)
    | EscOTypedChar(b: byte)
    | CsiMouseAnyEvent(b: byte)

  /** The exact keys of each table. */
  function Keys(s: DecoderState): set<byte>
  {
    match s
    case Idle => {CTRL_A, CTRL_C, CTRL_D, CTRL_E, CTRL_U, BS, CR, ESC, DEL}
    case Esc => {KEY_LBRACKET, KEY_O}
    case Csi => {KEY_A, KEY_B, KEY_C, KEY_D, KEY_H, KEY_F, KEY_M}
    case CsiDigit => {KEY_R, KEY_TILDE}
    case EscO => {KEY_H, KEY_F}
    case MouseTrack => {}
  }

  /** The wildcard (`None`) entry of each table, applied to byte `b`. */
  function Wildcard(s: DecoderState, b: byte): Action
  {
    match s
    case Idle => TypedChar(b)
    case Esc => EscTypedChar(b)
    case Csi => CsiTypedChar(b)
    case CsiDigit => CsiDigitTypedChar(b)
    case EscO => EscOTypedChar(b)
    case MouseTrack => CsiMouseAnyEvent(b)
  }

  /** The lookup at the head of `process_char`: the exact entry when the
      byte is a key of the table, the wildcard otherwise. A byte that is not
      a key goes to the wildcard entry, and a key never does. */
  function Lookup(s: DecoderState, b: byte): (r: Action)
    ensures b !in Keys(s) ==> r == Wildcard(s, b)
  {
    match s
    case Idle =>
      if b == CTRL_A then Home
      else if b == CTRL_C then Cancel
      else if b == CTRL_D then Eof
      else if b == CTRL_E then End
      else if b == CTRL_U then ClearBeforeCursor
      else if b == BS then Backspace
      else if b == CR then LineComplete
      else if b == ESC then BeginEsc
      else if b == DEL then Backspace
      else TypedChar(b)
    case Esc =>
      if b == KEY_LBRACKET then EscBracket
      else if b == KEY_O then BeginEscO
      else EscTypedChar(b)
    case Csi =>
      if b == KEY_A then UpArrow
      else if b == KEY_B then DownArrow
      else if b == KEY_C then RightArrow
      else if b == KEY_D then LeftArrow
      else if b == KEY_H then Home
      else if b == KEY_F then End
      else if b == KEY_M then CsiMouse
      else CsiTypedChar(b)
    case CsiDigit =>
      if b == KEY_R then CsiDigitR
      else if b == KEY_TILDE then CsiDigitTilde
      else CsiDigitTypedChar(b)
    case EscO =>
      if b == KEY_H then Home
      else if b == KEY_F then End
      else EscOTypedChar(b)
    case MouseTrack => CsiMouseAnyEvent(b)
  }

  /** A key of a table is never dispatched to that table's wildcard entry. */
  lemma KeyNeverWildcard(s: DecoderState, b: byte)
    requires b in Keys(s)
    ensures Lookup(s, b) != Wildcard(s, b)
  {
  }
}
