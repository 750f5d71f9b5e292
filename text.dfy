/** Character, byte and string helpers with Python's semantics where the
    editor relies on them: slicing with negative indices, `str.split`,
    `int()` on a decimal string, and the `printable` helper. */
module Text {

  /** One input byte, as `process_char` receives it. */
  type byte = x: int | 0 <= x < 256

  datatype Option<T> = None | Some(value: T)

  function Min(a: int, b: int): int { if a <= b then a else b }
  function Max(a: int, b: int): int { if a >= b then a else b }

  /** The character `chr(b)` of a byte. */
  function CharOf(b: byte): char { b as char }

  /** The characters of a byte sequence, one per byte. */
  function Chars(bs: seq<byte>): string
  {
    seq(|bs|, i requires 0 <= i < |bs| => CharOf(bs[i]))
  }

  /** `printable`: the character itself when it lies in ' '..'~', else '.'. */
  function Printable(ch: char): (r: char)
    ensures ' ' <= r <= '~'
    ensures r == ch <==> ' ' <= ch <= '~'
  {
    if ch < ' ' || ch > '~' then '.' else ch
  }

  // ---------------------------------------------------------------------------
  // Decimal numerals

  predicate IsDigit(c: char) { '0' <= c <= '9' }

  predicate AllDigits(s: string) { forall i :: 0 <= i < |s| ==> IsDigit(s[i]) }

  function DigitChar(d: int): char
    requires 0 <= d < 10
  {
    ('0' as int + d) as char
  }

  /** The decimal numeral of `n`, as `str(n)` or `"%u" % n` prints it. */
  function Decimal(n: nat): (r: string)
    ensures |r| >= 1 && AllDigits(r)
    decreases n
  {
    if n < 10 then [DigitChar(n)] else Decimal(n / 10) + [DigitChar(n % 10)]
  }

  /** The value of a string of decimal digits (leading zeros allowed). */
  function DigitsValue(s: string): nat
    requires AllDigits(s)
    decreases |s|
  {
    if s == [] then 0
    else DigitsValue(s[..|s| - 1]) * 10 + (s[|s| - 1] as int - '0' as int)
  }

  lemma {:induction false} DecimalValue(n: nat)
    ensures DigitsValue(Decimal(n)) == n
  {
    if n >= 10 {
      DecimalValue(n / 10);
      var s := Decimal(n);
      assert s[..|s| - 1] == Decimal(n / 10);
    }
  }

  // ---------------------------------------------------------------------------
  // Python's int() on the strings the decoder can accumulate

  /** `str.isspace` for the characters a byte can denote. */
  predicate IsPySpace(c: char)
  {
    var k := c as int;
    k == 32 || 9 <= k <= 13 || 28 <= k <= 31 || k == 0x85 || k == 0xA0
  }

  function TrimLeft(s: string): (r: string)
    ensures |r| <= |s|
    ensures r == [] || !IsPySpace(r[0])
    decreases |s|
  {
    if s != [] && IsPySpace(s[0]) then TrimLeft(s[1..]) else s
  }

  function TrimRight(s: string): (r: string)
    ensures |r| <= |s| && forall i :: 0 <= i < |r| ==> r[i] == s[i]
    ensures r == [] || !IsPySpace(r[|r| - 1])
    decreases |s|
  {
    if s != [] && IsPySpace(s[|s| - 1]) then TrimRight(s[..|s| - 1]) else s
  }

  /** `int(s)` for strings without sign or underscore: surrounding white
      space is ignored and what remains must be a non-empty run of digits;
      anything else raises, modelled as None. */
  function ParseInt(s: string): (r: Option<int>)
    ensures r.Some? ==> r.value >= 0 && s != []
  {
    var t := TrimRight(TrimLeft(s));
    if t != [] && AllDigits(t) then Some(DigitsValue(t)) else None
  }

  lemma {:induction false} TrimLeftSpaces(pre: string, s: string)
    requires forall i :: 0 <= i < |pre| ==> IsPySpace(pre[i])
    requires s == [] || !IsPySpace(s[0])
    ensures TrimLeft(pre + s) == s
    decreases |pre|
  {
    if pre != [] {
      assert (pre + s)[1..] == pre[1..] + s;
      TrimLeftSpaces(pre[1..], s);
    } else {
      assert pre + s == s;
    }
  }

  /** A string that starts with neither white space nor a digit does not
      parse. */
  lemma {:induction false} ParseIntBadHead(s: string)
    requires s != [] && !IsPySpace(s[0]) && !IsDigit(s[0])
    ensures ParseInt(s) == None
  {
    assert TrimLeft(s) == s;
    var t := TrimRight(s);
    assert t == [] || t[0] == s[0];
  }

  lemma TrimDigits(d: string)
    requires d != [] && AllDigits(d)
    ensures TrimRight(d) == d
  {
    assert IsDigit(d[|d| - 1]);
  }

  /** `int()` reads back what `str()` printed, also after leading white space. */
  lemma ParseIntDecimal(pre: string, n: nat)
    requires forall i :: 0 <= i < |pre| ==> IsPySpace(pre[i])
    ensures ParseInt(pre + Decimal(n)) == Some(n)
  {
    var d := Decimal(n);
    assert IsDigit(d[0]);
    TrimLeftSpaces(pre, d);
    TrimDigits(d);
    DecimalValue(n);
  }

  // ---------------------------------------------------------------------------
  // str.split(sep) and Python slicing

  /** `s.split(sep)`: the pieces between separators, always at least one. */
  function Split(s: string, sep: char): (r: seq<string>)
    ensures |r| >= 1
    ensures forall k :: 0 <= k < |r| ==> sep !in r[k]
    decreases |s|
  {
    if s == [] then [[]]
    else if s[0] == sep then [[]] + Split(s[1..], sep)
    else
      var rest := Split(s[1..], sep);
      [[s[0]] + rest[0]] + rest[1..]
  }

  /** `sep.join(parts)`. */
  function Join(parts: seq<string>, sep: char): string
    requires |parts| >= 1
    decreases |parts|
  {
    if |parts| == 1 then parts[0] else parts[0] + [sep] + Join(parts[1..], sep)
  }

  /** Splitting loses nothing: joining the pieces gives the string back. */
  lemma {:induction false} SplitJoin(s: string, sep: char)
    ensures Join(Split(s, sep), sep) == s
    decreases |s|
  {
    if s == [] {
    } else if s[0] == sep {
      SplitJoin(s[1..], sep);
      assert [sep] + s[1..] == s;
    } else {
      SplitJoin(s[1..], sep);
      var rest := Split(s[1..], sep);
      if |rest| == 1 {
        assert [s[0]] + rest[0] == s;
      } else {
        assert [s[0]] + rest[0] + [sep] + Join(rest[1..], sep) == [s[0]] + (rest[0] + [sep] + Join(rest[1..], sep));
        assert [s[0]] + s[1..] == s;
      }
    }
  }

  /** Splitting at the first separator of `a + [sep] + b` when `a` has none. */
  lemma {:induction false} SplitAt(a: string, b: string, sep: char)
    requires sep !in a
    ensures Split(a + [sep] + b, sep) == [a] + Split(b, sep)
    decreases |a|
  {
    if a == [] {
      assert a + [sep] + b == [sep] + b;
      assert ([sep] + b)[1..] == b;
    } else {
      assert (a + [sep] + b)[0] == a[0];
      assert (a + [sep] + b)[1..] == a[1..] + [sep] + b;
      SplitAt(a[1..], b, sep);
      assert [a[0]] + a[1..] == a;
    }
  }

  /** A Python slice index: negative counts from the end, then clamped. */
  function PyIndex(len: nat, i: int): (r: nat)
    ensures r <= len
  {
    if i < 0 then (if i + len < 0 then 0 else i + len)
    else if i > len then len
    else i
  }

  /** `s[i:j]` with Python's semantics. */
  function PySlice(s: string, i: int, j: int): (r: string)
    ensures |r| <= |s|
    ensures 0 <= i <= j <= |s| ==> r == s[i..j]
    ensures 0 <= i && 0 <= j <= |s| ==> |r| == Max(j - i, 0)
  {
    var a := PyIndex(|s|, i);
    var b := PyIndex(|s|, j);
    if a < b then s[a..b] else []
  }
}
