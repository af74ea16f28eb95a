/** Values of the Go runtime that the proxy's logic is written in terms of:
    bytes and byte strings (a Go `string` is a byte sequence, exactly like a
    `[]byte`), nil-able results, and the two formatting verbs the error texts
    use (`%d` and `%q`). */
module GoValues {

  newtype byte = b: int | 0 <= b < 256

  /** Both Go `string` and `[]byte` values. */
  type Bytes = seq<byte>

  /** A Go value that may be nil: an `error`, or an optional record. */
  datatype Option<T> = None | Some(value: T)

  /** The bytes of a string literal. Every literal of the program is ASCII,
      so each character stands for exactly one byte. */
  function Of(s: string): Bytes
  {
    seq(|s|, i requires 0 <= i < |s| => (s[i] as int % 256) as byte)
  }

  const Minus: byte := 45
  const DoubleQuote: byte := 34
  const Backslash: byte := 92

  predicate IsDigit(b: byte) {
    48 <= b <= 57
  }

  /** The decimal digits of a natural number, most significant first. */
  function Digits(n: nat): (d: Bytes)
    ensures |d| >= 1
    ensures forall i :: 0 <= i < |d| ==> IsDigit(d[i])
    decreases n
  {
    if n < 10 then [(48 + n) as byte] else Digits(n / 10) + [(48 + n % 10) as byte]
  }

  /** The value of a sequence of decimal digits. */
  function DigitsValue(d: Bytes): nat
    decreases |d|
  {
    if |d| == 0 then 0
    else if IsDigit(d[|d| - 1]) then DigitsValue(d[..|d| - 1]) * 10 + (d[|d| - 1] as int - 48)
    else DigitsValue(d[..|d| - 1]) * 10
  }

  /** Go's `%d` rendering of an integer: a minus sign for negative values,
      then the digits of the magnitude. */
  function Decimal(n: int): (r: Bytes)
    ensures |r| >= 1
    ensures n < 0 <==> r[0] == Minus
  {
    if n < 0 then [Minus] + Digits(-n) else Digits(n)
  }

  /** Reads back what `Decimal` renders. */
  function ParseDecimal(r: Bytes): int
  {
    if |r| > 0 && r[0] == Minus then -(DigitsValue(r[1..]) as int) else DigitsValue(r)
  }

  lemma {:induction false} DigitsRoundTrip(n: nat)
    ensures DigitsValue(Digits(n)) == n
    decreases n
  {
    if n >= 10 {
      var d := Digits(n);
      assert d[..|d| - 1] == Digits(n / 10);
      DigitsRoundTrip(n / 10);
    }
  }

  /** `%d` loses nothing: the rendered code can be read back exactly. */
  lemma DecimalRoundTrip(n: int)
    ensures ParseDecimal(Decimal(n)) == n
  {
    if n < 0 {
      assert Decimal(n)[1..] == Digits(-n);
      DigitsRoundTrip(-n);
    } else {
      DigitsRoundTrip(n);
    }
  }

  /** The body of a `%q` rendering: a double quote or a backslash is
      preceded by a backslash, every other byte is kept. */
  function Escape(s: Bytes): (e: Bytes)
    ensures |e| >= |s|
    decreases |s|
  {
    if |s| == 0 then []
    else if s[0] == DoubleQuote || s[0] == Backslash then [Backslash, s[0]] + Escape(s[1..])
    else [s[0]] + Escape(s[1..])
  }

  /** Reads back what `Escape` produces. */
  function Unescape(e: Bytes): Bytes
    decreases |e|
  {
    if |e| == 0 then []
    else if e[0] == Backslash && |e| >= 2 then [e[1]] + Unescape(e[2..])
    else [e[0]] + Unescape(e[1..])
  }

  /** Unescaping an escaped body gives back the original bytes. */
  lemma {:induction false} EscapeRoundTrip(s: Bytes)
    ensures Unescape(Escape(s)) == s
    decreases |s|
  {
    if |s| > 0 {
      EscapeRoundTrip(s[1..]);
      var e := Escape(s);
      if s[0] == DoubleQuote || s[0] == Backslash {
        assert e[2..] == Escape(s[1..]);
      } else {
        assert e[1..] == Escape(s[1..]);
      }
    }
  }

  /** Go's `%q` rendering of a string. */
  function Quote(s: Bytes): (q: Bytes)
    ensures |q| >= 2 && q[0] == DoubleQuote && q[|q| - 1] == DoubleQuote
    ensures Unescape(q[1..|q| - 1]) == s
  {
    EscapeRoundTrip(s);
    var q := [DoubleQuote] + Escape(s) + [DoubleQuote];
    assert q[1..|q| - 1] == Escape(s);
    q
  }

  /** The number of leading decimal digits of `s`. */
  function DigitSpan(s: Bytes): (k: nat)
    ensures k <= |s|
    ensures forall i :: 0 <= i < k ==> IsDigit(s[i])
    ensures k < |s| ==> !IsDigit(s[k])
    decreases |s|
  {
    if |s| == 0 || !IsDigit(s[0]) then 0 else 1 + DigitSpan(s[1..])
  }

  /** The digits of a rendering end where the first non-digit follows. */
  lemma {:induction false} DigitSpanOf(d: Bytes, tail: Bytes)
    requires forall i :: 0 <= i < |d| ==> IsDigit(d[i])
    requires |tail| > 0 ==> !IsDigit(tail[0])
    ensures DigitSpan(d + tail) == |d|
    decreases |d|
  {
    if |d| > 0 {
      assert (d + tail)[1..] == d[1..] + tail;
      DigitSpanOf(d[1..], tail);
    } else {
      assert d + tail == tail;
    }
  }

  /** Reads a `%d` rendering from the front of `s`: an optional minus sign,
      then the longest run of digits; gives the value and what follows. */
  function ReadDecimal(s: Bytes): Option<(int, Bytes)>
  {
    var start := if |s| > 0 && s[0] == Minus then 1 else 0;
    var k := start + DigitSpan(s[start..]);
    if k == start then None else Some((ParseDecimal(s[..k]), s[k..]))
  }

  /** A rendered integer is read back in full, up to the first byte after
      it that is not a digit. */
  lemma ReadDecimalRoundTrip(n: int, tail: Bytes)
    requires |tail| > 0 ==> !IsDigit(tail[0])
    ensures ReadDecimal(Decimal(n) + tail) == Some((n, tail))
  {
    var s := Decimal(n) + tail;
    DecimalRoundTrip(n);
    if n < 0 {
      assert s[1..] == Digits(-n) + tail;
      DigitSpanOf(Digits(-n), tail);
    } else {
      assert s[0] == Digits(n)[0];
      DigitSpanOf(Digits(n), tail);
    }
    assert s[..|Decimal(n)|] == Decimal(n);
    assert s[|Decimal(n)|..] == tail;
  }

  /** Reads an escaped body up to its first unescaped double quote; gives
      the unescaped value and what follows the closing quote. */
  function ReadEscaped(s: Bytes): Option<(Bytes, Bytes)>
    decreases |s|
  {
    if |s| == 0 then None
    else if s[0] == DoubleQuote then Some(([], s[1..]))
    else if s[0] == Backslash && |s| >= 2 then
      match ReadEscaped(s[2..])
      case None => None
      case Some((v, rest)) => Some(([s[1]] + v, rest))
    else
      match ReadEscaped(s[1..])
      case None => None
      case Some((v, rest)) => Some(([s[0]] + v, rest))
  }

  /** An escaped body never contains an unescaped double quote: the reader
      stops exactly at the quote that closes it. */
  lemma {:induction false} ReadEscapedRoundTrip(v: Bytes, tail: Bytes)
    ensures ReadEscaped(Escape(v) + [DoubleQuote] + tail) == Some((v, tail))
    decreases |v|
  {
    var s := Escape(v) + [DoubleQuote] + tail;
    if |v| == 0 {
      assert s == [DoubleQuote] + tail;
      assert s[1..] == tail;
    } else {
      ReadEscapedRoundTrip(v[1..], tail);
      if v[0] == DoubleQuote || v[0] == Backslash {
        assert s == [Backslash, v[0]] + (Escape(v[1..]) + [DoubleQuote] + tail);
        assert s[2..] == Escape(v[1..]) + [DoubleQuote] + tail;
      } else {
        assert s == [v[0]] + (Escape(v[1..]) + [DoubleQuote] + tail);
        assert s[1..] == Escape(v[1..]) + [DoubleQuote] + tail;
      }
      assert [v[0]] + v[1..] == v;
    }
  }

  /** Reads a `%q` rendering from the front of `s`. */
  function ReadQuoted(s: Bytes): Option<(Bytes, Bytes)>
  {
    if |s| > 0 && s[0] == DoubleQuote then ReadEscaped(s[1..]) else None
  }

  lemma ReadQuotedRoundTrip(v: Bytes, tail: Bytes)
    ensures ReadQuoted(Quote(v) + tail) == Some((v, tail))
  {
    var s := Quote(v) + tail;
    assert s[1..] == Escape(v) + [DoubleQuote] + tail;
    ReadEscapedRoundTrip(v, tail);
  }

  /** What follows the literal `lit` at the front of `s`, if it is there. */
  function After(s: Bytes, lit: Bytes): (r: Option<Bytes>)
    ensures r.Some? <==> |lit| <= |s| && s[..|lit|] == lit
    ensures r.Some? ==> s == lit + r.value
  {
    if |lit| <= |s| && s[..|lit|] == lit then Some(s[|lit|..]) else None
  }

  lemma AfterPrefix(lit: Bytes, rest: Bytes)
    ensures After(lit + rest, lit) == Some(rest)
  {
    assert (lit + rest)[..|lit|] == lit && (lit + rest)[|lit|..] == rest;
  }

  /** Go's `strings.Join`. */
  function Join(parts: seq<Bytes>, sep: Bytes): (r: Bytes)
    ensures |parts| == 1 ==> r == parts[0]
    decreases |parts|
  {
    if |parts| == 0 then []
    else if |parts| == 1 then parts[0]
    else parts[0] + sep + Join(parts[1..], sep)
  }
}
