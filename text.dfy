/** Byte strings and the few pieces of Go's runtime library the interpreter
    relies on: byte classification, decimal formatting, strconv.Atoi and
    64-bit integer wrap-around. */
module Text {

  /** A byte of a Go string. It is held as a character whose code is below
      256, so that ASCII text can be written as a Dafny string literal. */
  type Byte = c: char | c as int < 0x100 witness 'a'

  /** A Go string: a sequence of bytes, not of runes. */
  type Bytes = seq<Byte>

  datatype Option<T> = None | Some(value: T)

  const MaxInt64: int := 0x7FFF_FFFF_FFFF_FFFF
  const MinInt64: int := -0x8000_0000_0000_0000
  const MaxUint64: int := 0xFFFF_FFFF_FFFF_FFFF

  /** True when `p` occurs in `s` starting at byte `i`. */
  predicate StartsWith(s: Bytes, i: nat, p: Bytes)
  {
    i + |p| <= |s| && s[i..i + |p|] == p
  }

  /** True when `p` occurs anywhere in `s`. */
  predicate Contains(s: Bytes, p: Bytes)
  {
    exists i: nat :: i <= |s| && StartsWith(s, i, p)
  }

  // unicode.IsLetter, unicode.IsDigit and unicode.IsSpace applied to the
  // code point of a single byte, that is, to a Latin-1 character.

  predicate IsLetter(b: Byte)
  {
    ('A' <= b <= 'Z') || ('a' <= b <= 'z') || b == '\U{AA}' || b == '\U{B5}' || b == '\U{BA}'
    || ('\U{C0}' <= b <= '\U{D6}') || ('\U{D8}' <= b <= '\U{F6}') || '\U{F8}' <= b
  }

  predicate IsDigit(b: Byte)
  {
    '0' <= b <= '9'
  }

  predicate IsSpace(b: Byte)
  {
    ('\t' <= b <= '\r') || b == ' ' || b == '\U{85}' || b == '\U{A0}'
  }

  predicate AllDigits(s: Bytes)
  {
    forall i :: 0 <= i < |s| ==> IsDigit(s[i])
  }

  function DigitValue(b: Byte): (d: nat)
    requires IsDigit(b)
    ensures d < 10
  {
    b as int - '0' as int
  }

  function DigitChar(d: nat): (b: Byte)
    requires d < 10
    ensures IsDigit(b) && DigitValue(b) == d
  {
    ('0' as int + d) as char
  }

  /** The number a string of decimal digits denotes (most significant first). */
  function DigitsValue(s: Bytes): nat
    requires AllDigits(s)
  {
    if s == [] then 0 else DigitsValue(s[..|s| - 1]) * 10 + DigitValue(s[|s| - 1])
  }

  /** The shortest decimal digits of `n`. */
  function Digits(n: nat): (s: Bytes)
    ensures s != [] && AllDigits(s)
    ensures |s| > 1 ==> s[0] != '0'
  {
    if n < 10 then [DigitChar(n)] else Digits(n / 10) + [DigitChar(n % 10)]
  }

  lemma {:induction false} DigitsRoundTrip(n: nat)
    ensures DigitsValue(Digits(n)) == n
  {
    if n >= 10 {
      DigitsRoundTrip(n / 10);
      var s := Digits(n);
      assert s[..|s| - 1] == Digits(n / 10);
    }
  }

  /** fmt's rendering of an int: optional minus sign, then the digits. */
  function Decimal(n: int): Bytes
  {
    if n < 0 then "-" + Digits(-n) else Digits(n)
  }

  /** Go's int is 64 bits wide and its + and * wrap around. */
  function Wrap64(x: int): (r: int)
    ensures MinInt64 <= r <= MaxInt64
    ensures (r - x) % 0x1_0000_0000_0000_0000 == 0
    ensures MinInt64 <= x <= MaxInt64 ==> r == x
  {
    (x - MinInt64) % 0x1_0000_0000_0000_0000 + MinInt64
  }

  /** The outcome of strconv.Atoi: the int it returns and whether its error is nil. */
  datatype AtoiResult = AtoiResult(value: int, ok: bool)

  /** Outcome of the digit loop of strconv.ParseUint(s, 10, 64). */
  datatype UintScan = UintValue(n: nat) | UintSyntaxError | UintRangeError

  /** The digit loop of strconv.ParseUint in base 10: it stops at the first
      non-digit (syntax error) or as soon as the value would exceed 64 bits
      (range error), whichever comes first. */
  function ScanUint(s: Bytes, i: nat, n: nat): (r: UintScan)
    requires i <= |s| && n <= MaxUint64
    decreases |s| - i
    ensures r.UintValue? ==> r.n <= MaxUint64
  {
    if i == |s| then UintValue(n)
    else if !IsDigit(s[i]) then UintSyntaxError
    else if n >= MaxUint64 / 10 + 1 then UintRangeError
    else if n * 10 + DigitValue(s[i]) > MaxUint64 then UintRangeError
    else ScanUint(s, i + 1, n * 10 + DigitValue(s[i]))
  }

  /** strconv.Atoi on a 64-bit platform (it behaves as ParseInt(s, 10, 0)):
      an optional sign, at least one digit; a syntax error yields 0 and a
      range error yields the nearest 64-bit bound, both with a non-nil error. */
  function Atoi(s: Bytes): AtoiResult
  {
    if s == [] then AtoiResult(0, false)
    else
      var neg := s[0] == '-';
      var body := if s[0] == '+' || s[0] == '-' then s[1..] else s;
      if body == [] then AtoiResult(0, false)
      else
        match ScanUint(body, 0, 0)
        case UintSyntaxError => AtoiResult(0, false)
        case UintRangeError => AtoiResult(if neg then MinInt64 else MaxInt64, false)
        case UintValue(u) =>
          var v: int := u;
          if !neg && u > MaxInt64 then AtoiResult(MaxInt64, false)
          else if neg && u > -MinInt64 then AtoiResult(MinInt64, false)
          else AtoiResult(if neg then -v else v, true)
  }

  /** On a digit string the scan of ParseUint computes the reference value
      DigitsValue, or reports a range error exactly when that value needs
      more than 64 bits. */
  lemma {:induction false} ScanUintDigits(s: Bytes, i: nat, n: nat)
    requires i <= |s| && n <= MaxUint64 && AllDigits(s)
    requires n == DigitsValue(s[..i])
    ensures ScanUint(s, i, n) == if DigitsValue(s) <= MaxUint64 then UintValue(DigitsValue(s)) else UintRangeError
    decreases |s| - i
  {
    assert s[..|s|] == s;
    if i < |s| {
      var n' := n * 10 + DigitValue(s[i]);
      assert s[..i + 1][..i] == s[..i];
      assert n' == DigitsValue(s[..i + 1]);
      DigitsValueMonotone(s, i + 1);
      if n' <= MaxUint64 {
        ScanUintDigits(s, i + 1, n');
      }
    }
  }

  /** A prefix of a digit string never denotes more than the whole string. */
  lemma {:induction false} DigitsValueMonotone(s: Bytes, i: nat)
    requires i <= |s| && AllDigits(s)
    ensures DigitsValue(s[..i]) <= DigitsValue(s)
    decreases |s| - i
  {
    assert s[..|s|] == s;
    if i < |s| {
      DigitsValueMonotone(s, i + 1);
      assert s[..i + 1][..i] == s[..i];
    }
  }

  /** Atoi of a non-empty unsigned digit string is its value when that fits
      in 64 bits, and MaxInt64 with an error otherwise. */
  lemma AtoiOfDigits(s: Bytes)
    requires s != [] && AllDigits(s)
    ensures Atoi(s) == if DigitsValue(s) <= MaxInt64 then AtoiResult(DigitsValue(s), true)
                       else AtoiResult(MaxInt64, false)
  {
    assert s[..0] == [];
    ScanUintDigits(s, 0, 0);
  }

  /** Formatting an int and reading it back with Atoi gives the int again. */
  lemma AtoiDecimalRoundTrip(n: int)
    requires MinInt64 <= n <= MaxInt64
    ensures Atoi(Decimal(n)) == AtoiResult(n, true)
  {
    var m: nat := if n < 0 then -n else n;
    var d := Digits(m);
    DigitsRoundTrip(m);
    assert d[..0] == [];
    ScanUintDigits(d, 0, 0);
    if n < 0 {
      assert Decimal(n)[1..] == d;
    }
  }
}
