/**
 Bytes, 64-bit integers and the decimal text the protocol and the log use for them.
 */
module Bytes {

  type byte = x: int | 0 <= x < 256
  type bytes = seq<byte>

  datatype Option<+T> = None | Some(value: T)

  const MAX_INT64: int := 0x7fff_ffff_ffff_ffff
  const MIN_INT64: int := -0x8000_0000_0000_0000

  type int64 = x: int | MIN_INT64 <= x <= MAX_INT64

  const CR: byte := 13
  const LF: byte := 10
  const CRLF: bytes := [CR, LF]
  const PLUS: byte := 43
  const MINUS: byte := 45
  const ZERO: byte := 48

  /** The bytes of an ASCII literal. */
  function Ascii(s: string): (b: bytes)
    ensures |b| == |s|
    ensures forall i :: 0 <= i < |s| ==> b[i] == s[i] as int % 256
  {
    seq(|s|, i requires 0 <= i < |s| => s[i] as int % 256)
  }

  /** What a Go int64 holds after a multiplication that overflows. */
  function Wrap64(x: int): (w: int64)
    ensures MIN_INT64 <= x <= MAX_INT64 ==> w == x
    ensures exists k :: w == x + k * 0x1_0000_0000_0000_0000
  {
    var w := (x - MIN_INT64) % 0x1_0000_0000_0000_0000 + MIN_INT64;
    assert w == x + (-((x - MIN_INT64) / 0x1_0000_0000_0000_0000)) * 0x1_0000_0000_0000_0000;
    w
  }

  predicate IsDigit(b: byte) {
    ZERO <= b < ZERO + 10
  }

  predicate AllDigits(s: bytes) {
    forall i :: 0 <= i < |s| ==> IsDigit(s[i])
  }

  function DigitsValue(s: bytes): nat
    requires AllDigits(s)
  {
    if s == [] then 0 else DigitsValue(s[..|s| - 1]) * 10 + (s[|s| - 1] - ZERO)
  }

  function FormatNat(n: nat): (s: bytes)
    ensures |s| > 0 && AllDigits(s) && DigitsValue(s) == n
  {
    if n < 10 then
      assert DigitsValue([ZERO + n][..0]) == 0;
      [ZERO + n]
    else
      var front := FormatNat(n / 10);
      var s := front + [ZERO + n % 10];
      assert s[..|s| - 1] == front;
      s
  }

  /** strconv.FormatInt in base ten. */
  function FormatInt(n: int): (s: bytes) {
    if n < 0 then [MINUS] + FormatNat(-n) else FormatNat(n)
  }

  /** strconv.ParseInt in base ten and 64 bits: an optional sign, at least one digit, in range. */
  function ParseInt(s: bytes): (r: Option<int64>) {
    var signed := s != [] && (s[0] == PLUS || s[0] == MINUS);
    var body := if signed then s[1..] else s;
    if body == [] || !AllDigits(body) then None
    else
      var n: int := DigitsValue(body);
      var n := if signed && s[0] == MINUS then -n else n;
      if MIN_INT64 <= n <= MAX_INT64 then Some(n) else None
  }

  lemma ParseFormat(n: int64)
    ensures ParseInt(FormatInt(n)) == Some(n)
  {
    var i: int := n;
    if i < 0 {
      assert FormatInt(i)[1..] == FormatNat(-i);
    } else {
      assert IsDigit(FormatNat(i)[0]);
    }
  }

  /** Formatted integers hold no line feed, so they can sit in a header line. */
  lemma FormatHasNoLF(n: int)
    ensures LF !in FormatInt(n)
  {
    var s := FormatInt(n);
    forall i | 0 <= i < |s|
      ensures s[i] != LF
    {
      if n < 0 && i > 0 {
        assert s[i] == FormatNat(-n)[i - 1];
        assert IsDigit(FormatNat(-n)[i - 1]);
      } else if n >= 0 {
        assert IsDigit(FormatNat(n)[i]);
      }
    }
  }
}
