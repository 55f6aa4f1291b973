/** Bytes on the wire, ASCII literals, decimal renderings and byte concatenation. */
module Bytes {

  /** One octet, as the server's `std::string` and socket buffers hold it. */
  newtype byte = b: int | 0 <= b < 256

  const CR: byte := 13
  const LF: byte := 10
  const SP: byte := 32
  const HT: byte := 9
  const Zero: byte := 48

  /** The bytes of a string literal; every literal used here is ASCII, so each character is one byte. */
  function Ascii(s: string): seq<byte>
  {
    seq(|s|, i requires 0 <= i < |s| => if s[i] as int < 256 then s[i] as int as byte else 0)
  }

  /** Conversion distributes over concatenation. */
  lemma AsciiConcat(a: string, b: string)
    ensures Ascii(a + b) == Ascii(a) + Ascii(b)
  {
  }

  predicate IsDecimalDigit(b: byte)
  {
    48 <= b <= 57
  }

  function DigitValue(b: byte): int
  {
    b as int - 48
  }

  /** The value of a run of decimal digits read left to right, `v := v * 10 + d`. */
  function DecimalValue(s: seq<byte>): int
  {
    if s == [] then 0 else DecimalValue(s[..|s| - 1]) * 10 + DigitValue(s[|s| - 1])
  }

  /** The decimal rendering of a natural number, as `boost::lexical_cast<std::string>` gives it. */
  function Decimal(n: nat): (r: seq<byte>)
    ensures |r| >= 1
    ensures forall i :: 0 <= i < |r| ==> IsDecimalDigit(r[i])
    ensures r[0] == Zero ==> n == 0
    decreases n
  {
    if n < 10 then [(48 + n) as byte] else Decimal(n / 10) + [(48 + n % 10) as byte]
  }

  /** Reading back the decimal rendering gives the number. */
  lemma {:induction false} DecimalRoundTrip(n: nat)
    ensures DecimalValue(Decimal(n)) == n
  {
    if n >= 10 {
      var s := Decimal(n);
      assert s[..|s| - 1] == Decimal(n / 10);
      DecimalRoundTrip(n / 10);
    }
  }

  /** Two numbers with the same rendering are equal. */
  lemma DecimalInjective(m: nat, n: nat)
    requires Decimal(m) == Decimal(n)
    ensures m == n
  {
    DecimalRoundTrip(m);
    DecimalRoundTrip(n);
  }

  /** A run of digits with no leading zero, unless it is the single digit `0`. */
  predicate Canonical(s: seq<byte>)
  {
    && |s| >= 1
    && (forall i :: 0 <= i < |s| ==> IsDecimalDigit(s[i]))
    && (s[0] == Zero ==> |s| == 1)
  }

  /** The rendering is canonical. */
  lemma DecimalCanonical(n: nat)
    ensures Canonical(Decimal(n))
  {
  }

  /** A canonical digit run is the rendering of its own value: renderings and values are in one-to-one correspondence. */
  lemma {:induction false} CanonicalIsDecimal(s: seq<byte>)
    requires Canonical(s)
    ensures DecimalValue(s) >= 0
    ensures s == Decimal(DecimalValue(s))
    decreases |s|
  {
    if |s| > 1 {
      var init := s[..|s| - 1];
      var d := s[|s| - 1];
      assert init[0] == s[0];
      CanonicalIsDecimal(init);
      LeadingDigitPositive(init);
      var v := DecimalValue(s);
      assert v == DecimalValue(init) * 10 + DigitValue(d);
      assert v / 10 == DecimalValue(init) && v % 10 == DigitValue(d);
      assert s == init + [d];
    }
  }

  /** A digit run that does not start with `0` has a positive value. */
  lemma {:induction false} LeadingDigitPositive(s: seq<byte>)
    requires |s| >= 1 && (forall i :: 0 <= i < |s| ==> IsDecimalDigit(s[i])) && s[0] != Zero
    ensures DecimalValue(s) >= 1
    decreases |s|
  {
    if |s| > 1 {
      var init := s[..|s| - 1];
      assert init[0] == s[0];
      LeadingDigitPositive(init);
    }
  }

  /** The value of a digit run extended by one more digit. */
  lemma DecimalValueSnoc(s: seq<byte>, d: byte)
    ensures DecimalValue(s + [d]) == DecimalValue(s) * 10 + DigitValue(d)
  {
    assert (s + [d])[..|s|] == s;
  }

  /** All parts laid end to end, in order. */
  function Concat(parts: seq<seq<byte>>): seq<byte>
  {
    if parts == [] then [] else Concat(parts[..|parts| - 1]) + parts[|parts| - 1]
  }

  function TotalLength(parts: seq<seq<byte>>): nat
  {
    if parts == [] then 0 else TotalLength(parts[..|parts| - 1]) + |parts[|parts| - 1]|
  }

  lemma ConcatSnoc(parts: seq<seq<byte>>, p: seq<byte>)
    ensures Concat(parts + [p]) == Concat(parts) + p
  {
    assert (parts + [p])[..|parts|] == parts;
  }

  /** Concatenation splits off its first part just as well as its last. */
  lemma {:induction false} ConcatCons(p: seq<byte>, parts: seq<seq<byte>>)
    ensures Concat([p] + parts) == p + Concat(parts)
  {
    if parts == [] {
      assert [p] + parts == [] + [p];
      assert Concat([p] + parts) == Concat([]) + p;
    } else {
      var init := parts[..|parts| - 1];
      var last := parts[|parts| - 1];
      assert [p] + parts == ([p] + init) + [last];
      ConcatSnoc([p] + init, last);
      ConcatCons(p, init);
      assert parts == init + [last];
      ConcatSnoc(init, last);
    }
  }

  /** The concatenation is as long as its parts together. */
  lemma {:induction false} ConcatLength(parts: seq<seq<byte>>)
    ensures |Concat(parts)| == TotalLength(parts)
  {
    if parts != [] {
      ConcatLength(parts[..|parts| - 1]);
    }
  }
}
