/** Cache keys: `getKey` concatenates the cover-art id with the decimal
    spelling of the requested size, with no separator. */
module CacheKeys {

  predicate IsDigit(c: char) { '0' <= c <= '9' }

  predicate AllDigits(s: string) {
    forall i :: 0 <= i < |s| ==> IsDigit(s[i])
  }

  function DigitChar(d: nat): (c: char)
    requires d < 10
    ensures IsDigit(c) && c as int - '0' as int == d
  {
    ('0' as int + d) as char
  }

  /** Decimal spelling of a natural number, most significant digit first. */
  function NatToDecimal(n: nat): (s: string)
    ensures |s| > 0 && AllDigits(s)
    decreases n
  {
    if n < 10 then [DigitChar(n)] else NatToDecimal(n / 10) + [DigitChar(n % 10)]
  }

  /** Java's `String + int`: `Integer.toString`, with a leading '-' for negatives. */
  function IntToDecimal(n: int): (s: string)
    ensures |s| > 0
    ensures s[0] == '-' <==> n < 0
  {
    if n < 0 then "-" + NatToDecimal(-n) else NatToDecimal(n)
  }

  /** Value of a string of decimal digits (the empty string reads as 0). */
  function DigitsValue(s: string): nat
    requires AllDigits(s)
  {
    if |s| == 0 then 0
    else DigitsValue(s[..|s| - 1]) * 10 + (s[|s| - 1] as int - '0' as int)
  }

  /** Strings `Integer.toString` can produce the shape of. */
  predicate IsDecimal(s: string) {
    && |s| > 0
    && (s[0] == '-' ==> |s| > 1 && AllDigits(s[1..]))
    && (s[0] != '-' ==> AllDigits(s))
  }

  /** `Integer.parseInt` on a decimal string: the reference reading of a size. */
  function ParseDecimal(s: string): int
    requires IsDecimal(s)
  {
    if s[0] == '-' then -(DigitsValue(s[1..]) as int) else DigitsValue(s)
  }

  lemma {:induction false} NatDecimalRoundTrip(n: nat)
    ensures DigitsValue(NatToDecimal(n)) == n
    decreases n
  {
    if n >= 10 {
      var s := NatToDecimal(n);
      NatDecimalRoundTrip(n / 10);
      assert s[..|s| - 1] == NatToDecimal(n / 10);
    }
  }

  /** Reading back the decimal spelling of any int gives that int. */
  lemma DecimalRoundTrip(n: int)
    ensures IsDecimal(IntToDecimal(n))
    ensures ParseDecimal(IntToDecimal(n)) == n
  {
    if n < 0 {
      var s := IntToDecimal(n);
      assert s[1..] == NatToDecimal(-n);
      NatDecimalRoundTrip(-n);
    } else {
      NatDecimalRoundTrip(n);
    }
  }

  /** Distinct sizes have distinct spellings. */
  lemma DecimalInjective(m: int, n: int)
    ensures IntToDecimal(m) == IntToDecimal(n) <==> m == n
  {
    DecimalRoundTrip(m);
    DecimalRoundTrip(n);
  }

  /** `getKey(coverArtId, size)`: the id followed by the size's decimal
      spelling. The key begins with the id and the rest reads back as the size. */
  function GetKey(coverArt: string, size: int): (k: string)
    ensures |k| > |coverArt| && k[..|coverArt|] == coverArt
    ensures IsDecimal(k[|coverArt|..]) && ParseDecimal(k[|coverArt|..]) == size
  {
    var k := coverArt + IntToDecimal(size);
    assert k[|coverArt|..] == IntToDecimal(size);
    DecimalRoundTrip(size);
    k
  }

  /** For one cover-art id the key determines the size. */
  lemma KeyInjectiveInSize(coverArt: string, s: int, t: int)
    ensures GetKey(coverArt, s) == GetKey(coverArt, t) <==> s == t
  {
  }

  /** For one size the key determines the cover-art id. */
  lemma KeyInjectiveInId(a: string, b: string, size: int)
    ensures GetKey(a, size) == GetKey(b, size) <==> a == b
  {
  }

  /** Every size of two or more digits has an alias: moving its leading digits
      onto the id gives a different request with the same key. */
  lemma EveryMultiDigitSizeCollides(coverArt: string, size: int)
    requires size >= 10
    ensures var alias := coverArt + IntToDecimal(size / 10);
      && alias != coverArt
      && size % 10 != size
      && GetKey(alias, size % 10) == GetKey(coverArt, size)
  {
  }

  /** The key function is not injective: ("a1", 23) and ("a12", 3) share the key "a123". */
  lemma KeyCollision()
    ensures ("a1", 23) != ("a12", 3)
    ensures GetKey("a1", 23) == GetKey("a12", 3) == "a123"
  {
  }
}
