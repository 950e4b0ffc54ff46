/** The two pieces of Java string behaviour the gateway depends on:
    `String.toLowerCase` (index names) and `String.valueOf(Long)` (document ids). */
module JavaText {
  import opened Wrappers

  /** Java's `long`. */
  const MinLong: int := -0x8000_0000_0000_0000
  const MaxLong: int := 0x7fff_ffff_ffff_ffff
  type Long = x: int | MinLong <= x <= MaxLong

  // ----- toLowerCase (ASCII letters) -----

  predicate IsUpper(c: char) { 'A' <= c <= 'Z' }

  function LowerChar(c: char): char
  {
    if IsUpper(c) then (c as int + 32) as char else c
  }

  /** `s.toLowerCase()`, restricted to the ASCII letters. */
  function Lower(s: string): (r: string)
    ensures |r| == |s|
    ensures forall i :: 0 <= i < |s| ==> r[i] == LowerChar(s[i])
  {
    if s == [] then [] else [LowerChar(s[0])] + Lower(s[1..])
  }

  /** A name that lower-casing leaves alone has a tail that lower-casing
      leaves alone: an upper-case letter after a fixed prefix survives into
      the whole name. */
  lemma LowerFixesSuffix(prefix: string, s: string)
    requires Lower(prefix + s) == prefix + s
    ensures Lower(s) == s
  {
    forall i | 0 <= i < |s|
      ensures Lower(s)[i] == s[i]
    {
      assert (prefix + s)[|prefix| + i] == s[i];
    }
  }

  /** Lower-casing leaves no upper-case letter behind, so a second application
      changes nothing. */
  lemma LowerIsIdempotent(s: string)
    ensures forall i :: 0 <= i < |s| ==> !IsUpper(Lower(s)[i])
    ensures Lower(Lower(s)) == Lower(s)
  {
    var once := Lower(s);
    assert forall i :: 0 <= i < |s| ==> LowerChar(once[i]) == once[i];
  }

  // ----- String.valueOf(Long) -----

  predicate IsDigit(c: char) { '0' <= c <= '9' }

  function DigitChar(d: int): (c: char)
    requires 0 <= d < 10
    ensures IsDigit(c)
  {
    ('0' as int + d) as char
  }

  function DigitValue(c: char): (d: nat)
    requires IsDigit(c)
    ensures d < 10
  {
    c as int - '0' as int
  }

  predicate AllDigits(s: string) { forall i :: 0 <= i < |s| ==> IsDigit(s[i]) }

  /** The decimal numeral of `n`, most significant digit first, without
      leading zeros. */
  function Digits(n: nat): (r: string)
    ensures |r| > 0 && AllDigits(r)
    decreases n
  {
    if n < 10 then [DigitChar(n)] else Digits(n / 10) + [DigitChar(n % 10)]
  }

  /** The value of a numeral: the inverse of Digits. */
  function DigitsValue(s: string): nat
    requires AllDigits(s)
    decreases |s|
  {
    if s == [] then 0 else DigitsValue(s[..|s| - 1]) * 10 + DigitValue(s[|s| - 1])
  }

  lemma {:induction false} DigitsRoundTrip(n: nat)
    ensures DigitsValue(Digits(n)) == n
  {
    if n >= 10 {
      var s := Digits(n);
      assert s[..|s| - 1] == Digits(n / 10);
      DigitsRoundTrip(n / 10);
      assert DigitValue(DigitChar(n % 10)) == n % 10;
    } else {
      assert DigitValue(DigitChar(n)) == n;
    }
  }

  /** `Long.toString(n)`: an optional minus sign followed by the digits. */
  function LongString(n: Long): (r: string)
    ensures |r| > 0
    ensures r[0] == '-' <==> n < 0
    ensures n < 0 ==> r[1..] == Digits(-(n as int))
    ensures n >= 0 ==> r == Digits(n)
  {
    if n < 0 then "-" + Digits(-(n as int)) else Digits(n)
  }

  lemma LongStringIsInjective(x: Long, y: Long)
    ensures LongString(x) == LongString(y) ==> x == y
  {
    if LongString(x) == LongString(y) {
      if x < 0 {
        DigitsRoundTrip(-(x as int));
        DigitsRoundTrip(-(y as int));
      } else {
        DigitsRoundTrip(x);
        DigitsRoundTrip(y);
      }
    }
  }

  /** `String.valueOf(id)` for a boxed `Long`: the literal "null" when the id
      is absent. This is the document id of every write and delete. */
  function DocIdOf(id: Option<Long>): string
  {
    match id
    case None => "null"
    case Some(n) => LongString(n)
  }

  /** Distinct ids give distinct document ids, so an id addresses exactly one
      document per index. */
  lemma DocIdIsInjective(a: Option<Long>, b: Option<Long>)
    ensures DocIdOf(a) == DocIdOf(b) ==> a == b
  {
    if a.Some? && b.Some? {
      LongStringIsInjective(a.value, b.value);
    } else if a.Some? && b.None? {
      var s := LongString(a.value);
      assert s[0] == '-' || IsDigit(s[0]);
    } else if a.None? && b.Some? {
      var s := LongString(b.value);
      assert s[0] == '-' || IsDigit(s[0]);
    }
  }
}
