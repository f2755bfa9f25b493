/** The bounded decimal loop that reads Content-Length, and the decimal printer of the response writer. */
module ContentLength {
  import opened Basics

  /** An unsigned machine word: Dafny refuses any operation on it that would leave the range. */
  newtype size_t = n: int | 0 <= n <= 0xFFFF_FFFF_FFFF_FFFF

  predicate IsDigit(c: char) {
    '0' <= c <= '9'
  }

  predicate AllDigits(s: string) {
    forall i | 0 <= i < |s| :: IsDigit(s[i])
  }

  function Digit(c: char): (d: nat)
    ensures IsDigit(c) ==> d <= 9
  {
    if IsDigit(c) then c as int - '0' as int else 0
  }

  /** The number a string of digits stands for. */
  function Value(s: string): nat {
    if |s| == 0 then 0 else 10 * Value(s[..|s| - 1]) + Digit(s[|s| - 1])
  }

  /** What Content-Length means: a number, if the text is made of digits and the number fits the machine word. */
  predicate IsLength(s: string) {
    AllDigits(s) && Value(s) <= SIZE_MAX
  }

  lemma {:induction false} PrefixSmaller(s: string, n: nat)
    requires n <= |s|
    ensures Value(s[..n]) <= Value(s)
  {
    if n < |s| {
      PrefixSmaller(s[..|s| - 1], n);
      assert s[..|s| - 1][..n] == s[..n];
    } else {
      assert s[..n] == s;
    }
  }

  /** The digit loop; `None` stands for std::terminate.  Both guards run before the operation they protect. */
  method ParseContentLength(text: string) returns (r: Option<size_t>)
    ensures r.Some? <==> IsLength(text)
    ensures r.Some? ==> r.value as nat == Value(text)
  {
    var contentLength: size_t := 0;
    var max: size_t := 0xFFFF_FFFF_FFFF_FFFF;
    var k := 0;
    while k < |text|
      invariant 0 <= k <= |text|
      invariant AllDigits(text[..k]) && contentLength as nat == Value(text[..k])
    {
      var i := text[k];
      assert text[..k + 1][..k] == text[..k];
      if i < '0' || i > '9' {
        return None;
      }
      PrefixSmaller(text, k + 1);
      if max / 10 < contentLength {
        return None;
      }
      contentLength := contentLength * 10;
      var curDigit: size_t := (i as int - '0' as int) as size_t;
      if max - curDigit < contentLength {
        return None;
      }
      contentLength := contentLength + curDigit;
      k := k + 1;
    }
    assert text[..k] == text;
    r := Some(contentLength);
  }

  /** The loop as a function, for the reader's specification. */
  function ParseLength(text: string): Option<nat> {
    if IsLength(text) then Some(Value(text)) else None
  }

  // ---------------------------------------------------------------- printing, as sprintf("%zu") does

  function Decimal(n: nat): (s: string)
    ensures |s| > 0
  {
    var d := ['0' + (n % 10) as char];
    if n < 10 then d else Decimal(n / 10) + d
  }

  lemma {:induction false} DecimalValue(n: nat)
    ensures AllDigits(Decimal(n)) && Value(Decimal(n)) == n
    ensures Decimal(n)[0] == '0' ==> n == 0
  {
    var d := '0' + (n % 10) as char;
    if n < 10 {
      assert [d][..0] == [];
      assert Value([d]) == 10 * Value([d][..0]) + Digit(d);
    } else {
      DecimalValue(n / 10);
      assert Decimal(n)[..|Decimal(n)| - 1] == Decimal(n / 10);
    }
  }

  /** Reading back a printed size gives that size, and no size is refused. */
  lemma PrintedLength(n: nat)
    ensures ParseLength(Decimal(n)) == if n <= SIZE_MAX then Some(n) else None
  {
    DecimalValue(n);
  }

  function Power10(n: nat): (r: nat)
    ensures r > 0
  {
    if n == 0 then 1 else 10 * Power10(n - 1)
  }

  /** Losing the leading digit, as the header parser as written makes it, takes the number modulo the leading power. */
  lemma {:induction false} LeadingDigit(s: string)
    requires |s| > 0
    ensures Value(s) == Digit(s[0]) * Power10(|s| - 1) + Value(s[1..])
  {
    var n := |s| - 1;
    if n == 0 {
      assert s[..0] == [] && s[1..] == [];
    } else {
      LeadingDigit(s[..n]);
      assert s[..n][1..] == s[1..][..n - 1];
      assert 10 * (Digit(s[0]) * Power10(n - 1)) == Digit(s[0]) * Power10(n);
    }
  }

  lemma {:induction false} BelowPower(s: string)
    requires AllDigits(s)
    ensures Value(s) < Power10(|s|)
  {
    if |s| > 0 { BelowPower(s[..|s| - 1]); }
  }

  /** The length that the reader as written takes from a printed one. */
  lemma {:induction false} TruncatedLength(n: nat)
    ensures Value(Decimal(n)[1..]) == Truncated(n)
    ensures Value(Decimal(n)[1..]) == n <==> n == 0
    ensures Truncated(n) <= n
  {
    var s := Decimal(n);
    DecimalValue(n);
    LeadingDigit(s);
    BelowPower(s[1..]);
    ModUnique(Digit(s[0]), Power10(|s| - 1), Value(s[1..]));
  }

  /** The length that the digits of `n` give after the first `skip` of them are dropped. */
  function LengthRead(n: nat, skip: nat): nat {
    if skip == 0 then n else Truncated(n)
  }

  function Truncated(n: nat): nat {
    n % Power10(|Decimal(n)| - 1)
  }

  lemma ReadBack(n: nat, skip: nat)
    requires skip <= 1 && n <= SIZE_MAX
    ensures AllDigits(Decimal(n)) && AllDigits(Decimal(n)[skip..])
    ensures ParseLength(Decimal(n)[skip..]) == Some(LengthRead(n, skip))
  {
    DecimalValue(n);
    TruncatedLength(n);
    assert Decimal(n)[0..] == Decimal(n);
  }

  lemma ModUnique(q: nat, m: nat, r: nat)
    requires r < m
    ensures (q * m + r) % m == r
    ensures q * m + r >= r && (q * m + r == r <==> q == 0)
  {
    var k := (q * m + r) / m;
    assert q * m + r == k * m + (q * m + r) % m;
    SameQuotient(q, k, m, r, (q * m + r) % m);
    AtLeastOnce(q, m);
  }

  lemma SameQuotient(q: int, k: int, m: nat, r: nat, t: nat)
    requires r < m && t < m && q * m + r == k * m + t
    ensures q == k && r == t
  {
    assert (q - k) * m == t - r && (k - q) * m == r - t;
    if q > k { AtLeastOnce(q - k, m); }
    if k > q { AtLeastOnce(k - q, m); }
  }

  lemma AtLeastOnce(a: nat, m: nat)
    ensures a > 0 ==> a * m >= m
  {
    if a > 0 { assert a * m == (a - 1) * m + m; }
  }
}
