/** Decimal notation of natural numbers, as printf's %d, %02d and %03d and Python's str write it */
module Decimals {
  function DigitChar(d: int): char
    requires 0 <= d < 10
  {
    ['0', '1', '2', '3', '4', '5', '6', '7', '8', '9'][d]
  }

  predicate IsDigit(c: char) {
    '0' <= c <= '9'
  }

  function DigitValue(c: char): int {
    c as int - '0' as int
  }

  predicate AllDigits(s: string) {
    forall i :: 0 <= i < |s| ==> IsDigit(s[i])
  }

  function Decimal(n: nat): string {
    if n < 10 then [DigitChar(n)] else Decimal(n / 10) + [DigitChar(n % 10)]
  }

  // With leading zeros if there are less than 'width' digits
  function Padded(n: nat, width: nat): string
    decreases width
  {
    var s := Decimal(n);
    if |s| < width then seq(width - |s|, _ => '0') + s else s
  }

  // The number that the digits make
  function Value(s: string): int {
    if s == [] then 0 else 10 * Value(s[..|s| - 1]) + DigitValue(s[|s| - 1])
  }

  lemma {:induction false} DecimalRoundTrip(n: nat)
    ensures Value(Decimal(n)) == n && AllDigits(Decimal(n)) && 0 < |Decimal(n)|
  {
    if n >= 10 {
      DecimalRoundTrip(n / 10);
      assert Decimal(n)[..|Decimal(n)| - 1] == Decimal(n / 10);
    } else {
      assert Decimal(n)[..0] == [];
    }
  }

  lemma {:induction false} ZerosInFront(k: nat, s: string)
    ensures Value(seq(k, _ => '0') + s) == Value(s)
    decreases |s|, k
  {
    var zeros := seq(k, _ => '0');
    if s != [] {
      ZerosInFront(k, s[..|s| - 1]);
      assert (zeros + s)[..k + |s| - 1] == zeros + s[..|s| - 1];
    } else if k > 0 {
      ZerosInFront(k - 1, []);
      assert zeros + s == zeros && zeros[..k - 1] == seq(k - 1, _ => '0') + [];
    }
  }

  lemma PaddedRoundTrip(n: nat, width: nat)
    ensures Value(Padded(n, width)) == n && AllDigits(Padded(n, width)) && width <= |Padded(n, width)|
  {
    DecimalRoundTrip(n);
    if |Decimal(n)| < width {
      ZerosInFront(width - |Decimal(n)|, Decimal(n));
    }
  }

  lemma PaddedLength(n: nat, width: nat)
    requires (n < 100 && width == 2) || (n < 1000 && width == 3)
    ensures |Padded(n, width)| == width
  {
    assert n < 100 ==> |Decimal(n)| <= 2;
    assert n >= 10 ==> |Decimal(n)| == |Decimal(n / 10)| + 1;
  }
}
