/** Python's decimal formatting of integers and the string operations the key policies use. */
module Text {

  function DigitChar(d: nat): char
    requires d < 10
  {
    "0123456789"[d]
  }

  predicate IsDigit(c: char) {
    '0' <= c <= '9'
  }

  predicate AllDigits(s: string) {
    forall i :: 0 <= i < |s| ==> IsDigit(s[i])
  }

  function Pow10(k: nat): nat {
    if k == 0 then 1 else 10 * Pow10(k - 1)
  }

  /** `str(n)` for a non-negative int: no sign, no leading zero except for 0 itself. */
  function NatToString(n: nat): (s: string)
    ensures 1 <= |s| && AllDigits(s)
    ensures n < 10 <==> |s| == 1
    ensures s[0] != '0' || n == 0
  {
    if n < 10 then [DigitChar(n)] else NatToString(n / 10) + [DigitChar(n % 10)]
  }

  /** `str(n)` spells `n`: reading its digits back gives the number. */
  lemma {:induction false} NatToStringValue(n: nat)
    ensures ParseDigits(NatToString(n)) == n
  {
    var s := NatToString(n);
    if n < 10 {
      assert s[..0] == [];
    } else {
      assert s[..|s| - 1] == NatToString(n / 10);
      NatToStringValue(n / 10);
    }
    DigitValue(n % 10);
  }

  lemma DigitValue(d: nat)
    requires d < 10
    ensures DigitChar(d) as int - '0' as int == d
  {
  }

  /** `str(i)` for any int: the digits of its magnitude, after a '-' when it is negative. */
  function IntToString(i: int): (s: string)
    ensures |s| >= 1 && (s[0] == '-' <==> i < 0)
  {
    if i < 0 then "-" + NatToString(-i) else NatToString(i)
  }

  /** `str(i)` spells `i`: its digits, after the sign, read back as the magnitude. */
  lemma IntToStringValue(i: int)
    ensures var s := IntToString(i); var digits := if i < 0 then s[1..] else s;
      AllDigits(digits) && ParseDigits(digits) == (if i < 0 then -i else i)
  {
    var m: nat := if i < 0 then -i else i;
    var t := NatToString(m);
    NatToStringValue(m);
    var s := IntToString(i);
    if i < 0 {
      assert s == ['-'] + t;
      assert s[1..] == t;
    } else {
      assert s == t;
    }
  }

  function Zeros(n: nat): (s: string)
    ensures |s| == n && forall i :: 0 <= i < n ==> s[i] == '0'
  {
    seq(n, _ => '0')
  }

  function PadLeft(s: string, width: nat): string {
    if |s| >= width then s else Zeros(width - |s|) + s
  }

  /** `'{:0Nd}'.format(n)` for a non-negative int, with N the width: never truncates. */
  function FormatWidth(n: nat, width: nat): (s: string)
    ensures AllDigits(s)
    ensures |s| >= width && |s| >= |NatToString(n)|
    ensures n < Pow10(width) && width >= 1 ==> |s| == width
  {
    var s := PadLeft(NatToString(n), width);
    assert n < Pow10(width) && width >= 1 ==> |s| == width by {
      if n < Pow10(width) && width >= 1 { NatToStringLength(n, width); }
    }
    s
  }

  /**
   * `s.zfill(width)`: zeros go after a leading sign. On a string of digits it pads to the
   * width without changing the number the digits spell.
   */
  function ZFill(s: string, width: nat): (r: string)
    ensures |r| == (if |s| >= width then |s| else width)
    ensures |s| >= width ==> r == s
    ensures AllDigits(s) ==> AllDigits(r) && ParseDigits(r) == ParseDigits(s)
  {
    if |s| >= width then s
    else if |s| > 0 && (s[0] == '+' || s[0] == '-') then [s[0]] + Zeros(width - |s|) + s[1..]
    else
      assert AllDigits(s) ==> ParseDigits(Zeros(width - |s|) + s) == ParseDigits(s) by {
        if AllDigits(s) { LeadingZeros(width - |s|, s); }
      }
      Zeros(width - |s|) + s
  }

  /** `''.join(s.split('-'))`: the string with every '-' removed. */
  function RemoveDashes(s: string): (r: string)
    ensures '-' !in r && |r| <= |s|
    ensures '-' !in s ==> r == s
  {
    if s == [] then [] else (if s[0] == '-' then [] else [s[0]]) + RemoveDashes(s[1..])
  }

  /** Python's `sub in s` for strings. */
  predicate Contains(s: string, sub: string) {
    sub <= s || (|s| > 0 && Contains(s[1..], sub))
  }

  /** The last `k` decimal digits of `n`, zero-padded to exactly `k` characters. */
  function Digits(n: nat, k: nat): (s: string)
    ensures |s| == k && AllDigits(s)
  {
    if k == 0 then [] else Digits(n / 10, k - 1) + [DigitChar(n % 10)]
  }

  /** The value of a string of decimal digits. */
  function ParseDigits(s: string): nat
    requires AllDigits(s)
  {
    if s == [] then 0 else 10 * ParseDigits(s[..|s| - 1]) + ((s[|s| - 1] as int) - ('0' as int))
  }

  lemma NatToStringLength(n: nat, k: nat)
    requires 1 <= k && n < Pow10(k)
    ensures |NatToString(n)| <= k
  {
    if n >= 10 {
      assert Pow10(1) == 10;
      assert k >= 2;
      NatToStringLength(n / 10, k - 1);
    }
  }

  lemma {:induction false} RemoveDashesAppend(a: string, b: string)
    ensures RemoveDashes(a + b) == RemoveDashes(a) + RemoveDashes(b)
  {
    if a == [] {
      assert a + b == b;
    } else {
      var head := if a[0] == '-' then [] else [a[0]];
      assert (a + b)[0] == a[0] && (a + b)[1..] == a[1..] + b;
      RemoveDashesAppend(a[1..], b);
      calc {
        RemoveDashes(a + b);
        head + RemoveDashes(a[1..] + b);
        head + (RemoveDashes(a[1..]) + RemoveDashes(b));
        (head + RemoveDashes(a[1..])) + RemoveDashes(b);
      }
    }
  }

  /** Removing the dashes of two strings joined by '-' joins the two cleaned strings. */
  lemma RemoveDashesJoin(a: string, b: string)
    ensures RemoveDashes(a + "-" + b) == RemoveDashes(a) + RemoveDashes(b)
  {
    var d: string := ['-'];
    assert a + "-" + b == (a + d) + b;
    RemoveDashesAppend(a + d, b);
    RemoveDashesAppend(a, d);
    assert RemoveDashes(d) == [] by {
      assert d[1..] == [];
    }
    assert RemoveDashes(a + d) == RemoveDashes(a);
  }

  /** Zeros in front of a digit string do not change its value. */
  lemma {:induction false} LeadingZeros(n: nat, s: string)
    requires AllDigits(s)
    ensures AllDigits(Zeros(n) + s) && ParseDigits(Zeros(n) + s) == ParseDigits(s)
  {
    var z := Zeros(n) + s;
    if s == [] {
      assert z == Zeros(n);
      ZerosValue(n);
    } else {
      var m := |s| - 1;
      assert z[..|z| - 1] == Zeros(n) + s[..m];
      assert z[|z| - 1] == s[m];
      LeadingZeros(n, s[..m]);
    }
  }

  lemma {:induction false} ZerosValue(n: nat)
    ensures AllDigits(Zeros(n)) && ParseDigits(Zeros(n)) == 0
  {
    if n > 0 {
      assert Zeros(n)[..n - 1] == Zeros(n - 1);
      ZerosValue(n - 1);
    }
  }

  lemma {:induction false} ContainsMiddle(a: string, sub: string, b: string)
    ensures Contains(a + sub + b, sub)
  {
    if a == [] {
      assert a + sub + b == sub + b;
    } else {
      assert (a + sub + b)[1..] == a[1..] + sub + b;
      ContainsMiddle(a[1..], sub, b);
    }
  }

  lemma {:induction false} DigitsOfZero(k: nat)
    ensures Digits(0, k) == Zeros(k)
  {
    if k > 0 {
      DigitsOfZero(k - 1);
    }
  }

  /** Zero-padding `str(n)` to a width it fits in gives exactly its last `k` digits. */
  lemma {:induction false} FormatWidthIsDigits(n: nat, k: nat)
    requires 1 <= k && n < Pow10(k)
    ensures FormatWidth(n, k) == Digits(n, k)
  {
    if n < 10 {
      DigitsOfZero(k - 1);
      assert Digits(n, k) == Zeros(k - 1) + [DigitChar(n)];
    } else {
      assert Pow10(1) == 10;
      assert k >= 2;
      FormatWidthIsDigits(n / 10, k - 1);
      NatToStringLength(n / 10, k - 1);
      var s := NatToString(n / 10);
      assert NatToString(n) == s + [DigitChar(n % 10)];
      assert PadLeft(s + [DigitChar(n % 10)], k) == PadLeft(s, k - 1) + [DigitChar(n % 10)];
    }
  }

  lemma ShiftDiv(a: nat, b: nat, k: nat)
    requires k >= 1
    ensures (a * Pow10(k) + b) / 10 == a * Pow10(k - 1) + b / 10
    ensures (a * Pow10(k) + b) % 10 == b % 10
  {
    assert a * Pow10(k) == 10 * (a * Pow10(k - 1));
  }

  /** Writing `a` followed by `b` in exactly `k` digits is writing `a * 10^k + b`. */
  lemma {:induction false} NatToStringShift(a: nat, b: nat, k: nat)
    requires a > 0 && b < Pow10(k)
    ensures NatToString(a * Pow10(k) + b) == NatToString(a) + Digits(b, k)
  {
    if k > 0 {
      var n := a * Pow10(k) + b;
      var n' := a * Pow10(k - 1) + b / 10;
      ShiftStep(a, b, k);
      NatToStringShift(a, b / 10, k - 1);
      AppendLastDigit(n, n', b, k, NatToString(a));
    } else {
      assert Pow10(k) == 1 && b == 0;
      assert a * Pow10(k) + b == a;
      assert Digits(b, k) == [];
    }
  }

  /** One more digit of `b` written after `head`. */
  lemma AppendLastDigit(n: nat, m: nat, b: nat, k: nat, head: string)
    requires n >= 10 && k >= 1 && n / 10 == m && n % 10 == b % 10
    requires NatToString(m) == head + Digits(b / 10, k - 1)
    ensures NatToString(n) == head + Digits(b, k)
  {
    calc {
      NatToString(n);
      NatToString(m) + [DigitChar(b % 10)];
      (head + Digits(b / 10, k - 1)) + [DigitChar(b % 10)];
      head + (Digits(b / 10, k - 1) + [DigitChar(b % 10)]);
    }
  }

  lemma ShiftStep(a: nat, b: nat, k: nat)
    requires a > 0 && k >= 1 && b < Pow10(k)
    ensures a * Pow10(k) + b >= 10
    ensures (a * Pow10(k) + b) / 10 == a * Pow10(k - 1) + b / 10
    ensures (a * Pow10(k) + b) % 10 == b % 10
    ensures b / 10 < Pow10(k - 1)
  {
    var p := Pow10(k - 1);
    PowPositive(k - 1);
    assert Pow10(k) == 10 * p;
    assert a * (10 * p) == 10 * (a * p);
    assert a * p >= 1;
  }

  /** The last `m + k` digits of `a * 10^k + b` are the last `m` of `a` and the `k` of `b`. */
  lemma {:induction false} DigitsSplit(a: nat, b: nat, m: nat, k: nat)
    requires b < Pow10(k)
    ensures Digits(a * Pow10(k) + b, m + k) == Digits(a, m) + Digits(b, k)
  {
    if k > 0 {
      ShiftDiv(a, b, k);
      DigitsSplit(a, b / 10, m, k - 1);
    }
  }

  lemma PowPositive(k: nat)
    ensures Pow10(k) >= 1
  {
  }

  /** Reading back `k` digits gives the number they were written from. */
  lemma {:induction false} ParseDigitsOfDigits(n: nat, k: nat)
    requires n < Pow10(k)
    ensures ParseDigits(Digits(n, k)) == n
  {
    if k > 0 {
      var s := Digits(n, k);
      assert s[..|s| - 1] == Digits(n / 10, k - 1);
      ParseDigitsOfDigits(n / 10, k - 1);
      assert "0123456789"[n % 10] as int - '0' as int == n % 10;
    }
  }
}
