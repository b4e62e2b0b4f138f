/**
 * The two ways `DataReader.reformat_upc` rebuilds a UPC key: store files carry the four
 * fields SY, GE, VEND and ITEM in separate columns (policy A); the panel file of the MA
 * outlet carries them run together in the one numeric column COLUPC (policy B).
 */
module UpcKeys {
  import opened Wrappers
  import opened Text

  /** The field widths of a key: SY and GE two digits, VEND and ITEM five. */
  predicate FieldsFit(sy: nat, ge: nat, vend: nat, item: nat) {
    sy < 100 && ge < 100 && vend < 100000 && item < 100000
  }

  /** Policy A: the four fields zero-padded to widths 2, 2, 5 and 5 and concatenated. */
  function KeyFromFields(sy: nat, ge: nat, vend: nat, item: nat): (key: string)
    ensures AllDigits(key) && |key| >= 14
    ensures FieldsFit(sy, ge, vend, item) ==> |key| == 14
  {
    assert Pow10(2) == 100 && Pow10(5) == 100000;
    FormatWidth(sy, 2) + FormatWidth(ge, 2) + FormatWidth(vend, 5) + FormatWidth(item, 5)
  }

  /**
   * Policy B on the decimal text `x` of COLUPC: everything before the last 11 characters
   * zero-filled to two, the 11th character from the end zero-filled to two, then the next
   * five and the last five characters. Text shorter than 11 characters has no 11th
   * character from the end, where Python raises IndexError.
   */
  function KeyFromColupc(x: string): (key: Option<string>)
    ensures key.Some? <==> |x| >= 11
    ensures key.Some? && AllDigits(x) ==> AllDigits(key.value) && |key.value| >= 14
  {
    if |x| < 11 then None
    else
      var n := |x|;
      Some(ZFill(x[..n - 11], 2) + ZFill([x[n - 11]], 2) + x[n - 10..n - 5] + x[n - 5..])
  }

  /** The COLUPC number whose digits are SY, then GE, then VEND and ITEM in five digits each. */
  function Colupc(sy: nat, ge: nat, vend: nat, item: nat): nat {
    sy * 100000000000 + ge * 10000000000 + vend * 100000 + item
  }

  /** The text of SY when it is written before GE: empty when SY is 0. */
  function LeadingText(sy: nat): string {
    if sy > 0 then NatToString(sy) else []
  }

  lemma AppendDigit(sy: nat, ge: nat)
    requires ge < 10 && sy > 0
    ensures NatToString(sy * 10 + ge) == NatToString(sy) + [DigitChar(ge)]
  {
    assert Pow10(1) == 10;
    assert ge / 10 == 0 && ge % 10 == ge;
    assert Digits(ge, 1) == [DigitChar(ge)];
    NatToStringShift(sy, ge, 1);
    assert sy * Pow10(1) + ge == sy * 10 + ge;
  }

  /** `str(SY * 10 + GE)`: the text of SY, if any, then the digit GE. */
  lemma LeadingFieldsText(sy: nat, ge: nat)
    requires ge < 10 && sy * 10 + ge > 0
    ensures NatToString(sy * 10 + ge) == LeadingText(sy) + [DigitChar(ge)]
  {
    if sy > 0 {
      AppendDigit(sy, ge);
    } else {
      assert sy * 10 + ge == ge;
    }
  }

  lemma Pow10Values()
    ensures Pow10(1) == 10 && Pow10(5) == 100000 && Pow10(10) == 10000000000
  {
  }

  /** Ten digits written after `p`. */
  lemma ShiftTenDigits(n: nat, p: nat, rest: nat)
    requires p > 0 && rest < 10000000000 && n == p * 10000000000 + rest
    ensures NatToString(n) == NatToString(p) + Digits(rest, 10)
  {
    Pow10Values();
    assert n == p * Pow10(10) + rest;
    NatToStringShift(p, rest, 10);
  }

  /** The ten low digits of COLUPC are VEND then ITEM, five digits each. */
  lemma LowDigits(vend: nat, item: nat)
    requires vend < 100000 && item < 100000
    ensures Digits(vend * 100000 + item, 10) == Digits(vend, 5) + Digits(item, 5)
  {
    Pow10Values();
    DigitsSplit(vend, item, 5, 5);
  }

  lemma ColupcSplit(sy: nat, ge: nat, vend: nat, item: nat)
    ensures Colupc(sy, ge, vend, item) == (sy * 10 + ge) * 10000000000 + (vend * 100000 + item)
  {
  }

  /** `str(COLUPC)` spelled out field by field. */
  lemma ColupcText(sy: nat, ge: nat, vend: nat, item: nat)
    requires sy < 100 && ge < 10 && vend < 100000 && item < 100000
    requires sy * 10 + ge > 0
    ensures NatToString(Colupc(sy, ge, vend, item)) == LeadingText(sy) + [DigitChar(ge)] + Digits(vend, 5) + Digits(item, 5)
  {
    var p, rest := sy * 10 + ge, vend * 100000 + item;
    ColupcSplit(sy, ge, vend, item);
    ShiftTenDigits(Colupc(sy, ge, vend, item), p, rest);
    LowDigits(vend, item);
    LeadingFieldsText(sy, ge);
    calc {
      NatToString(Colupc(sy, ge, vend, item));
      NatToString(p) + Digits(rest, 10);
      (LeadingText(sy) + [DigitChar(ge)]) + (Digits(vend, 5) + Digits(item, 5));
    }
  }

  /**
   * The two policies build the same key for the same product: policy B applied to
   * `str(COLUPC)` gives the policy A key of the four fields, provided GE is a single digit
   * and SY and GE are not both zero (then COLUPC has fewer than 11 digits).
   */
  lemma PoliciesAgree(sy: nat, ge: nat, vend: nat, item: nat)
    requires sy < 100 && ge < 10 && vend < 100000 && item < 100000
    requires sy * 10 + ge > 0
    ensures KeyFromColupc(NatToString(Colupc(sy, ge, vend, item))) == Some(KeyFromFields(sy, ge, vend, item))
  {
    ColupcText(sy, ge, vend, item);
    ColupcKeyParts(LeadingText(sy), DigitChar(ge), Digits(vend, 5), Digits(item, 5));
    assert Pow10(5) == 100000;
    FormatWidthIsDigits(vend, 5);
    FormatWidthIsDigits(item, 5);
    LeadingPadded(sy);
    DigitPadded(ge);
  }

  /** Policy B cuts the text before the 11th character from the end, at it, and five characters further on. */
  lemma ColupcKeyParts(head: string, g: char, d1: string, d2: string)
    requires |d1| == 5 && |d2| == 5
    ensures KeyFromColupc(head + [g] + d1 + d2) == Some(ZFill(head, 2) + ZFill([g], 2) + d1 + d2)
  {
    var x := head + [g] + d1 + d2;
    var n := |x|;
    assert x[..n - 11] == head;
    assert x[n - 11] == g;
    assert x[n - 10..n - 5] == d1;
    assert x[n - 5..] == d2;
  }

  lemma LeadingPadded(sy: nat)
    requires sy < 100
    ensures ZFill(LeadingText(sy), 2) == FormatWidth(sy, 2)
  {
    if sy == 0 {
      assert NatToString(0) == "0";
    } else {
      assert Pow10(2) == 100;
      NatToStringLength(sy, 2);
    }
  }

  lemma DigitPadded(ge: nat)
    requires ge < 10
    ensures ZFill([DigitChar(ge)], 2) == FormatWidth(ge, 2)
  {
    assert NatToString(ge) == [DigitChar(ge)];
  }

  /** When SY and GE are both zero, COLUPC has at most ten digits and policy B raises. */
  lemma PolicyBNeedsLeadingFields(vend: nat, item: nat)
    requires vend < 100000 && item < 100000
    ensures KeyFromColupc(NatToString(Colupc(0, 0, vend, item))) == None
  {
    assert Pow10(10) == 10000000000;
    NatToStringLength(Colupc(0, 0, vend, item), 10);
  }

  /** Splitting a 14-digit key at widths 2, 2, 5 and 5 and reading each part back. */
  function FieldsOfKey(key: string): (r: (nat, nat, nat, nat))
    requires |key| == 14 && AllDigits(key)
  {
    (ParseDigits(key[..2]), ParseDigits(key[2..4]), ParseDigits(key[4..9]), ParseDigits(key[9..]))
  }

  /** Splitting a policy A key at the field widths recovers the four fields. */
  lemma KeyFieldsRoundTrip(sy: nat, ge: nat, vend: nat, item: nat)
    requires FieldsFit(sy, ge, vend, item)
    ensures FieldsOfKey(KeyFromFields(sy, ge, vend, item)) == (sy, ge, vend, item)
  {
    assert Pow10(2) == 100 && Pow10(5) == 100000;
    FormatWidthIsDigits(sy, 2);
    FormatWidthIsDigits(ge, 2);
    FormatWidthIsDigits(vend, 5);
    FormatWidthIsDigits(item, 5);
    var key := KeyFromFields(sy, ge, vend, item);
    assert key[..2] == Digits(sy, 2);
    assert key[2..4] == Digits(ge, 2);
    assert key[4..9] == Digits(vend, 5);
    assert key[9..] == Digits(item, 5);
    ParseDigitsOfDigits(sy, 2);
    ParseDigitsOfDigits(ge, 2);
    ParseDigitsOfDigits(vend, 5);
    ParseDigitsOfDigits(item, 5);
  }

  /** Two products whose fields fit their widths share a key only if all four fields agree. */
  lemma KeyFromFieldsInjective(a: (nat, nat, nat, nat), b: (nat, nat, nat, nat))
    requires FieldsFit(a.0, a.1, a.2, a.3) && FieldsFit(b.0, b.1, b.2, b.3)
    requires KeyFromFields(a.0, a.1, a.2, a.3) == KeyFromFields(b.0, b.1, b.2, b.3)
    ensures a == b
  {
    KeyFieldsRoundTrip(a.0, a.1, a.2, a.3);
    KeyFieldsRoundTrip(b.0, b.1, b.2, b.3);
  }

  lemma DigitsHaveNoDash(s: string)
    requires AllDigits(s)
    ensures '-' !in s
  {
  }

  /** Removing the dashes from `x + "-" + f` where `f` is all digits. */
  lemma CleanJoin(x: string, f: string)
    requires AllDigits(f)
    ensures RemoveDashes(x + "-" + f) == RemoveDashes(x) + f
  {
    DigitsHaveNoDash(f);
    RemoveDashesJoin(x, f);
  }

  /**
   * A reference UPC written as the four padded fields joined by '-' cleans to the policy A
   * key, so the keys built by `create_reference` and by `reformat_upc` meet.
   */
  lemma DashedUpcCleansToKey(sy: nat, ge: nat, vend: nat, item: nat)
    ensures RemoveDashes(FormatWidth(sy, 2) + "-" + FormatWidth(ge, 2) + "-" + FormatWidth(vend, 5) + "-" + FormatWidth(item, 5))
         == KeyFromFields(sy, ge, vend, item)
  {
    var f1, f2, f3, f4 := FormatWidth(sy, 2), FormatWidth(ge, 2), FormatWidth(vend, 5), FormatWidth(item, 5);
    DigitsHaveNoDash(f1);
    CleanJoin(f1, f2);
    CleanJoin(f1 + "-" + f2, f3);
    CleanJoin(f1 + "-" + f2 + "-" + f3, f4);
  }
}
