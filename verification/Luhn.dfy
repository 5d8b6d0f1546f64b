/** The Luhn check of detectors/pii.py against the formula of Annex B of ISO/IEC 7812-1. */
module Luhn {

  import opened Characters

  /** The digits of a text, in order. */
  function Digits(abc: Alphabet, text: string): seq<Digit> {
    if text == "" then []
    else
      var rest := Digits(abc, text[..|text| - 1]);
      var c := text[|text| - 1];
      if abc.isDigit(c) then rest + [abc.value(c)] else rest
  }

  /** A digit as it enters the sum: doubled digits contribute the digits of their product. */
  function Weight(d: Digit, doubled: bool): int {
    if doubled then (2 * d as int) / 10 + (2 * d as int) % 10 else d as int
  }

  /** The sum of Annex B, from the rightmost digit leftwards, every second digit doubled. */
  function Sum(digits: seq<Digit>, doubled: bool): int {
    if digits == [] then 0
    else Weight(digits[|digits| - 1], doubled) + Sum(digits[..|digits| - 1], !doubled)
  }

  predicate Valid(digits: seq<Digit>) {
    |digits| >= 13 && Sum(digits, false) % 10 == 0
  }

  /** The left-to-right loop decides Annex B for every text. */
  method Check(abc: Alphabet, card: string) returns (ok: bool)
    ensures ok <==> Valid(Digits(abc, card))
  {
    var digits := Collect(abc, card);
    if |digits| < 13 {
      return false;
    }
    var checksum := Checksum(digits);
    return checksum % 10 == 0;
  }

  /** The left-to-right loop; which digits it doubles depends on the parity of their number. */
  method Checksum(digits: seq<Digit>) returns (checksum: int)
    ensures checksum == Sum(digits, false)
  {
    hide Sum, Weight;
    var n := |digits|;
    checksum := 0;
    SumEmpty(n % 2 == 1);
    var parity := n % 2;
    for i := 0 to n
      invariant checksum == Sum(digits[..i], (n - i) % 2 == 1)
    {
      var d := digits[i] as int;
      Doubling(digits[i]);
      SumStep(digits, i, (n - i - 1) % 2 == 1);
      Parity(n, i);
      if i % 2 == parity {
        d := d * 2;
        if d > 9 {
          d := d - 9;
        }
      }
      checksum := checksum + d;
    }
    assert digits[..n] == digits;
  }

  lemma Parity(n: nat, i: nat)
    requires i < n
    ensures (n - i - 1) % 2 == 1 <==> i % 2 == n % 2
    ensures (n - i) % 2 == 1 <==> i % 2 != n % 2
  {
  }

  lemma SumEmpty(doubled: bool)
    ensures Sum([], doubled) == 0
  {
  }

  lemma SumStep(digits: seq<Digit>, i: nat, doubled: bool)
    requires i < |digits|
    ensures Sum(digits[..i + 1], doubled) == Weight(digits[i], doubled) + Sum(digits[..i], !doubled)
  {
    assert digits[..i + 1][..i] == digits[..i];
  }

  /** The loop's subtraction of nine adds the two digits of the doubled digit. */
  lemma Doubling(d: Digit)
    ensures Weight(d, false) == d as int
    ensures Weight(d, true) == if d as int * 2 > 9 then d as int * 2 - 9 else d as int * 2
  {
  }

  method Collect(abc: Alphabet, card: string) returns (digits: seq<Digit>)
    ensures digits == Digits(abc, card)
  {
    digits := [];
    for i := 0 to |card|
      invariant digits == Digits(abc, card[..i])
    {
      if abc.isDigit(card[i]) {
        digits := digits + [abc.value(card[i])];
      }
      assert card[..i + 1][..i] == card[..i];
    }
    assert card[..|card|] == card;
  }

  lemma {:induction false} DigitsAppend(abc: Alphabet, x: string, y: string)
    ensures Digits(abc, x + y) == Digits(abc, x) + Digits(abc, y)
  {
    if y == "" {
      assert x + y == x;
    } else {
      var init := y[..|y| - 1];
      DigitsAppend(abc, x, init);
      assert (x + y)[..|x + y| - 1] == x + init && (x + y)[|x + y| - 1] == y[|y| - 1];
    }
  }

  lemma {:induction false} DigitsAtMost(abc: Alphabet, s: string)
    ensures |Digits(abc, s)| <= |s|
    ensures (forall c :: c in s ==> !abc.isDigit(c)) ==> Digits(abc, s) == []
  {
    if s != "" {
      DigitsAtMost(abc, s[..|s| - 1]);
      assert s[|s| - 1] in s;
    }
  }

  lemma FewerDigits(abc: Alphabet, s: string, i: nat, e: nat)
    requires i <= e <= |s|
    ensures |Digits(abc, s[i..e])| <= |Digits(abc, s)|
  {
    DigitsAppend(abc, s[..i], s[i..e]);
    DigitsAppend(abc, s[..e], s[e..]);
    assert s[..i] + s[i..e] == s[..e] && s[..e] + s[e..] == s;
  }

  /** Separators are ignored: any text made of the same digits gets the same answer. */
  lemma {:induction false} SeparatorIgnored(abc: Alphabet, left: string, c: char, right: string)
    requires !abc.isDigit(c)
    ensures Digits(abc, left + [c] + right) == Digits(abc, left + right)
  {
    if right == "" {
      assert left + [c] + right == left + [c] && left + right == left && (left + [c])[..|left|] == left;
    } else {
      var init := right[..|right| - 1];
      SeparatorIgnored(abc, left, c, init);
      var with, without := left + [c] + right, left + right;
      assert with[..|with| - 1] == left + [c] + init && without[..|without| - 1] == left + init;
    }
  }

  /** Whether position `i` of `n` digits is doubled when the last one is `doubled`. */
  predicate DoubledAt(n: nat, i: nat, doubled: bool)
    requires i < n
  {
    ((n - 1 - i) % 2 == 1) != doubled
  }

  lemma SumLast(digits: seq<Digit>, d: Digit, doubled: bool)
    ensures Sum(digits + [d], doubled) == Weight(d, doubled) + Sum(digits, !doubled)
  {
    assert (digits + [d])[..|digits|] == digits;
  }

  lemma {:induction false} SumZeros(digits: seq<Digit>, doubled: bool)
    requires forall k :: 0 <= k < |digits| ==> digits[k] == 0
    ensures Sum(digits, doubled) == 0
  {
    if digits != [] {
      SumZeros(digits[..|digits| - 1], !doubled);
    }
  }

  /** The last digit counts as it is and the one before it doubled, whatever the length. */
  lemma LastTwoCount(zeros: seq<Digit>, a: Digit, b: Digit)
    requires |zeros| >= 11 && forall k :: 0 <= k < |zeros| ==> zeros[k] == 0
    ensures Valid(zeros + [a] + [b])
       <==> (b as int + if a < 5 then 2 * a as int else 2 * a as int - 9) % 10 == 0
  {
    hide Sum;
    SumZeros(zeros, false);
    SumLast(zeros, a, true);
    SumLast(zeros + [a], b, false);
  }

  lemma {:induction false} SumChange(digits: seq<Digit>, i: nat, d: Digit, doubled: bool)
    requires i < |digits|
    ensures Sum(digits[i := d], doubled) - Sum(digits, doubled)
         == Weight(d, DoubledAt(|digits|, i, doubled)) - Weight(digits[i], DoubledAt(|digits|, i, doubled))
  {
    hide Sum, Weight;
    var init, last := digits[..|digits| - 1], digits[|digits| - 1];
    assert digits == init + [last];
    SumLast(init, last, doubled);
    if i == |init| {
      assert digits[i := d] == init + [d];
      SumLast(init, d, doubled);
    } else {
      assert digits[i := d] == init[i := d] + [last];
      SumLast(init[i := d], last, doubled);
      SumChange(init, i, d, !doubled);
    }
  }

  /** Changing one digit of a valid number makes it invalid. */
  lemma SingleErrorCaught(digits: seq<Digit>, i: nat, d: Digit)
    requires Valid(digits) && i < |digits| && d != digits[i]
    ensures !Valid(digits[i := d])
  {
    hide Sum, Weight;
    SumChange(digits, i, d, false);
    WeightsDiffer(digits[i], d, DoubledAt(|digits|, i, false));
  }

  lemma WeightsDiffer(a: Digit, b: Digit, doubled: bool)
    requires a != b
    ensures 0 < Weight(a, doubled) - Weight(b, doubled) < 10 || 0 < Weight(b, doubled) - Weight(a, doubled) < 10
  {
    if doubled {
      Excess(a);
      Excess(b);
    }
  }

  predicate NineZero(a: Digit, b: Digit) {
    (a == 0 && b == 9) || (a == 9 && b == 0)
  }

  /** Swapping two neighbours of a valid number goes unnoticed exactly when they are
      equal, or are 0 and 9. */
  lemma TranspositionCaught(digits: seq<Digit>, i: nat)
    requires Valid(digits) && i + 1 < |digits|
    ensures var a, b := digits[i], digits[i + 1];
      Valid(digits[i := b][i + 1 := a]) <==> a == b || NineZero(a, b)
  {
    hide Sum, Weight;
    var a, b := digits[i], digits[i + 1];
    var onLeft := DoubledAt(|digits|, i, false);
    SumChange(digits, i, b, false);
    SumChange(digits[i := b], i + 1, a, false);
    Excess(a);
    Excess(b);
    var gain := (if onLeft then 1 else -1) * (Gain(b) - Gain(a));
    assert Sum(digits[i := b][i + 1 := a], false) == Sum(digits, false) + gain;
    assert -8 <= gain <= 8;
    assert gain == 0 <==> a == b || NineZero(a, b);
  }

  /** What doubling adds to the contribution of a digit. */
  function Gain(d: Digit): int {
    if d < 5 then d as int else d as int - 9
  }

  lemma Excess(d: Digit)
    ensures Weight(d, true) == Weight(d, false) + Gain(d)
  {
  }

  /** The digit that completes a prefix. */
  function CheckDigit(prefix: seq<Digit>): Digit {
    ((10 - Sum(prefix, true) % 10) % 10) as Digit
  }

  /** Exactly one check digit completes any prefix of at least twelve digits. */
  lemma CheckDigitUnique(prefix: seq<Digit>, d: Digit)
    requires |prefix| >= 12
    ensures Valid(prefix + [d]) <==> d == CheckDigit(prefix)
  {
    assert (prefix + [d])[..|prefix|] == prefix;
  }
}
