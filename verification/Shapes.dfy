/** What the built-in patterns of detectors/pii.py match, said of the text itself. */
module Shapes {
  import opened Characters
  import opened Redactor
  import opened Regex
  import opened Builtins
  import Luhn

  // ------------------------------------------------------------ building blocks

  predicate DigitsAt(abc: Alphabet, s: string, i: nat, e: nat) {
    i <= e <= |s| && forall j :: i <= j < e ==> abc.isDigit(s[j])
  }

  /** Nothing, or one character that satisfies `p`. */
  predicate PerhapsOne(p: char -> bool, s: string, i: nat, e: nat) {
    i <= e <= |s| && (e == i || (e == i + 1 && p(s[i])))
  }

  lemma MatchesChar(abc: Alphabet, p: char -> bool, s: string, i: nat, e: nat)
    ensures Matches(abc, Char(p), s, i, e) <==> i < |s| && e == i + 1 && p(s[i])
    ensures Matches(abc, Opt(Char(p)), s, i, e) <==> PerhapsOne(p, s, i, e)
  {
    MatchesOr(abc, Char(p), Empty, s, i, e);
  }

  lemma MatchesMany(abc: Alphabet, p: char -> bool, s: string, i: nat, e: nat)
    ensures Matches(abc, Many(p), s, i, e) <==> i < e <= |s| && forall j :: i <= j < e ==> p(s[j])
  {
    if i <= |s| {
      RunWithin(p, s, i, e);
    }
  }

  lemma {:induction false} MatchesDigits(abc: Alphabet, low: nat, high: nat, s: string, i: nat, e: nat)
    requires low <= high
    ensures Matches(abc, DigitsBetween(abc, low, high), s, i, e) <==> i + low <= e <= i + high && DigitsAt(abc, s, i, e)
    decreases high
  {
    if high > 0 {
      var low' := if low > 0 then low - 1 else 0;
      var next := DigitsBetween(abc, low', high - 1);
      MatchesCat(abc, AnyDigit(abc), next, s, i, e);
      MatchesChar(abc, abc.isDigit, s, i, i + 1);
      MatchesDigits(abc, low', high - 1, s, i + 1, e);
      OneMore(abc, next, s, i, e);
      if low == 0 {
        MatchesOr(abc, Cat(AnyDigit(abc), next), Empty, s, i, e);
      }
    }
  }

  lemma OneMore(abc: Alphabet, next: Regex, s: string, i: nat, e: nat)
    ensures Matches(abc, Cat(AnyDigit(abc), next), s, i, e)
       <==> i < |s| && abc.isDigit(s[i]) && Matches(abc, next, s, i + 1, e)
  {
    MatchesCat(abc, AnyDigit(abc), next, s, i, e);
    if i < |s| && abc.isDigit(s[i]) && Matches(abc, next, s, i + 1, e) {
      assert Matches(abc, AnyDigit(abc), s, i, i + 1);
    }
  }

  /** Between two word boundaries. */
  lemma MatchesAnchored(abc: Alphabet, body: Regex, s: string, i: nat, e: nat)
    ensures Matches(abc, Anchored(body), s, i, e)
       <==> i <= e <= |s| && Boundary(abc, s, i) && Boundary(abc, s, e) && Matches(abc, body, s, i, e)
  {
    if Matches(abc, Anchored(body), s, i, e) {
      AnchoredMatch(abc, body, s, i, e);
    }
    AnchoredBack(abc, body, s, i, e);
  }

  lemma AnchoredBack(abc: Alphabet, body: Regex, s: string, i: nat, e: nat)
    ensures i <= e <= |s| && Boundary(abc, s, i) && Boundary(abc, s, e) && Matches(abc, body, s, i, e) ==>
      Matches(abc, Anchored(body), s, i, e)
  {
    MatchesCat(abc, Edge, Cat(body, Edge), s, i, e);
    MatchesCat(abc, body, Edge, s, i, e);
    assert i <= |s| && Boundary(abc, s, i) ==> Matches(abc, Edge, s, i, i);
    assert e <= |s| && Boundary(abc, s, e) ==> Matches(abc, Edge, s, e, e);
  }

  // ------------------------------------------------------------- card numbers

  predicate IsSeparator(c: char) {
    c == ' ' || c == '-'
  }

  /** Digits, each followed by at most one blank or hyphen. */
  predicate SpacedDigits(abc: Alphabet, t: string) {
    && (t != "" ==> abc.isDigit(t[0]))
    && (forall k :: 0 <= k < |t| ==> abc.isDigit(t[k]) || IsSeparator(t[k]))
    && (forall k :: 0 < k < |t| && IsSeparator(t[k]) ==> !IsSeparator(t[k - 1]))
  }

  function CardItem(abc: Alphabet): Regex {
    Cat(AnyDigit(abc), Opt(OneOf(" -")))
  }

  lemma MatchesItem(abc: Alphabet, s: string, i: nat, e: nat)
    ensures Matches(abc, CardItem(abc), s, i, e)
       <==> i < |s| && abc.isDigit(s[i]) && (e == i + 1 || (e == i + 2 && i + 1 < |s| && IsSeparator(s[i + 1])))
  {
    OneMore(abc, Opt(OneOf(" -")), s, i, e);
    MatchesChar(abc, x => x in " -", s, i + 1, e);
    SeparatorMatch(abc, s, i + 1, e);
  }

  lemma SeparatorMatch(abc: Alphabet, s: string, i: nat, e: nat)
    ensures Matches(abc, Opt(OneOf(" -")), s, i, e)
       <==> i <= e <= |s| && (e == i || (e == i + 1 && IsSeparator(s[i])))
  {
    assert forall c :: c in " -" <==> IsSeparator(c);
  }

  lemma SpacedStep(abc: Alphabet, c: char, t: string)
    requires abc.Sound()
    ensures SpacedDigits(abc, [c] + t) <==> abc.isDigit(c) && (SpacedDigits(abc, t) || SpacedAfter(abc, t))
  {
    var all := [c] + t;
    assert all[0] == c && forall k :: 0 < k < |all| ==> all[k] == t[k - 1];
    if SpacedDigits(abc, all) && t != "" {
      assert forall k :: 0 <= k < |t| ==> t[k] == all[k + 1];
    }
  }

  /** A separator, and spaced digits after it. */
  predicate SpacedAfter(abc: Alphabet, t: string) {
    t != "" && IsSeparator(t[0]) && SpacedDigits(abc, t[1..])
  }

  function Count(abc: Alphabet, t: string): nat {
    |Luhn.Digits(abc, t)|
  }

  lemma CountStep(abc: Alphabet, c: char, t: string)
    ensures Count(abc, [c] + t) == Count(abc, t) + if abc.isDigit(c) then 1 else 0
    ensures Count(abc, "") == 0
  {
    Luhn.DigitsAppend(abc, [c], t);
    assert [c][..0] == [];
  }

  /** So many digits, spaced. */
  predicate SpacedCount(abc: Alphabet, low: nat, high: nat, t: string) {
    SpacedDigits(abc, t) && low <= Count(abc, t) <= high
  }

  lemma SpacedCountStep(abc: Alphabet, low: nat, high: nat, t: string)
    requires abc.Sound() && t != "" && 0 < high
    ensures SpacedCount(abc, low, high, t)
       <==> && abc.isDigit(t[0])
            && (|| SpacedCount(abc, if low > 0 then low - 1 else 0, high - 1, t[1..])
                || (|t| > 1 && IsSeparator(t[1])
                    && SpacedCount(abc, if low > 0 then low - 1 else 0, high - 1, t[2..])))
  {
    hide SpacedDigits, Count;
    assert t == [t[0]] + t[1..];
    SpacedStep(abc, t[0], t[1..]);
    CountStep(abc, t[0], t[1..]);
    if |t| > 1 {
      assert t[1..] == [t[1]] + t[2..] && t[1..][1..] == t[2..];
      CountStep(abc, t[1], t[2..]);
      assert IsSeparator(t[1]) ==> !abc.isDigit(t[1]);
      SpacedStep(abc, t[1], t[2..]);
    }
  }

  lemma {:induction false} MatchesItems(abc: Alphabet, low: nat, high: nat, s: string, i: nat, e: nat)
    requires abc.Sound() && low <= high
    ensures Matches(abc, Repeat(CardItem(abc), low, high), s, i, e)
       <==> i <= e <= |s| && SpacedCount(abc, low, high, s[i..e])
    decreases high
  {
    hide SpacedCount;
    NoItems(abc, low, high, s, i, e);
    if high > 0 {
      var low' := if low > 0 then low - 1 else 0;
      var next := Repeat(CardItem(abc), low', high - 1);
      FirstItem(abc, next, s, i, e);
      MatchesItems(abc, low', high - 1, s, i + 1, e);
      MatchesItems(abc, low', high - 1, s, i + 2, e);
      if i < e <= |s| {
        SpacedCountStep(abc, low, high, s[i..e]);
        assert s[i..e][1..] == s[i + 1..e];
        assert i + 2 <= e ==> s[i..e][2..] == s[i + 2..e] && s[i..e][1] == s[i + 1];
      }
      if low == 0 {
        MatchesOr(abc, Cat(CardItem(abc), next), Empty, s, i, e);
      }
    }
  }

  /** No digit at all. */
  lemma NoItems(abc: Alphabet, low: nat, high: nat, s: string, i: nat, e: nat)
    requires abc.Sound()
    ensures SpacedCount(abc, low, high, "") <==> low == 0
    ensures i <= e <= |s| && e == i ==> s[i..e] == ""
    ensures high == 0 && i <= e <= |s| && SpacedCount(abc, low, high, s[i..e]) ==> e == i
    ensures Matches(abc, Empty, s, i, e) <==> i <= |s| && e == i
  {
    if i < e <= |s| && abc.isDigit(s[i]) {
      CountStep(abc, s[i], s[i + 1..e]);
      assert s[i..e] == [s[i]] + s[i + 1..e];
    }
  }

  lemma FirstItem(abc: Alphabet, next: Regex, s: string, i: nat, e: nat)
    ensures Matches(abc, Cat(CardItem(abc), next), s, i, e)
       <==> && i < |s| && abc.isDigit(s[i])
            && (|| Matches(abc, next, s, i + 1, e)
                || (i + 1 < |s| && IsSeparator(s[i + 1]) && Matches(abc, next, s, i + 2, e)))
  {
    hide CardItem, Matches;
    MatchesCat(abc, CardItem(abc), next, s, i, e);
    forall m
      ensures Matches(abc, CardItem(abc), s, i, m)
         <==> i < |s| && abc.isDigit(s[i]) && (m == i + 1 || (m == i + 2 && i + 1 < |s| && IsSeparator(s[i + 1])))
    {
      MatchesItem(abc, s, i, m);
    }
  }

  /** A card number: 13 to 19 digits, each followed by at most one blank or hyphen, between word
      boundaries. */
  predicate CardAt(abc: Alphabet, s: string, i: nat, e: nat) {
    i <= e <= |s| && Boundary(abc, s, i) && Boundary(abc, s, e) && SpacedCount(abc, 13, 19, s[i..e])
  }

  lemma CardMatches(abc: Alphabet, s: string, i: nat, e: nat)
    requires abc.Sound()
    ensures Matches(abc, RegexOf(abc, CreditCard), s, i, e) <==> CardAt(abc, s, i, e)
  {
    hide CardBody, SpacedCount;
    MatchesAnchored(abc, CardBody(abc), s, i, e);
    MatchesItems(abc, 13, 19, s, i, e);
    assert CardBody(abc) == Repeat(CardItem(abc), 13, 19) by { CardBodyIs(abc); }
  }

  lemma CardBodyIs(abc: Alphabet)
    ensures CardBody(abc) == Repeat(CardItem(abc), 13, 19)
  {
    hide Repeat;
  }

  /** A run of digits that stands on its own: no other digits in the text, no word character
      beside it, no separator after it. */
  predicate StandsAlone(abc: Alphabet, before: string, run: string, after: string) {
    && run != "" && (forall c :: c in run ==> abc.isDigit(c))
    && (forall c :: c in before + after ==> !abc.isDigit(c))
    && (before != "" ==> !abc.isWord(before[|before| - 1]))
    && (after != "" ==> !abc.isWord(after[0]) && !IsSeparator(after[0]))
  }

  lemma RunChars(abc: Alphabet, before: string, run: string, after: string, j: nat)
    requires StandsAlone(abc, before, run, after) && j < |before + run + after|
    ensures abc.isDigit((before + run + after)[j]) <==> |before| <= j < |before| + |run|
  {
    var s, a, b := before + run + after, |before|, |before| + |run|;
    if j < a {
      assert s[j] == before[j] == (before + after)[j];
    } else if j < b {
      assert s[j] == run[j - a] && run[j - a] in run;
    } else {
      assert s[j] == after[j - b] == (before + after)[j - |run|];
    }
  }

  lemma RunSpaced(abc: Alphabet, run: string)
    requires abc.Sound() && forall c :: c in run ==> abc.isDigit(c)
    ensures SpacedDigits(abc, run) && Count(abc, run) == |run|
  {
    assert !abc.isDigit(' ') && !abc.isDigit('-');
    assert forall k :: 0 <= k < |run| ==> run[k] in run;
    RunCount(abc, run);
  }

  lemma {:induction false} RunCount(abc: Alphabet, run: string)
    requires forall c :: c in run ==> abc.isDigit(c)
    ensures Count(abc, run) == |run|
  {
    if run == "" {
      CountStep(abc, '0', "");
    } else {
      hide Count;
      CountStep(abc, run[0], run[1..]);
      assert run == [run[0]] + run[1..];
      RunCount(abc, run[1..]);
    }
  }

  lemma RunOfAlone(abc: Alphabet, before: string, run: string, after: string)
    requires abc.Sound() && StandsAlone(abc, before, run, after)
    ensures SpacedDigits(abc, run) && Count(abc, run) == |run|
  {
    RunSpaced(abc, run);
  }

  /** In such a text a card number is the run or nothing. */
  lemma CardIsRun(abc: Alphabet, before: string, run: string, after: string, i: nat, e: nat)
    requires abc.Sound() && StandsAlone(abc, before, run, after)
    ensures CardAt(abc, before + run + after, i, e)
       <==> i == |before| && e == |before| + |run| && 13 <= |run| <= 19
  {
    hide SpacedDigits, Count, Boundary, StandsAlone;
    RunOfAlone(abc, before, run, after);
    RunBoundaries(abc, before, run, after);
    SliceOfRun(before, run, after);
    if CardAt(abc, before + run + after, i, e) {
      CardEnds(abc, before, run, after, i, e);
    }
  }

  lemma SliceOfRun(before: string, run: string, after: string)
    ensures var s, a, b := before + run + after, |before|, |before| + |run|;
      b <= |s| && s[a..b] == run && s[..a] == before && s[b..] == after
  {
  }

  lemma RunBoundaries(abc: Alphabet, before: string, run: string, after: string)
    requires abc.Sound() && StandsAlone(abc, before, run, after)
    ensures var s, a, b := before + run + after, |before|, |before| + |run|;
      Boundary(abc, s, a) && Boundary(abc, s, b) && forall j :: a < j < b ==> !Boundary(abc, s, j)
  {
    var s, a, b := before + run + after, |before|, |before| + |run|;
    assert a > 0 ==> s[a - 1] == before[a - 1];
    assert b < |s| ==> s[b] == after[0];
    forall j | a <= j < b
      ensures abc.isWord(s[j])
    {
      RunChars(abc, before, run, after, j);
    }
  }

  lemma CardEnds(abc: Alphabet, before: string, run: string, after: string, i: nat, e: nat)
    requires abc.Sound() && StandsAlone(abc, before, run, after) && CardAt(abc, before + run + after, i, e)
    ensures i == |before| && e == |before| + |run|
  {
    hide StandsAlone, Boundary;
    var s, a, b := before + run + after, |before|, |before| + |run|;
    RunBoundaries(abc, before, run, after);
    CardChars(abc, s, i, e);
    RunChars(abc, before, run, after, i);
    assert a <= i < b && i == a;
    AfterRun(abc, before, run, after);
    assert e <= b;
  }

  lemma CardChars(abc: Alphabet, s: string, i: nat, e: nat)
    requires CardAt(abc, s, i, e)
    ensures i < e <= |s| && abc.isDigit(s[i])
    ensures forall j :: i <= j < e ==> abc.isDigit(s[j]) || IsSeparator(s[j])
  {
    var t := s[i..e];
    CountStep(abc, '0', "");
    assert t != "" && t[0] == s[i];
    assert forall j :: i <= j < e ==> s[j] == t[j - i];
  }

  /** What follows the run is no part of a card number. */
  lemma AfterRun(abc: Alphabet, before: string, run: string, after: string)
    requires abc.Sound() && StandsAlone(abc, before, run, after)
    ensures var s, b := before + run + after, |before| + |run|;
      b < |s| ==> !abc.isDigit(s[b]) && !IsSeparator(s[b])
  {
    var s, b := before + run + after, |before| + |run|;
    if b < |s| {
      assert s[b] == after[0];
    }
  }

  lemma CardFound(abc: Alphabet, before: string, run: string, after: string)
    requires abc.Sound() && StandsAlone(abc, before, run, after)
    ensures FindFrom(abc, RegexOf(abc, CreditCard), before + run + after, 0)
         == if 13 <= |run| <= 19 then [Span(|before|, |before| + |run|)] else []
  {
    hide RegexOf, CardAt, StandsAlone, FindFrom, Matches;
    var r, s, a, b := RegexOf(abc, CreditCard), before + run + after, |before|, |before| + |run|;
    forall i: nat, e: nat
      ensures Matches(abc, r, s, i, e) <==> i == a && e == b && 13 <= |run| <= 19
    {
      CardMatches(abc, s, i, e);
      CardIsRun(abc, before, run, after, i, e);
    }
    if 13 <= |run| <= 19 {
      FindOnly(abc, r, s, 0, a, b);
    } else {
      NothingFound(abc, r, s, 0);
    }
  }

  /** A run of digits that stands on its own is replaced iff it has 13 to 19 of them and passes the
      Luhn check; nothing else changes. */
  lemma CardRun(abc: Alphabet, before: string, run: string, after: string)
    requires abc.Sound() && StandsAlone(abc, before, run, after)
    ensures Pass(abc, Builtin(abc, CreditCard), before + run + after)
         == before
            + (if 13 <= |run| <= 19 && Luhn.Valid(Luhn.Digits(abc, run)) then "[REDACTED:credit_card]" else run)
            + after
  {
    hide RegexOf, StandsAlone, FindFrom, Substitute, Luhn.Valid, Luhn.Digits;
    CardFound(abc, before, run, after);
    SliceOfRun(before, run, after);
    CardTag();
    var s := before + run + after;
    if 13 <= |run| <= 19 {
      SubstituteOne(abc, "credit_card", s, |before|, |before| + |run|);
    } else {
      SubstituteNone(abc, "credit_card", s);
    }
  }

  lemma CardTag()
    ensures Tag("credit_card") == "[REDACTED:credit_card]"
  {
  }

  lemma SubstituteNone(abc: Alphabet, name: string, s: string)
    ensures Substitute(abc, name, s, 0, []) == s
  {
    assert s[0..] == s;
  }

  lemma SubstituteOne(abc: Alphabet, name: string, s: string, a: nat, b: nat)
    requires a <= b <= |s|
    ensures Placed(s, 0, [Span(a, b)])
    ensures Substitute(abc, name, s, 0, [Span(a, b)])
         == s[..a] + (if Replaces(abc, name, s[a..b]) then Tag(name) else s[a..b]) + s[b..]
  {
    hide Replaces;
    assert [Span(a, b)][1..] == [];
    assert s[0..a] == s[..a];
  }
}
