/** Where the patterns for phone numbers match. */
module PhoneShapes {
  import opened Characters
  import opened Redactor
  import opened Regex
  import opened Builtins
  import opened Shapes

  /** So many digits. */
  predicate Digits(abc: Alphabet, s: string, i: nat, e: nat, low: nat, high: nat) {
    i + low <= e <= i + high && DigitsAt(abc, s, i, e)
  }

  /** Perhaps a hyphen, a dot or white space. */
  predicate PerhapsSeparator(abc: Alphabet, s: string, i: nat, e: nat) {
    i <= e <= |s| && (e == i || (e == i + 1 && (s[i] == '-' || s[i] == '.' || abc.isSpace(s[i]))))
  }

  predicate Perhaps(c: char, s: string, i: nat, e: nat) {
    i <= e <= |s| && (e == i || (e == i + 1 && s[i] == c))
  }

  /** Perhaps 1, or +1, and a separator. */
  ghost predicate PerhapsCountry(abc: Alphabet, s: string, i: nat, e: nat) {
    e == i <= |s|
    || exists p: nat :: Perhaps('+', s, i, p) && p < |s| && s[p] == '1' && PerhapsSeparator(abc, s, p + 1, e)
  }

  /** The first digit is not below two. */
  predicate AreaAt(abc: Alphabet, s: string, a: nat) {
    a + 3 <= |s| && '2' <= s[a] <= '9' && abc.isDigit(s[a + 1]) && abc.isDigit(s[a + 2])
  }

  /** From the area code, at `a`, on: three, three and four digits, perhaps with separators between them,
      and perhaps a closing parenthesis after the first three. */
  ghost predicate NumberAt(abc: Alphabet, s: string, a: nat, e: nat) {
    exists c: nat, d: nat, x: nat, f: nat ::
      AreaAt(abc, s, a) && Perhaps(')', s, a + 3, c) && PerhapsSeparator(abc, s, c, d)
      && Digits(abc, s, d, x, 3, 3) && PerhapsSeparator(abc, s, x, f) && Digits(abc, s, f, e, 4, 4)
  }

  /** A US phone number between word boundaries. */
  ghost predicate PhoneUsAt(abc: Alphabet, s: string, i: nat, e: nat) {
    && i <= e <= |s| && Boundary(abc, s, i) && Boundary(abc, s, e)
    && exists m: nat, a: nat :: PerhapsCountry(abc, s, i, m) && Perhaps('(', s, m, a) && NumberAt(abc, s, a, e)
  }

  lemma MatchesIs(abc: Alphabet, c: char, s: string, i: nat, e: nat)
    ensures Matches(abc, Is(c), s, i, e) <==> i < |s| && e == i + 1 && s[i] == c
    ensures Matches(abc, Opt(Is(c)), s, i, e) <==> Perhaps(c, s, i, e)
  {
    MatchesOr(abc, Is(c), Empty, s, i, e);
  }

  lemma MatchesSeparator(abc: Alphabet, s: string, i: nat, e: nat)
    ensures Matches(abc, Opt(Separator(abc)), s, i, e) <==> PerhapsSeparator(abc, s, i, e)
  {
    MatchesOr(abc, Separator(abc), Empty, s, i, e);
  }

  lemma MatchesCountry(abc: Alphabet, s: string, i: nat, e: nat)
    ensures Matches(abc, Opt(Country(abc)), s, i, e) <==> PerhapsCountry(abc, s, i, e)
  {
    MatchesOr(abc, Country(abc), Empty, s, i, e);
    var one := Cat(Is('1'), Opt(Separator(abc)));
    if Matches(abc, Country(abc), s, i, e) {
      var p := SplitCat(abc, Opt(Is('+')), one, s, i, e);
      var q := SplitCat(abc, Is('1'), Opt(Separator(abc)), s, p, e);
      MatchesIs(abc, '+', s, i, p);
      MatchesIs(abc, '1', s, p, q);
      MatchesSeparator(abc, s, q, e);
    }
    if p: nat :| Perhaps('+', s, i, p) && p < |s| && s[p] == '1' && PerhapsSeparator(abc, s, p + 1, e) {
      MatchesIs(abc, '+', s, i, p);
      MatchesIs(abc, '1', s, p, p + 1);
      MatchesSeparator(abc, s, p + 1, e);
      JoinCat(abc, Is('1'), Opt(Separator(abc)), s, p, p + 1, e);
      JoinCat(abc, Opt(Is('+')), one, s, i, p, e);
    }
  }

  lemma NumberForth(abc: Alphabet, s: string, a: nat, e: nat)
    requires Matches(abc, PhoneUsNumber(abc), s, a, e)
    ensures NumberAt(abc, s, a, e)
  {
    hide Matches, DigitsBetween, Opt, Separator, AnyDigit, Between;
    var separator := Opt(Separator(abc));
    var four := Cat(separator, Exactly(abc, 4));
    var three := Cat(Exactly(abc, 3), four);
    var two := Cat(separator, three);
    var rest := Cat(Opt(Is(')')), two);
    var a1 := SplitCat(abc, Between('2', '9'), Cat(AnyDigit(abc), Cat(AnyDigit(abc), rest)), s, a, e);
    var a2 := SplitCat(abc, AnyDigit(abc), Cat(AnyDigit(abc), rest), s, a1, e);
    var a3 := SplitCat(abc, AnyDigit(abc), rest, s, a2, e);
    var c := SplitCat(abc, Opt(Is(')')), two, s, a3, e);
    var d := SplitCat(abc, separator, three, s, c, e);
    var x := SplitCat(abc, Exactly(abc, 3), four, s, d, e);
    var f := SplitCat(abc, separator, Exactly(abc, 4), s, x, e);
    AreaMatches(abc, s, a, a1, a2, a3);
    MatchesIs(abc, ')', s, a3, c);
    MatchesSeparator(abc, s, c, d);
    MatchesDigits(abc, 3, 3, s, d, x);
    MatchesSeparator(abc, s, x, f);
    MatchesDigits(abc, 4, 4, s, f, e);
    assert Digits(abc, s, d, x, 3, 3) && Digits(abc, s, f, e, 4, 4);
  }

  lemma AreaMatches(abc: Alphabet, s: string, a: nat, a1: nat, a2: nat, a3: nat)
    ensures Matches(abc, Between('2', '9'), s, a, a1) && Matches(abc, AnyDigit(abc), s, a1, a2)
            && Matches(abc, AnyDigit(abc), s, a2, a3)
       <==> a1 == a + 1 && a2 == a + 2 && a3 == a + 3 && AreaAt(abc, s, a)
  {
    MatchesChar(abc, abc.isDigit, s, a1, a2);
    MatchesChar(abc, abc.isDigit, s, a2, a3);
  }

  lemma NumberBack(abc: Alphabet, s: string, a: nat, c: nat, d: nat, x: nat, f: nat, e: nat)
    requires AreaAt(abc, s, a) && Perhaps(')', s, a + 3, c) && PerhapsSeparator(abc, s, c, d)
    requires Digits(abc, s, d, x, 3, 3) && PerhapsSeparator(abc, s, x, f) && Digits(abc, s, f, e, 4, 4)
    ensures Matches(abc, PhoneUsNumber(abc), s, a, e)
  {
    hide Matches, DigitsBetween, Opt, Separator, AnyDigit, Between;
    var separator := Opt(Separator(abc));
    var four := Cat(separator, Exactly(abc, 4));
    var three := Cat(Exactly(abc, 3), four);
    var two := Cat(separator, three);
    var rest := Cat(Opt(Is(')')), two);
    AreaMatches(abc, s, a, a + 1, a + 2, a + 3);
    MatchesIs(abc, ')', s, a + 3, c);
    MatchesSeparator(abc, s, c, d);
    MatchesDigits(abc, 3, 3, s, d, x);
    MatchesSeparator(abc, s, x, f);
    MatchesDigits(abc, 4, 4, s, f, e);
    JoinCat(abc, separator, Exactly(abc, 4), s, x, f, e);
    JoinCat(abc, Exactly(abc, 3), four, s, d, x, e);
    JoinCat(abc, separator, three, s, c, d, e);
    JoinCat(abc, Opt(Is(')')), two, s, a + 3, c, e);
    JoinCat(abc, AnyDigit(abc), rest, s, a + 2, a + 3, e);
    JoinCat(abc, AnyDigit(abc), Cat(AnyDigit(abc), rest), s, a + 1, a + 2, e);
    JoinCat(abc, Between('2', '9'), Cat(AnyDigit(abc), Cat(AnyDigit(abc), rest)), s, a, a + 1, e);
  }

  lemma NumberMatches(abc: Alphabet, s: string, a: nat, e: nat)
    ensures Matches(abc, PhoneUsNumber(abc), s, a, e) <==> NumberAt(abc, s, a, e)
  {
    hide Matches, PhoneUsNumber, AreaAt, Perhaps, PerhapsSeparator, Digits;
    if Matches(abc, PhoneUsNumber(abc), s, a, e) {
      NumberForth(abc, s, a, e);
    }
    if c: nat, d: nat, x: nat, f: nat :|
      AreaAt(abc, s, a) && Perhaps(')', s, a + 3, c) && PerhapsSeparator(abc, s, c, d)
      && Digits(abc, s, d, x, 3, 3) && PerhapsSeparator(abc, s, x, f) && Digits(abc, s, f, e, 4, 4)
    {
      NumberBack(abc, s, a, c, d, x, f, e);
    }
  }

  lemma PhoneUsMatches(abc: Alphabet, s: string, i: nat, e: nat)
    ensures Matches(abc, RegexOf(abc, PhoneUs), s, i, e) <==> PhoneUsAt(abc, s, i, e)
  {
    hide Matches, PhoneUsNumber, Country, Opt, PerhapsCountry, Perhaps, NumberAt, Boundary;
    MatchesAnchored(abc, PhoneUsBody(abc), s, i, e);
    var rest := Cat(Opt(Is('(')), PhoneUsNumber(abc));
    if Matches(abc, PhoneUsBody(abc), s, i, e) {
      var m := SplitCat(abc, Opt(Country(abc)), rest, s, i, e);
      var a := SplitCat(abc, Opt(Is('(')), PhoneUsNumber(abc), s, m, e);
      MatchesCountry(abc, s, i, m);
      MatchesIs(abc, '(', s, m, a);
      NumberMatches(abc, s, a, e);
    }
    if m: nat, a: nat :| PerhapsCountry(abc, s, i, m) && Perhaps('(', s, m, a) && NumberAt(abc, s, a, e) {
      MatchesCountry(abc, s, i, m);
      MatchesIs(abc, '(', s, m, a);
      NumberMatches(abc, s, a, e);
      JoinCat(abc, Opt(Is('(')), PhoneUsNumber(abc), s, m, a, e);
      JoinCat(abc, Opt(Country(abc)), rest, s, i, m, e);
    }
  }

  // --------------------------------------------------- international numbers

  /** Perhaps a hyphen or white space. */
  predicate PerhapsGap(abc: Alphabet, s: string, i: nat, e: nat) {
    i <= e <= |s| && (e == i || (e == i + 1 && (s[i] == '-' || abc.isSpace(s[i]))))
  }

  /** So many digits, and perhaps a gap. */
  ghost predicate GroupAt(abc: Alphabet, s: string, i: nat, e: nat, low: nat, high: nat) {
    exists a: nat :: Digits(abc, s, i, a, low, high) && PerhapsGap(abc, s, a, e)
  }

  /** Four groups of digits, perhaps with a gap between two of them. */
  ghost predicate GroupsAt(abc: Alphabet, s: string, i: nat, e: nat) {
    exists b: nat, d: nat, f: nat ::
      GroupAt(abc, s, i, b, 1, 3) && GroupAt(abc, s, b, d, 1, 4) && GroupAt(abc, s, d, f, 3, 4)
      && Digits(abc, s, f, e, 3, 4)
  }

  /** A plus and such groups; word boundaries do not matter. */
  ghost predicate PhoneIntlAt(abc: Alphabet, s: string, i: nat, e: nat) {
    i < |s| && s[i] == '+' && GroupsAt(abc, s, i + 1, e)
  }

  lemma MatchesGap(abc: Alphabet, s: string, i: nat, e: nat)
    ensures Matches(abc, Opt(Gap(abc)), s, i, e) <==> PerhapsGap(abc, s, i, e)
  {
    MatchesOr(abc, Gap(abc), Empty, s, i, e);
  }

  lemma GroupThen(abc: Alphabet, low: nat, high: nat, rest: Regex, s: string, i: nat, e: nat)
    requires low <= high
    ensures Matches(abc, Cat(DigitsBetween(abc, low, high), Cat(Opt(Gap(abc)), rest)), s, i, e)
       <==> exists b: nat :: GroupAt(abc, s, i, b, low, high) && Matches(abc, rest, s, b, e)
  {
    hide Matches, DigitsBetween, Opt, Gap, PerhapsGap, DigitsAt;
    var digits, more := DigitsBetween(abc, low, high), Cat(Opt(Gap(abc)), rest);
    if Matches(abc, Cat(digits, more), s, i, e) {
      var a := SplitCat(abc, digits, more, s, i, e);
      var b := SplitCat(abc, Opt(Gap(abc)), rest, s, a, e);
      MatchesDigits(abc, low, high, s, i, a);
      MatchesGap(abc, s, a, b);
      assert Digits(abc, s, i, a, low, high);
      assert GroupAt(abc, s, i, b, low, high);
    }
    if b: nat :| GroupAt(abc, s, i, b, low, high) && Matches(abc, rest, s, b, e) {
      var a: nat :| Digits(abc, s, i, a, low, high) && PerhapsGap(abc, s, a, b);
      MatchesDigits(abc, low, high, s, i, a);
      MatchesGap(abc, s, a, b);
      JoinCat(abc, Opt(Gap(abc)), rest, s, a, b, e);
      JoinCat(abc, digits, more, s, i, a, e);
    }
  }

  /** The groups after the plus. */
  function Groups(abc: Alphabet): Regex {
    PhoneIntlRegex(abc).right
  }

  lemma GroupsMatch(abc: Alphabet, s: string, i: nat, e: nat)
    ensures Matches(abc, Groups(abc), s, i, e) <==> GroupsAt(abc, s, i, e)
  {
    hide Matches, DigitsBetween, Opt, Gap, GroupAt, DigitsAt;
    var gap, last := Opt(Gap(abc)), DigitsBetween(abc, 3, 4);
    var two := Cat(last, Cat(gap, last));
    var three := Cat(DigitsBetween(abc, 1, 4), Cat(gap, two));
    forall f: nat
      ensures Matches(abc, last, s, f, e) <==> Digits(abc, s, f, e, 3, 4)
    {
      MatchesDigits(abc, 3, 4, s, f, e);
    }
    forall d: nat
      ensures Matches(abc, two, s, d, e) <==> exists f: nat :: GroupAt(abc, s, d, f, 3, 4) && Digits(abc, s, f, e, 3, 4)
    {
      GroupThen(abc, 3, 4, last, s, d, e);
    }
    forall b: nat
      ensures Matches(abc, three, s, b, e)
         <==> exists d: nat :: GroupAt(abc, s, b, d, 1, 4) && Matches(abc, two, s, d, e)
    {
      GroupThen(abc, 1, 4, two, s, b, e);
    }
    GroupThen(abc, 1, 3, three, s, i, e);
  }

  lemma PhoneIntlMatches(abc: Alphabet, s: string, i: nat, e: nat)
    ensures Matches(abc, RegexOf(abc, PhoneIntl), s, i, e) <==> PhoneIntlAt(abc, s, i, e)
  {
    hide Matches, DigitsBetween, Opt, Gap, GroupsAt;
    var groups := Groups(abc);
    if Matches(abc, PhoneIntlRegex(abc), s, i, e) {
      var p := SplitCat(abc, Is('+'), groups, s, i, e);
      MatchesIs(abc, '+', s, i, p);
      GroupsMatch(abc, s, p, e);
    }
    if PhoneIntlAt(abc, s, i, e) {
      MatchesIs(abc, '+', s, i, i + 1);
      GroupsMatch(abc, s, i + 1, e);
      JoinCat(abc, Is('+'), groups, s, i, i + 1, e);
    }
  }
}
