/** A text that shows why the order of the built-in patterns matters: a social security number
    glued to an international phone number. */
module SsnLeaks {
  import opened Characters
  import opened Redactor
  import opened Builtins
  import opened SsnGuard
  import opened Regex
  import opened SsnOrders
  import SsnScrub
  import RedactorLaws
  import Luhn

  const NUMBER := "123-45-6789"

  const PHONE := "+1\t1\t111\t1111"

  const GLUED := PHONE + NUMBER

  /** What the phone pattern makes of it. */
  const LEAK := "[REDACTED:phone_intl]" + NUMBER

  /** The pass leaves the text as it is. */
  predicate Idle(abc: Alphabet, kind: Kind, text: string) {
    Pass(abc, Builtin(abc, kind), text) == text
  }

  lemma IdleIfNoMatch(abc: Alphabet, kind: Kind, text: string)
    requires forall i: nat, e: nat :: !Matches(abc, RegexOf(abc, kind), text, i, e)
    ensures Idle(abc, kind, text)
  {
    NothingFound(abc, RegexOf(abc, kind), text, 0);
    NothingToReplace(abc, Builtin(abc, kind), text);
  }

  lemma AnchoredInside(abc: Alphabet, kind: Kind, body: Regex, text: string, i: nat, e: nat)
    requires RegexOf(abc, kind) == Anchored(body) && Matches(abc, RegexOf(abc, kind), text, i, e)
    ensures i <= e <= |text| && Matches(abc, body, text, i, e)
  {
    AnchoredMatch(abc, body, text, i, e);
  }

  // ---------------------------------------------- mail and network addresses

  function Just(x: char): char -> bool {
    c => c == x
  }

  lemma EmailNeedsAt()
    ensures Needs(EmailBody(), Just('@'))
  {
  }

  lemma IpNeedsDot(abc: Alphabet)
    ensures Needs(IpBody(abc), Just('.'))
  {
    var part := Cat(Octet(abc), Is('.'));
    var octets := Repeat(part, 3, 3);
    hide Octet;
    assert Needs(part, Just('.'));
    assert octets == Cat(part, Repeat(part, 2, 2));
    CatFacts(part, Repeat(part, 2, 2), Just('.'));
    CatFacts(octets, Octet(abc), Just('.'));
  }

  lemma IdleAddresses(abc: Alphabet, text: string)
    requires '@' !in text && '.' !in text
    ensures Idle(abc, Email, text) && Idle(abc, IpAddress, text)
  {
    hide EmailBody, IpBody, Idle;
    forall i: nat, e: nat
      ensures !Matches(abc, RegexOf(abc, Email), text, i, e)
    {
      if Matches(abc, RegexOf(abc, Email), text, i, e) {
        AnchoredInside(abc, Email, EmailBody(), text, i, e);
        EmailNeedsAt();
        var j := MatchNeeds(abc, EmailBody(), Just('@'), text, i, e);
      }
    }
    forall i: nat, e: nat
      ensures !Matches(abc, RegexOf(abc, IpAddress), text, i, e)
    {
      if Matches(abc, RegexOf(abc, IpAddress), text, i, e) {
        AnchoredInside(abc, IpAddress, IpBody(abc), text, i, e);
        IpNeedsDot(abc);
        var j := MatchNeeds(abc, IpBody(abc), Just('.'), text, i, e);
      }
    }
    IdleIfNoMatch(abc, Email, text);
    IdleIfNoMatch(abc, IpAddress, text);
  }

  // ------------------------------------------------------------ phone numbers

  /** Three digits, the first not below two, and at least seven more characters. */
  predicate AreaCodeAt(abc: Alphabet, s: string, m: nat) {
    m + 10 <= |s| && '2' <= s[m] <= '9' && abc.isDigit(s[m + 1]) && abc.isDigit(s[m + 2])
  }

  lemma RestLength(abc: Alphabet)
    ensures MinLength(PhoneUsRest(abc)) == 7
  {
    hide Repeat;
    var p := Just('-');
    RepeatFacts(AnyDigit(abc), 3, 3, p);
    RepeatFacts(AnyDigit(abc), 4, 4, p);
    var four := Cat(Opt(Separator(abc)), Exactly(abc, 4));
    CatFacts(Opt(Separator(abc)), Exactly(abc, 4), p);
    CatFacts(Exactly(abc, 3), four, p);
    CatFacts(Opt(Separator(abc)), Cat(Exactly(abc, 3), four), p);
    CatFacts(Opt(Is(')')), Cat(Opt(Separator(abc)), Cat(Exactly(abc, 3), four)), p);
  }

  lemma AreaCode(abc: Alphabet, s: string, m: nat, e: nat)
    requires Matches(abc, PhoneUsNumber(abc), s, m, e)
    ensures AreaCodeAt(abc, s, m)
  {
    hide PhoneUsRest;
    var rest := PhoneUsRest(abc);
    var m1 := SplitCat(abc, Between('2', '9'), Cat(AnyDigit(abc), Cat(AnyDigit(abc), rest)), s, m, e);
    var m2 := SplitCat(abc, AnyDigit(abc), Cat(AnyDigit(abc), rest), s, m1, e);
    var m3 := SplitCat(abc, AnyDigit(abc), rest, s, m2, e);
    RestLength(abc);
    MatchLength(abc, rest, s, m3, e);
  }

  lemma PhoneUsHasAreaCode(abc: Alphabet, s: string, i: nat, e: nat) returns (m: nat)
    requires Matches(abc, RegexOf(abc, PhoneUs), s, i, e)
    ensures AreaCodeAt(abc, s, m)
  {
    hide PhoneUsNumber;
    AnchoredInside(abc, PhoneUs, PhoneUsBody(abc), s, i, e);
    var prefix := Opt(Cat(Opt(Is('+')), Cat(Is('1'), Opt(Separator(abc)))));
    var m1 := SplitCat(abc, prefix, Cat(Opt(Is('(')), PhoneUsNumber(abc)), s, i, e);
    m := SplitCat(abc, Opt(Is('(')), PhoneUsNumber(abc), s, m1, e);
    AreaCode(abc, s, m, e);
  }

  lemma IdlePhoneUs(abc: Alphabet, text: string)
    requires forall m: nat :: !AreaCodeAt(abc, text, m)
    ensures Idle(abc, PhoneUs, text)
  {
    hide RegexOf, AreaCodeAt, Idle;
    forall i: nat, e: nat
      ensures !Matches(abc, RegexOf(abc, PhoneUs), text, i, e)
    {
      if Matches(abc, RegexOf(abc, PhoneUs), text, i, e) {
        var m := PhoneUsHasAreaCode(abc, text, i, e);
      }
    }
    IdleIfNoMatch(abc, PhoneUs, text);
  }

  lemma IdlePhoneIntl(abc: Alphabet, text: string)
    requires '+' !in text
    ensures Idle(abc, PhoneIntl, text)
  {
    NoPlusNoIntl(abc, text);
    IdleWithoutIntl(abc, text);
  }

  // ------------------------------------------------------------- card numbers

  /** No match that the card pattern finds passes the Luhn check. */
  lemma IdleCards(abc: Alphabet, text: string)
    requires forall i: nat, e: nat :: Matches(abc, RegexOf(abc, CreditCard), text, i, e) && i <= e <= |text| ==>
      !Luhn.Valid(Luhn.Digits(abc, text[i..e]))
    ensures Idle(abc, CreditCard, text)
  {
    hide RegexOf, Luhn.Valid;
    var p := Builtin(abc, CreditCard);
    PlacedInside(text, 0, p.find(text));
    FoundMatches(abc, RegexOf(abc, CreditCard), text, 0);
    if ReplacedBy(abc, p, text) != [] {
      var x := ReplacedBy(abc, p, text)[0];
      ReplacedAreFound(abc, p.name, text, p.find(text), x);
    }
    NothingToReplace(abc, p, text);
  }

  lemma IdleCardsIfFew(abc: Alphabet, text: string)
    requires |Luhn.Digits(abc, text)| < 13
    ensures Idle(abc, CreditCard, text)
  {
    hide RegexOf, Idle;
    forall i: nat, e: nat | Matches(abc, RegexOf(abc, CreditCard), text, i, e) && i <= e <= |text|
      ensures !Luhn.Valid(Luhn.Digits(abc, text[i..e]))
    {
      Luhn.FewerDigits(abc, text, i, e);
    }
    IdleCards(abc, text);
  }

  // ---------------------------------------------------- the number on its own

  lemma NumberIsSsn(abc: Alphabet)
    requires abc.Sound()
    ensures SsnScrub.MatchAt(abc, NUMBER, 0)
  {
    assert NUMBER[0..3] == "123" && NUMBER[4..6] == "45" && NUMBER[7..11] == "6789";
  }

  lemma NumberChars(abc: Alphabet)
    requires abc.Sound()
    ensures forall c :: c in NUMBER ==> c == '-' || IsAsciiDigit(c)
    ensures |NUMBER| == 11 && NUMBER[0] == '1' && !abc.isDigit(NUMBER[3])
  {
  }

  /** All passes but its own leave a number alone. */
  lemma IdleOnNumber(abc: Alphabet, kind: Kind)
    requires abc.Sound() && kind != Ssn
    ensures Idle(abc, kind, NUMBER)
  {
    hide Idle;
    NumberChars(abc);
    IdleAddresses(abc, NUMBER);
    forall m: nat
      ensures !AreaCodeAt(abc, NUMBER, m)
    {
    }
    IdlePhoneUs(abc, NUMBER);
    IdlePhoneIntl(abc, NUMBER);
    Luhn.DigitsAtMost(abc, NUMBER);
    IdleCardsIfFew(abc, NUMBER);
  }

  // ------------------------------------------------------- what is left of the text

  lemma LeakIsTag()
    ensures LEAK == Tag(NameOf(PhoneIntl)) + NUMBER && |Tag(NameOf(PhoneIntl))| == 21
  {
  }

  lemma LeakHasSsn(abc: Alphabet)
    requires abc.Sound()
    ensures HasSsn(abc, LEAK)
  {
    hide Tag;
    NumberIsSsn(abc);
    LeakIsTag();
    TagIsFenced(NameOf(PhoneIntl));
    Fence(abc, Tag(NameOf(PhoneIntl)), NUMBER);
  }

  lemma LeakChars(abc: Alphabet)
    requires abc.Sound()
    ensures |LEAK| == 32 && forall i :: 0 <= i < 21 ==> LEAK[i] in Tag(NameOf(PhoneIntl))
    ensures forall i :: 21 <= i < 32 ==> LEAK[i] == NUMBER[i - 21]
    ensures forall c :: c in LEAK ==> c in Tag(NameOf(PhoneIntl)) || c in NUMBER
  {
    hide Tag, NameOf;
    LeakIsTag();
  }

  lemma IdleOnLeak(abc: Alphabet, kind: Kind)
    requires abc.Sound() && kind != Ssn
    ensures Idle(abc, kind, LEAK)
  {
    hide Idle, Tag, NameOf;
    NumberChars(abc);
    LeakIsTag();
    LeakChars(abc);
    TagIsPlain(PhoneIntl);
    assert '@' !in Tag(NameOf(PhoneIntl)) && '.' !in Tag(NameOf(PhoneIntl)) by { TagHasNoDot(); }
    IdleAddresses(abc, LEAK);
    forall m: nat
      ensures !AreaCodeAt(abc, LEAK, m)
    {
      if m + 10 <= |LEAK| {
        if m < 21 {
          assert LEAK[m] in Tag(NameOf(PhoneIntl));
        } else {
          assert LEAK[m] == NUMBER[m - 21] && LEAK[24] == NUMBER[3];
        }
      }
    }
    IdlePhoneUs(abc, LEAK);
    IdlePhoneIntl(abc, LEAK);
    Luhn.DigitsAppend(abc, Tag(NameOf(PhoneIntl)), NUMBER);
    Luhn.DigitsAtMost(abc, Tag(NameOf(PhoneIntl)));
    Luhn.DigitsAtMost(abc, NUMBER);
    IdleCardsIfFew(abc, LEAK);
  }

  lemma TagHasNoDot()
    ensures '@' !in Tag(NameOf(PhoneIntl)) && '.' !in Tag(NameOf(PhoneIntl))
  {
  }

  // ------------------------------------------------- the number glued to a phone

  lemma PhoneChars()
    ensures |PHONE| == 13 && forall c :: c in PHONE ==> c == '+' || c == '1' || c == '\t'
    ensures PHONE[0] == '+' && PHONE[2] == PHONE[4] == PHONE[8] == '\t'
    ensures PHONE[1] == PHONE[3] == '1' && forall i :: 5 <= i < 13 && i != 8 ==> PHONE[i] == '1'
  {
  }

  lemma GluedChars()
    ensures |GLUED| == 24
    ensures forall i :: 0 <= i < 13 ==> GLUED[i] == PHONE[i] && PHONE[i] in PHONE
    ensures forall i :: 13 <= i < 24 ==> GLUED[i] == NUMBER[i - 13]
    ensures forall c :: c in GLUED ==> c in PHONE || c in NUMBER
    ensures forall i :: 0 <= i < 24 ==> (GLUED[i] == '-' <==> i == 16 || i == 19)
  {
    PhoneChars();
    assert forall i :: 0 <= i < 11 ==> (NUMBER[i] == '-' <==> i == 3 || i == 6);
  }

  lemma GluedHasNoSsn(abc: Alphabet)
    requires abc.Sound()
    ensures !HasSsn(abc, GLUED)
  {
    hide SsnScrub.CoreAt;
    PhoneChars();
    GluedChars();
    forall k: nat
      ensures !SsnScrub.MatchAt(abc, GLUED, k)
    {
      SsnScrub.MatchParts(abc, GLUED, k);
      if SsnScrub.CoreAt(abc, GLUED, k) {
        CoreHyphens(abc, GLUED, k);
        assert GLUED[12] == PHONE[12] && GLUED[13] == NUMBER[0];
      }
    }
  }

  lemma CoreHyphens(abc: Alphabet, s: string, k: nat)
    requires SsnScrub.CoreAt(abc, s, k)
    ensures k + 11 <= |s| && s[k + 3] == '-' && s[k + 6] == '-'
  {
  }

  lemma IdleSsnOnGlued(abc: Alphabet)
    requires abc.Sound()
    ensures Idle(abc, Ssn, GLUED)
  {
    hide HasSsn, SsnScrub.MatchAt;
    SsnIsBuiltin(abc);
    RedactorLaws.SsnPass(abc, Builtin(abc, Ssn), GLUED);
    GluedHasNoSsn(abc);
    NoSsnNoChange(abc, GLUED);
  }

  lemma NoSsnNoChange(abc: Alphabet, text: string)
    requires abc.Sound() && !HasSsn(abc, text)
    ensures SsnScrub.Scrub(abc, text) == text
  {
    hide SsnScrub.MatchAt;
    SsnScrub.ScrubChangesIffMatch(abc, text);
  }

  lemma IdleOtherOnGlued(abc: Alphabet)
    requires abc.Sound()
    ensures Idle(abc, Email, GLUED) && Idle(abc, IpAddress, GLUED) && Idle(abc, PhoneUs, GLUED)
  {
    hide Idle;
    PhoneChars();
    NumberChars(abc);
    GluedChars();
    IdleAddresses(abc, GLUED);
    forall m: nat
      ensures !AreaCodeAt(abc, GLUED, m)
    {
      if m + 10 <= |GLUED| {
        assert m < 13 ==> GLUED[m] in PHONE;
        assert m >= 13 ==> GLUED[m] == NUMBER[m - 13];
        assert GLUED[16] == NUMBER[3];
      }
    }
    IdlePhoneUs(abc, GLUED);
  }

  // --------------------------------------------- its digits, taken for a card's

  function CardChars(abc: Alphabet): char -> bool {
    c => abc.isDigit(c) || c == ' ' || c == '-'
  }

  lemma CardWithin(abc: Alphabet)
    ensures Within(CardBody(abc), CardChars(abc))
  {
    hide Repeat;
    var item := Cat(AnyDigit(abc), Opt(OneOf(" -")));
    assert Within(item, CardChars(abc));
    RepeatFacts(item, 13, 19, CardChars(abc));
  }

  lemma CardMatch(abc: Alphabet, s: string, i: nat, e: nat)
    requires Matches(abc, RegexOf(abc, CreditCard), s, i, e)
    ensures i <= e <= |s| && forall j :: i <= j < e ==> CardChars(abc)(s[j])
  {
    hide CardBody;
    AnchoredInside(abc, CreditCard, CardBody(abc), s, i, e);
    CardWithin(abc);
    MatchWithin(abc, CardBody(abc), CardChars(abc), s, i, e);
  }

  lemma {:induction false} DigitsOfNumeral(abc: Alphabet, s: string)
    requires abc.Sound() && forall c :: c in s ==> IsAsciiDigit(c)
    ensures |Luhn.Digits(abc, s)| == |s|
    ensures forall k :: 0 <= k < |s| ==> Luhn.Digits(abc, s)[k] == DigitOf(s[k])
  {
    if s != "" {
      DigitsOfNumeral(abc, s[..|s| - 1]);
      assert s[|s| - 1] in s;
    }
  }

  lemma DigitsOfTwo(abc: Alphabet, a: string, b: string)
    requires abc.Sound()
    ensures Luhn.Digits(abc, a + "-" + b) == Luhn.Digits(abc, a) + Luhn.Digits(abc, b)
  {
    hide Luhn.Digits;
    Luhn.DigitsAtMost(abc, "-");
    Luhn.DigitsAppend(abc, a, "-");
    Luhn.DigitsAppend(abc, a + "-", b);
    assert Luhn.Digits(abc, a) + [] == Luhn.Digits(abc, a);
  }

  /** The digits of three groups with hyphens between them. */
  lemma DigitsOfGroups(abc: Alphabet, a: string, b: string, c: string)
    requires abc.Sound()
    ensures Luhn.Digits(abc, a + "-" + b + "-" + c)
         == Luhn.Digits(abc, a) + Luhn.Digits(abc, b) + Luhn.Digits(abc, c)
    ensures |Luhn.Digits(abc, a + "-" + b + "-" + c)| <= |a| + |b| + |c|
  {
    hide Luhn.Digits;
    var two := a + "-" + b;
    DigitsOfTwo(abc, a, b);
    DigitsOfTwo(abc, two, c);
    Luhn.DigitsAtMost(abc, a);
    Luhn.DigitsAtMost(abc, b);
    Luhn.DigitsAtMost(abc, c);
  }

  lemma GluedSlices()
    ensures |GLUED| == 24
    ensures GLUED[9..24] == "1111123" + "-" + "45" + "-" + "6789"
    ensures GLUED[10..24] == "111123" + "-" + "45" + "-" + "6789"
    ensures GLUED[9..23] == "1111123" + "-" + "45" + "-" + "678"
  {
    GluedChars();
    PhoneChars();
  }

  const CARD: seq<Digit> := [1, 1, 1, 1, 1, 2, 3, 4, 5, 6, 7, 8, 9]

  lemma CardDigits(abc: Alphabet)
    requires abc.Sound()
    ensures Luhn.Digits(abc, "1111123" + "-" + "45" + "-" + "6789") == CARD
  {
    DigitsOfGroups(abc, "1111123", "45", "6789");
    DigitsOfNumeral(abc, "1111123");
    DigitsOfNumeral(abc, "45");
    DigitsOfNumeral(abc, "6789");
    assert Luhn.Digits(abc, "1111123") == [1, 1, 1, 1, 1, 2, 3];
    assert Luhn.Digits(abc, "45") == [4, 5];
    assert Luhn.Digits(abc, "6789") == [6, 7, 8, 9];
  }

  lemma FirstWeights()
    ensures Luhn.Sum(CARD[..7], false) == 14
  {
    hide Luhn.Sum;
    Luhn.SumEmpty(true);
    assert CARD[..0] == [];
    Luhn.SumStep(CARD, 0, false);
    Luhn.SumStep(CARD, 1, true);
    Luhn.SumStep(CARD, 2, false);
    Luhn.SumStep(CARD, 3, true);
    Luhn.SumStep(CARD, 4, false);
    Luhn.SumStep(CARD, 5, true);
    Luhn.SumStep(CARD, 6, false);
  }

  /** Their Luhn sum is 53. */
  lemma CardIsInvalid()
    ensures !Luhn.Valid(CARD)
  {
    hide Luhn.Sum;
    FirstWeights();
    assert CARD[..13] == CARD;
    Luhn.SumStep(CARD, 7, true);
    Luhn.SumStep(CARD, 8, false);
    Luhn.SumStep(CARD, 9, true);
    Luhn.SumStep(CARD, 10, false);
    Luhn.SumStep(CARD, 11, true);
    Luhn.SumStep(CARD, 12, false);
  }

  lemma IdleCardsOnGlued(abc: Alphabet)
    requires abc.Sound()
    ensures Idle(abc, CreditCard, GLUED)
  {
    hide Idle, RegexOf, Luhn.Digits, Luhn.Sum;
    GluedSlices();
    CardDigits(abc);
    CardIsInvalid();
    DigitsOfGroups(abc, "111123", "45", "6789");
    DigitsOfGroups(abc, "1111123", "45", "678");
    forall i: nat, e: nat | Matches(abc, RegexOf(abc, CreditCard), GLUED, i, e) && i <= e <= |GLUED|
      ensures !Luhn.Valid(Luhn.Digits(abc, GLUED[i..e]))
    {
      CardMatch(abc, GLUED, i, e);
      GluedMatch(abc, i, e);
    }
    IdleCards(abc, GLUED);
  }

  /** Only the last fifteen characters hold thirteen digits without a tab in between. */
  lemma GluedMatch(abc: Alphabet, i: nat, e: nat)
    requires abc.Sound() && i <= e <= |GLUED| && forall j :: i <= j < e ==> CardChars(abc)(GLUED[j])
    ensures |Luhn.Digits(abc, GLUED[i..e])| < 13 || (i == 9 && e == 24)
  {
    hide Luhn.Digits;
    GluedChars();
    PhoneChars();
    GluedSlices();
    if i <= 8 {
      assert GLUED[8] == PHONE[8] == '\t';
      assert e <= 8;
      Luhn.DigitsAtMost(abc, GLUED[i..e]);
    } else if i >= 10 {
      SliceOfSlice(GLUED, 10, 24, i - 10, e - 10);
      Luhn.FewerDigits(abc, GLUED[10..24], i - 10, e - 10);
      DigitsOfGroups(abc, "111123", "45", "6789");
    } else if e <= 23 {
      SliceOfSlice(GLUED, 9, 23, 0, e - 9);
      Luhn.FewerDigits(abc, GLUED[9..23], 0, e - 9);
      DigitsOfGroups(abc, "1111123", "45", "678");
    }
  }

  // ------------------------------------------- what the phone pattern prefers

  /** The preferred match at `i` ends at `e`. */
  predicate Best(abc: Alphabet, r: Regex, s: string, i: nat, e: nat) {
    i <= |s| && Ends(abc, r, s, i) != [] && Ends(abc, r, s, i)[0] == e
  }

  lemma BestCat(abc: Alphabet, a: Regex, b: Regex, s: string, i: nat, m: nat, e: nat)
    requires Best(abc, a, s, i, m) && Best(abc, b, s, m, e)
    ensures Best(abc, Cat(a, b), s, i, e)
  {
  }

  lemma BestChar(abc: Alphabet, accepts: char -> bool, s: string, i: nat)
    requires i < |s| && accepts(s[i])
    ensures Best(abc, Char(accepts), s, i, i + 1) && Best(abc, Opt(Char(accepts)), s, i, i + 1)
  {
  }

  /** As many digits as there are, up to the limit. */
  lemma {:induction false} BestDigits(abc: Alphabet, low: nat, high: nat, s: string, i: nat, n: nat)
    requires low <= n <= high && AllDigits(abc, s, i, n)
    requires n == high || i + n == |s| || !abc.isDigit(s[i + n])
    ensures Best(abc, DigitsBetween(abc, low, high), s, i, i + n)
    decreases high
  {
    if high > 0 {
      var next := Repeat(AnyDigit(abc), if low > 0 then low - 1 else 0, high - 1);
      if n > 0 {
        BestDigits(abc, if low > 0 then low - 1 else 0, high - 1, s, i + 1, n - 1);
        BestChar(abc, abc.isDigit, s, i);
        BestCat(abc, AnyDigit(abc), next, s, i, i + 1, i + n);
        BestOpt(abc, Cat(AnyDigit(abc), next), s, i, i + n);
      } else {
        CatOne(abc, AnyDigit(abc), next, s, i);
      }
    }
  }

  lemma BestOpt(abc: Alphabet, r: Regex, s: string, i: nat, e: nat)
    requires Best(abc, r, s, i, e)
    ensures Best(abc, Opt(r), s, i, e)
  {
  }

  lemma GluedPhone(abc: Alphabet)
    requires abc.Sound()
    ensures Best(abc, PhoneIntlRegex(abc), GLUED, 0, 13)
  {
    hide Ends, Repeat, Best;
    GluedChars();
    PhoneChars();
    GluedDigits(abc);
    var s, gap, separator := GLUED, Opt(Gap(abc)), (x: char) => x == '-' || abc.isSpace(x);
    BestDigits(abc, 3, 4, s, 9, 4);
    GapEnds(abc, s, 8);
    BestCat(abc, gap, DigitsBetween(abc, 3, 4), s, 8, 9, 13);
    var six := Cat(gap, DigitsBetween(abc, 3, 4));
    BestDigits(abc, 3, 4, s, 5, 3);
    BestCat(abc, DigitsBetween(abc, 3, 4), six, s, 5, 8, 13);
    var five := Cat(DigitsBetween(abc, 3, 4), six);
    GapEnds(abc, s, 4);
    BestCat(abc, gap, five, s, 4, 5, 13);
    var four := Cat(gap, five);
    BestDigits(abc, 1, 4, s, 3, 1);
    BestCat(abc, DigitsBetween(abc, 1, 4), four, s, 3, 4, 13);
    var three := Cat(DigitsBetween(abc, 1, 4), four);
    GapEnds(abc, s, 2);
    BestCat(abc, gap, three, s, 2, 3, 13);
    var two := Cat(gap, three);
    BestDigits(abc, 1, 3, s, 1, 1);
    BestCat(abc, DigitsBetween(abc, 1, 3), two, s, 1, 2, 13);
    PlusEnds(abc, s);
    BestCat(abc, Is('+'), Cat(DigitsBetween(abc, 1, 3), two), s, 0, 1, 13);
  }

  lemma GapEnds(abc: Alphabet, s: string, i: nat)
    requires abc.Sound() && i < |s| && s[i] == '\t'
    ensures Best(abc, Opt(Gap(abc)), s, i, i + 1)
  {
  }

  lemma PlusEnds(abc: Alphabet, s: string)
    requires s != "" && s[0] == '+'
    ensures Best(abc, Is('+'), s, 0, 1)
  {
  }

  lemma GluedDigits(abc: Alphabet)
    requires abc.Sound()
    ensures |GLUED| == 24
    ensures AllDigits(abc, GLUED, 1, 1) && AllDigits(abc, GLUED, 3, 1) && AllDigits(abc, GLUED, 5, 3)
    ensures AllDigits(abc, GLUED, 9, 4)
    ensures !abc.isDigit(GLUED[2]) && !abc.isDigit(GLUED[4]) && !abc.isDigit(GLUED[8])
  {
    GluedChars();
    PhoneChars();
  }

  /** The phone is replaced, and the tag gives the number its word boundary. */
  lemma PhonePassLeaks(abc: Alphabet)
    requires abc.Sound()
    ensures Pass(abc, Builtin(abc, PhoneIntl), GLUED) == LEAK
  {
    hide PhoneIntlRegex, Ends, Cut, Tag;
    var r, p := PhoneIntlRegex(abc), Builtin(abc, PhoneIntl);
    GluedChars();
    NumberChars(abc);
    GluedPhone(abc);
    assert forall m :: 13 <= m < 24 ==> GLUED[m] in NUMBER && GLUED[m] != '+';
    forall j, e | 13 <= j
      ensures !Matches(abc, r, GLUED, j, e)
    {
      if Matches(abc, r, GLUED, j, e) {
        IntlFacts(abc);
        var m := MatchNeeds(abc, r, c => c == '+', GLUED, j, e);
      }
    }
    NothingFound(abc, r, GLUED, 13);
    assert p.find(GLUED) == [Span(0, 13)];
    PlacedInside(GLUED, 0, p.find(GLUED));
    AllReplaced(abc, p.name, GLUED, p.find(GLUED));
    PassIsCut(abc, p, GLUED);
    CutPhone();
  }

  lemma CutPhone()
    ensures |GLUED| == 24 && Placed(GLUED, 0, [Span(0, 13)])
    ensures Cut(GLUED, 0, [Span(0, 13)], Tag(NameOf(PhoneIntl))) == LEAK
  {
    GluedChars();
    LeakIsTag();
    assert [Span(0, 13)][1..] == [];
    assert GLUED[0..0] == "" && GLUED[13..] == NUMBER;
  }

  // -------------------------------------------------------- orders that are not safe

  lemma {:induction false} NumberStays(abc: Alphabet, kinds: seq<Kind>)
    requires abc.Sound() && Ssn !in kinds
    ensures ScrubKinds(abc, kinds, NUMBER) == NUMBER
  {
    hide ScrubKinds, Builtin, Pass;
    ScrubLast(abc, kinds, Ssn, NUMBER);
    if kinds != [] {
      var init, kind := kinds[..|kinds| - 1], kinds[|kinds| - 1];
      assert kinds == init + [kind];
      NumberStays(abc, init);
      ScrubLast(abc, init, kind, NUMBER);
      IdleOnNumber(abc, kind);
    }
  }

  lemma IdleOnGlued(abc: Alphabet, kind: Kind)
    requires abc.Sound() && kind != PhoneIntl
    ensures Idle(abc, kind, GLUED)
  {
    hide Idle;
    IdleSsnOnGlued(abc);
    IdleOtherOnGlued(abc);
    IdleCardsOnGlued(abc);
  }

  lemma {:induction false} GluedStays(abc: Alphabet, kinds: seq<Kind>)
    requires abc.Sound() && PhoneIntl !in kinds
    ensures ScrubKinds(abc, kinds, GLUED) == GLUED
  {
    hide ScrubKinds, Builtin, Pass;
    ScrubLast(abc, kinds, Ssn, GLUED);
    if kinds != [] {
      var init, kind := kinds[..|kinds| - 1], kinds[|kinds| - 1];
      assert kinds == init + [kind];
      GluedStays(abc, init);
      ScrubLast(abc, init, kind, GLUED);
      IdleOnGlued(abc, kind);
    }
  }

  /** From the first pass for international phone numbers on, the number is in the open. */
  lemma {:induction false} LeakStays(abc: Alphabet, kinds: seq<Kind>, f: nat)
    requires abc.Sound() && f < |kinds| && kinds[f] == PhoneIntl
    requires PhoneIntl !in kinds[..f] && Ssn !in kinds[f..]
    ensures ScrubKinds(abc, kinds, GLUED) == LEAK
  {
    hide ScrubKinds, Builtin, Pass;
    var n := |kinds| - 1;
    var init, kind := kinds[..n], kinds[n];
    assert kinds == init + [kind];
    ScrubLast(abc, init, kind, GLUED);
    if f == n {
      GluedStays(abc, init);
      PhonePassLeaks(abc);
    } else {
      assert init[..f] == kinds[..f] && kinds[f..] == init[f..] + [kind];
      LeakStays(abc, init, f);
      assert kind in kinds[f..];
      IdleOnLeak(abc, kind);
    }
  }

  lemma FirstOf(kinds: seq<Kind>, kind: Kind) returns (f: nat)
    requires kind in kinds
    ensures f < |kinds| && kinds[f] == kind && kind !in kinds[..f]
  {
    f := 0;
    while kinds[f] != kind
      invariant f < |kinds| && kind in kinds[f..] && kind !in kinds[..f]
      decreases |kinds| - f
    {
      f := f + 1;
    }
  }

  /** Whatever the selection and order of the built-in patterns, they leave no social security
      number in any text iff the order is safe. */
  lemma BuiltinsClearIff(abc: Alphabet, kinds: seq<Kind>)
    requires abc.Sound()
    ensures Clears(abc, Patterns(abc, kinds)) <==> SafeOrder(kinds)
  {
    hide HasSsn, ScrubText, Patterns;
    if m :| 0 <= m < |kinds| && kinds[m] == Ssn && (PhoneIntl in kinds[m..] ==> PhoneIntl in kinds[..m]) {
      forall text
        ensures !HasSsn(abc, ScrubText(abc, Patterns(abc, kinds), text))
      {
        SafeFrom(abc, kinds, m, text);
      }
    } else if Ssn !in kinds {
      NumberStays(abc, kinds);
      NumberHasSsn(abc);
    } else {
      UnsafeLeaks(abc, kinds);
    }
  }

  lemma NumberHasSsn(abc: Alphabet)
    requires abc.Sound()
    ensures HasSsn(abc, NUMBER)
  {
    hide SsnScrub.MatchAt;
    NumberIsSsn(abc);
  }

  lemma UnsafeLeaks(abc: Alphabet, kinds: seq<Kind>)
    requires abc.Sound() && Ssn in kinds && !SafeOrder(kinds)
    ensures ScrubKinds(abc, kinds, GLUED) == LEAK && HasSsn(abc, LEAK)
  {
    hide ScrubKinds, HasSsn;
    var m := FirstOf(kinds, Ssn);
    assert PhoneIntl in kinds[m..];
    var f := FirstOf(kinds, PhoneIntl);
    forall k | f < k < |kinds|
      ensures kinds[k] != Ssn
    {
      assert kinds[..k][f] == PhoneIntl;
    }
    LeakStays(abc, kinds, f);
    LeakHasSsn(abc);
  }

  /** The order in which the redactor ships is not safe. */
  lemma DefaultLeaks(abc: Alphabet)
    requires abc.Sound()
    ensures var shipped := [Ssn, CreditCard, Email, PhoneUs, PhoneIntl, IpAddress];
      !SafeOrder(shipped) && ScrubKinds(abc, shipped, GLUED) == LEAK && HasSsn(abc, LEAK)
  {
    hide ScrubKinds, HasSsn;
    var shipped := [Ssn, CreditCard, Email, PhoneUs, PhoneIntl, IpAddress];
    assert shipped[0..][4] == PhoneIntl && shipped[..0] == [];
    UnsafeLeaks(abc, shipped);
  }
}
