/** The built-in patterns of detectors/pii.py. */
module Builtins {
  import opened Characters
  import opened Redactor
  import opened Regex
  import SsnScrub

  datatype Kind = Ssn | CreditCard | PhoneUs | PhoneIntl | Email | IpAddress

  function NameOf(kind: Kind): string {
    match kind
    case Ssn => "ssn"
    case CreditCard => "credit_card"
    case PhoneUs => "phone_us"
    case PhoneIntl => "phone_intl"
    case Email => "email"
    case IpAddress => "ip_address"
  }

  function Is(c: char): Regex {
    Char(x => x == c)
  }

  function Between(low: char, high: char): Regex {
    Char(x => low <= x <= high)
  }

  function OneOf(chars: string): Regex {
    Char(x => x in chars)
  }

  function Literal(text: string): Regex {
    if text == "" then Empty else Cat(Is(text[0]), Literal(text[1..]))
  }

  function AnyDigit(abc: Alphabet): Regex {
    Char(abc.isDigit)
  }

  function DigitsBetween(abc: Alphabet, low: nat, high: nat): Regex
    requires low <= high
  {
    Repeat(AnyDigit(abc), low, high)
  }

  /** Digits, exactly so many. */
  function Exactly(abc: Alphabet, n: nat): Regex {
    DigitsBetween(abc, n, n)
  }

  function Anchored(body: Regex): Regex {
    Cat(Edge, Cat(body, Edge))
  }

  /** `[-.\s]` */
  function Separator(abc: Alphabet): Regex {
    Char(x => x == '-' || x == '.' || abc.isSpace(x))
  }

  /** `[\s-]` */
  function Gap(abc: Alphabet): Regex {
    Char(x => x == '-' || abc.isSpace(x))
  }

  /** `(?!00)\d{2}` and the like. */
  function NotAllZero(abc: Alphabet, zeros: string): Regex {
    Cat(Not(Literal(zeros)), Exactly(abc, |zeros|))
  }

  function NoArea(abc: Alphabet): Regex {
    Or(Literal("000"), Or(Literal("666"), Cat(Is('9'), Exactly(abc, 2))))
  }

  function SsnArea(abc: Alphabet): Regex {
    Cat(Not(NoArea(abc)), Exactly(abc, 3))
  }

  function SsnBody(abc: Alphabet): Regex {
    Cat(SsnArea(abc), Cat(Is('-'), Cat(NotAllZero(abc, "00"), Cat(Is('-'), NotAllZero(abc, "0000")))))
  }

  function CardBody(abc: Alphabet): Regex {
    Repeat(Cat(AnyDigit(abc), Opt(OneOf(" -"))), 13, 19)
  }

  /** From the first digit of the area code on. */
  function PhoneUsNumber(abc: Alphabet): Regex {
    Cat(Between('2', '9'),
    Cat(AnyDigit(abc),
    Cat(AnyDigit(abc), PhoneUsRest(abc))))
  }

  function PhoneUsRest(abc: Alphabet): Regex {
    Cat(Opt(Is(')')),
    Cat(Opt(Separator(abc)),
    Cat(Exactly(abc, 3),
    Cat(Opt(Separator(abc)),
        Exactly(abc, 4)))))
  }

  function Country(abc: Alphabet): Regex {
    Cat(Opt(Is('+')), Cat(Is('1'), Opt(Separator(abc))))
  }

  function PhoneUsBody(abc: Alphabet): Regex {
    Cat(Opt(Country(abc)),
    Cat(Opt(Is('(')),
        PhoneUsNumber(abc)))
  }

  function PhoneIntlRegex(abc: Alphabet): Regex {
    Cat(Is('+'),
    Cat(DigitsBetween(abc, 1, 3),
    Cat(Opt(Gap(abc)),
    Cat(DigitsBetween(abc, 1, 4),
    Cat(Opt(Gap(abc)),
    Cat(DigitsBetween(abc, 3, 4),
    Cat(Opt(Gap(abc)),
        DigitsBetween(abc, 3, 4))))))))
  }

  predicate IsAsciiLetter(c: char) {
    'a' <= c <= 'z' || 'A' <= c <= 'Z'
  }

  function Name(): Regex {
    Many(x => IsAsciiLetter(x) || IsAsciiDigit(x) || x in "._%+-")
  }

  function Host(): Regex {
    Many(x => IsAsciiLetter(x) || IsAsciiDigit(x) || x in ".-")
  }

  /** `[A-Za-z]{2,}` */
  function TopLevel(): Regex {
    Cat(Char(IsAsciiLetter), Many(IsAsciiLetter))
  }

  function EmailBody(): Regex {
    Cat(Name(), Cat(Is('@'), Cat(Host(), Cat(Is('.'), TopLevel()))))
  }

  /** A number from 0 to 255. */
  function Octet(abc: Alphabet): Regex {
    Or(Cat(Is('2'), Cat(Is('5'), Between('0', '5'))),
    Or(Cat(Is('2'), Cat(Between('0', '4'), AnyDigit(abc))),
       Cat(Opt(OneOf("01")), Cat(Opt(AnyDigit(abc)), AnyDigit(abc)))))
  }

  function IpBody(abc: Alphabet): Regex {
    Cat(Repeat(Cat(Octet(abc), Is('.')), 3, 3), Octet(abc))
  }

  function RegexOf(abc: Alphabet, kind: Kind): Regex {
    match kind
    case Ssn => Anchored(SsnBody(abc))
    case CreditCard => Anchored(CardBody(abc))
    case PhoneUs => Anchored(PhoneUsBody(abc))
    case PhoneIntl => PhoneIntlRegex(abc)
    case Email => Anchored(EmailBody())
    case IpAddress => Anchored(IpBody(abc))
  }

  function Builtin(abc: Alphabet, kind: Kind): Pattern {
    FindIsProper(abc, RegexOf(abc, kind));
    Pattern(NameOf(kind), Find(abc, RegexOf(abc, kind)))
  }

  // ------------------------------------------------ social security numbers

  lemma CharMatch(abc: Alphabet, accepts: char -> bool, s: string, i: nat)
    requires i <= |s|
    ensures Ends(abc, Char(accepts), s, i) == if i < |s| && accepts(s[i]) then [i + 1] else []
  {
  }

  /** Patterns whose matches can end in one place at most, put together. */
  lemma CatOne(abc: Alphabet, a: Regex, b: Regex, s: string, i: nat)
    requires i <= |s|
    ensures Ends(abc, a, s, i) == [] ==> Ends(abc, Cat(a, b), s, i) == []
    ensures |Ends(abc, a, s, i)| == 1 ==> Ends(abc, Cat(a, b), s, i) == Ends(abc, b, s, Ends(abc, a, s, i)[0])
  {
    var starts := Ends(abc, a, s, i);
    if |starts| == 1 {
      assert starts[1..] == [];
      assert EndsFrom(abc, b, s, i, []) == [];
    }
  }

  predicate AllDigits(abc: Alphabet, s: string, i: nat, n: nat) {
    i + n <= |s| && forall j :: i <= j < i + n ==> abc.isDigit(s[j])
  }

  lemma AllDigitsStep(abc: Alphabet, s: string, i: nat, n: nat)
    requires i <= |s|
    ensures AllDigits(abc, s, i, 0)
    ensures n > 0 ==> (AllDigits(abc, s, i, n) <==> i < |s| && abc.isDigit(s[i]) && AllDigits(abc, s, i + 1, n - 1))
  {
  }

  lemma EmptyEnds(abc: Alphabet, s: string, i: nat)
    requires i <= |s|
    ensures Ends(abc, Empty, s, i) == [i]
  {
  }

  lemma {:induction false} ExactlyEnds(abc: Alphabet, n: nat, s: string, i: nat)
    requires i <= |s|
    ensures Ends(abc, Exactly(abc, n), s, i) == if AllDigits(abc, s, i, n) then [i + n] else []
  {
    hide Ends, AllDigits;
    AllDigitsStep(abc, s, i, n);
    EmptyEnds(abc, s, i);
    if n > 0 {
      assert Exactly(abc, n) == Cat(AnyDigit(abc), Exactly(abc, n - 1));
      CatOne(abc, AnyDigit(abc), Exactly(abc, n - 1), s, i);
      CharMatch(abc, abc.isDigit, s, i);
      if i < |s| {
        ExactlyEnds(abc, n - 1, s, i + 1);
      }
    }
  }

  lemma PrefixStep(text: string, t: string)
    requires text != ""
    ensures text <= t <==> t != "" && t[0] == text[0] && text[1..] <= t[1..]
  {
    if text <= t {
      assert t[1..][..|text| - 1] == text[1..];
    }
    if t != "" && t[0] == text[0] && text[1..] <= t[1..] {
      assert t == [t[0]] + t[1..] && text == [text[0]] + text[1..];
    }
  }

  lemma {:induction false} LiteralEnds(abc: Alphabet, text: string, s: string, i: nat)
    requires i <= |s|
    ensures Ends(abc, Literal(text), s, i) == if text <= s[i..] then [i + |text|] else []
  {
    if text != "" {
      var c, rest := text[0], text[1..];
      CatOne(abc, Is(c), Literal(rest), s, i);
      IsEnds(abc, c, s, i);
      PrefixStep(text, s[i..]);
      if i < |s| && s[i] == c {
        LiteralEnds(abc, rest, s, i + 1);
        assert s[i..][1..] == s[i + 1..];
      }
    }
  }

  lemma IsEnds(abc: Alphabet, c: char, s: string, i: nat)
    requires i <= |s|
    ensures Ends(abc, Is(c), s, i) == if i < |s| && s[i] == c then [i + 1] else []
  {
  }

  /** Either no end, or the one at distance `n`. */
  predicate OneEnd(ends: seq<nat>, i: nat, n: nat, matched: bool) {
    ends == if matched then [i + n] else []
  }

  lemma CatEnd(abc: Alphabet, a: Regex, b: Regex, s: string, i: nat, m: nat, n: nat, p: bool, q: bool)
    requires i <= |s| && OneEnd(Ends(abc, a, s, i), i, m, p)
    requires p && i + m <= |s| ==> OneEnd(Ends(abc, b, s, i + m), i + m, n, q)
    ensures OneEnd(Ends(abc, Cat(a, b), s, i), i, m + n, p && q)
  {
    hide Ends;
    CatOne(abc, a, b, s, i);
  }

  lemma NotEnd(abc: Alphabet, a: Regex, s: string, i: nat)
    requires i <= |s|
    ensures OneEnd(Ends(abc, Not(a), s, i), i, 0, Ends(abc, a, s, i) == [])
  {
  }

  predicate Group(abc: Alphabet, s: string, i: nat, zeros: string) {
    !(i <= |s| && zeros <= s[i..]) && AllDigits(abc, s, i, |zeros|)
  }

  lemma NotAllZeroEnd(abc: Alphabet, zeros: string, s: string, i: nat)
    requires i <= |s|
    ensures OneEnd(Ends(abc, NotAllZero(abc, zeros), s, i), i, |zeros|, Group(abc, s, i, zeros))
  {
    hide Ends, Exactly, Literal;
    LiteralEnds(abc, zeros, s, i);
    NotEnd(abc, Literal(zeros), s, i);
    ExactlyEnds(abc, |zeros|, s, i);
    CatEnd(abc, Not(Literal(zeros)), Exactly(abc, |zeros|), s, i, 0, |zeros|, !(zeros <= s[i..]),
           AllDigits(abc, s, i, |zeros|));
  }

  predicate Excluded(abc: Alphabet, s: string, i: nat)
    requires i <= |s|
  {
    "000" <= s[i..] || "666" <= s[i..] || (i < |s| && s[i] == '9' && AllDigits(abc, s, i + 1, 2))
  }

  lemma OrNone(abc: Alphabet, a: Regex, b: Regex, s: string, i: nat)
    requires i <= |s|
    ensures Ends(abc, Or(a, b), s, i) == [] <==> Ends(abc, a, s, i) == [] && Ends(abc, b, s, i) == []
  {
  }

  lemma ExcludedEnds(abc: Alphabet, s: string, i: nat)
    requires i <= |s|
    ensures Ends(abc, NoArea(abc), s, i) == [] <==> !Excluded(abc, s, i)
  {
    hide Ends, Exactly, Literal, AllDigits;
    LiteralEnds(abc, "000", s, i);
    LiteralEnds(abc, "666", s, i);
    IsEnds(abc, '9', s, i);
    if i < |s| && s[i] == '9' {
      ExactlyEnds(abc, 2, s, i + 1);
    }
    CatEnd(abc, Is('9'), Exactly(abc, 2), s, i, 1, 2, i < |s| && s[i] == '9', AllDigits(abc, s, i + 1, 2));
    OrNone(abc, Literal("666"), Cat(Is('9'), Exactly(abc, 2)), s, i);
    OrNone(abc, Literal("000"), Or(Literal("666"), Cat(Is('9'), Exactly(abc, 2))), s, i);
  }

  predicate Area(abc: Alphabet, s: string, i: nat)
    requires i <= |s|
  {
    !Excluded(abc, s, i) && AllDigits(abc, s, i, 3)
  }

  lemma SsnAreaEnd(abc: Alphabet, s: string, i: nat)
    requires i <= |s|
    ensures OneEnd(Ends(abc, SsnArea(abc), s, i), i, 3, Area(abc, s, i))
  {
    hide Ends, Exactly, AllDigits, Excluded, NoArea;
    ExcludedEnds(abc, s, i);
    NotEnd(abc, NoArea(abc), s, i);
    ExactlyEnds(abc, 3, s, i);
    CatEnd(abc, Not(NoArea(abc)), Exactly(abc, 3), s, i, 0, 3, !Excluded(abc, s, i), AllDigits(abc, s, i, 3));
  }

  predicate Hyphen(s: string, i: nat) {
    i < |s| && s[i] == '-'
  }

  predicate SsnShape(abc: Alphabet, s: string, i: nat)
    requires i <= |s|
  {
    && Area(abc, s, i) && Hyphen(s, i + 3) && Group(abc, s, i + 4, "00") && Hyphen(s, i + 6)
    && Group(abc, s, i + 7, "0000")
  }

  lemma SsnBodyEnd(abc: Alphabet, s: string, i: nat)
    requires i <= |s|
    ensures OneEnd(Ends(abc, SsnBody(abc), s, i), i, 11, SsnShape(abc, s, i))
  {
    hide Ends, Area, Group, SsnArea, NotAllZero;
    SsnAreaEnd(abc, s, i);
    if Area(abc, s, i) && i + 3 <= |s| {
      IsEnds(abc, '-', s, i + 3);
      if Hyphen(s, i + 3) {
        NotAllZeroEnd(abc, "00", s, i + 4);
        if Group(abc, s, i + 4, "00") && i + 6 <= |s| {
          IsEnds(abc, '-', s, i + 6);
          if Hyphen(s, i + 6) {
            NotAllZeroEnd(abc, "0000", s, i + 7);
          }
          CatEnd(abc, Is('-'), NotAllZero(abc, "0000"), s, i + 6, 1, 4, Hyphen(s, i + 6), Group(abc, s, i + 7, "0000"));
        }
        CatEnd(abc, NotAllZero(abc, "00"), Cat(Is('-'), NotAllZero(abc, "0000")), s, i + 4, 2, 5,
               Group(abc, s, i + 4, "00"), Hyphen(s, i + 6) && Group(abc, s, i + 7, "0000"));
      }
      CatEnd(abc, Is('-'), Cat(NotAllZero(abc, "00"), Cat(Is('-'), NotAllZero(abc, "0000"))), s, i + 3, 1, 7,
             Hyphen(s, i + 3), Group(abc, s, i + 4, "00") && Hyphen(s, i + 6) && Group(abc, s, i + 7, "0000"));
    }
    CatEnd(abc, SsnArea(abc),
           Cat(Is('-'), Cat(NotAllZero(abc, "00"), Cat(Is('-'), NotAllZero(abc, "0000")))), s, i, 3, 8, Area(abc, s, i),
           Hyphen(s, i + 3) && Group(abc, s, i + 4, "00") && Hyphen(s, i + 6) && Group(abc, s, i + 7, "0000"));
  }

  lemma GroupIs(abc: Alphabet, s: string, i: nat, zeros: string)
    requires i + |zeros| <= |s|
    ensures Group(abc, s, i, zeros) <==> AllDigits(abc, s, i, |zeros|) && s[i..i + |zeros|] != zeros
  {
    PrefixAt(zeros, s, i);
  }

  lemma AreaIs(abc: Alphabet, s: string, i: nat)
    requires i + 3 <= |s|
    ensures Area(abc, s, i)
       <==> AllDigits(abc, s, i, 3) && s[i..i + 3] != "000" && s[i..i + 3] != "666" && s[i] != '9'
  {
    PrefixAt("000", s, i);
    PrefixAt("666", s, i);
  }

  /** The shape is the one of SsnScrub. */
  lemma SameShape(abc: Alphabet, s: string, i: nat)
    requires i <= |s|
    ensures SsnShape(abc, s, i) <==> SsnScrub.CoreAt(abc, s, i)
  {
    if i + 11 <= |s| {
      hide Area, Group;
      AreaIs(abc, s, i);
      GroupIs(abc, s, i + 4, "00");
      GroupIs(abc, s, i + 7, "0000");
    }
  }

  lemma PrefixAt(text: string, s: string, i: nat)
    requires i + |text| <= |s|
    ensures text <= s[i..] <==> s[i..i + |text|] == text
  {
  }

  /** The pattern for social security numbers matches where SsnScrub says, and there only. */
  lemma SsnEnds(abc: Alphabet, s: string, i: nat)
    requires i <= |s|
    ensures Ends(abc, RegexOf(abc, Ssn), s, i) == if SsnScrub.MatchAt(abc, s, i) then [i + 11] else []
  {
    hide SsnBody, SsnShape, SsnScrub.CoreAt, Ends;
    SsnBodyEnd(abc, s, i);
    SameShape(abc, s, i);
    EdgeEnd(abc, s, i);
    var shape := SsnScrub.CoreAt(abc, s, i);
    var right := shape && SsnScrub.MatchAt(abc, s, i);
    if shape {
      SsnScrub.MatchParts(abc, s, i);
      ShapeFits(abc, s, i);
      EdgeEnd(abc, s, i + 11);
    }
    CatEnd(abc, SsnBody(abc), Edge, s, i, 11, 0, shape, shape && i + 11 <= |s| && Boundary(abc, s, i + 11));
    CatEnd(abc, Edge, Cat(SsnBody(abc), Edge), s, i, 0, 11, Boundary(abc, s, i),
           shape && i + 11 <= |s| && Boundary(abc, s, i + 11));
    SsnScrub.MatchParts(abc, s, i);
  }

  lemma ShapeFits(abc: Alphabet, s: string, i: nat)
    ensures SsnScrub.CoreAt(abc, s, i) ==> i + 11 <= |s|
  {
  }

  lemma EdgeEnd(abc: Alphabet, s: string, i: nat)
    requires i <= |s|
    ensures OneEnd(Ends(abc, Edge, s, i), i, 0, Boundary(abc, s, i))
  {
  }

  function Spans(places: seq<nat>): seq<Span> {
    if places == [] then [] else [Span(places[0], places[0] + 11)] + Spans(places[1..])
  }

  lemma SpansStep(place: nat, places: seq<nat>)
    ensures Spans([]) == [] && Spans([place] + places) == [Span(place, place + 11)] + Spans(places)
  {
    assert ([place] + places)[1..] == places;
  }

  /** So the scan finds exactly the places of SsnScrub. */
  lemma {:induction false} SsnFound(abc: Alphabet, s: string, i: nat)
    requires abc.Sound() && i <= |s|
    ensures FindFrom(abc, RegexOf(abc, Ssn), s, i) == Spans(SsnScrub.Matches(abc, s, i))
    decreases |s| - i
  {
    hide Ends, RegexOf, SsnScrub.MatchAt, SsnScrub.Matches, Spans;
    SsnEnds(abc, s, i);
    SsnScrub.MatchesStep(abc, s, i);
    if i < |s| && SsnScrub.MatchAt(abc, s, i) {
      SsnScrub.MatchFits(abc, s, i);
      SsnFound(abc, s, i + 11);
      SsnScrub.NoneInside(abc, s, i, 11);
      SpansStep(i, SsnScrub.Matches(abc, s, i + 11));
    } else if i < |s| {
      SsnFound(abc, s, i + 1);
    } else {
      SpansStep(0, []);
      if SsnScrub.MatchAt(abc, s, i) {
        SsnScrub.MatchFits(abc, s, i);
      }
    }
  }

  ghost predicate IsSsnPattern(abc: Alphabet, p: Pattern) {
    p.name == "ssn" && forall text :: p.find(text) == Spans(SsnScrub.Matches(abc, text, 0))
  }

  lemma SsnIsBuiltin(abc: Alphabet)
    requires abc.Sound()
    ensures IsSsnPattern(abc, Builtin(abc, Ssn))
  {
    forall text
      ensures Builtin(abc, Ssn).find(text) == Spans(SsnScrub.Matches(abc, text, 0))
    {
      SsnFound(abc, text, 0);
    }
  }

  // ----------------------------------------------------- what they do not match

  function NoBracket(): char -> bool {
    c => c != '['
  }

  lemma DigitNoBracket(abc: Alphabet)
    requires abc.Sound()
    ensures Within(AnyDigit(abc), NoBracket())
  {
    assert !abc.isDigit('[');
  }

  lemma DigitsNoBracket(abc: Alphabet, low: nat, high: nat)
    requires abc.Sound() && low <= high
    ensures Within(DigitsBetween(abc, low, high), NoBracket())
  {
    hide Repeat, AnyDigit, Within;
    DigitNoBracket(abc);
    RepeatFacts(AnyDigit(abc), low, high, NoBracket());
  }

  /** A lookahead does not count. */
  lemma AfterNot(ahead: Regex, r: Regex)
    ensures Within(r, NoBracket()) ==> Within(Cat(Not(ahead), r), NoBracket())
  {
  }

  lemma IsNoBracket(c: char)
    requires c != '['
    ensures Within(Is(c), NoBracket())
  {
  }

  lemma SsnNoBracket(abc: Alphabet)
    requires abc.Sound()
    ensures Within(SsnBody(abc), NoBracket())
  {
    hide Within, DigitsBetween, Literal, NoArea;
    var p, hyphen := NoBracket(), Is('-');
    var two, four := NotAllZero(abc, "00"), NotAllZero(abc, "0000");
    DigitsNoBracket(abc, 2, 2);
    DigitsNoBracket(abc, 3, 3);
    DigitsNoBracket(abc, 4, 4);
    AfterNot(NoArea(abc), Exactly(abc, 3));
    AfterNot(Literal("00"), Exactly(abc, 2));
    AfterNot(Literal("0000"), Exactly(abc, 4));
    IsNoBracket('-');
    CatFacts(hyphen, four, p);
    CatFacts(two, Cat(hyphen, four), p);
    CatFacts(hyphen, Cat(two, Cat(hyphen, four)), p);
    CatFacts(SsnArea(abc), Cat(hyphen, Cat(two, Cat(hyphen, four))), p);
  }

  lemma CardNoBracket(abc: Alphabet)
    requires abc.Sound()
    ensures Within(CardBody(abc), NoBracket())
  {
    hide Repeat, Within, Opt, OneOf, AnyDigit;
    var item := Cat(AnyDigit(abc), Opt(OneOf(" -")));
    DigitNoBracket(abc);
    OptNoBracket(" -");
    CatFacts(AnyDigit(abc), Opt(OneOf(" -")), NoBracket());
    RepeatFacts(item, 13, 19, NoBracket());
  }

  lemma OptNoBracket(chars: string)
    requires '[' !in chars
    ensures Within(Opt(OneOf(chars)), NoBracket())
  {
  }

  lemma SeparatorNoBracket(abc: Alphabet)
    requires abc.Sound()
    ensures Within(Opt(Separator(abc)), NoBracket()) && Within(Opt(Gap(abc)), NoBracket())
    ensures Within(Opt(Is(')')), NoBracket()) && Within(Between('2', '9'), NoBracket())
  {
    assert !abc.isSpace('[');
  }

  lemma PhoneUsNoBracket(abc: Alphabet)
    requires abc.Sound()
    ensures Within(PhoneUsBody(abc), NoBracket())
  {
    hide Within, DigitsBetween, Opt, Separator, AnyDigit, PhoneUsBody;
    var p, separator := NoBracket(), Opt(Separator(abc));
    SeparatorNoBracket(abc);
    DigitNoBracket(abc);
    DigitsNoBracket(abc, 3, 3);
    DigitsNoBracket(abc, 4, 4);
    CatFacts(separator, Exactly(abc, 4), p);
    CatFacts(Exactly(abc, 3), Cat(separator, Exactly(abc, 4)), p);
    CatFacts(separator, Cat(Exactly(abc, 3), Cat(separator, Exactly(abc, 4))), p);
    CatFacts(Opt(Is(')')), Cat(separator, Cat(Exactly(abc, 3), Cat(separator, Exactly(abc, 4)))), p);
    var rest := PhoneUsRest(abc);
    CatFacts(AnyDigit(abc), rest, p);
    CatFacts(AnyDigit(abc), Cat(AnyDigit(abc), rest), p);
    CatFacts(Between('2', '9'), Cat(AnyDigit(abc), Cat(AnyDigit(abc), rest)), p);
    PrefixNoBracket(abc);
  }

  lemma OptWithin(r: Regex, p: char -> bool)
    ensures Within(r, p) ==> Within(Opt(r), p)
  {
  }

  lemma PrefixNoBracket(abc: Alphabet)
    requires abc.Sound() && Within(PhoneUsNumber(abc), NoBracket())
    ensures Within(PhoneUsBody(abc), NoBracket())
  {
    hide PhoneUsNumber, Within, Opt, Is, Separator;
    var p, one := NoBracket(), Cat(Is('1'), Opt(Separator(abc)));
    SeparatorNoBracket(abc);
    IsNoBracket('+');
    IsNoBracket('1');
    IsNoBracket('(');
    OptWithin(Is('+'), p);
    OptWithin(Is('('), p);
    CatFacts(Is('1'), Opt(Separator(abc)), p);
    CatFacts(Opt(Is('+')), one, p);
    OptWithin(Cat(Opt(Is('+')), one), p);
    CatFacts(Opt(Is('(')), PhoneUsNumber(abc), p);
    CatFacts(Opt(Cat(Opt(Is('+')), one)), Cat(Opt(Is('(')), PhoneUsNumber(abc)), p);
  }

  lemma PhoneIntlNoBracket(abc: Alphabet)
    requires abc.Sound()
    ensures Within(PhoneIntlRegex(abc), NoBracket())
  {
    hide Within, DigitsBetween, Opt, Gap;
    var p, gap, last := NoBracket(), Opt(Gap(abc)), DigitsBetween(abc, 3, 4);
    SeparatorNoBracket(abc);
    DigitsNoBracket(abc, 1, 3);
    DigitsNoBracket(abc, 1, 4);
    DigitsNoBracket(abc, 3, 4);
    IsNoBracket('+');
    var six := Cat(gap, last);
    var five := Cat(last, six);
    var four := Cat(gap, five);
    var three := Cat(DigitsBetween(abc, 1, 4), four);
    CatFacts(gap, last, p);
    CatFacts(last, six, p);
    CatFacts(gap, five, p);
    CatFacts(DigitsBetween(abc, 1, 4), four, p);
    CatFacts(gap, three, p);
    CatFacts(DigitsBetween(abc, 1, 3), Cat(gap, three), p);
    CatFacts(Is('+'), Cat(DigitsBetween(abc, 1, 3), Cat(gap, three)), p);
  }

  lemma EmailNoBracket()
    ensures Within(EmailBody(), NoBracket())
  {
    EmailParts();
    IsNoBracket('@');
    IsNoBracket('.');
    hide Within, Name, Host, TopLevel, Is;
    var p := NoBracket();
    CatFacts(Is('.'), TopLevel(), p);
    CatFacts(Host(), Cat(Is('.'), TopLevel()), p);
    CatFacts(Is('@'), Cat(Host(), Cat(Is('.'), TopLevel())), p);
    CatFacts(Name(), Cat(Is('@'), Cat(Host(), Cat(Is('.'), TopLevel()))), p);
  }

  lemma EmailParts()
    ensures Within(Name(), NoBracket()) && Within(Host(), NoBracket()) && Within(TopLevel(), NoBracket())
  {
    assert forall c :: c in "._%+-" ==> c != '[';
    assert forall c :: c in ".-" ==> c != '[';
  }

  lemma OctetParts(abc: Alphabet)
    ensures Within(Is('2'), NoBracket()) && Within(Cat(Is('5'), Between('0', '5')), NoBracket())
    ensures Within(Between('0', '4'), NoBracket()) && Within(Opt(OneOf("01")), NoBracket())
    ensures Within(AnyDigit(abc), NoBracket()) ==> Within(Opt(AnyDigit(abc)), NoBracket())
  {
    assert forall c :: c in "01" ==> c != '[';
  }

  lemma OrWithin(a: Regex, b: Regex, p: char -> bool)
    ensures Within(Or(a, b), p) <==> Within(a, p) && Within(b, p)
  {
  }

  lemma OctetNoBracket(abc: Alphabet)
    requires abc.Sound()
    ensures Within(Octet(abc), NoBracket())
  {
    hide Within, Opt, OneOf, AnyDigit, Between, Is;
    var p, digit := NoBracket(), AnyDigit(abc);
    var low, middle := Cat(Is('5'), Between('0', '5')), Cat(Between('0', '4'), digit);
    var short := Cat(Opt(digit), digit);
    DigitNoBracket(abc);
    OctetParts(abc);
    CatFacts(Between('0', '4'), digit, p);
    CatFacts(Opt(digit), digit, p);
    CatFacts(Is('2'), low, p);
    CatFacts(Is('2'), middle, p);
    CatFacts(Opt(OneOf("01")), short, p);
    OrWithin(Cat(Is('2'), middle), Cat(Opt(OneOf("01")), short), p);
    OrWithin(Cat(Is('2'), low), Or(Cat(Is('2'), middle), Cat(Opt(OneOf("01")), short)), p);
  }

  lemma IpNoBracket(abc: Alphabet)
    requires abc.Sound()
    ensures Within(IpBody(abc), NoBracket())
  {
    hide Repeat, Octet;
    var p, octet := NoBracket(), Octet(abc);
    OctetNoBracket(abc);
    CatFacts(octet, Is('.'), p);
    RepeatFacts(Cat(octet, Is('.')), 3, 3, p);
    CatFacts(Repeat(Cat(octet, Is('.')), 3, 3), octet, p);
  }

  lemma AnchoredWithin(body: Regex, p: char -> bool)
    ensures Within(body, p) ==> Within(Anchored(body), p)
  {
    CatFacts(body, Edge, p);
    CatFacts(Edge, Cat(body, Edge), p);
  }

  /** No built-in pattern matches a text that contains an opening bracket. */
  lemma NoBracketInMatch(abc: Alphabet, kind: Kind, s: string, i: nat, e: nat)
    requires abc.Sound() && Matches(abc, RegexOf(abc, kind), s, i, e)
    ensures i <= e <= |s| && forall j :: i <= j < e ==> s[j] != '['
  {
    hide SsnBody, CardBody, PhoneUsBody, PhoneIntlRegex, EmailBody, IpBody, Matches;
    SsnNoBracket(abc);
    CardNoBracket(abc);
    PhoneUsNoBracket(abc);
    PhoneIntlNoBracket(abc);
    EmailNoBracket();
    IpNoBracket(abc);
    var body := match kind
      case Ssn => SsnBody(abc)
      case CreditCard => CardBody(abc)
      case PhoneUs => PhoneUsBody(abc)
      case Email => EmailBody()
      case _ => IpBody(abc);
    AnchoredWithin(body, NoBracket());
    MatchesInside(abc, RegexOf(abc, kind), s, i, e);
    MatchWithin(abc, RegexOf(abc, kind), NoBracket(), s, i, e);
  }
}
