/** Where the patterns for mail and network addresses match. */
module AddressShapes {
  import opened Characters
  import opened Redactor
  import opened Regex
  import opened Builtins
  import opened Shapes
  import PhoneShapes

  // ------------------------------------------------------------ mail addresses

  predicate IsLocalChar(c: char) {
    IsAsciiLetter(c) || IsAsciiDigit(c) || c == '.' || c == '_' || c == '%' || c == '+' || c == '-'
  }

  predicate IsHostChar(c: char) {
    IsAsciiLetter(c) || IsAsciiDigit(c) || c == '.' || c == '-'
  }

  /** A name, an at sign at `a`, a host, a dot at `d`, and at least two letters, between word
      boundaries. */
  ghost predicate EmailAt(abc: Alphabet, s: string, i: nat, e: nat) {
    && i <= e <= |s| && Boundary(abc, s, i) && Boundary(abc, s, e)
    && exists a: nat, d: nat :: NameAt(s, i, a) && HostAt(s, a, d) && EndAt(s, d, e)
  }

  predicate NameAt(s: string, i: nat, a: nat) {
    i < a < |s| && s[a] == '@' && forall j :: i <= j < a ==> IsLocalChar(s[j])
  }

  predicate HostAt(s: string, a: nat, d: nat) {
    a + 1 < d < |s| && s[d] == '.' && forall j :: a < j < d ==> IsHostChar(s[j])
  }

  predicate EndAt(s: string, d: nat, e: nat) {
    d + 3 <= e <= |s| && forall j :: d < j < e ==> IsAsciiLetter(s[j])
  }

  lemma NameMatches(abc: Alphabet, s: string, i: nat, a: nat)
    ensures Matches(abc, Cat(Name(), Is('@')), s, i, a + 1) <==> NameAt(s, i, a)
  {
    if Matches(abc, Cat(Name(), Is('@')), s, i, a + 1) {
      var m := SplitCat(abc, Name(), Is('@'), s, i, a + 1);
      NameChars(abc, s, i, m);
      PhoneShapes.MatchesIs(abc, '@', s, m, a + 1);
    }
    if NameAt(s, i, a) {
      NameChars(abc, s, i, a);
      PhoneShapes.MatchesIs(abc, '@', s, a, a + 1);
      JoinCat(abc, Name(), Is('@'), s, i, a, a + 1);
    }
  }

  lemma NameChars(abc: Alphabet, s: string, i: nat, a: nat)
    ensures Matches(abc, Name(), s, i, a) <==> i < a <= |s| && forall j :: i <= j < a ==> IsLocalChar(s[j])
  {
    assert forall c :: c in "._%+-" <==> c == '.' || c == '_' || c == '%' || c == '+' || c == '-';
    MatchesMany(abc, Name().accepts, s, i, a);
  }

  lemma HostChars(abc: Alphabet, s: string, i: nat, a: nat)
    ensures Matches(abc, Host(), s, i, a) <==> i < a <= |s| && forall j :: i <= j < a ==> IsHostChar(s[j])
  {
    assert forall c :: c in ".-" <==> c == '.' || c == '-';
    MatchesMany(abc, Host().accepts, s, i, a);
  }

  lemma EndMatches(abc: Alphabet, s: string, d: nat, e: nat)
    ensures Matches(abc, TopLevel(), s, d + 1, e) <==> EndAt(s, d, e)
  {
    hide Matches;
    var first, more := Char(IsAsciiLetter), Many(IsAsciiLetter);
    MatchesMany(abc, IsAsciiLetter, s, d + 2, e);
    MatchesChar(abc, IsAsciiLetter, s, d + 1, d + 2);
    if Matches(abc, TopLevel(), s, d + 1, e) {
      var m := SplitCat(abc, first, more, s, d + 1, e);
      MatchesChar(abc, IsAsciiLetter, s, d + 1, m);
    }
    if EndAt(s, d, e) {
      JoinCat(abc, first, more, s, d + 1, d + 2, e);
    }
  }

  lemma EmailBodyMatches(abc: Alphabet, s: string, i: nat, e: nat)
    ensures Matches(abc, EmailBody(), s, i, e)
       <==> exists a: nat, d: nat :: NameAt(s, i, a) && HostAt(s, a, d) && EndAt(s, d, e)
  {
    hide Matches, Name, Host, TopLevel, NameAt, EndAt;
    var rest2 := Cat(Is('.'), TopLevel());
    var rest1 := Cat(Host(), rest2);
    if Matches(abc, EmailBody(), s, i, e) {
      var a := SplitCat(abc, Name(), Cat(Is('@'), rest1), s, i, e);
      var a1 := SplitCat(abc, Is('@'), rest1, s, a, e);
      var d := SplitCat(abc, Host(), rest2, s, a1, e);
      var d1 := SplitCat(abc, Is('.'), TopLevel(), s, d, e);
      PhoneShapes.MatchesIs(abc, '@', s, a, a1);
      PhoneShapes.MatchesIs(abc, '.', s, d, d1);
      JoinCat(abc, Name(), Is('@'), s, i, a, a1);
      NameMatches(abc, s, i, a);
      HostChars(abc, s, a1, d);
      EndMatches(abc, s, d, e);
      assert NameAt(s, i, a) && HostAt(s, a, d) && EndAt(s, d, e);
    }
    if a: nat, d: nat :| NameAt(s, i, a) && HostAt(s, a, d) && EndAt(s, d, e) {
      EmailBack(abc, s, i, a, d, e);
    }
  }

  lemma EmailBack(abc: Alphabet, s: string, i: nat, a: nat, d: nat, e: nat)
    requires NameAt(s, i, a) && HostAt(s, a, d) && EndAt(s, d, e)
    ensures Matches(abc, EmailBody(), s, i, e)
  {
    hide Matches, Name, Host, TopLevel;
    var rest2 := Cat(Is('.'), TopLevel());
    var rest1 := Cat(Host(), rest2);
    NameChars(abc, s, i, a);
    PhoneShapes.MatchesIs(abc, '@', s, a, a + 1);
    HostChars(abc, s, a + 1, d);
    PhoneShapes.MatchesIs(abc, '.', s, d, d + 1);
    EndMatches(abc, s, d, e);
    JoinCat(abc, Is('.'), TopLevel(), s, d, d + 1, e);
    JoinCat(abc, Host(), rest2, s, a + 1, d, e);
    JoinCat(abc, Is('@'), rest1, s, a, a + 1, e);
    JoinCat(abc, Name(), Cat(Is('@'), rest1), s, i, a, e);
  }

  lemma EmailMatches(abc: Alphabet, s: string, i: nat, e: nat)
    ensures Matches(abc, RegexOf(abc, Email), s, i, e) <==> EmailAt(abc, s, i, e)
  {
    hide Matches, EmailBody, NameAt, HostAt, EndAt, Boundary;
    MatchesAnchored(abc, EmailBody(), s, i, e);
    EmailBodyMatches(abc, s, i, e);
  }

  // --------------------------------------------------------- network addresses

  /** One to three digits, and of three the first is not above two, or the rest not above 55. */
  predicate OctetAt(abc: Alphabet, s: string, i: nat, e: nat) {
    && i < e <= i + 3 && DigitsAt(abc, s, i, e)
    && (e == i + 3 ==>
          || s[i] == '0' || s[i] == '1'
          || (s[i] == '2' && ('0' <= s[i + 1] <= '4' || (s[i + 1] == '5' && '0' <= s[i + 2] <= '5'))))
  }

  /** Read as a decimal number it is not above 255. */
  lemma OctetValue(abc: Alphabet, s: string, i: nat, e: nat)
    requires abc.Sound() && i < e <= i + 3 && e <= |s| && forall j :: i <= j < e ==> IsAsciiDigit(s[j])
    ensures var value := (if e >= i + 3 then 100 * DigitOf(s[e - 3]) as int else 0)
                         + (if e >= i + 2 then 10 * DigitOf(s[e - 2]) as int else 0) + DigitOf(s[e - 1]) as int;
      OctetAt(abc, s, i, e) <==> value <= 255
  {
  }

  /** Four such numbers with dots between them, between word boundaries. */
  ghost predicate IpAt(abc: Alphabet, s: string, i: nat, e: nat) {
    && i <= e <= |s| && Boundary(abc, s, i) && Boundary(abc, s, e)
    && exists a: nat, b: nat, c: nat ::
         DottedAt(abc, s, i, a) && DottedAt(abc, s, a, b) && DottedAt(abc, s, b, c) && OctetAt(abc, s, c, e)
  }

  /** A number and a dot. */
  predicate DottedAt(abc: Alphabet, s: string, i: nat, e: nat) {
    i < e <= |s| && s[e - 1] == '.' && OctetAt(abc, s, i, e - 1)
  }

  lemma High(abc: Alphabet, s: string, i: nat, e: nat)
    ensures Matches(abc, Cat(Is('2'), Cat(Is('5'), Between('0', '5'))), s, i, e)
       <==> e == i + 3 && e <= |s| && s[i] == '2' && s[i + 1] == '5' && '0' <= s[i + 2] <= '5'
  {
    var tail := Cat(Is('5'), Between('0', '5'));
    if Matches(abc, Cat(Is('2'), tail), s, i, e) {
      var m := SplitCat(abc, Is('2'), tail, s, i, e);
      var n := SplitCat(abc, Is('5'), Between('0', '5'), s, m, e);
    }
    if e == i + 3 && e <= |s| && s[i] == '2' && s[i + 1] == '5' && '0' <= s[i + 2] <= '5' {
      JoinCat(abc, Is('5'), Between('0', '5'), s, i + 1, i + 2, e);
      JoinCat(abc, Is('2'), tail, s, i, i + 1, e);
    }
  }

  lemma Middle(abc: Alphabet, s: string, i: nat, e: nat)
    ensures Matches(abc, Cat(Is('2'), Cat(Between('0', '4'), AnyDigit(abc))), s, i, e)
       <==> e == i + 3 && e <= |s| && s[i] == '2' && '0' <= s[i + 1] <= '4' && abc.isDigit(s[i + 2])
  {
    var tail := Cat(Between('0', '4'), AnyDigit(abc));
    if Matches(abc, Cat(Is('2'), tail), s, i, e) {
      var m := SplitCat(abc, Is('2'), tail, s, i, e);
      var n := SplitCat(abc, Between('0', '4'), AnyDigit(abc), s, m, e);
    }
    if e == i + 3 && e <= |s| && s[i] == '2' && '0' <= s[i + 1] <= '4' && abc.isDigit(s[i + 2]) {
      JoinCat(abc, Between('0', '4'), AnyDigit(abc), s, i + 1, i + 2, e);
      JoinCat(abc, Is('2'), tail, s, i, i + 1, e);
    }
  }

  lemma Short(abc: Alphabet, s: string, i: nat, e: nat)
    ensures Matches(abc, Cat(Opt(AnyDigit(abc)), AnyDigit(abc)), s, i, e)
       <==> (e == i + 1 || e == i + 2) && DigitsAt(abc, s, i, e)
  {
    hide Matches;
    MatchesCat(abc, Opt(AnyDigit(abc)), AnyDigit(abc), s, i, e);
    if Matches(abc, Cat(Opt(AnyDigit(abc)), AnyDigit(abc)), s, i, e) {
      var m := SplitCat(abc, Opt(AnyDigit(abc)), AnyDigit(abc), s, i, e);
      MatchesChar(abc, abc.isDigit, s, i, m);
      MatchesChar(abc, abc.isDigit, s, m, e);
    }
    if (e == i + 1 || e == i + 2) && DigitsAt(abc, s, i, e) {
      MatchesChar(abc, abc.isDigit, s, i, e - 1);
      MatchesChar(abc, abc.isDigit, s, e - 1, e);
      JoinCat(abc, Opt(AnyDigit(abc)), AnyDigit(abc), s, i, e - 1, e);
    }
  }

  lemma Low(abc: Alphabet, s: string, i: nat, e: nat)
    requires abc.Sound()
    ensures Matches(abc, Cat(Opt(OneOf("01")), Cat(Opt(AnyDigit(abc)), AnyDigit(abc))), s, i, e)
       <==> i < e <= i + 3 && DigitsAt(abc, s, i, e) && (e == i + 3 ==> s[i] == '0' || s[i] == '1')
  {
    hide Matches;
    var tail := Cat(Opt(AnyDigit(abc)), AnyDigit(abc));
    assert forall c :: c in "01" <==> c == '0' || c == '1';
    if Matches(abc, Cat(Opt(OneOf("01")), tail), s, i, e) {
      var m := SplitCat(abc, Opt(OneOf("01")), tail, s, i, e);
      MatchesChar(abc, OneOf("01").accepts, s, i, m);
      Short(abc, s, m, e);
    }
    if i < e <= i + 3 && DigitsAt(abc, s, i, e) && (e == i + 3 ==> s[i] == '0' || s[i] == '1') {
      var m := if e == i + 3 then i + 1 else i;
      MatchesChar(abc, OneOf("01").accepts, s, i, m);
      Short(abc, s, m, e);
      JoinCat(abc, Opt(OneOf("01")), tail, s, i, m, e);
    }
  }

  lemma OctetMatches(abc: Alphabet, s: string, i: nat, e: nat)
    requires abc.Sound()
    ensures Matches(abc, Octet(abc), s, i, e) <==> OctetAt(abc, s, i, e)
  {
    hide Matches;
    var high := Cat(Is('2'), Cat(Is('5'), Between('0', '5')));
    var middle := Cat(Is('2'), Cat(Between('0', '4'), AnyDigit(abc)));
    var low := Cat(Opt(OneOf("01")), Cat(Opt(AnyDigit(abc)), AnyDigit(abc)));
    MatchesOr(abc, high, Or(middle, low), s, i, e);
    MatchesOr(abc, middle, low, s, i, e);
    High(abc, s, i, e);
    Middle(abc, s, i, e);
    Low(abc, s, i, e);
  }

  lemma DottedMatches(abc: Alphabet, s: string, i: nat, e: nat)
    requires abc.Sound()
    ensures Matches(abc, Cat(Octet(abc), Is('.')), s, i, e) <==> DottedAt(abc, s, i, e)
  {
    hide Matches, Octet, OctetAt;
    if Matches(abc, Cat(Octet(abc), Is('.')), s, i, e) {
      var m := SplitCat(abc, Octet(abc), Is('.'), s, i, e);
      OctetMatches(abc, s, i, m);
      PhoneShapes.MatchesIs(abc, '.', s, m, e);
    }
    if DottedAt(abc, s, i, e) {
      OctetMatches(abc, s, i, e - 1);
      PhoneShapes.MatchesIs(abc, '.', s, e - 1, e);
      JoinCat(abc, Octet(abc), Is('.'), s, i, e - 1, e);
    }
  }

  lemma ThreeTimes(r: Regex)
    ensures Repeat(r, 3, 3) == Cat(r, Cat(r, Cat(r, Empty)))
  {
    assert Repeat(r, 1, 1) == Cat(r, Repeat(r, 0, 0));
    assert Repeat(r, 2, 2) == Cat(r, Repeat(r, 1, 1));
  }

  lemma IpForth(abc: Alphabet, s: string, i: nat, e: nat)
    requires abc.Sound() && Matches(abc, IpBody(abc), s, i, e)
    ensures exists a: nat, b: nat, c: nat ::
      DottedAt(abc, s, i, a) && DottedAt(abc, s, a, b) && DottedAt(abc, s, b, c) && OctetAt(abc, s, c, e)
  {
    hide Matches, Repeat, Octet, DottedAt, OctetAt;
    var dotted := Cat(Octet(abc), Is('.'));
    ThreeTimes(dotted);
    var c := SplitCat(abc, Repeat(dotted, 3, 3), Octet(abc), s, i, e);
    var a := SplitCat(abc, dotted, Cat(dotted, Cat(dotted, Empty)), s, i, c);
    var b := SplitCat(abc, dotted, Cat(dotted, Empty), s, a, c);
    var c' := SplitCat(abc, dotted, Empty, s, b, c);
    EmptyMatch(abc, s, c', c);
    DottedMatches(abc, s, i, a);
    DottedMatches(abc, s, a, b);
    DottedMatches(abc, s, b, c);
    OctetMatches(abc, s, c, e);
  }

  lemma EmptyMatch(abc: Alphabet, s: string, i: nat, e: nat)
    ensures Matches(abc, Empty, s, i, e) <==> i == e <= |s|
  {
  }

  lemma IpBack(abc: Alphabet, s: string, i: nat, a: nat, b: nat, c: nat, e: nat)
    requires abc.Sound()
    requires DottedAt(abc, s, i, a) && DottedAt(abc, s, a, b) && DottedAt(abc, s, b, c) && OctetAt(abc, s, c, e)
    ensures Matches(abc, IpBody(abc), s, i, e)
  {
    hide Matches, Repeat, Octet, OctetAt;
    var dotted := Cat(Octet(abc), Is('.'));
    ThreeTimes(dotted);
    DottedMatches(abc, s, i, a);
    DottedMatches(abc, s, a, b);
    DottedMatches(abc, s, b, c);
    OctetMatches(abc, s, c, e);
    EmptyMatch(abc, s, c, c);
    JoinCat(abc, dotted, Empty, s, b, c, c);
    JoinCat(abc, dotted, Cat(dotted, Empty), s, a, b, c);
    JoinCat(abc, dotted, Cat(dotted, Cat(dotted, Empty)), s, i, a, c);
    JoinCat(abc, Repeat(dotted, 3, 3), Octet(abc), s, i, c, e);
  }

  lemma IpMatches(abc: Alphabet, s: string, i: nat, e: nat)
    requires abc.Sound()
    ensures Matches(abc, RegexOf(abc, IpAddress), s, i, e) <==> IpAt(abc, s, i, e)
  {
    hide Matches, IpBody, DottedAt, OctetAt, Boundary;
    MatchesAnchored(abc, IpBody(abc), s, i, e);
    if Matches(abc, IpBody(abc), s, i, e) {
      IpForth(abc, s, i, e);
    }
    if a: nat, b: nat, c: nat :|
      DottedAt(abc, s, i, a) && DottedAt(abc, s, a, b) && DottedAt(abc, s, b, c) && OctetAt(abc, s, c, e)
    {
      IpBack(abc, s, i, a, b, c, e);
    }
  }
}
