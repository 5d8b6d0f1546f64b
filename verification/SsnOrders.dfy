/** Which orders of the built-in patterns leave no social security number in any text. The pattern
    for international phone numbers is the only one that is not anchored at word boundaries. */
module SsnOrders {
  import opened Characters
  import opened Redactor
  import opened Builtins
  import opened SsnGuard
  import opened Regex
  import RedactorLaws
  import SsnScrub
  import Luhn

  /** The redactor's patterns for a list of types. */
  function Patterns(abc: Alphabet, kinds: seq<Kind>): seq<Pattern> {
    seq(|kinds|, k requires 0 <= k < |kinds| => Builtin(abc, kinds[k]))
  }

  /** All passes, one after the other. */
  function ScrubKinds(abc: Alphabet, kinds: seq<Kind>, text: string): string {
    ScrubText(abc, Patterns(abc, kinds), text)
  }

  lemma ScrubLast(abc: Alphabet, kinds: seq<Kind>, kind: Kind, text: string)
    ensures ScrubKinds(abc, [], text) == text
    ensures ScrubKinds(abc, kinds + [kind], text) == Pass(abc, Builtin(abc, kind), ScrubKinds(abc, kinds, text))
  {
    hide Builtin, Pass;
    assert Patterns(abc, kinds + [kind])[..|kinds|] == Patterns(abc, kinds);
  }

  // ------------------------------------------------- international phone numbers

  ghost predicate HasIntl(abc: Alphabet, s: string) {
    exists i: nat, e: nat :: Matches(abc, PhoneIntlRegex(abc), s, i, e)
  }

  /** The characters that such a number is made of. */
  predicate IsIntlChar(abc: Alphabet, c: char) {
    c == '+' || c == '-' || abc.isDigit(c) || abc.isSpace(c)
  }

  function IntlChars(abc: Alphabet): char -> bool {
    c => IsIntlChar(abc, c)
  }

  lemma DigitsFacts(abc: Alphabet, low: nat, high: nat)
    requires low <= high
    ensures Plain(DigitsBetween(abc, low, high)) && Within(DigitsBetween(abc, low, high), IntlChars(abc))
  {
    hide Repeat;
    RepeatFacts(AnyDigit(abc), low, high, IntlChars(abc));
  }

  lemma GapFacts(abc: Alphabet)
    ensures Plain(Opt(Gap(abc))) && Within(Opt(Gap(abc)), IntlChars(abc))
    ensures Plain(Is('+')) && Within(Is('+'), IntlChars(abc)) && MinLength(Is('+')) == 1
    ensures Needs(Is('+'), c => c == '+')
  {
  }

  lemma IntlFacts(abc: Alphabet)
    ensures Plain(PhoneIntlRegex(abc)) && MinLength(PhoneIntlRegex(abc)) > 0
    ensures Within(PhoneIntlRegex(abc), IntlChars(abc))
    ensures Needs(PhoneIntlRegex(abc), c => c == '+')
  {
    var p, gap := IntlChars(abc), Opt(Gap(abc));
    var d3, d4, last := DigitsBetween(abc, 1, 3), DigitsBetween(abc, 1, 4), DigitsBetween(abc, 3, 4);
    var six := Cat(gap, last);
    var five := Cat(last, six);
    var four := Cat(gap, five);
    var three := Cat(d4, four);
    var two := Cat(gap, three);
    GapFacts(abc);
    hide Plain, Within, MinLength, DigitsBetween, Opt, Gap, Is;
    DigitsFacts(abc, 1, 3);
    DigitsFacts(abc, 1, 4);
    DigitsFacts(abc, 3, 4);
    CatFacts(gap, last, p);
    CatFacts(last, six, p);
    CatFacts(gap, five, p);
    CatFacts(d4, four, p);
    CatFacts(gap, three, p);
    CatFacts(d3, two, p);
    CatFacts(Is('+'), Cat(d3, two), p);
    NeedsLeft(Is('+'), Cat(d3, two));
  }

  lemma NeedsLeft(a: Regex, b: Regex)
    ensures Needs(a, c => c == '+') ==> Needs(Cat(a, b), c => c == '+')
  {
  }

  lemma IntlInside(abc: Alphabet, s: string, i: nat, e: nat)
    requires Matches(abc, PhoneIntlRegex(abc), s, i, e)
    ensures i < e <= |s| && forall j :: i <= j < e ==> IsIntlChar(abc, s[j])
  {
    IntlFacts(abc);
    MatchWithin(abc, PhoneIntlRegex(abc), IntlChars(abc), s, i, e);
    MatchLength(abc, PhoneIntlRegex(abc), s, i, e);
  }

  lemma IntlSlice(abc: Alphabet, s: string, i: nat, t: string, j: nat, n: nat)
    requires i + n <= |s| && j + n <= |t| && s[i..i + n] == t[j..j + n]
    requires Matches(abc, PhoneIntlRegex(abc), s, i, i + n)
    ensures HasIntl(abc, t)
  {
    IntlFacts(abc);
    MatchLocal(abc, PhoneIntlRegex(abc), s, i, t, j, n);
  }

  lemma PieceOfIntl(abc: Alphabet, text: string, a: nat, b: nat)
    requires a <= b <= |text|
    ensures HasIntl(abc, text[a..b]) ==> HasIntl(abc, text)
  {
    hide PhoneIntlRegex;
    if i: nat, e: nat :| Matches(abc, PhoneIntlRegex(abc), text[a..b], i, e) {
      MatchesInside(abc, PhoneIntlRegex(abc), text[a..b], i, e);
      SliceOfSlice(text, a, b, i, e);
      IntlSlice(abc, text[a..b], i, text, a + i, e - i);
    }
  }

  lemma IntlFence(abc: Alphabet, x: string, y: string)
    requires abc.Sound() && ((y != "" && y[0] == '[') || (x != "" && x[|x| - 1] == ']'))
    ensures HasIntl(abc, x + y) ==> HasIntl(abc, x) || HasIntl(abc, y)
  {
    hide PhoneIntlRegex;
    var s := x + y;
    if i: nat, e: nat :| Matches(abc, PhoneIntlRegex(abc), s, i, e) {
      IntlInside(abc, s, i, e);
      IntlNotAcross(abc, x, y, i, e);
      if e <= |x| {
        assert s[i..e] == x[i..e];
        IntlSlice(abc, s, i, x, i, e - i);
      } else {
        assert s[i..e] == y[i - |x|..e - |x|];
        IntlSlice(abc, s, i, y, i - |x|, e - i);
      }
    }
  }

  lemma IntlNotAcross(abc: Alphabet, x: string, y: string, i: nat, e: nat)
    requires abc.Sound() && ((y != "" && y[0] == '[') || (x != "" && x[|x| - 1] == ']'))
    requires i < e <= |x + y| && forall j :: i <= j < e ==> IsIntlChar(abc, (x + y)[j])
    ensures e <= |x| || i >= |x|
  {
    assert !abc.isDigit('[') && !abc.isSpace('[') && !abc.isDigit(']') && !abc.isSpace(']');
    BracketBeside(abc, x, y, i, e);
  }

  lemma NoPlusNoIntl(abc: Alphabet, s: string)
    requires '+' !in s
    ensures !HasIntl(abc, s)
  {
    hide PhoneIntlRegex;
    if i: nat, e: nat :| Matches(abc, PhoneIntlRegex(abc), s, i, e) {
      IntlFacts(abc);
      var j := MatchNeeds(abc, PhoneIntlRegex(abc), c => c == '+', s, i, e);
    }
  }

  /** No pass for a built-in pattern brings one about ... */
  lemma {:induction false} CutKeepsIntlOut(abc: Alphabet, text: string, from: nat, spans: seq<Span>, tag: string)
    requires abc.Sound() && from <= |text| && Placed(text, from, spans) && !HasIntl(abc, text)
    requires tag != "" && tag[0] == '[' && tag[|tag| - 1] == ']' && '+' !in tag
    ensures !HasIntl(abc, Cut(text, from, spans, tag))
    decreases |spans|
  {
    hide HasIntl;
    if spans == [] {
      assert text[from..] == text[from..|text|];
      PieceOfIntl(abc, text, from, |text|);
    } else {
      var first, rest := text[from..spans[0].start], Cut(text, spans[0].end, spans[1..], tag);
      PieceOfIntl(abc, text, from, spans[0].start);
      CutKeepsIntlOut(abc, text, spans[0].end, spans[1..], tag);
      NoPlusNoIntl(abc, tag);
      IntlFence(abc, first, tag + rest);
      IntlFence(abc, tag, rest);
    }
  }

  lemma PassIsCut(abc: Alphabet, p: Pattern, text: string)
    ensures Placed(text, 0, ReplacedBy(abc, p, text))
    ensures Pass(abc, p, text) == Cut(text, 0, ReplacedBy(abc, p, text), Tag(p.name))
  {
    PlacedInside(text, 0, p.find(text));
    SubstituteIsCut(abc, p.name, text, 0, p.find(text));
  }

  lemma PassKeepsIntlOut(abc: Alphabet, kind: Kind, text: string)
    requires abc.Sound() && !HasIntl(abc, text)
    ensures !HasIntl(abc, Pass(abc, Builtin(abc, kind), text))
  {
    hide HasIntl, Pass, ReplacedBy, RegexOf;
    PassIsCut(abc, Builtin(abc, kind), text);
    TagIsFenced(NameOf(kind));
    TagIsPlain(kind);
    CutKeepsIntlOut(abc, text, 0, ReplacedBy(abc, Builtin(abc, kind), text), Tag(NameOf(kind)));
  }

  /** ... and its own pass leaves none. */
  lemma {:induction false} CutAtAllIntl(abc: Alphabet, text: string, from: nat, tag: string)
    requires abc.Sound() && from <= |text| && Placed(text, from, FindFrom(abc, PhoneIntlRegex(abc), text, from))
    requires tag != "" && tag[0] == '[' && tag[|tag| - 1] == ']' && '+' !in tag
    ensures !HasIntl(abc, Cut(text, from, FindFrom(abc, PhoneIntlRegex(abc), text, from), tag))
    decreases |text| - from
  {
    hide HasIntl, PhoneIntlRegex;
    var r := PhoneIntlRegex(abc);
    var spans := FindFrom(abc, r, text, from);
    IntlFacts(abc);
    var stop := if spans == [] then |text| else spans[0].start;
    NoIntlBefore(abc, text, from, stop);
    if spans == [] {
      assert text[from..] == text[from..|text|];
    } else {
      FoundNext(abc, r, text, from);
      var first, rest := text[from..stop], Cut(text, spans[0].end, spans[1..], tag);
      CutAtAllIntl(abc, text, spans[0].end, tag);
      NoPlusNoIntl(abc, tag);
      IntlFence(abc, first, tag + rest);
      IntlFence(abc, tag, rest);
    }
  }

  lemma {:induction false} FoundNext(abc: Alphabet, r: Regex, s: string, i: nat)
    requires i <= |s| && FindFrom(abc, r, s, i) != []
    ensures var spans := FindFrom(abc, r, s, i);
      i <= spans[0].start < spans[0].end <= |s| && spans[1..] == FindFrom(abc, r, s, spans[0].end)
    decreases |s| - i
  {
    var ends := Ends(abc, r, s, i);
    if !(ends != [] && ends[0] > i) && i < |s| {
      FoundNext(abc, r, s, i + 1);
    }
  }

  lemma NoIntlBefore(abc: Alphabet, text: string, from: nat, stop: nat)
    requires from <= stop <= |text| && stop < FirstStart(text, FindFrom(abc, PhoneIntlRegex(abc), text, from)) + 1
    ensures !HasIntl(abc, text[from..stop])
  {
    hide PhoneIntlRegex, FindFrom, FirstStart, Matches, MinLength, Plain, Within, Needs;
    var r, piece := PhoneIntlRegex(abc), text[from..stop];
    IntlFacts(abc);
    if i: nat, e: nat :| Matches(abc, r, piece, i, e) {
      IntlInside(abc, piece, i, e);
      SliceOfSlice(text, from, stop, i, e);
      MatchLocal(abc, r, piece, i, text, from + i, e - i);
      NoneBefore(abc, r, text, from, from + i, from + e);
    }
  }

  lemma {:induction false} AllReplaced(abc: Alphabet, name: string, text: string, spans: seq<Span>)
    requires name != "credit_card"
    requires forall k :: 0 <= k < |spans| ==> spans[k].start <= spans[k].end <= |text|
    ensures Replaced(abc, name, text, spans) == spans
  {
    if spans != [] {
      AllReplaced(abc, name, text, spans[1..]);
      assert spans == [spans[0]] + spans[1..];
    }
  }

  lemma IntlPassLeavesNone(abc: Alphabet, text: string)
    requires abc.Sound()
    ensures !HasIntl(abc, Pass(abc, Builtin(abc, PhoneIntl), text))
  {
    hide HasIntl, Pass, Cut;
    var p := Builtin(abc, PhoneIntl);
    PlacedInside(text, 0, p.find(text));
    AllReplaced(abc, p.name, text, p.find(text));
    PassIsCut(abc, p, text);
    TagIsFenced(p.name);
    TagIsPlain(PhoneIntl);
    CutAtAllIntl(abc, text, 0, Tag(p.name));
  }

  lemma NothingToReplace(abc: Alphabet, p: Pattern, text: string)
    requires ReplacedBy(abc, p, text) == []
    ensures Pass(abc, p, text) == text
  {
    PassIsCut(abc, p, text);
    assert text[0..] == text;
  }

  lemma IdleWithoutIntl(abc: Alphabet, text: string)
    requires !HasIntl(abc, text)
    ensures Pass(abc, Builtin(abc, PhoneIntl), text) == text
  {
    NothingFound(abc, PhoneIntlRegex(abc), text, 0);
    NothingToReplace(abc, Builtin(abc, PhoneIntl), text);
  }

  // ------------------------------------------------------- orders that are safe

  /** Some pass for social security numbers has no pass for international phone numbers after
      it, or has one before it already. */
  predicate SafeOrder(kinds: seq<Kind>) {
    exists m :: 0 <= m < |kinds| && kinds[m] == Ssn && (PhoneIntl in kinds[m..] ==> PhoneIntl in kinds[..m])
  }

  lemma {:induction false} IntlStaysOut(abc: Alphabet, kinds: seq<Kind>, text: string)
    requires abc.Sound() && PhoneIntl in kinds
    ensures !HasIntl(abc, ScrubKinds(abc, kinds, text))
  {
    hide HasIntl, ScrubKinds;
    var init, kind := kinds[..|kinds| - 1], kinds[|kinds| - 1];
    assert kinds == init + [kind];
    ScrubLast(abc, init, kind, text);
    if PhoneIntl in init {
      IntlStaysOut(abc, init, text);
      PassKeepsIntlOut(abc, kind, ScrubKinds(abc, init, text));
    } else {
      IntlPassLeavesNone(abc, ScrubKinds(abc, init, text));
    }
  }

  lemma {:induction false} SafeFrom(abc: Alphabet, kinds: seq<Kind>, m: nat, text: string)
    requires abc.Sound() && m < |kinds| && kinds[m] == Ssn
    requires PhoneIntl in kinds[m..] ==> PhoneIntl in kinds[..m]
    ensures !HasSsn(abc, ScrubKinds(abc, kinds, text))
  {
    hide HasSsn, HasIntl, ScrubKinds, Respects;
    var n := |kinds| - 1;
    var init, kind := kinds[..n], kinds[n];
    assert kinds == init + [kind];
    var before := ScrubKinds(abc, init, text);
    ScrubLast(abc, init, kind, text);
    if m == n {
      SsnIsBuiltin(abc);
      RedactorLaws.SsnPass(abc, Builtin(abc, Ssn), before);
      ScrubHasNone(abc, before);
    } else {
      assert init[..m] == kinds[..m] && kinds[m..] == init[m..] + [kind];
      SafeFrom(abc, init, m, text);
      if kind == PhoneIntl {
        assert PhoneIntl in init[..m];
        IntlStaysOut(abc, init, text);
        IdleWithoutIntl(abc, before);
      } else {
        AnchoredRespects(abc, kind);
        RespectfulKeeps(abc, Builtin(abc, kind), before);
      }
    }
  }
}
