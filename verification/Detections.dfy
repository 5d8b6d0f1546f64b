/** When the detector reports the built-in types and the redactor replaces them, said of the
    text itself (detectors/pii.py, interventions/pii_redactor.py). */
module Detections {
  import opened Common
  import opened Characters
  import opened Redactor
  import opened Regex
  import opened Builtins
  import PiiDetector
  import opened Shapes
  import PhoneShapes
  import AddressShapes
  import SsnScrub
  import Luhn

  /** Something of this kind stands at `i` and ends at `e`. */
  ghost predicate ShapeAt(abc: Alphabet, kind: Kind, s: string, i: nat, e: nat) {
    match kind
    case Ssn => e == i + 11 && SsnScrub.MatchAt(abc, s, i)
    case CreditCard => CardAt(abc, s, i, e)
    case PhoneUs => PhoneShapes.PhoneUsAt(abc, s, i, e)
    case PhoneIntl => PhoneShapes.PhoneIntlAt(abc, s, i, e)
    case Email => AddressShapes.EmailAt(abc, s, i, e)
    case IpAddress => AddressShapes.IpAt(abc, s, i, e)
  }

  lemma MatchesIffShape(abc: Alphabet, kind: Kind, s: string, i: nat, e: nat)
    requires abc.Sound()
    ensures Matches(abc, RegexOf(abc, kind), s, i, e) <==> ShapeAt(abc, kind, s, i, e)
  {
    hide RegexOf, CardAt, PhoneShapes.PhoneUsAt, PhoneShapes.PhoneIntlAt, AddressShapes.EmailAt, AddressShapes.IpAt;
    hide SsnScrub.MatchAt;
    match kind {
      case Ssn => SsnMatches(abc, s, i, e);
      case CreditCard => CardMatches(abc, s, i, e);
      case PhoneUs => PhoneShapes.PhoneUsMatches(abc, s, i, e);
      case PhoneIntl => PhoneShapes.PhoneIntlMatches(abc, s, i, e);
      case Email => AddressShapes.EmailMatches(abc, s, i, e);
      case IpAddress => AddressShapes.IpMatches(abc, s, i, e);
    }
  }

  lemma SsnMatches(abc: Alphabet, s: string, i: nat, e: nat)
    ensures Matches(abc, RegexOf(abc, Ssn), s, i, e) <==> e == i + 11 && SsnScrub.MatchAt(abc, s, i)
  {
    hide RegexOf, Ends, SsnScrub.MatchAt;
    if i <= |s| {
      SsnEnds(abc, s, i);
    } else if SsnScrub.MatchAt(abc, s, i) {
      SsnScrub.MatchFits(abc, s, i);
    }
  }

  lemma ShapeLength(abc: Alphabet, kind: Kind)
    ensures MinLength(RegexOf(abc, kind)) > 0
  {
    hide Repeat, SsnArea, NotAllZero, PhoneUsNumber, Country, Opt, Name, Host, TopLevel, Octet;
    OneLong(abc);
    match kind {
      case Ssn => AnchoredLength(SsnBody(abc));
      case CreditCard =>
        RepeatFacts(CardItem(abc), 13, 19, IsSeparator);
        AnchoredLength(CardBody(abc));
      case PhoneUs => AnchoredLength(PhoneUsBody(abc));
      case PhoneIntl =>
      case Email => AnchoredLength(EmailBody());
      case IpAddress =>
        RepeatFacts(Cat(Octet(abc), Is('.')), 3, 3, IsSeparator);
        AnchoredLength(IpBody(abc));
    }
  }

  lemma OneLong(abc: Alphabet)
    ensures MinLength(CardItem(abc)) > 0 && MinLength(Is('.')) == 1 && MinLength(Is('-')) == 1
    ensures MinLength(Name()) == 1 && MinLength(PhoneUsNumber(abc)) > 0
  {
    assert MinLength(AnyDigit(abc)) == 1;
  }

  lemma AnchoredLength(body: Regex)
    ensures MinLength(Anchored(body)) == MinLength(body)
  {
    assert MinLength(Cat(body, Edge)) == MinLength(body);
  }

  /** One pattern gives one finding, with the number of its matches, or none. */
  lemma OneFinding(cfg: PiiDetector.Config, p: Pattern, severity: Severity, text: string)
    ensures var matches := PiiDetector.MatchesOf(cfg.abc, p, text);
      PiiDetector.FindingsOf(cfg, [PiiDetector.Compiled(p, severity)], text)
      == if matches == [] then [] else [PiiDetector.Finding(p.name, severity, |matches|, matches[0])]
  {
    hide PiiDetector.MatchesOf;
    var only := [PiiDetector.Compiled(p, severity)];
    assert only[..0] == [];
    assert PiiDetector.FindingsOf(cfg, [], text) == [];
  }

  /** A match counts if it is no card number or passes the Luhn check. */
  lemma {:induction false} CountsIff(abc: Alphabet, p: Pattern, text: string, spans: seq<Span>)
    requires forall k :: 0 <= k < |spans| ==> spans[k].start <= spans[k].end <= |text|
    ensures PiiDetector.Matches(abc, p.name, text, spans) != []
       <==> exists x :: x in spans && Replaces(abc, p.name, text[x.start..x.end])
  {
    hide Replaces;
    if spans != [] {
      CountsIff(abc, p, text, spans[1..]);
      assert forall x :: x in spans <==> x == spans[0] || x in spans[1..];
    }
  }

  /** A type is reported, and replaced, iff a match that counts is found. */
  lemma ReportedIffCounts(cfg: PiiDetector.Config, kind: Kind, severity: Severity, text: string)
    requires cfg.abc.Sound()
    ensures var p := Builtin(cfg.abc, kind);
      && (PiiDetector.FindingsOf(cfg, [PiiDetector.Compiled(p, severity)], text) != []
          <==> Pass(cfg.abc, p, text) != text)
      && (Pass(cfg.abc, p, text) != text
          <==> exists x :: x in p.find(text) && x.start <= x.end <= |text|
                 && Replaces(cfg.abc, p.name, text[x.start..x.end]))
  {
    hide Pass, Replaces, PiiDetector.FindingsOf, PiiDetector.Matches, RegexOf, FindFrom;
    var p := Builtin(cfg.abc, kind);
    PlacedInside(text, 0, p.find(text));
    PiiDetector.BuiltinReportedIffRedacted(cfg, kind, severity, text);
    OneFinding(cfg, p, severity, text);
    CountsIff(cfg.abc, p, text, p.find(text));
  }

  /** A type other than card numbers is reported, and replaced, iff something of its shape
      occurs in the text. */
  lemma ReportedIffOccurs(cfg: PiiDetector.Config, kind: Kind, severity: Severity, text: string)
    requires cfg.abc.Sound() && kind != CreditCard
    ensures var p := Builtin(cfg.abc, kind);
      && (PiiDetector.FindingsOf(cfg, [PiiDetector.Compiled(p, severity)], text) != []
          <==> Pass(cfg.abc, p, text) != text)
      && (Pass(cfg.abc, p, text) != text <==> exists i: nat, e: nat :: ShapeAt(cfg.abc, kind, text, i, e))
  {
    hide Pass, PiiDetector.FindingsOf, RegexOf, FindFrom, ShapeAt, MinLength, Matches;
    var p, r := Builtin(cfg.abc, kind), RegexOf(cfg.abc, kind);
    ReportedIffCounts(cfg, kind, severity, text);
    ShapeLength(cfg.abc, kind);
    FoundIff(cfg.abc, r, text, 0);
    PlacedInside(text, 0, p.find(text));
    if p.find(text) != [] {
      assert p.find(text)[0] in p.find(text);
    }
    forall i: nat, e: nat
      ensures Matches(cfg.abc, r, text, i, e) <==> ShapeAt(cfg.abc, kind, text, i, e)
    {
      MatchesIffShape(cfg.abc, kind, text, i, e);
    }
  }

  // ------------------------------------------------------------- card numbers

  /** A run of digits with no word character and no separator beside it; the rest of the text may
      hold anything. */
  predicate SetApart(abc: Alphabet, before: string, run: string, after: string) {
    && run != "" && (forall c :: c in run ==> abc.isDigit(c))
    && (before != "" ==> !abc.isWord(before[|before| - 1]) && !IsSeparator(before[|before| - 1]))
    && (after != "" ==> !abc.isWord(after[0]) && !IsSeparator(after[0]))
  }

  lemma ApartChars(abc: Alphabet, before: string, run: string, after: string)
    requires abc.Sound() && SetApart(abc, before, run, after)
    ensures var s, a, b := before + run + after, |before|, |before| + |run|;
      && (a > 0 ==> !abc.isWord(s[a - 1]) && !abc.isDigit(s[a - 1]) && !IsSeparator(s[a - 1]))
      && (b < |s| ==> !abc.isWord(s[b]) && !abc.isDigit(s[b]) && !IsSeparator(s[b]))
      && (forall j :: a <= j < b ==> abc.isDigit(s[j]) && abc.isWord(s[j]))
  {
    var s, a, b := before + run + after, |before|, |before| + |run|;
    assert a > 0 ==> s[a - 1] == before[a - 1];
    assert b < |s| ==> s[b] == after[0];
    assert forall j :: a <= j < b ==> s[j] == run[j - a];
  }

  /** No card number reaches across its edges, and one from its first digit on is the run. */
  lemma CardAtRun(abc: Alphabet, before: string, run: string, after: string)
    requires abc.Sound() && SetApart(abc, before, run, after)
    ensures var s, a, b := before + run + after, |before|, |before| + |run|;
      && (forall i: nat, e: nat :: i < a && CardAt(abc, s, i, e) ==> e <= a)
      && (forall e: nat :: CardAt(abc, s, a, e) ==> e == b)
      && (CardAt(abc, s, a, b) <==> 13 <= |run| <= 19)
  {
    hide CardAt, SetApart;
    var s, a, b := before + run + after, |before|, |before| + |run|;
    ApartChars(abc, before, run, after);
    forall i: nat, e: nat | i <= a && CardAt(abc, s, i, e)
      ensures i < a ==> e <= a
      ensures i == a ==> e == b
    {
      CardChars(abc, s, i, e);
      CardEdges(abc, s, i, e);
    }
    RunIsCard(abc, before, run, after);
  }

  lemma CardEdges(abc: Alphabet, s: string, i: nat, e: nat)
    requires CardAt(abc, s, i, e)
    ensures i <= e <= |s| && Boundary(abc, s, i) && Boundary(abc, s, e)
  {
  }

  lemma RunEdges(abc: Alphabet, before: string, run: string, after: string)
    requires abc.Sound() && SetApart(abc, before, run, after)
    ensures var s, a, b := before + run + after, |before|, |before| + |run|;
      Boundary(abc, s, a) && Boundary(abc, s, b) && SpacedDigits(abc, run) && Count(abc, run) == |run|
  {
    hide SpacedDigits, Count;
    RunSpaced(abc, run);
    hide SetApart;
    ApartChars(abc, before, run, after);
    RunNotEmpty(abc, before, run, after);
  }

  lemma RunIsCard(abc: Alphabet, before: string, run: string, after: string)
    requires abc.Sound() && SetApart(abc, before, run, after)
    ensures CardAt(abc, before + run + after, |before|, |before| + |run|) <==> 13 <= |run| <= 19
  {
    hide SpacedDigits, Count, SetApart, Boundary;
    RunEdges(abc, before, run, after);
    SliceOfRun(before, run, after);
  }

  /** Such a run is one of the matches iff it has 13 to 19 digits. */
  lemma RunFoundIff(abc: Alphabet, before: string, run: string, after: string)
    requires abc.Sound() && SetApart(abc, before, run, after)
    ensures Span(|before|, |before| + |run|) in Builtin(abc, CreditCard).find(before + run + after)
       <==> 13 <= |run| <= 19
  {
    hide RegexOf, CardAt, SetApart, FindFrom, Matches;
    var r, s, a, b := RegexOf(abc, CreditCard), before + run + after, |before|, |before| + |run|;
    CardAtRun(abc, before, run, after);
    forall i: nat, e: nat
      ensures Matches(abc, r, s, i, e) <==> CardAt(abc, s, i, e)
    {
      CardMatches(abc, s, i, e);
    }
    RunNotEmpty(abc, before, run, after);
    FindAcross(abc, r, s, 0, a, b);
  }

  lemma RunNotEmpty(abc: Alphabet, before: string, run: string, after: string)
    requires SetApart(abc, before, run, after)
    ensures run != ""
  {
  }

  /** With a valid number set apart a text is reported and changed, whatever else it holds. */
  lemma ValidRunReported(cfg: PiiDetector.Config, severity: Severity, before: string, run: string, after: string)
    requires cfg.abc.Sound() && SetApart(cfg.abc, before, run, after)
    requires 13 <= |run| <= 19 && Luhn.Valid(Luhn.Digits(cfg.abc, run))
    ensures var p, text := Builtin(cfg.abc, CreditCard), before + run + after;
      && PiiDetector.FindingsOf(cfg, [PiiDetector.Compiled(p, severity)], text) != []
      && Pass(cfg.abc, p, text) != text
  {
    hide Pass, PiiDetector.FindingsOf, RegexOf, FindFrom, SetApart, Luhn.Valid, Luhn.Digits;
    var p, text := Builtin(cfg.abc, CreditCard), before + run + after;
    var x := Span(|before|, |before| + |run|);
    RunFoundIff(cfg.abc, before, run, after);
    SliceOfRun(before, run, after);
    assert x in p.find(text) && text[x.start..x.end] == run;
    ReportedIffCounts(cfg, CreditCard, severity, text);
  }

  /** With one run of digits it is reported, and the run replaced, iff the number has 13 to 19 digits
      and passes the Luhn check. */
  lemma RunReportedIff(cfg: PiiDetector.Config, severity: Severity, before: string, run: string, after: string)
    requires cfg.abc.Sound() && StandsAlone(cfg.abc, before, run, after)
    ensures var p, text := Builtin(cfg.abc, CreditCard), before + run + after;
      var card := 13 <= |run| <= 19 && Luhn.Valid(Luhn.Digits(cfg.abc, run));
      && (PiiDetector.FindingsOf(cfg, [PiiDetector.Compiled(p, severity)], text) != [] <==> card)
      && Pass(cfg.abc, p, text) == before + (if card then "[REDACTED:credit_card]" else run) + after
  {
    hide Pass, PiiDetector.FindingsOf, StandsAlone, Luhn.Valid, Luhn.Digits, RegexOf;
    var p, text := Builtin(cfg.abc, CreditCard), before + run + after;
    CardRun(cfg.abc, before, run, after);
    PiiDetector.BuiltinReportedIffRedacted(cfg, CreditCard, severity, text);
    if 13 <= |run| <= 19 {
      assert |text| == |before| + |run| + |after| && |"[REDACTED:credit_card]"| == 22;
    }
  }
}
