/** PII detector (detectors/pii.py): one finding per pattern that occurs, card numbers only
    if they pass the Luhn check. */
module PiiDetector {
  import opened Common
  import opened Characters
  import opened Redactor
  import Builtins
  import Regex
  import Luhn

  datatype Direction = Ingress | Egress | Checkpoint | OtherDirection

  datatype Compiled = Compiled(pattern: Pattern, severity: Severity)

  datatype Config = Config(
    enabled: bool,
    scanIngress: bool,
    scanEgress: bool,
    scanCheckpoints: bool,
    patterns: seq<Compiled>,
    abc: Alphabet)

  /** A finding with the number of matches and the first of them. */
  datatype Finding = Finding(name: string, severity: Severity, count: nat, first: string)

  predicate Watches(cfg: Config, direction: Direction) {
    && cfg.enabled
    && (direction == Ingress ==> cfg.scanIngress)
    && (direction == Egress ==> cfg.scanEgress)
    && (direction == Checkpoint ==> cfg.scanCheckpoints)
  }

  /** The matches that count. */
  function Matches(abc: Alphabet, name: string, text: string, spans: seq<Span>): seq<string>
    requires forall k :: 0 <= k < |spans| ==> spans[k].start <= spans[k].end <= |text|
  {
    if spans == [] then []
    else
      var found := text[spans[0].start..spans[0].end];
      (if Replaces(abc, name, found) then [found] else []) + Matches(abc, name, text, spans[1..])
  }

  function MatchesOf(abc: Alphabet, p: Pattern, text: string): seq<string> {
    PlacedInside(text, 0, p.find(text));
    Matches(abc, p.name, text, p.find(text))
  }

  function FindingsOf(cfg: Config, patterns: seq<Compiled>, text: string): seq<Finding> {
    if patterns == [] then []
    else
      var c := patterns[|patterns| - 1];
      var matches := MatchesOf(cfg.abc, c.pattern, text);
      FindingsOf(cfg, patterns[..|patterns| - 1], text)
      + if matches == [] then [] else [Finding(c.pattern.name, c.severity, |matches|, matches[0])]
  }

  /** The finding for a pattern that counts a match tells how many it counts, and the first. */
  lemma {:induction false} FindingIff(cfg: Config, patterns: seq<Compiled>, text: string, f: Finding)
    ensures f in FindingsOf(cfg, patterns, text) <==>
      exists k :: 0 <= k < |patterns| && f.name == patterns[k].pattern.name && f.severity == patterns[k].severity
        && var matches := MatchesOf(cfg.abc, patterns[k].pattern, text);
           f.count == |matches| > 0 && f.first == matches[0]
  {
    hide MatchesOf;
    if patterns != [] {
      var n := |patterns| - 1;
      FindingIff(cfg, patterns[..n], text, f);
      assert forall k :: 0 <= k < n ==> patterns[..n][k] == patterns[k];
      FindingsStep(cfg, patterns, text);
    }
  }

  lemma FindingsStep(cfg: Config, patterns: seq<Compiled>, text: string)
    requires patterns != []
    ensures var c := patterns[|patterns| - 1];
      var matches := MatchesOf(cfg.abc, c.pattern, text);
      FindingsOf(cfg, patterns, text) == FindingsOf(cfg, patterns[..|patterns| - 1], text)
        + if matches == [] then [] else [Finding(c.pattern.name, c.severity, |matches|, matches[0])]
  {
    hide MatchesOf;
  }

  class PiiDetector {
    const cfg: Config

    constructor (cfg: Config)
      ensures this.cfg == cfg
    {
      this.cfg := cfg;
    }

    method Scan(text: string, direction: Direction) returns (results: seq<Finding>)
      ensures results == if Watches(cfg, direction) then FindingsOf(cfg, cfg.patterns, text) else []
      ensures !cfg.enabled ==> results == []
      ensures cfg.enabled && direction == OtherDirection ==> results == FindingsOf(cfg, cfg.patterns, text)
      ensures cfg.enabled && direction == Ingress ==>
        results == if cfg.scanIngress then FindingsOf(cfg, cfg.patterns, text) else []
      ensures cfg.enabled && direction == Egress ==>
        results == if cfg.scanEgress then FindingsOf(cfg, cfg.patterns, text) else []
      ensures cfg.enabled && direction == Checkpoint ==>
        results == if cfg.scanCheckpoints then FindingsOf(cfg, cfg.patterns, text) else []
    {
      results := [];
      if !Watches(cfg, direction) {
        return;
      }
      for i := 0 to |cfg.patterns|
        invariant results == FindingsOf(cfg, cfg.patterns[..i], text)
      {
        var c := cfg.patterns[i];
        assert cfg.patterns[..i + 1][..i] == cfg.patterns[..i];
        var matches := FindAll(c.pattern, text);
        if matches != [] {
          results := results + [Finding(c.pattern.name, c.severity, |matches|, matches[0])];
        }
      }
      assert cfg.patterns[..|cfg.patterns|] == cfg.patterns;
    }

    method FindAll(p: Pattern, text: string) returns (matches: seq<string>)
      ensures matches == MatchesOf(cfg.abc, p, text)
    {
      hide Replaces, Matches;
      var spans := p.find(text);
      PlacedInside(text, 0, spans);
      matches := [];
      MatchesNone(cfg.abc, p.name, text);
      for i := 0 to |spans|
        invariant matches == Matches(cfg.abc, p.name, text, spans[..i])
      {
        var found := text[spans[i].start..spans[i].end];
        MatchesStep(cfg.abc, p.name, text, spans[..i], spans[i]);
        assert spans[..i + 1] == spans[..i] + [spans[i]];
        var counts := true;
        if p.name == "credit_card" {
          counts := Luhn.Check(cfg.abc, found);
        }
        assert counts == Replaces(cfg.abc, p.name, found) by { CardRule(cfg.abc, p.name, found); }
        if counts {
          matches := matches + [found];
        }
      }
      assert spans[..|spans|] == spans;
    }
  }

  lemma MatchesNone(abc: Alphabet, name: string, text: string)
    ensures Matches(abc, name, text, []) == []
  {
  }

  lemma {:induction false} MatchesStep(abc: Alphabet, name: string, text: string, spans: seq<Span>, s: Span)
    requires forall k :: 0 <= k < |spans| ==> spans[k].start <= spans[k].end <= |text|
    requires s.start <= s.end <= |text|
    ensures Matches(abc, name, text, spans + [s])
         == if Replaces(abc, name, text[s.start..s.end]) then Matches(abc, name, text, spans) + [text[s.start..s.end]]
            else Matches(abc, name, text, spans)
  {
    hide Replaces, Matches;
    MatchesNone(abc, name, text);
    MatchesFirst(abc, name, text, spans + [s]);
    if spans == [] {
      assert (spans + [s])[1..] == [];
    } else {
      MatchesStep(abc, name, text, spans[1..], s);
      MatchesFirst(abc, name, text, spans);
      assert (spans + [s])[1..] == spans[1..] + [s];
    }
  }

  lemma CardRule(abc: Alphabet, name: string, found: string)
    ensures Replaces(abc, name, found) <==> (name == "credit_card" ==> Luhn.Valid(Luhn.Digits(abc, found)))
  {
  }

  // ---------------------------------------------- the detector and the redactor agree

  /** Where a match counts, the text does not already have the tag, unless that is the match. */
  predicate Telling(abc: Alphabet, name: string, text: string, spans: seq<Span>) {
    forall k :: 0 <= k < |spans| ==>
      && spans[k].start <= spans[k].end <= |text|
      && var found := text[spans[k].start..spans[k].end];
         Replaces(abc, name, found) && Tag(name) <= text[spans[k].start..] ==> found == Tag(name)
  }

  /** Then a pass changes a text iff some match that counts is not the tag itself. */
  lemma {:induction false} SubstituteChanges(abc: Alphabet, name: string, text: string, from: nat, spans: seq<Span>)
    requires from <= |text| && Placed(text, from, spans) && Telling(abc, name, text, spans)
    ensures Substitute(abc, name, text, from, spans) == text[from..]
       <==> forall m :: m in Matches(abc, name, text, spans) ==> m == Tag(name)
    decreases |spans|
  {
    hide Replaces, Tag;
    if spans != [] {
      hide Substitute, Matches, Telling;
      var s, rest := spans[0], Substitute(abc, name, text, spans[0].end, spans[1..]);
      var before, found := text[from..s.start], text[s.start..s.end];
      TellingFirst(abc, name, text, spans);
      SubstituteChanges(abc, name, text, s.end, spans[1..]);
      MatchesFirst(abc, name, text, spans);
      AllAre(found, Matches(abc, name, text, spans[1..]), Tag(name));
      SubstituteFirst(abc, name, text, from, spans);
      Cuts(text, from, s);
      if Replaces(abc, name, found) && found != Tag(name) {
        if before + Tag(name) + rest == before + text[s.start..] {
          InFront(before, Tag(name), rest, text[s.start..]);
        }
      } else {
        SameTail(before + found, rest, text[s.end..]);
      }
    }
  }

  lemma Cuts(text: string, from: nat, s: Span)
    requires from <= s.start <= s.end <= |text|
    ensures text[from..] == text[from..s.start] + text[s.start..]
    ensures text[from..] == text[from..s.start] + text[s.start..s.end] + text[s.end..]
  {
  }

  lemma SubstituteFirst(abc: Alphabet, name: string, text: string, from: nat, spans: seq<Span>)
    requires from <= |text| && Placed(text, from, spans) && spans != []
    ensures var s := spans[0];
      var found := text[s.start..s.end];
      Substitute(abc, name, text, from, spans)
      == text[from..s.start] + (if Replaces(abc, name, found) then Tag(name) else found)
         + Substitute(abc, name, text, s.end, spans[1..])
  {
    hide Replaces, Tag;
  }

  lemma TellingFirst(abc: Alphabet, name: string, text: string, spans: seq<Span>)
    requires Telling(abc, name, text, spans) && spans != []
    ensures Telling(abc, name, text, spans[1..])
    ensures forall k :: 0 <= k < |spans| ==> spans[k].start <= spans[k].end <= |text|
    ensures var found := text[spans[0].start..spans[0].end];
      Replaces(abc, name, found) && Tag(name) <= text[spans[0].start..] ==> found == Tag(name)
  {
    hide Replaces, Tag;
  }

  lemma MatchesFirst(abc: Alphabet, name: string, text: string, spans: seq<Span>)
    requires spans != [] && forall k :: 0 <= k < |spans| ==> spans[k].start <= spans[k].end <= |text|
    ensures var found, later := text[spans[0].start..spans[0].end], Matches(abc, name, text, spans[1..]);
      Matches(abc, name, text, spans) == if Replaces(abc, name, found) then [found] + later else later
  {
    hide Replaces;
  }

  lemma AllAre(first: string, later: seq<string>, tag: string)
    ensures (forall m :: m in [first] + later ==> m == tag) <==> first == tag && forall m :: m in later ==> m == tag
  {
    assert first in [first] + later;
    assert forall m :: m in later ==> m in [first] + later;
  }

  lemma InFront(before: string, tag: string, rest: string, after: string)
    requires before + tag + rest == before + after
    ensures tag <= after
  {
    assert (before + tag + rest)[|before|..] == tag + rest && (before + after)[|before|..] == after;
  }

  /** On such texts the detector and the redactor agree but for the tag itself: what is reported are
      the matches, and the text changes iff one of them is not the tag. */
  lemma ReportedIffRedacted(cfg: Config, p: Pattern, severity: Severity, text: string)
    requires Telling(cfg.abc, p.name, text, p.find(text))
    ensures FindingsOf(cfg, [Compiled(p, severity)], text) != [] <==> MatchesOf(cfg.abc, p, text) != []
    ensures Pass(cfg.abc, p, text) != text <==> exists m :: m in MatchesOf(cfg.abc, p, text) && m != Tag(p.name)
  {
    hide Tag, Replaces, Telling, Substitute, Matches;
    PlacedInside(text, 0, p.find(text));
    SubstituteChanges(cfg.abc, p.name, text, 0, p.find(text));
    assert text[0..] == text;
    assert [Compiled(p, severity)][..0] == [];
    assert MatchesOf(cfg.abc, p, text) == Matches(cfg.abc, p.name, text, p.find(text));
  }

  /** For the built-in patterns they agree without more ado: a type is reported iff its pass
      changes the text. */
  lemma BuiltinReportedIffRedacted(cfg: Config, kind: Builtins.Kind, severity: Severity, text: string)
    requires cfg.abc.Sound()
    ensures var p := Builtins.Builtin(cfg.abc, kind);
      FindingsOf(cfg, [Compiled(p, severity)], text) != [] <==> Pass(cfg.abc, p, text) != text
  {
    hide Tag, Replaces, FindingsOf, Pass, Matches, Builtins.RegexOf;
    var p := Builtins.Builtin(cfg.abc, kind);
    var spans := p.find(text);
    PlacedInside(text, 0, spans);
    Regex.FoundMatches(cfg.abc, Builtins.RegexOf(cfg.abc, kind), text, 0);
    forall k | 0 <= k < |spans|
      ensures text[spans[k].start..spans[k].end] != Tag(p.name) && !(Tag(p.name) <= text[spans[k].start..])
    {
      Builtins.NoBracketInMatch(cfg.abc, kind, text, spans[k].start, spans[k].end);
      Regex.FoundNotEmpty(cfg.abc, Builtins.RegexOf(cfg.abc, kind), text, 0, spans[k]);
      StartsWithBracket(p.name);
      assert text[spans[k].start..][0] == text[spans[k].start] == text[spans[k].start..spans[k].end][0];
    }
    ReportedIffRedacted(cfg, p, severity, text);
    MatchesAreFound(cfg.abc, p.name, text, spans);
    var matches := MatchesOf(cfg.abc, p, text);
    if matches != [] {
      assert matches[0] in matches && matches[0] != Tag(p.name);
    }
  }

  lemma StartsWithBracket(name: string)
    ensures Tag(name) != "" && Tag(name)[0] == '['
  {
  }

  lemma {:induction false} MatchesAreFound(abc: Alphabet, name: string, text: string, spans: seq<Span>)
    requires forall k :: 0 <= k < |spans| ==> spans[k].start <= spans[k].end <= |text|
    ensures forall m :: m in Matches(abc, name, text, spans) ==>
      exists k :: 0 <= k < |spans| && m == text[spans[k].start..spans[k].end]
  {
    hide Replaces;
    if spans != [] {
      MatchesAreFound(abc, name, text, spans[1..]);
      forall m | m in Matches(abc, name, text, spans)
        ensures exists k :: 0 <= k < |spans| && m == text[spans[k].start..spans[k].end]
      {
        if m in Matches(abc, name, text, spans[1..]) {
          var k :| 0 <= k < |spans[1..]| && m == text[spans[1..][k].start..spans[1..][k].end];
          assert spans[k + 1] == spans[1..][k];
        } else {
          assert m == text[spans[0].start..spans[0].end];
        }
      }
    }
  }

  /** Matches that are not the tag, on a text that has the tag where they begin, can give the
      same text back: two brackets for two tags, so to speak. */
  function Halves(text: string): seq<Span> {
    if text == Tag("c") + Tag("c") then [Span(0, 1), Span(1, |text|)] else []
  }

  function HalvesPattern(): Pattern {
    assert ProperFinder(Halves) by {
      forall text
        ensures Placed(text, 0, Halves(text))
      {
        if text == Tag("c") + Tag("c") {
          assert Halves(text)[1..] == [Span(1, |text|)] && [Span(1, |text|)][1..] == [];
        }
      }
    }
    Pattern("c", Halves)
  }

  lemma UnnoticedReplacement(abc: Alphabet)
    ensures var text := Tag("c") + Tag("c");
      && Pass(abc, HalvesPattern(), text) == text
      && MatchesOf(abc, HalvesPattern(), text) == ["[", text[1..]]
      && "[" != Tag("c") && text[1..] != Tag("c")
  {
    var tag := Tag("c");
    var text := tag + tag;
    assert tag[0] == '[' && |tag| == 12;
    hide Tag;
    var one, two := Span(0, 1), Span(1, |text|);
    assert Halves(text) == [one, two];
    assert [one, two][1..] == [two] && [two][1..] == [];
    assert text[0..1] == "[" && text[1..|text|] == text[1..] && text[0..0] == "" && text[1..1] == "";
    assert text[|text|..] == "";
    PlacedInside(text, 0, [one, two]);
    assert Substitute(abc, "c", text, |text|, []) == "";
    assert Substitute(abc, "c", text, 1, [two]) == tag;
    assert Matches(abc, "c", text, [two]) == [text[1..]] by { assert Matches(abc, "c", text, []) == []; }
    assert Matches(abc, "c", text, [one, two]) == ["[", text[1..]];
  }
}
