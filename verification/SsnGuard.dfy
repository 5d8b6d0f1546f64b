/** When later passes of the redactor bring back what the pass for social security numbers
    removed: a number that had no word boundary before it gets one from a tag. */
module SsnGuard {
  import opened Characters
  import opened PyObjects
  import opened Redactor
  import opened Builtins
  import opened SsnScrub
  import Regex
  import opened RedactorLaws

  ghost predicate HasSsn(abc: Alphabet, s: string) {
    exists k: nat :: MatchAt(abc, s, k)
  }

  // ---------------------------------------------------- a text cut into pieces

  /** The matches that a pass replaces. */
  function Replaced(abc: Alphabet, name: string, text: string, spans: seq<Span>): seq<Span>
    requires forall k :: 0 <= k < |spans| ==> spans[k].start <= spans[k].end <= |text|
  {
    if spans == [] then []
    else
      (if Replaces(abc, name, text[spans[0].start..spans[0].end]) then [spans[0]] else [])
      + Replaced(abc, name, text, spans[1..])
  }

  /** The text from `from` on with every span replaced by the tag. */
  function Cut(text: string, from: nat, spans: seq<Span>, tag: string): string
    requires from <= |text| && Placed(text, from, spans)
    decreases |spans|
  {
    if spans == [] then text[from..]
    else text[from..spans[0].start] + (tag + Cut(text, spans[0].end, spans[1..], tag))
  }

  /** What is left of the text between the spans. */
  function Pieces(text: string, from: nat, spans: seq<Span>): seq<string>
    requires from <= |text| && Placed(text, from, spans)
    decreases |spans|
  {
    if spans == [] then [text[from..]]
    else [text[from..spans[0].start]] + Pieces(text, spans[0].end, spans[1..])
  }

  /** A stretch in front of all spans can be split off. */
  lemma CutLater(text: string, from: nat, middle: nat, spans: seq<Span>, tag: string)
    requires from <= middle <= |text| && Placed(text, middle, spans)
    ensures Placed(text, from, spans)
    ensures Cut(text, from, spans, tag) == text[from..middle] + Cut(text, middle, spans, tag)
  {
    if spans == [] {
      assert text[from..] == text[from..middle] + text[middle..];
    } else {
      var s := spans[0];
      assert text[from..s.start] == text[from..middle] + text[middle..s.start];
      Associate(text[from..middle], text[middle..s.start], tag + Cut(text, s.end, spans[1..], tag));
    }
  }

  lemma Associate(a: string, b: string, c: string)
    ensures (a + b) + c == a + (b + c)
  {
  }

  lemma SubstituteStep(abc: Alphabet, name: string, text: string, from: nat, spans: seq<Span>)
    requires from <= |text| && Placed(text, from, spans) && spans != []
    ensures var s := spans[0];
      var found := text[s.start..s.end];
      Substitute(abc, name, text, from, spans)
      == text[from..s.start]
         + ((if Replaces(abc, name, found) then Tag(name) else found) + Substitute(abc, name, text, s.end, spans[1..]))
  {
    hide Replaces, Tag;
    var s := spans[0];
    var found := text[s.start..s.end];
    Associate(text[from..s.start], if Replaces(abc, name, found) then Tag(name) else found,
              Substitute(abc, name, text, s.end, spans[1..]));
  }

  /** A pass cuts the text at the matches that it replaces. */
  lemma {:induction false} SubstituteIsCut(abc: Alphabet, name: string, text: string, from: nat, spans: seq<Span>)
    requires from <= |text| && Placed(text, from, spans)
    requires forall k :: 0 <= k < |spans| ==> spans[k].start <= spans[k].end <= |text|
    ensures Placed(text, from, Replaced(abc, name, text, spans))
    ensures Substitute(abc, name, text, from, spans) == Cut(text, from, Replaced(abc, name, text, spans), Tag(name))
    decreases |spans|
  {
    hide Replaces, Tag, Cut;
    if spans == [] {
      CutNothing(text, from, Tag(name));
    } else {
      hide Substitute;
      var s, rest := spans[0], Replaced(abc, name, text, spans[1..]);
      var found := text[s.start..s.end];
      SubstituteIsCut(abc, name, text, s.end, spans[1..]);
      SubstituteStep(abc, name, text, from, spans);
      if Replaces(abc, name, found) {
        CutFirst(text, from, s, rest, Tag(name));
        assert Replaced(abc, name, text, spans) == [s] + rest;
      } else {
        CutLater(text, from, s.end, rest, Tag(name));
        assert Replaced(abc, name, text, spans) == rest;
        assert text[from..s.end] == text[from..s.start] + found;
        Associate(text[from..s.start], found, Cut(text, s.end, rest, Tag(name)));
      }
    }
  }

  lemma CutNothing(text: string, from: nat, tag: string)
    requires from <= |text|
    ensures Cut(text, from, [], tag) == text[from..]
  {
  }

  lemma CutFirst(text: string, from: nat, s: Span, rest: seq<Span>, tag: string)
    requires from <= s.start <= s.end <= |text| && Placed(text, s.end, rest)
    ensures Placed(text, from, [s] + rest)
    ensures Cut(text, from, [s] + rest, tag) == text[from..s.start] + (tag + Cut(text, s.end, rest, tag))
  {
    assert ([s] + rest)[1..] == rest;
  }

  // ------------------------------------------------ when a pass reveals a number

  /** No number reaches across a bracket. */
  lemma Fence(abc: Alphabet, x: string, y: string)
    requires abc.Sound() && ((y != "" && y[0] == '[') || (x != "" && x[|x| - 1] == ']'))
    ensures HasSsn(abc, x + y) <==> HasSsn(abc, x) || HasSsn(abc, y)
  {
    hide MatchAt;
    if k: nat :| MatchAt(abc, x + y, k) {
      Beside(abc, x, y, k);
    }
    if k: nat :| MatchAt(abc, x, k) {
      MatchFits(abc, x, k);
      LeftOf(abc, x, y, k);
    }
    if k: nat :| MatchAt(abc, y, k) {
      RightOf(abc, x, y, k);
    }
  }

  lemma LeftOf(abc: Alphabet, x: string, y: string, k: nat)
    requires abc.Sound() && ((y != "" && y[0] == '[') || (x != "" && x[|x| - 1] == ']'))
    requires k + 11 <= |x|
    ensures MatchAt(abc, x + y, k) <==> MatchAt(abc, x, k)
  {
    hide CoreAt;
    MatchParts(abc, x, k);
    MatchParts(abc, x + y, k);
    assert (x + y)[k..k + 11] == x[k..k + 11];
    CoreOfWindow(abc, x, k);
    CoreOfWindow(abc, x + y, k);
    if CoreAt(abc, x, k) {
      CoreShape(abc, x, k);
    }
  }

  lemma RightOf(abc: Alphabet, x: string, y: string, k: nat)
    requires abc.Sound() && ((y != "" && y[0] == '[') || (x != "" && x[|x| - 1] == ']'))
    ensures MatchAt(abc, x + y, |x| + k) <==> MatchAt(abc, y, k)
  {
    hide CoreAt;
    MatchParts(abc, y, k);
    MatchParts(abc, x + y, |x| + k);
    if k + 11 <= |y| {
      assert (x + y)[|x| + k..|x| + k + 11] == y[k..k + 11];
      CoreOfWindow(abc, y, k);
      CoreOfWindow(abc, x + y, |x| + k);
      if CoreAt(abc, y, k) {
        CoreShape(abc, y, k);
      }
    } else {
      CoreFits(abc, y, k);
      CoreFits(abc, x + y, |x| + k);
    }
  }

  lemma CoreFits(abc: Alphabet, s: string, k: nat)
    ensures CoreAt(abc, s, k) ==> k + 11 <= |s|
  {
  }

  lemma Beside(abc: Alphabet, x: string, y: string, k: nat)
    requires abc.Sound() && ((y != "" && y[0] == '[') || (x != "" && x[|x| - 1] == ']'))
    requires MatchAt(abc, x + y, k)
    ensures HasSsn(abc, x) || HasSsn(abc, y)
  {
    hide CoreAt, MatchAt;
    MatchParts(abc, x + y, k);
    NotAcross(abc, x, y, k);
    if k + 11 <= |x| {
      LeftOf(abc, x, y, k);
    } else {
      RightOf(abc, x, y, k - |x|);
    }
  }

  lemma NotAcross(abc: Alphabet, x: string, y: string, k: nat)
    requires abc.Sound() && ((y != "" && y[0] == '[') || (x != "" && x[|x| - 1] == ']'))
    requires CoreAt(abc, x + y, k)
    ensures k + 11 <= |x| || k >= |x|
  {
    hide CoreAt;
    CoreShape(abc, x + y, k);
    BracketBeside(abc, x, y, k, k + 11);
  }

  /** A stretch without brackets lies on one side of the fence. */
  lemma BracketBeside(abc: Alphabet, x: string, y: string, i: nat, e: nat)
    requires (y != "" && y[0] == '[') || (x != "" && x[|x| - 1] == ']')
    requires i < e <= |x + y| && forall j :: i <= j < e ==> (x + y)[j] != '[' && (x + y)[j] != ']'
    ensures e <= |x| || i >= |x|
  {
    assert y != "" ==> (x + y)[|x|] == y[0];
    assert x != "" ==> (x + y)[|x| - 1] == x[|x| - 1];
  }

  /** The pieces hold a number, or the tag does. */
  ghost predicate Reveals(abc: Alphabet, pieces: seq<string>, tag: string) {
    (exists k :: 0 <= k < |pieces| && HasSsn(abc, pieces[k])) || (|pieces| > 1 && HasSsn(abc, tag))
  }

  lemma {:induction false} CutRevealsIff(abc: Alphabet, text: string, from: nat, spans: seq<Span>, name: string)
    requires abc.Sound() && from <= |text| && Placed(text, from, spans)
    ensures HasSsn(abc, Cut(text, from, spans, Tag(name))) <==> Reveals(abc, Pieces(text, from, spans), Tag(name))
    decreases |spans|
  {
    hide HasSsn, Tag;
    var tag, pieces := Tag(name), Pieces(text, from, spans);
    if spans == [] {
      assert pieces[0] == text[from..];
    } else {
      var s := spans[0];
      var first, rest := text[from..s.start], Cut(text, s.end, spans[1..], tag);
      var later := Pieces(text, s.end, spans[1..]);
      CutRevealsIff(abc, text, s.end, spans[1..], name);
      TagIsFenced(name);
      Fence(abc, first, tag + rest);
      Fence(abc, tag, rest);
      assert pieces == [first] + later;
      assert pieces[0] == first && forall k :: 0 <= k < |later| ==> pieces[k + 1] == later[k];
    }
  }

  lemma TagIsFenced(name: string)
    ensures Tag(name) != "" && Tag(name)[0] == '[' && Tag(name)[|Tag(name)| - 1] == ']'
  {
  }

  /** What a pass leaves of a text between the matches that it replaces. */
  function PiecesOf(abc: Alphabet, p: Pattern, text: string): seq<string> {
    PlacedInside(text, 0, p.find(text));
    SubstituteIsCut(abc, p.name, text, 0, p.find(text));
    Pieces(text, 0, Replaced(abc, p.name, text, p.find(text)))
  }

  /** After a pass there is a number iff one of the pieces, read on its own, is or holds one, or the
      tag does. */
  lemma PassRevealsIff(abc: Alphabet, p: Pattern, text: string)
    requires abc.Sound()
    ensures HasSsn(abc, Pass(abc, p, text)) <==> Reveals(abc, PiecesOf(abc, p, text), Tag(p.name))
  {
    PlacedInside(text, 0, p.find(text));
    SubstituteIsCut(abc, p.name, text, 0, p.find(text));
    CutRevealsIff(abc, text, 0, Replaced(abc, p.name, text, p.find(text)), p.name);
  }

  // ----------------------------------------------- passes that reveal nothing

  ghost predicate CutsAtBoundaries(abc: Alphabet, text: string, spans: seq<Span>) {
    forall k :: 0 <= k < |spans| ==>
      && spans[k].start <= |text| && spans[k].end <= |text|
      && Boundary(abc, text, spans[k].start) && Boundary(abc, text, spans[k].end)
  }

  predicate AtBoundary(abc: Alphabet, text: string, i: nat)
    requires i <= |text|
  {
    i == 0 || i == |text| || Boundary(abc, text, i)
  }

  lemma PieceInherits(abc: Alphabet, text: string, a: nat, b: nat)
    requires abc.Sound() && a <= b <= |text| && AtBoundary(abc, text, a) && AtBoundary(abc, text, b)
    ensures HasSsn(abc, text[a..b]) ==> HasSsn(abc, text)
  {
    hide CoreAt, MatchAt;
    var piece := text[a..b];
    if k: nat :| MatchAt(abc, piece, k) {
      MatchParts(abc, piece, k);
      CoreShape(abc, piece, k);
      SliceOfSlice(text, a, b, k, k + 11);
      CoreOfWindow(abc, piece, k);
      CoreOfWindow(abc, text, a + k);
      CoreShape(abc, text, a + k);
      MatchParts(abc, text, a + k);
    }
  }

  lemma SliceOfSlice(text: string, a: nat, b: nat, i: nat, e: nat)
    requires a <= b <= |text| && i <= e <= b - a
    ensures text[a..b][i..e] == text[a + i..a + e]
  {
    var l, r := text[a..b][i..e], text[a + i..a + e];
    assert forall j :: 0 <= j < e - i ==> l[j] == text[a..b][i + j] == text[a + i + j] == r[j];
  }

  lemma {:induction false} PiecesInherit(abc: Alphabet, text: string, from: nat, spans: seq<Span>)
    requires abc.Sound() && from <= |text| && Placed(text, from, spans)
    requires CutsAtBoundaries(abc, text, spans) && AtBoundary(abc, text, from)
    ensures (exists k :: 0 <= k < |Pieces(text, from, spans)| && HasSsn(abc, Pieces(text, from, spans)[k]))
      ==> HasSsn(abc, text)
    decreases |spans|
  {
    hide HasSsn;
    if spans == [] {
      assert text[from..] == text[from..|text|];
      PieceInherits(abc, text, from, |text|);
    } else {
      var first, later := text[from..spans[0].start], Pieces(text, spans[0].end, spans[1..]);
      PieceInherits(abc, text, from, spans[0].start);
      PiecesInherit(abc, text, spans[0].end, spans[1..]);
      assert Pieces(text, from, spans) == [first] + later;
      if k :| 0 <= k < |[first] + later| && HasSsn(abc, ([first] + later)[k]) {
        assert k > 0 ==> later[k - 1] == ([first] + later)[k];
      }
    }
  }

  /** Whatever the pass replaces begins and ends at a word boundary, and its tag is no number. */
  ghost predicate Respects(abc: Alphabet, p: Pattern) {
    && !HasSsn(abc, Tag(p.name))
    && forall text :: CutsAtBoundaries(abc, text, ReplacedBy(abc, p, text))
  }

  function ReplacedBy(abc: Alphabet, p: Pattern, text: string): seq<Span> {
    PlacedInside(text, 0, p.find(text));
    Replaced(abc, p.name, text, p.find(text))
  }

  /** Such a pass leaves a text without numbers free of them. */
  lemma RespectfulKeeps(abc: Alphabet, p: Pattern, text: string)
    requires abc.Sound() && Respects(abc, p) && !HasSsn(abc, text)
    ensures !HasSsn(abc, Pass(abc, p, text))
  {
    hide HasSsn, Tag, CutsAtBoundaries, Pass;
    PlacedInside(text, 0, p.find(text));
    SubstituteIsCut(abc, p.name, text, 0, p.find(text));
    assert CutsAtBoundaries(abc, text, ReplacedBy(abc, p, text));
    PiecesInherit(abc, text, 0, ReplacedBy(abc, p, text));
    PassRevealsIff(abc, p, text);
  }

  /** No number is left by a run of all passes over any text. */
  ghost predicate Clears(abc: Alphabet, patterns: seq<Pattern>) {
    forall text :: !HasSsn(abc, ScrubText(abc, patterns, text))
  }

  /** The pass for the numbers is there, and only passes come after it that reveal nothing. */
  ghost predicate Guarded(abc: Alphabet, patterns: seq<Pattern>) {
    exists m :: 0 <= m < |patterns| && IsSsnPattern(abc, patterns[m])
      && forall k :: m < k < |patterns| ==> Respects(abc, patterns[k])
  }

  lemma {:induction false} GuardedFrom(abc: Alphabet, patterns: seq<Pattern>, m: nat, text: string)
    requires abc.Sound() && m < |patterns| && IsSsnPattern(abc, patterns[m])
    requires forall k :: m < k < |patterns| ==> Respects(abc, patterns[k])
    ensures !HasSsn(abc, ScrubText(abc, patterns, text))
  {
    hide HasSsn, Respects, IsSsnPattern, Pass;
    var n := |patterns| - 1;
    var before := ScrubText(abc, patterns[..n], text);
    if m == n {
      SsnPass(abc, patterns[n], before);
      ScrubHasNone(abc, before);
    } else {
      GuardedFrom(abc, patterns[..n], m, text);
      RespectfulKeeps(abc, patterns[n], before);
    }
  }

  lemma ScrubHasNone(abc: Alphabet, text: string)
    requires abc.Sound()
    ensures !HasSsn(abc, Scrub(abc, text))
  {
    forall k: nat
      ensures !MatchAt(abc, Scrub(abc, text), k)
    {
      ScrubLeavesNone(abc, text, k);
    }
  }

  lemma GuardedClears(abc: Alphabet, patterns: seq<Pattern>)
    requires abc.Sound() && Guarded(abc, patterns)
    ensures Clears(abc, patterns)
  {
    hide Respects, HasSsn, IsSsnPattern;
    var m :| 0 <= m < |patterns| && IsSsnPattern(abc, patterns[m])
      && forall k :: m < k < |patterns| ==> Respects(abc, patterns[k]);
    forall text
      ensures !HasSsn(abc, ScrubText(abc, patterns, text))
    {
      GuardedFrom(abc, patterns, m, text);
    }
  }

  // ---------------------------------------------------------- what is forwarded

  lemma ClearedTimes(abc: Alphabet, patterns: seq<Pattern>, n: nat, text: string)
    requires Clears(abc, patterns) && n >= 1
    ensures !HasSsn(abc, ScrubTimes(abc, patterns, n, text))
  {
    hide HasSsn;
    assert !HasSsn(abc, ScrubText(abc, patterns, ScrubTimes(abc, patterns, n - 1, text)));
  }

  /** With such passes no scanned string of the copy contains a number, however often it is shared ... */
  lemma RewrittenHasNoSsn(cfg: Config, g: Graph, state: Dict, twin: map<Dict, Dict>, d: Dict, key: string)
    requires Clears(cfg.abc, cfg.patterns)
    requires state in g && Scanned(g, state, Slot(d, key)) && EntryRefs(g[d]) <= twin.Keys
    ensures var r := Rewritten(cfg, g, d, Visits(g, state), twin);
      key in r && r[key].Text? && !HasSsn(cfg.abc, r[key].text)
  {
    hide Visits, HasSsn, Clears;
    RewrittenKinds(cfg, g, d, Visits(g, state), twin);
    VisitedIffScanned(g, state, Slot(d, key));
    ClearedTimes(cfg.abc, cfg.patterns, Visits(g, state)[Slot(d, key)], g[d][key].text);
  }

  /** ... and if nothing was noted, none of the original contains one. */
  lemma UnnotedHasNoSsn(cfg: Config, g: Graph, state: Dict, slot: Slot)
    requires Clears(cfg.abc, cfg.patterns)
    requires state in g && Scanned(g, state, slot) && Notes(cfg, g, Visits(g, state), {})
    ensures !HasSsn(cfg.abc, TextIn(g, slot))
  {
    hide Visits, Notes, HasSsn, Clears;
    VisitedIffScanned(g, state, slot);
    UnnotedUnchanged(cfg, g, Visits(g, state), slot, Visits(g, state)[slot]);
    ClearedTimes(cfg.abc, cfg.patterns, Visits(g, state)[slot], TextIn(g, slot));
  }

  /** What `Evaluate` ensures thus keeps numbers from being forwarded: none is in the copy, and
      none is in the caller's state if that is forwarded because nothing was noted. */
  lemma NoSsnForwarded(cfg: Config, g: Graph, state: Dict, twin: map<Dict, Dict>, hits: set<string>, slot: Slot)
    requires Clears(cfg.abc, cfg.patterns) && state in g && state in twin && Scanned(g, state, slot)
    requires Following(cfg, g, twin, Visits(g, state)) && Notes(cfg, g, Visits(g, state), hits)
    ensures slot.dict in twin && HasText(Ref(twin[slot.dict]), slot.key)
    ensures !HasSsn(cfg.abc, twin[slot.dict].entries[slot.key].text)
    ensures hits == {} ==> !HasSsn(cfg.abc, TextIn(g, slot))
  {
    hide Visits, Notes, Scanned, HasSsn, Clears;
    ScannedIsText(g, state, slot);
    ScannedIsCopied(g, state, twin, slot);
    RewrittenHasNoSsn(cfg, g, state, twin, slot.dict, slot.key);
    if hits == {} {
      UnnotedHasNoSsn(cfg, g, state, slot);
    }
  }

  // ------------------------------------------------------ the built-in patterns

  lemma NameIsPlain(kind: Kind)
    ensures forall c :: c in NameOf(kind) ==> !IsAsciiDigit(c) && c != '+' && c as int < 128
  {
  }

  lemma TagIsPlain(kind: Kind)
    ensures forall c :: c in Tag(NameOf(kind)) ==> !IsAsciiDigit(c) && c != '+' && c as int < 128
  {
    hide NameOf;
    NameIsPlain(kind);
    assert forall c :: c in "[REDACTED:" ==> !IsAsciiDigit(c) && c != '+' && c as int < 128;
  }

  lemma SsnHasDigit(abc: Alphabet, s: string, k: nat)
    requires abc.Sound() && MatchAt(abc, s, k)
    ensures exists c :: c in s && abc.isDigit(c)
  {
    CoreShape(abc, s, k);
    assert s[k] in s;
  }

  lemma TagHasNoSsn(abc: Alphabet, kind: Kind)
    requires abc.Sound()
    ensures !HasSsn(abc, Tag(NameOf(kind)))
  {
    hide CoreAt, NameOf, Tag;
    var tag := Tag(NameOf(kind));
    TagIsPlain(kind);
    if k: nat :| MatchAt(abc, tag, k) {
      SsnHasDigit(abc, tag, k);
    }
  }

  lemma {:induction false} ReplacedAreFound(abc: Alphabet, name: string, text: string, spans: seq<Span>, x: Span)
    requires forall k :: 0 <= k < |spans| ==> spans[k].start <= spans[k].end <= |text|
    ensures x in Replaced(abc, name, text, spans)
       <==> x in spans && x.start <= x.end <= |text| && Replaces(abc, name, text[x.start..x.end])
  {
    hide Replaces;
    if spans != [] {
      ReplacedAreFound(abc, name, text, spans[1..], x);
      assert spans == [spans[0]] + spans[1..];
    }
  }

  /** All of them but international phone numbers are anchored at word boundaries, so they
      reveal nothing. */
  lemma AnchoredRespects(abc: Alphabet, kind: Kind)
    requires abc.Sound() && kind != PhoneIntl
    ensures Respects(abc, Builtin(abc, kind))
  {
    hide HasSsn, Replaced, RegexOf;
    var p := Builtin(abc, kind);
    TagHasNoSsn(abc, kind);
    forall text
      ensures CutsAtBoundaries(abc, text, ReplacedBy(abc, p, text))
    {
      var spans := ReplacedBy(abc, p, text);
      PlacedInside(text, 0, p.find(text));
      Regex.FoundMatches(abc, RegexOf(abc, kind), text, 0);
      forall k | 0 <= k < |spans|
        ensures spans[k].start <= |text| && spans[k].end <= |text|
        ensures Boundary(abc, text, spans[k].start) && Boundary(abc, text, spans[k].end)
      {
        ReplacedAreFound(abc, p.name, text, p.find(text), spans[k]);
        AnchoredEnds(abc, kind, text, spans[k].start, spans[k].end);
      }
    }
  }

  lemma AnchoredEnds(abc: Alphabet, kind: Kind, text: string, i: nat, e: nat)
    requires kind != PhoneIntl && Regex.Matches(abc, RegexOf(abc, kind), text, i, e)
    ensures i <= e <= |text| && Boundary(abc, text, i) && Boundary(abc, text, e)
  {
    var body := match kind
      case Ssn => SsnBody(abc)
      case CreditCard => CardBody(abc)
      case PhoneUs => PhoneUsBody(abc)
      case Email => EmailBody()
      case _ => IpBody(abc);
    hide SsnBody, CardBody, PhoneUsBody, EmailBody, IpBody;
    Regex.AnchoredMatch(abc, body, text, i, e);
  }
}
