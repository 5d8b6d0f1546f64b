/** What the redactor guarantees about a redacted state, and where its passes compose. */
module RedactorLaws {
  import opened Common
  import opened Decisions
  import opened Characters
  import opened PyObjects
  import opened Redactor
  import opened Builtins
  import SsnScrub
  import Names

  // ----------------------------------------------------------- the copied state

  /** No name noted means that no string changed: the copy is a plain deep copy. */
  lemma NoHitsPlainCopy(cfg: Config, g: Graph, twin: map<Dict, Dict>, done: multiset<Slot>, d: Dict)
    requires d in g && EntryRefs(g[d]) <= twin.Keys && Notes(cfg, g, done, {})
    ensures Rewritten(cfg, g, d, done, twin) == TranslateEntries(g[d], twin)
  {
    RewrittenKinds(cfg, g, d, done, twin);
    forall key | key in g[d] && g[d][key].Text?
      ensures Scrubbed(cfg, done[Slot(d, key)], g[d][key].text) == g[d][key].text
    {
      UnnotedUnchanged(cfg, g, done, Slot(d, key), done[Slot(d, key)]);
    }
  }

  lemma {:induction false} UnnotedUnchanged(cfg: Config, g: Graph, done: multiset<Slot>, slot: Slot, n: nat)
    requires Notes(cfg, g, done, {}) && HoldsText(g, slot) && n <= done[slot]
    ensures Scrubbed(cfg, n, TextIn(g, slot)) == TextIn(g, slot)
  {
    if n > 0 {
      UnnotedUnchanged(cfg, g, done, slot, n - 1);
      var found := Hits(cfg.abc, cfg.patterns, Scrubbed(cfg, n - 1, TextIn(g, slot)));
      forall hit
        ensures hit !in found
      {
        assert !Noted(cfg, g, done, hit);
        assert slot in done && n - 1 < done[slot];
      }
      assert found == {};
      NoHitNoChange(cfg.abc, cfg.patterns, TextIn(g, slot));
    }
  }

  /** The strings that the documentation says are scanned: message contents, the text of
      content parts, and the state's own string fields. */
  ghost predicate Scanned(g: Graph, state: Dict, slot: Slot)
    requires state in g
  {
    && HoldsText(g, slot)
    && (|| (slot.dict == state && slot.key != "messages")
        || ("messages" in g[state] && g[state]["messages"].List? && InMessages(g, g[state]["messages"].items, slot)))
  }

  ghost predicate InMessages(g: Graph, messages: seq<Value>, slot: Slot) {
    exists m :: m in messages && InMessage(g, m, slot)
  }

  predicate InMessage(g: Graph, m: Value, slot: Slot) {
    && m.Ref? && m.dict in g && "content" in g[m.dict]
    && match g[m.dict]["content"]
       case Text(_) => slot == Slot(m.dict, "content")
       case List(parts) => slot.key == "text" && Ref(slot.dict) in parts && HoldsText(g, slot)
       case _ => false
  }

  lemma {:induction false} PartsVisited(g: Graph, parts: seq<Value>, slot: Slot)
    ensures slot in PartsSlots(g, parts) <==> slot.key == "text" && Ref(slot.dict) in parts && HoldsText(g, slot)
  {
    if parts != [] {
      PartsVisited(g, parts[1..], slot);
      assert parts == [parts[0]] + parts[1..];
    }
  }

  lemma {:induction false} MessagesVisited(g: Graph, messages: seq<Value>, slot: Slot)
    ensures slot in MessagesSlots(g, messages) <==> InMessages(g, messages, slot)
  {
    if messages != [] {
      var m, rest := messages[0], messages[1..];
      MessagesVisited(g, rest, slot);
      assert messages == [m] + rest;
      if m.Ref? && m.dict in g && "content" in g[m.dict] && g[m.dict]["content"].List? {
        PartsVisited(g, g[m.dict]["content"].items, slot);
      }
      assert slot in MessageSlots(g, m) <==> InMessage(g, m, slot);
      if slot in MessagesSlots(g, rest) {
        var x :| x in rest && InMessage(g, x, slot);
        assert x in messages;
      }
    }
  }

  lemma {:induction false} MessagesHoldText(g: Graph, messages: seq<Value>, slot: Slot)
    requires InMessages(g, messages, slot)
    ensures HoldsText(g, slot)
  {
    var m :| m in messages && InMessage(g, m, slot);
  }

  /** The walk visits exactly the scanned strings. */
  lemma VisitedIffScanned(g: Graph, state: Dict, slot: Slot)
    requires state in g
    ensures Visits(g, state)[slot] > 0 <==> Scanned(g, state, slot)
  {
    if "messages" in g[state] && g[state]["messages"].List? {
      var messages := g[state]["messages"].items;
      MessagesVisited(g, messages, slot);
      if InMessages(g, messages, slot) {
        MessagesHoldText(g, messages, slot);
      }
      assert slot in ContentVisits(g, state) <==> slot in MessagesSlots(g, messages);
    }
    assert slot in multiset(FieldSlots(g, state, g[state].Keys)) <==> slot in FieldSlots(g, state, g[state].Keys);
  }

  /** Each scanned string of the copy is the result of one run of all passes per visit, and
      everything else is as it was. One run it is, whatever the patterns are, iff the string is
      visited once. */
  lemma ScannedOnceIff(cfg: Config, g: Graph, state: Dict, twin: map<Dict, Dict>, d: Dict, key: string)
    requires state in g && d in g && EntryRefs(g[d]) <= twin.Keys && key in g[d]
    ensures var r, visits := Rewritten(cfg, g, d, Visits(g, state), twin), Visits(g, state)[Slot(d, key)];
      && r.Keys == g[d].Keys && Refs(g[d][key]) <= twin.Keys
      && r[key] == if Scanned(g, state, Slot(d, key)) then Text(Scrubbed(cfg, visits, g[d][key].text))
                   else Translate(g[d][key], twin)
    ensures Scanned(g, state, Slot(d, key)) ==>
      (AlwaysOneRun(cfg, g, state, twin, d, key) <==> Visits(g, state)[Slot(d, key)] == 1)
  {
    hide Visits, Scanned, Scrubbed, ScrubText, Rewritten;
    RewrittenKinds(cfg, g, d, Visits(g, state), twin);
    VisitedIffScanned(g, state, Slot(d, key));
    ScannedIsText(g, state, Slot(d, key));
    NoRun(cfg, g[d][key]);
    if Scanned(g, state, Slot(d, key)) {
      var visits, text := Visits(g, state)[Slot(d, key)], g[d][key].text;
      forall patterns
        ensures OneRun(cfg, g, state, twin, d, key, patterns)
           <==> Scrubbed(cfg.(patterns := patterns), visits, text) == ScrubText(cfg.abc, patterns, text)
      {
        RewrittenKinds(cfg.(patterns := patterns), g, d, Visits(g, state), twin);
      }
      OneRunIff(cfg, visits, text);
    }
  }

  /** With these patterns, the copied string is what one run of all passes makes of the original. */
  ghost predicate OneRun(cfg: Config, g: Graph, state: Dict, twin: map<Dict, Dict>, d: Dict, key: string,
                         patterns: seq<Pattern>)
    requires state in g && d in g && EntryRefs(g[d]) <= twin.Keys && HoldsText(g, Slot(d, key))
  {
    Rewritten(cfg.(patterns := patterns), g, d, Visits(g, state), twin)[key]
    == Text(ScrubText(cfg.abc, patterns, g[d][key].text))
  }

  ghost predicate AlwaysOneRun(cfg: Config, g: Graph, state: Dict, twin: map<Dict, Dict>, d: Dict, key: string)
    requires state in g && d in g && EntryRefs(g[d]) <= twin.Keys && HoldsText(g, Slot(d, key))
  {
    forall patterns :: OneRun(cfg, g, state, twin, d, key, patterns)
  }

  /** The pattern `^`, which matches the empty string at the beginning of every text. */
  function AtStart(text: string): seq<Span> {
    [Span(0, 0)]
  }

  lemma StartIsProper()
    ensures ProperFinder(AtStart)
  {
    assert forall text :: AtStart(text)[1..] == [];
  }

  /** Each pass for that pattern puts one more tag in front. */
  lemma StartPass(abc: Alphabet, p: Pattern, text: string)
    requires p.name == "start" && p.find == AtStart
    ensures |ScrubText(abc, [p], text)| > |text|
  {
    OnePass(abc, p, text);
    assert [Span(0, 0)][1..] == [] && text[0..0] == "" && text[0..] == text;
    assert Substitute(abc, "start", text, 0, [Span(0, 0)]) == Tag("start") + text;
  }

  lemma {:induction false} StartGrows(abc: Alphabet, p: Pattern, n: nat, text: string)
    requires p.name == "start" && p.find == AtStart && n >= 2
    ensures |ScrubTimes(abc, [p], n, text)| > |ScrubTimes(abc, [p], 1, text)|
  {
    hide ScrubText;
    StartPass(abc, p, ScrubTimes(abc, [p], n - 1, text));
    if n > 2 {
      StartGrows(abc, p, n - 1, text);
    }
  }

  lemma OneRunIff(cfg: Config, n: nat, text: string)
    requires n >= 1
    ensures
      (forall patterns :: Scrubbed(cfg.(patterns := patterns), n, text) == ScrubText(cfg.abc, patterns, text))
      <==> n == 1
  {
    if n == 1 {
      forall patterns
        ensures Scrubbed(cfg.(patterns := patterns), n, text) == ScrubText(cfg.abc, patterns, text)
      {
        assert ScrubTimes(cfg.abc, patterns, 0, text) == text;
      }
    } else {
      StartIsProper();
      var p := Pattern("start", AtStart);
      StartGrows(cfg.abc, p, n, text);
      assert ScrubTimes(cfg.abc, [p], 0, text) == text;
      assert Scrubbed(cfg.(patterns := [p]), n, text) != ScrubText(cfg.abc, [p], text);
    }
  }

  lemma ScannedIsText(g: Graph, state: Dict, slot: Slot)
    requires state in g
    ensures Scanned(g, state, slot) ==> HoldsText(g, slot)
  {
  }

  lemma NoRun(cfg: Config, v: Value)
    ensures v.Text? ==> Scrubbed(cfg, 0, v.text) == v.text
  {
  }

  lemma {:induction false} NoContentInParts(g: Graph, parts: seq<Value>, m: Dict)
    ensures multiset(PartsSlots(g, parts))[Slot(m, "content")] == 0
  {
    PartsVisited(g, parts, Slot(m, "content"));
  }

  lemma OncePerMessage(g: Graph, message: Value, m: Dict)
    requires HoldsText(g, Slot(m, "content"))
    ensures multiset(MessageSlots(g, message))[Slot(m, "content")] == if message == Ref(m) then 1 else 0
  {
    if message.Ref? && message.dict in g && "content" in g[message.dict] && g[message.dict]["content"].List? {
      NoContentInParts(g, g[message.dict]["content"].items, m);
    }
  }

  lemma {:induction false} OncePerOccurrence(g: Graph, messages: seq<Value>, m: Dict)
    requires HoldsText(g, Slot(m, "content"))
    ensures multiset(MessagesSlots(g, messages))[Slot(m, "content")] == multiset(messages)[Ref(m)]
  {
    hide MessageSlots;
    if messages != [] {
      var first, rest := messages[0], messages[1..];
      OncePerOccurrence(g, rest, m);
      OncePerMessage(g, first, m);
      assert messages == [first] + rest;
      assert MessagesSlots(g, messages) == MessageSlots(g, first) + MessagesSlots(g, rest);
    }
  }

  /** The deep copy keeps sharing, so a message that the list holds several times is scrubbed
      that many times, and once more if it is the state itself. */
  lemma SharedMessageVisits(g: Graph, state: Dict, m: Dict)
    requires state in g && "messages" in g[state] && g[state]["messages"].List?
    requires HoldsText(g, Slot(m, "content"))
    ensures Visits(g, state)[Slot(m, "content")]
         == multiset(g[state]["messages"].items)[Ref(m)] + if m == state then 1 else 0
  {
    OncePerOccurrence(g, g[state]["messages"].items, m);
    assert multiset(FieldSlots(g, state, g[state].Keys))[Slot(m, "content")]
        == if Slot(m, "content") in FieldSlots(g, state, g[state].Keys) then 1 else 0;
  }

  /** What a decision tells: it is neutral iff nothing was noted; every name noted is a trigger,
      and nothing else is, each once; a state goes with `redact` and with nothing else. */
  lemma OutcomeNamesHits(cfg: Config, hits: set<string>, copy: Dict)
    ensures var d := Outcome(cfg, hits, copy);
      && (d.action == Allow <==> hits == {}) && (d.action == Block <==> hits != {} && cfg.mode == BlockMode)
      && d.action != Throttle
      && d.modifiedState == (if d.action == Redact then Some(copy) else None)
      && (forall name :: "pii_redactor." + name in d.triggeredBy <==> name in hits)
      && |d.triggeredBy| == |hits| == |Found(cfg, hits)| && cfg.sorted(hits) == Names.Sorted(hits)
      && (forall f :: f in Found(cfg, hits) <==> f.rule in hits && f == Detection("pii_redactor", f.rule, High))
  {
    hide Outcome, Found;
    SortedHits(cfg, hits);
    FoundAre(cfg, hits);
    OutcomeKind(cfg, hits, copy);
    if hits != {} {
      OutcomeTriggers(cfg, hits, copy);
    }
  }

  lemma SortedHits(cfg: Config, hits: set<string>)
    ensures cfg.sorted(hits) == Names.Sorted(hits) && |cfg.sorted(hits)| == |hits|
    ensures forall name :: name in cfg.sorted(hits) <==> name in hits
  {
    var names := cfg.sorted(hits);
    Names.SortedIs(hits, names);
    assert |names| == |multiset(names)| == |multiset(hits)| == |hits|;
    assert forall name :: name in names <==> name in multiset(names);
  }

  predicate IsHit(names: seq<string>, f: Detection) {
    f.rule in names && f == Detection("pii_redactor", f.rule, High)
  }

  lemma FoundAre(cfg: Config, hits: set<string>)
    ensures |Found(cfg, hits)| == |cfg.sorted(hits)|
    ensures forall f :: f in Found(cfg, hits) <==> IsHit(cfg.sorted(hits), f)
  {
    var names, found := cfg.sorted(hits), Found(cfg, hits);
    forall f | IsHit(names, f)
      ensures f in found
    {
      var k :| 0 <= k < |names| && names[k] == f.rule;
      assert found[k] == f;
    }
  }

  lemma OutcomeKind(cfg: Config, hits: set<string>, copy: Dict)
    ensures var d := Outcome(cfg, hits, copy);
      && (d.action == Allow <==> hits == {}) && (d.action == Block <==> hits != {} && cfg.mode == BlockMode)
      && d.action != Throttle && (hits == {} ==> d.triggeredBy == [])
      && d.modifiedState == (if d.action == Redact then Some(copy) else None)
  {
  }

  lemma OutcomeTriggers(cfg: Config, hits: set<string>, copy: Dict)
    requires hits != {}
    ensures var triggers, names := Outcome(cfg, hits, copy).triggeredBy, cfg.sorted(hits);
      |triggers| == |names| && forall name :: "pii_redactor." + name in triggers <==> name in names
  {
    var triggers, names := Outcome(cfg, hits, copy).triggeredBy, cfg.sorted(hits);
    forall name
      ensures "pii_redactor." + name in triggers <==> name in names
    {
      if name in names {
        var k :| 0 <= k < |names| && names[k] == name;
        assert triggers[k] == "pii_redactor." + name;
      }
      if "pii_redactor." + name in triggers {
        var k :| 0 <= k < |triggers| && triggers[k] == "pii_redactor." + name;
        SameTail("pii_redactor.", names[k], name);
      }
    }
  }

  // ------------------------------------------------------ passes and their order

  lemma {:induction false} SubstituteIsSplice(abc: Alphabet, text: string, from: nat, places: seq<nat>)
    requires from <= |text| && SsnScrub.Apart(text, from, places)
    ensures Placed(text, from, Spans(places))
    ensures Substitute(abc, "ssn", text, from, Spans(places)) == SsnScrub.Splice(text, from, places)
    decreases |places|
  {
    hide Tag, Replaces;
    if places != [] {
      assert Spans(places)[1..] == Spans(places[1..]);
      SubstituteIsSplice(abc, text, places[0] + 11, places[1..]);
      SsnReplaced(abc, text[places[0]..places[0] + 11]);
    }
  }

  lemma SsnReplaced(abc: Alphabet, found: string)
    ensures Replaces(abc, "ssn", found) && Tag("ssn") == SsnScrub.TAG
  {
  }

  /** The redactor's pass for the built-in ssn pattern is the scrub of SsnScrub. */
  lemma SsnPass(abc: Alphabet, p: Pattern, text: string)
    requires abc.Sound() && IsSsnPattern(abc, p)
    ensures Pass(abc, p, text) == SsnScrub.Scrub(abc, text)
  {
    SsnScrub.ScrubReplacesAll(abc, text, 0);
    SubstituteIsSplice(abc, text, 0, SsnScrub.Matches(abc, text, 0));
  }

  lemma OnePass(abc: Alphabet, p: Pattern, text: string)
    ensures ScrubText(abc, [p], text) == Pass(abc, p, text)
  {
    assert [p][..0] == [];
  }

  lemma SsnTextTwice(abc: Alphabet, p: Pattern, text: string)
    requires abc.Sound() && IsSsnPattern(abc, p)
    ensures ScrubText(abc, [p], ScrubText(abc, [p], text)) == ScrubText(abc, [p], text)
  {
    hide SsnScrub.Scrub, Pass, ScrubText, IsSsnPattern;
    OnePass(abc, p, text);
    OnePass(abc, p, Pass(abc, p, text));
    SsnPass(abc, p, text);
    SsnPass(abc, p, Pass(abc, p, text));
    SsnScrub.ScrubTwice(abc, text);
  }

  /** With the ssn pattern alone, scrubbing a shared string several times does no harm. */
  lemma {:induction false} SsnScrubsStable(abc: Alphabet, p: Pattern, n: nat, text: string)
    requires abc.Sound() && IsSsnPattern(abc, p) && n >= 1
    ensures ScrubTimes(abc, [p], n, text) == ScrubText(abc, [p], text)
  {
    hide ScrubText, IsSsnPattern;
    if n == 1 {
      assert ScrubTimes(abc, [p], 0, text) == text;
    } else {
      SsnScrubsStable(abc, p, n - 1, text);
      SsnTextTwice(abc, p, text);
    }
  }

  /** A scanned string is in a dictionary that was copied. */
  lemma ScannedIsCopied(g: Graph, state: Dict, twin: map<Dict, Dict>, slot: Slot)
    requires state in g && state in twin && Scanned(g, state, slot)
    requires forall o :: o in twin ==> o in g && EntryRefs(g[o]) <= twin.Keys
    ensures slot.dict in twin
  {
    if slot.dict != state || slot.key == "messages" {
      var messages := g[state]["messages"].items;
      var m :| m in messages && InMessage(g, m, slot);
      InEntryRefs(g[state], "messages");
      InRefsOf(messages, m.dict);
      InEntryRefs(g[m.dict], "content");
      if g[m.dict]["content"].List? {
        InRefsOf(g[m.dict]["content"].items, slot.dict);
      }
    }
  }

  lemma {:induction false} InRefsOf(items: seq<Value>, d: Dict)
    requires Ref(d) in items
    ensures d in RefsOf(items)
  {
    if items[0] != Ref(d) {
      assert items == [items[0]] + items[1..];
      InRefsOf(items[1..], d);
    }
  }

  /** A custom pattern, `^x`. */
  function LeadingX(text: string): seq<Span> {
    if text != "" && text[0] == 'x' then [Span(0, 1)] else []
  }

  function XPattern(): Pattern {
    assert ProperFinder(LeadingX) by {
      assert forall text :: LeadingX(text) != [] ==> LeadingX(text)[1..] == [];
    }
    Pattern("c", LeadingX)
  }

  /** In general it does: a replacement by a later pass opens a word boundary, and a second
      run finds a number that the first had to leave alone. */
  lemma PassesNotIdempotent(abc: Alphabet, number: string)
    requires abc.Sound() && |number| == 11 && SsnScrub.CoreAt(abc, number, 0)
    ensures var patterns := [Builtin(abc, Ssn), XPattern()];
      var once := ScrubText(abc, patterns, "x" + number);
      && (exists j: nat :: SsnScrub.MatchAt(abc, once, j))
      && ScrubText(abc, patterns, once) == SsnScrub.Scrub(abc, once) != once
  {
    hide SsnScrub.MatchAt, SsnScrub.CoreAt, SsnScrub.Scrub, Pass, Tag, IsSsnPattern, ScrubText;
    var ssn, other := Builtin(abc, Ssn), XPattern();
    var text, once := "x" + number, Tag("c") + number;
    SsnIsBuiltin(abc);
    TwoPasses(abc, ssn, other, text);
    TwoPasses(abc, ssn, other, once);
    SsnPass(abc, ssn, text);
    SsnPass(abc, ssn, once);
    HiddenNumber(abc, number);
    SsnScrub.ScrubChangesIffMatch(abc, text);
    XReplaced(abc, number);
    RevealedNumber(abc, number);
    SsnScrub.ScrubChangesIffMatch(abc, once);
    XIdle(abc, number);
  }

  lemma XReplaced(abc: Alphabet, number: string)
    ensures Pass(abc, XPattern(), "x" + number) == Tag("c") + number
  {
    var text := "x" + number;
    assert text[0..0] == "" && text[1..] == number && [Span(0, 1)][1..] == [];
    assert Substitute(abc, "c", text, 1, []) == number;
  }

  lemma XIdle(abc: Alphabet, number: string)
    requires abc.Sound()
    ensures Pass(abc, XPattern(), SsnScrub.Scrub(abc, Tag("c") + number)) == SsnScrub.Scrub(abc, Tag("c") + number)
  {
    var once := Tag("c") + number;
    SsnScrub.ScrubStep(abc, once, 0);
    assert once[0] == '[' && !SsnScrub.MatchAt(abc, once, 0);
    assert LeadingX(SsnScrub.Scrub(abc, once)) == [];
  }

  /** A state that lists one message twice. */
  function TwiceListed(state: Dict, m: Dict, text: string): Graph {
    map[state := map["messages" := List([Ref(m), Ref(m)])], m := map["content" := Text(text)]]
  }

  lemma TwiceVisited(state: Dict, m: Dict, text: string)
    requires state != m
    ensures var g := TwiceListed(state, m, text);
      && state in g && m in g && Closed(g) && EntryRefs(g[m]) == {} && g[m] == map["content" := Text(text)]
      && Visits(g, state)[Slot(m, "content")] == 2
  {
    hide Visits;
    var g := TwiceListed(state, m, text);
    var items := [Ref(m), Ref(m)];
    assert items[1..] == [Ref(m)] && [Ref(m)][1..] == [];
    assert RefsOf([Ref(m)]) == {m} && RefsOf(items) == {m};
    SharedMessageVisits(g, state, m);
    assert multiset(items)[Ref(m)] == 2;
  }

  /** So a message that the list holds twice can come out different from what one run of all
      passes makes of it; here the single run would have left a number in the open. */
  lemma SharedMessageDiffers(cfg: Config, state: Dict, m: Dict, twin: map<Dict, Dict>, number: string)
    requires state != m && cfg.abc.Sound()
    requires |number| == 11 && SsnScrub.CoreAt(cfg.abc, number, 0)
    requires cfg.patterns == [Builtin(cfg.abc, Ssn), XPattern()]
    ensures var g, once := TwiceListed(state, m, "x" + number), ScrubText(cfg.abc, cfg.patterns, "x" + number);
      && state in g && m in g && EntryRefs(g[m]) <= twin.Keys
      && var r := Rewritten(cfg, g, m, Visits(g, state), twin);
         && "content" in r && r["content"] == Text(SsnScrub.Scrub(cfg.abc, once)) != Text(once)
  {
    hide Visits, ScrubText, SsnScrub.CoreAt, SsnScrub.Scrub, SsnScrub.MatchAt, TwiceListed, Builtin, XPattern,
         Rewritten, Scrubbed, EntryRefs, Closed;
    var text := "x" + number;
    TwiceVisited(state, m, text);
    PassesNotIdempotent(cfg.abc, number);
    RewrittenKinds(cfg, TwiceListed(state, m, text), m, Visits(TwiceListed(state, m, text), state), twin);
    TwoRuns(cfg, text);
  }

  lemma TwoRuns(cfg: Config, text: string)
    ensures var once := ScrubText(cfg.abc, cfg.patterns, text);
      Scrubbed(cfg, 2, text) == ScrubText(cfg.abc, cfg.patterns, once)
  {
    assert ScrubTimes(cfg.abc, cfg.patterns, 0, text) == text;
    assert ScrubTimes(cfg.abc, cfg.patterns, 1, text) == ScrubText(cfg.abc, cfg.patterns, text);
  }

  lemma TwoPasses(abc: Alphabet, p: Pattern, q: Pattern, text: string)
    ensures ScrubText(abc, [p, q], text) == Pass(abc, q, Pass(abc, p, text))
  {
    assert [p, q][..1] == [p];
    OnePass(abc, p, text);
  }

  lemma HiddenNumber(abc: Alphabet, number: string)
    requires abc.Sound() && |number| == 11
    ensures forall j: nat :: !SsnScrub.MatchAt(abc, "x" + number, j)
  {
    var text := "x" + number;
    forall j: nat
      ensures !SsnScrub.MatchAt(abc, text, j)
    {
      assert text[0] == 'x';
    }
  }

  lemma RevealedNumber(abc: Alphabet, number: string)
    requires abc.Sound() && |number| == 11 && SsnScrub.CoreAt(abc, number, 0)
    ensures exists j: nat :: SsnScrub.MatchAt(abc, Tag("c") + number, j)
  {
    var text, n := Tag("c") + number, |Tag("c")|;
    assert text[n..n + 11] == number && number[0..11] == number;
    SsnScrub.CoreOfWindow(abc, text, n);
    SsnScrub.CoreOfWindow(abc, number, 0);
    assert text[n - 1] == ']';
    assert text[n] == number[0] && text[n + 10] == number[10];
    assert SsnScrub.MatchAt(abc, text, n);
  }
}
