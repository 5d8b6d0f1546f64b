/** PII redactor (interventions/pii_redactor.py): substitution passes over strings, and the
    deep copy of the state that is rewritten in place. */
module Redactor {
  import opened Common
  import opened Decisions
  import opened Characters
  import opened Names
  import opened PyObjects
  import Luhn
  import SsnScrub

  // ------------------------------------------------------- passes over a text

  datatype Span = Span(start: nat, end: nat)

  /** Spans in order, inside the text, not overlapping. */
  predicate Placed(text: string, from: nat, spans: seq<Span>)
    decreases |spans|
  {
    spans != [] ==>
      from <= spans[0].start <= spans[0].end <= |text| && Placed(text, spans[0].end, spans[1..])
  }

  lemma {:induction false} PlacedInside(text: string, from: nat, spans: seq<Span>)
    requires Placed(text, from, spans)
    ensures forall k :: 0 <= k < |spans| ==> from <= spans[k].start <= spans[k].end <= |text|
    decreases |spans|
  {
    if spans != [] {
      PlacedInside(text, spans[0].end, spans[1..]);
      assert forall k :: 0 < k < |spans| ==> spans[k] == spans[1..][k - 1];
    }
  }

  ghost predicate ProperFinder(find: string -> seq<Span>) {
    forall text :: Placed(text, 0, find(text))
  }

  function NoSpans(text: string): seq<Span> {
    []
  }

  /** What a compiled pattern finds: the leftmost non-overlapping matches of each text. */
  type Finder = find: string -> seq<Span> | ProperFinder(find) witness NoSpans

  datatype Pattern = Pattern(name: string, find: Finder)

  function Tag(name: string): string {
    "[REDACTED:" + name + "]"
  }

  /** Card numbers are replaced only if they pass the Luhn check, all other matches always. */
  predicate Replaces(abc: Alphabet, name: string, match_: string) {
    name == "credit_card" ==> Luhn.Valid(Luhn.Digits(abc, match_))
  }

  function Substitute(abc: Alphabet, name: string, text: string, from: nat, spans: seq<Span>): string
    requires from <= |text| && Placed(text, from, spans)
    decreases |spans|
  {
    if spans == [] then text[from..]
    else
      var found := text[spans[0].start..spans[0].end];
      text[from..spans[0].start]
      + (if Replaces(abc, name, found) then Tag(name) else found)
      + Substitute(abc, name, text, spans[0].end, spans[1..])
  }

  function Pass(abc: Alphabet, p: Pattern, text: string): string {
    Substitute(abc, p.name, text, 0, p.find(text))
  }

  /** All passes, one after the other. */
  function ScrubText(abc: Alphabet, patterns: seq<Pattern>, text: string): string {
    if patterns == [] then text
    else Pass(abc, patterns[|patterns| - 1], ScrubText(abc, patterns[..|patterns| - 1], text))
  }

  /** The names of the passes that changed something. */
  function Hits(abc: Alphabet, patterns: seq<Pattern>, text: string): set<string> {
    if patterns == [] then {}
    else
      var p, before := patterns[|patterns| - 1], ScrubText(abc, patterns[..|patterns| - 1], text);
      Hits(abc, patterns[..|patterns| - 1], text) + if Pass(abc, p, before) != before then {p.name} else {}
  }

  /** The pass at `k` has this name, and changes what the passes before it left. */
  predicate HitAt(abc: Alphabet, patterns: seq<Pattern>, text: string, name: string, k: nat)
    requires k < |patterns|
  {
    && patterns[k].name == name
    && ScrubText(abc, patterns[..k + 1], text) != ScrubText(abc, patterns[..k], text)
  }

  /** A name is hit iff some pass of that name changes the text. */
  lemma {:induction false} HitsIff(abc: Alphabet, patterns: seq<Pattern>, text: string, name: string)
    ensures name in Hits(abc, patterns, text)
       <==> exists k :: 0 <= k < |patterns| && HitAt(abc, patterns, text, name, k)
  {
    if patterns != [] {
      var n := |patterns| - 1;
      var init := patterns[..n];
      HitsIff(abc, init, text, name);
      HitsStep(abc, patterns, text, name);
      hide Hits, HitAt;
      forall k | 0 <= k < n
        ensures HitAt(abc, patterns, text, name, k) <==> HitAt(abc, init, text, name, k)
      {
        HitEarlier(abc, patterns, text, name, k);
      }
    }
  }

  lemma HitsStep(abc: Alphabet, patterns: seq<Pattern>, text: string, name: string)
    requires patterns != []
    ensures var n := |patterns| - 1;
      name in Hits(abc, patterns, text)
      <==> name in Hits(abc, patterns[..n], text) || HitAt(abc, patterns, text, name, n)
  {
    hide Pass;
    assert patterns[..|patterns|] == patterns;
  }

  lemma HitEarlier(abc: Alphabet, patterns: seq<Pattern>, text: string, name: string, k: nat)
    requires k < |patterns| - 1
    ensures HitAt(abc, patterns, text, name, k) <==> HitAt(abc, patterns[..|patterns| - 1], text, name, k)
  {
    hide ScrubText;
    var init := patterns[..|patterns| - 1];
    assert init[..k] == patterns[..k] && init[..k + 1] == patterns[..k + 1];
  }

  lemma {:induction false} NoHitNoChange(abc: Alphabet, patterns: seq<Pattern>, text: string)
    requires Hits(abc, patterns, text) == {}
    ensures ScrubText(abc, patterns, text) == text
  {
    if patterns != [] {
      NoHitNoChange(abc, patterns[..|patterns| - 1], text);
    }
  }

  /** `n` scrubs of the same string. */
  function ScrubTimes(abc: Alphabet, patterns: seq<Pattern>, n: nat, text: string): string {
    if n == 0 then text else ScrubText(abc, patterns, ScrubTimes(abc, patterns, n - 1, text))
  }

  // --------------------------------------------- where the walk finds strings

  /** An entry of a dictionary. */
  datatype Slot = Slot(dict: Dict, key: string)

  predicate HoldsText(g: Graph, slot: Slot) {
    slot.dict in g && slot.key in g[slot.dict] && g[slot.dict][slot.key].Text?
  }

  function TextIn(g: Graph, slot: Slot): string
    requires HoldsText(g, slot)
  {
    g[slot.dict][slot.key].text
  }

  /** The `text` entry of a content part. */
  function PartSlots(g: Graph, part: Value): seq<Slot> {
    if part.Ref? && HoldsText(g, Slot(part.dict, "text")) then [Slot(part.dict, "text")] else []
  }

  function PartsSlots(g: Graph, parts: seq<Value>): seq<Slot> {
    if parts == [] then [] else PartSlots(g, parts[0]) + PartsSlots(g, parts[1..])
  }

  /** The `content` entry of a message, or the `text` entries of its parts. */
  function MessageSlots(g: Graph, message: Value): seq<Slot> {
    if message.Ref? && message.dict in g && "content" in g[message.dict] then
      match g[message.dict]["content"]
      case Text(_) => [Slot(message.dict, "content")]
      case List(parts) => PartsSlots(g, parts)
      case _ => []
    else []
  }

  function MessagesSlots(g: Graph, messages: seq<Value>): seq<Slot> {
    if messages == [] then [] else MessageSlots(g, messages[0]) + MessagesSlots(g, messages[1..])
  }

  /** The string entries of the state itself, `messages` excepted. */
  function FieldSlots(g: Graph, state: Dict, keys: set<string>): set<Slot> {
    set key | key in keys && key != "messages" && HoldsText(g, Slot(state, key)) :: Slot(state, key)
  }

  /** The visits to message contents. */
  function ContentVisits(g: Graph, state: Dict): multiset<Slot>
    requires state in g
  {
    if "messages" in g[state] && g[state]["messages"].List? then multiset(MessagesSlots(g, g[state]["messages"].items))
    else multiset{}
  }

  /** Every visit that the walk pays to an entry, with multiplicity: an object that the state
      holds twice is visited twice. */
  function Visits(g: Graph, state: Dict): multiset<Slot>
    requires state in g
  {
    ContentVisits(g, state) + multiset(FieldSlots(g, state, g[state].Keys))
  }

  // ------------------------------------------------- what the copy looks like

  datatype Mode = RedactMode | BlockMode

  /** Python's `sorted` of a set of names. */
  type Lister = sorted: set<string> -> seq<string> | ListsSorted(sorted) ghost witness SomeLister()

  ghost predicate ListsSorted(sorted: set<string> -> seq<string>) {
    forall names :: multiset(sorted(names)) == multiset(names) && Increasing(sorted(names))
  }

  ghost function SomeLister(): set<string> -> seq<string> {
    assert ListsSorted(Sorted);
    Sorted
  }

  datatype Config = Config(enabled: bool, mode: Mode, patterns: seq<Pattern>, abc: Alphabet, sorted: Lister)

  function Scrubbed(cfg: Config, n: nat, text: string): string {
    ScrubTimes(cfg.abc, cfg.patterns, n, text)
  }

  /** The entries of the copy of `d` after the visits `done`: strings scrubbed once per visit,
      everything else as copied. */
  function Rewritten(cfg: Config, g: Graph, d: Dict, done: multiset<Slot>, twin: map<Dict, Dict>): map<string, Value>
    requires d in g && EntryRefs(g[d]) <= twin.Keys
  {
    map key | key in g[d] ::
      match g[d][key]
      case Text(text) => Text(Scrubbed(cfg, done[Slot(d, key)], text))
      case v => InEntryRefs(g[d], key); Translate(v, twin)
  }

  /** Name `hit` was noted at one of the visits `done`. */
  ghost predicate Noted(cfg: Config, g: Graph, done: multiset<Slot>, hit: string) {
    exists slot, j: nat ::
      slot in done && j < done[slot] && HoldsText(g, slot)
      && hit in Hits(cfg.abc, cfg.patterns, Scrubbed(cfg, j, TextIn(g, slot)))
  }

  lemma RewrittenKinds(cfg: Config, g: Graph, d: Dict, done: multiset<Slot>, twin: map<Dict, Dict>)
    requires d in g && EntryRefs(g[d]) <= twin.Keys
    ensures var r := Rewritten(cfg, g, d, done, twin);
      && r.Keys == g[d].Keys
      && (forall key :: key in r ==> Refs(g[d][key]) <= twin.Keys)
      && (forall key :: key in r && g[d][key].Text? ==>
            r[key] == Text(Scrubbed(cfg, done[Slot(d, key)], g[d][key].text)))
      && (forall key :: key in r && !g[d][key].Text? ==> r[key] == Translate(g[d][key], twin))
  {
    forall key | key in g[d]
      ensures Refs(g[d][key]) <= twin.Keys
    {
      InEntryRefs(g[d], key);
    }
  }

  lemma RewrittenNothing(cfg: Config, g: Graph, d: Dict, twin: map<Dict, Dict>)
    requires d in g && EntryRefs(g[d]) <= twin.Keys
    ensures Rewritten(cfg, g, d, multiset{}, twin) == TranslateEntries(g[d], twin)
  {
    RewrittenKinds(cfg, g, d, multiset{}, twin);
  }

  /** One more visit rewrites one entry of one dictionary. */
  lemma RewrittenStep(cfg: Config, g: Graph, d: Dict, done: multiset<Slot>, slot: Slot, twin: map<Dict, Dict>)
    requires d in g && EntryRefs(g[d]) <= twin.Keys && HoldsText(g, slot)
    ensures Rewritten(cfg, g, d, done + multiset{slot}, twin)
         == if slot.dict != d then Rewritten(cfg, g, d, done, twin)
            else Rewritten(cfg, g, d, done, twin)[slot.key :=
                   Text(ScrubText(cfg.abc, cfg.patterns, Scrubbed(cfg, done[slot], TextIn(g, slot))))]
  {
    hide Rewritten, ScrubText;
    RewrittenKinds(cfg, g, d, done, twin);
    RewrittenKinds(cfg, g, d, done + multiset{slot}, twin);
  }

  lemma NotedStep(cfg: Config, g: Graph, done: multiset<Slot>, slot: Slot, hit: string)
    requires HoldsText(g, slot)
    ensures Noted(cfg, g, done + multiset{slot}, hit)
       <==> Noted(cfg, g, done, hit) || hit in Hits(cfg.abc, cfg.patterns, Scrubbed(cfg, done[slot], TextIn(g, slot)))
  {
    hide Scrubbed, Hits;
    var more, n := done + multiset{slot}, done[slot];
    if Noted(cfg, g, more, hit) {
      var s, j: nat :| s in more && j < more[s] && HoldsText(g, s)
        && hit in Hits(cfg.abc, cfg.patterns, Scrubbed(cfg, j, TextIn(g, s)));
      if j < done[s] {
        assert s in done;
      } else {
        assert s == slot && j == n;
      }
    }
    if hit in Hits(cfg.abc, cfg.patterns, Scrubbed(cfg, n, TextIn(g, slot))) {
      assert slot in more && n < more[slot];
    }
    if Noted(cfg, g, done, hit) {
      var s, j: nat :| s in done && j < done[s] && HoldsText(g, s)
        && hit in Hits(cfg.abc, cfg.patterns, Scrubbed(cfg, j, TextIn(g, s)));
      assert s in more && j < more[s];
    }
  }

  /** The names noted so far. */
  ghost predicate Notes(cfg: Config, g: Graph, done: multiset<Slot>, hits: set<string>) {
    forall hit :: hit in hits <==> Noted(cfg, g, done, hit)
  }

  lemma NotesStep(cfg: Config, g: Graph, done: multiset<Slot>, slot: Slot, hits: set<string>)
    requires HoldsText(g, slot) && Notes(cfg, g, done, hits)
    ensures Notes(cfg, g, done + multiset{slot},
                  hits + Hits(cfg.abc, cfg.patterns, Scrubbed(cfg, done[slot], TextIn(g, slot))))
  {
    hide Noted, Hits, Scrubbed;
    forall hit {
      NotedStep(cfg, g, done, slot, hit);
    }
  }

  // ---------------------------------------------------------------- the class

  /** The copy is as far as the visits `done` say. */
  ghost predicate Following(cfg: Config, g: Graph, twin: map<Dict, Dict>, done: multiset<Slot>)
    reads twin.Values
  {
    && Separate(twin) && twin.Keys <= g.Keys
    && forall d :: d in twin ==>
         EntryRefs(g[d]) <= twin.Keys && twin[d].entries == Rewritten(cfg, g, d, done, twin)
  }

  lemma PartsStep(g: Graph, origin: seq<Value>, i: nat)
    requires i < |origin|
    ensures RefsOf(origin[i..]) == Refs(origin[i]) + RefsOf(origin[i + 1..])
    ensures PartsSlots(g, origin[i..]) == PartSlots(g, origin[i]) + PartsSlots(g, origin[i + 1..])
    ensures MessagesSlots(g, origin[i..]) == MessageSlots(g, origin[i]) + MessagesSlots(g, origin[i + 1..])
  {
    assert origin[i..][0] == origin[i] && origin[i..][1..] == origin[i + 1..];
  }

  lemma PartsEnd(g: Graph, origin: seq<Value>)
    ensures origin[0..] == origin && origin[|origin|..] == []
    ensures PartsSlots(g, []) == [] && MessagesSlots(g, []) == []
  {
  }

  /** Which entries of a dictionary are strings can be read off its copy. */
  lemma CopyKinds(cfg: Config, g: Graph, twin: map<Dict, Dict>, done: multiset<Slot>, d: Dict)
    requires Following(cfg, g, twin, done) && d in twin
    ensures twin[d].entries.Keys == g[d].Keys
    ensures forall key :: key in g[d] ==> (twin[d].entries[key].Text? <==> g[d][key].Text?)
    ensures forall key :: key in g[d] ==> (twin[d].entries[key].List? <==> g[d][key].List?)
    ensures forall key :: key in g[d] && g[d][key].List? ==>
      RefsOf(g[d][key].items) <= twin.Keys && twin[d].entries[key].items == TranslateItems(g[d][key].items, twin)
  {
    RewrittenKinds(cfg, g, d, done, twin);
  }

  /** Entry `key` of a dictionary value is a string. */
  predicate HasText(v: Value, key: string)
    reads Refs(v)
  {
    v.Ref? && key in v.dict.entries && v.dict.entries[key].Text?
  }

  class Redactor {
    const cfg: Config

    constructor (cfg: Config)
      ensures this.cfg == cfg
    {
      this.cfg := cfg;
    }

    method Scrub(text: string) returns (scrubbed: string, hits: set<string>)
      ensures scrubbed == ScrubText(cfg.abc, cfg.patterns, text) && hits == Hits(cfg.abc, cfg.patterns, text)
    {
      scrubbed, hits := text, {};
      for i := 0 to |cfg.patterns|
        invariant scrubbed == ScrubText(cfg.abc, cfg.patterns[..i], text)
        invariant hits == Hits(cfg.abc, cfg.patterns[..i], text)
      {
        var p := cfg.patterns[i];
        assert cfg.patterns[..i + 1][..i] == cfg.patterns[..i];
        var changed := Pass(cfg.abc, p, scrubbed);
        if changed != scrubbed {
          hits := hits + {p.name};
          scrubbed := changed;
        }
      }
      assert cfg.patterns[..|cfg.patterns|] == cfg.patterns;
    }

    /** Scrubs one string entry of the copy in place. */
    method Visit(copy: Dict, key: string, hits: set<string>, ghost g: Graph, ghost slot: Slot,
                 ghost twin: map<Dict, Dict>, ghost done: multiset<Slot>)
      returns (hits': set<string>)
      requires Following(cfg, g, twin, done) && Notes(cfg, g, done, hits) && HoldsText(g, slot)
      requires slot.dict in twin && twin[slot.dict] == copy && slot.key == key
      modifies copy
      ensures Following(cfg, g, twin, done + multiset{slot}) && Notes(cfg, g, done + multiset{slot}, hits')
    {
      hide ScrubText, Hits, Scrubbed, Notes, Rewritten, EntryRefs;
      RewrittenKinds(cfg, g, slot.dict, done, twin);
      var scrubbed, found := Scrub(copy.entries[key].text);
      hits' := hits + found;
      NotesStep(cfg, g, done, slot, hits);
      copy.entries := copy.entries[key := Text(scrubbed)];
      forall d | d in twin
        ensures EntryRefs(g[d]) <= twin.Keys && twin[d].entries == Rewritten(cfg, g, d, done + multiset{slot}, twin)
      {
        RewrittenStep(cfg, g, d, done, slot, twin);
        assert d != slot.dict ==> twin[d] != copy;
      }
    }

    /** The parts of a message's content. */
    method WalkParts(parts: seq<Value>, hits: set<string>, ghost g: Graph, ghost origin: seq<Value>,
                     ghost twin: map<Dict, Dict>, ghost done: multiset<Slot>)
      returns (hits': set<string>)
      requires Following(cfg, g, twin, done) && Notes(cfg, g, done, hits)
      requires RefsOf(origin) <= twin.Keys && parts == TranslateItems(origin, twin)
      modifies twin.Values
      ensures var after := done + multiset(PartsSlots(g, origin));
        Following(cfg, g, twin, after) && Notes(cfg, g, after, hits')
    {
      hide Following, Notes, PartsSlots;
      PartsEnd(g, origin);
      hits' := hits;
      ghost var seen := done;
      for i := 0 to |parts|
        invariant Following(cfg, g, twin, seen) && Notes(cfg, g, seen, hits')
        invariant RefsOf(origin[i..]) <= twin.Keys
        invariant seen + multiset(PartsSlots(g, origin[i..])) == done + multiset(PartsSlots(g, origin))
      {
        PartsStep(g, origin, i);
        TranslateItemsAt(origin, twin, i);
        if origin[i].Ref? {
          InCopy(cfg, g, twin, seen, origin[i].dict);
        }
        if HasText(parts[i], "text") {
          ghost var slot := Slot(origin[i].dict, "text");
          hits' := Visit(parts[i].dict, "text", hits', g, slot, twin, seen);
          seen := seen + multiset{slot};
        }
      }
      assert seen == done + multiset(PartsSlots(g, origin));
    }

    /** The messages: their content, or the parts of it. */
    method WalkMessages(messages: seq<Value>, hits: set<string>, ghost g: Graph, ghost origin: seq<Value>,
                        ghost twin: map<Dict, Dict>, ghost done: multiset<Slot>)
      returns (hits': set<string>)
      requires Following(cfg, g, twin, done) && Notes(cfg, g, done, hits)
      requires RefsOf(origin) <= twin.Keys && messages == TranslateItems(origin, twin)
      modifies twin.Values
      ensures var after := done + multiset(MessagesSlots(g, origin));
        Following(cfg, g, twin, after) && Notes(cfg, g, after, hits')
    {
      hide Following, Notes, MessagesSlots, PartsSlots;
      PartsEnd(g, origin);
      hits' := hits;
      ghost var seen := done;
      for i := 0 to |messages|
        invariant Following(cfg, g, twin, seen) && Notes(cfg, g, seen, hits')
        invariant RefsOf(origin[i..]) <= twin.Keys
        invariant seen + multiset(MessagesSlots(g, origin[i..])) == done + multiset(MessagesSlots(g, origin))
      {
        PartsStep(g, origin, i);
        TranslateItemsAt(origin, twin, i);
        if messages[i].Ref? {
          ghost var m := origin[i].dict;
          hits' := WalkMessage(messages[i].dict, hits', g, m, twin, seen);
          seen := seen + multiset(MessageSlots(g, origin[i]));
        }
      }
      assert seen == done + multiset(MessagesSlots(g, origin));
    }

    method WalkMessage(message: Dict, hits: set<string>, ghost g: Graph, ghost m: Dict, ghost twin: map<Dict, Dict>,
                       ghost done: multiset<Slot>)
      returns (hits': set<string>)
      requires Following(cfg, g, twin, done) && Notes(cfg, g, done, hits)
      requires m in twin && twin[m] == message
      modifies twin.Values
      ensures var after := done + multiset(MessageSlots(g, Ref(m)));
        Following(cfg, g, twin, after) && Notes(cfg, g, after, hits')
    {
      hide Following, Notes, PartsSlots;
      hits' := hits;
      InCopy(cfg, g, twin, done, m);
      CopyKinds(cfg, g, twin, done, m);
      if "content" in message.entries {
        var content := message.entries["content"];
        match content
        case Text(_) =>
          hits' := Visit(message, "content", hits, g, Slot(m, "content"), twin, done);
          assert multiset(MessageSlots(g, Ref(m))) == multiset{Slot(m, "content")};
        case List(parts) =>
          hits' := WalkParts(parts, hits, g, g[m]["content"].items, twin, done);
        case _ =>
          assert done + multiset(MessageSlots(g, Ref(m))) == done;
      } else {
        assert done + multiset(MessageSlots(g, Ref(m))) == done;
      }
    }

    /** The string entries of the state itself. */
    method WalkFields(copy: Dict, hits: set<string>, ghost g: Graph, ghost state: Dict, ghost twin: map<Dict, Dict>,
                      ghost done: multiset<Slot>)
      returns (hits': set<string>)
      requires Following(cfg, g, twin, done) && Notes(cfg, g, done, hits)
      requires state in twin && twin[state] == copy && state in g
      modifies copy
      ensures var after := done + multiset(FieldSlots(g, state, g[state].Keys));
        Following(cfg, g, twin, after) && Notes(cfg, g, after, hits')
    {
      hide Following, Notes;
      hits' := hits;
      ghost var seen := done;
      InCopy(cfg, g, twin, done, state);
      CopyKinds(cfg, g, twin, done, state);
      var keys := copy.entries.Keys;
      var todo := keys;
      while todo != {}
        invariant Following(cfg, g, twin, seen) && Notes(cfg, g, seen, hits')
        invariant todo <= keys == g[state].Keys
        invariant seen == done + multiset(FieldSlots(g, state, keys - todo))
        decreases todo
      {
        var key :| key in todo;
        FieldsStep(g, state, keys - todo, key);
        assert keys - (todo - {key}) == keys - todo + {key};
        todo := todo - {key};
        InCopy(cfg, g, twin, seen, state);
        if key != "messages" && HasText(Ref(copy), key) {
          hits' := Visit(copy, key, hits', g, Slot(state, key), twin, seen);
          seen := seen + multiset{Slot(state, key)};
        }
      }
      assert keys - todo == keys;
    }

    /** Redacts a state. The caller's dictionaries, shown by `g`, stay as they are; the copy
        is `twin` of them, rewritten as the visits say. */
    method Evaluate(state: Dict, ghost g: Graph)
      returns (d: LensDecision<Dict>, detections: seq<Detection>, ghost twin: map<Dict, Dict>, ghost hits: set<string>)
      requires state in g && Closed(g) && Shows(g)
      ensures fresh(d)
      ensures !cfg.enabled ==> d.View() == Neutral() && detections == []
      ensures cfg.enabled ==>
        && state in twin && (forall o :: o in twin ==> fresh(twin[o]))
        && Following(cfg, g, twin, Visits(g, state)) && Notes(cfg, g, Visits(g, state), hits)
        && d.View() == Outcome(cfg, hits, twin[state])
        && detections == Found(cfg, hits)
    {
      hide Following, Notes, ContentVisits, Found, FieldSlots;
      twin, hits, detections := map[], {}, [];
      if !cfg.enabled {
        d := new LensDecision(Neutral());
        return;
      }
      var copy;
      copy, twin := DeepCopy(state, g);
      StartFollowing(cfg, g, twin);
      InCopy(cfg, g, twin, multiset{}, state);
      CopyKinds(cfg, g, twin, multiset{}, state);
      var noted: set<string> := {};
      ghost var done: multiset<Slot> := multiset{};
      ContentVisitsAre(g, state);
      if "messages" in copy.entries && copy.entries["messages"].List? {
        noted := WalkMessages(copy.entries["messages"].items, noted, g, g[state]["messages"].items, twin, done);
        done := done + multiset(MessagesSlots(g, g[state]["messages"].items));
      }
      assert done == ContentVisits(g, state);
      noted := WalkFields(copy, noted, g, state, twin, done);
      hits := noted;
      if noted == {} {
        d := new LensDecision(Neutral());
        assert Found(cfg, {}) == [] by { FoundNothing(cfg); }
        return;
      }
      detections := DetectionsOf(noted);
      d := Decide(noted, copy);
    }

    method DetectionsOf(hits: set<string>) returns (detections: seq<Detection>)
      ensures detections == Found(cfg, hits)
    {
      var names := cfg.sorted(hits);
      detections := [];
      for i := 0 to |names|
        invariant detections == seq(i, k requires 0 <= k < |names| => Detection("pii_redactor", names[k], High))
      {
        detections := detections + [Detection("pii_redactor", names[i], High)];
      }
    }

    method Decide(hits: set<string>, copy: Dict) returns (d: LensDecision<Dict>)
      requires hits != {}
      ensures fresh(d) && d.View() == Outcome(cfg, hits, copy)
    {
      var names := cfg.sorted(hits);
      var triggers := seq(|names|, k requires 0 <= k < |names| => "pii_redactor." + names[k]);
      if cfg.mode == BlockMode {
        d := new LensDecision(Decision(Block, Some("pii_in_state"), triggers, None, map[], Some(400), None));
      } else {
        d := new LensDecision(Decision(Redact, None, triggers, Some(copy), map[], None, None));
      }
    }
  }

  /** One finding per name, sorted. */
  function Found(cfg: Config, hits: set<string>): seq<Detection> {
    var names := cfg.sorted(hits);
    seq(|names|, k requires 0 <= k < |names| => Detection("pii_redactor", names[k], High))
  }

  function Outcome(cfg: Config, hits: set<string>, copy: Dict): Decision<Dict> {
    var names := cfg.sorted(hits);
    var triggers := seq(|names|, k requires 0 <= k < |names| => "pii_redactor." + names[k]);
    if hits == {} then Neutral()
    else match cfg.mode
      case BlockMode => Decision(Block, Some("pii_in_state"), triggers, None, map[], Some(400), None)
      case RedactMode => Decision(Redact, None, triggers, Some(copy), map[], None, None)
  }

  lemma FoundNothing(cfg: Config)
    ensures Found(cfg, {}) == []
  {
    var none: set<string> := {};
    assert multiset(cfg.sorted(none)) == multiset(none);
    assert |multiset(cfg.sorted(none))| == |cfg.sorted(none)|;
  }

  lemma ContentVisitsAre(g: Graph, state: Dict)
    requires state in g
    ensures ContentVisits(g, state)
         == if "messages" in g[state] && g[state]["messages"].List?
            then multiset(MessagesSlots(g, g[state]["messages"].items)) else multiset{}
  {
  }

  /** The fresh copy is where the walk starts from. */
  lemma StartFollowing(cfg: Config, g: Graph, twin: map<Dict, Dict>)
    requires Separate(twin) && twin.Keys <= g.Keys && forall d :: d in twin ==> Copied(g, twin, d)
    ensures Following(cfg, g, twin, multiset{}) && Notes(cfg, g, multiset{}, {})
  {
    forall d | d in twin
      ensures EntryRefs(g[d]) <= twin.Keys && twin[d].entries == Rewritten(cfg, g, d, multiset{}, twin)
    {
      assert Copied(g, twin, d);
      RewrittenNothing(cfg, g, d, twin);
    }
  }

  lemma FieldsStep(g: Graph, state: Dict, keys: set<string>, key: string)
    requires key !in keys
    ensures multiset(FieldSlots(g, state, keys + {key}))
         == multiset(FieldSlots(g, state, keys))
            + if key != "messages" && HoldsText(g, Slot(state, key)) then multiset{Slot(state, key)} else multiset{}
  {
    var small, large := FieldSlots(g, state, keys), FieldSlots(g, state, keys + {key});
    if key != "messages" && HoldsText(g, Slot(state, key)) {
      assert large == small + {Slot(state, key)} && Slot(state, key) !in small;
    } else {
      assert large == small;
    }
  }

  lemma InCopy(cfg: Config, g: Graph, twin: map<Dict, Dict>, done: multiset<Slot>, d: Dict)
    requires Following(cfg, g, twin, done) && d in twin
    ensures d in g
    ensures forall key :: HasText(Ref(twin[d]), key) <==> HoldsText(g, Slot(d, key))
  {
    CopyKinds(cfg, g, twin, done, d);
  }
}
