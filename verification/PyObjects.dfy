/** Mutable Python dictionaries on the heap, and `copy.deepcopy` over them.

    Dictionaries are objects, which may be shared or form cycles; strings, lists and
    everything else a state can hold are values. */
module PyObjects {

  datatype Value =
    | Text(text: string)
    | Ref(dict: Dict)
    | List(items: seq<Value>)
    | Opaque(id: int)

  class Dict {
    var entries: map<string, Value>

    constructor (entries: map<string, Value>)
      ensures this.entries == entries
    {
      this.entries := entries;
    }
  }

  /** The dictionaries that a value refers to, through lists but not through dictionaries. */
  function Refs(v: Value): set<Dict>
    decreases v, 1
  {
    match v
    case Text(_) => {}
    case Ref(d) => {d}
    case List(items) => RefsOf(items)
    case Opaque(_) => {}
  }

  function RefsOf(items: seq<Value>): set<Dict>
    decreases items, 0
  {
    if items == [] then {} else Refs(items[0]) + RefsOf(items[1..])
  }

  function EntryRefs(entries: map<string, Value>): set<Dict> {
    set key, d | key in entries && d in Refs(entries[key]) :: d
  }

  /** The contents of a part of the heap, as a value. */
  type Graph = map<Dict, map<string, Value>>

  /** The graph shows the heap as it is. */
  ghost predicate Shows(g: Graph)
    reads g.Keys
  {
    forall d :: d in g ==> d.entries == g[d]
  }

  /** Every dictionary that is referred to is in the graph. */
  predicate Closed(g: Graph) {
    forall d :: d in g ==> EntryRefs(g[d]) <= g.Keys
  }

  /** A value with every dictionary replaced by its twin. */
  function Translate(v: Value, twin: map<Dict, Dict>): Value
    requires Refs(v) <= twin.Keys
    decreases v, 1
  {
    match v
    case Text(_) => v
    case Ref(d) => Ref(twin[d])
    case List(items) => List(TranslateItems(items, twin))
    case Opaque(_) => v
  }

  function TranslateItems(items: seq<Value>, twin: map<Dict, Dict>): (r: seq<Value>)
    requires RefsOf(items) <= twin.Keys
    ensures |r| == |items|
    decreases items, 0
  {
    if items == [] then []
    else [Translate(items[0], twin)] + TranslateItems(items[1..], twin)
  }

  function TranslateEntries(entries: map<string, Value>, twin: map<Dict, Dict>): map<string, Value>
    requires EntryRefs(entries) <= twin.Keys
  {
    map key | key in entries :: (InEntryRefs(entries, key); Translate(entries[key], twin))
  }

  lemma InEntryRefs(entries: map<string, Value>, key: string)
    requires key in entries
    ensures Refs(entries[key]) <= EntryRefs(entries)
  {
    forall d | d in Refs(entries[key])
      ensures d in EntryRefs(entries)
    {
    }
  }

  lemma {:induction false} TranslateItemsAt(items: seq<Value>, twin: map<Dict, Dict>, i: nat)
    requires RefsOf(items) <= twin.Keys && i < |items|
    ensures Refs(items[i]) <= RefsOf(items)
    ensures TranslateItems(items, twin)[i] == Translate(items[i], twin)
  {
    if i > 0 {
      TranslateItemsAt(items[1..], twin, i - 1);
    }
  }

  /** Translation does not see twins that are added later. */
  lemma {:induction false} TranslateStable(v: Value, small: map<Dict, Dict>, large: map<Dict, Dict>)
    requires Refs(v) <= small.Keys <= large.Keys
    requires forall d :: d in small ==> large[d] == small[d]
    ensures Translate(v, large) == Translate(v, small)
    decreases v, 1
  {
    if v.List? {
      TranslateItemsStable(v.items, small, large);
    }
  }

  lemma {:induction false} TranslateItemsStable(items: seq<Value>, small: map<Dict, Dict>, large: map<Dict, Dict>)
    requires RefsOf(items) <= small.Keys <= large.Keys
    requires forall d :: d in small ==> large[d] == small[d]
    ensures TranslateItems(items, large) == TranslateItems(items, small)
    decreases items, 0
  {
    if items != [] {
      TranslateStable(items[0], small, large);
      TranslateItemsStable(items[1..], small, large);
    }
  }

  lemma TranslateEntriesStable(entries: map<string, Value>, small: map<Dict, Dict>, large: map<Dict, Dict>)
    requires EntryRefs(entries) <= small.Keys <= large.Keys
    requires forall d :: d in small ==> large[d] == small[d]
    ensures TranslateEntries(entries, large) == TranslateEntries(entries, small)
  {
    forall key | key in entries
      ensures TranslateEntries(entries, large)[key] == TranslateEntries(entries, small)[key]
    {
      InEntryRefs(entries, key);
      TranslateStable(entries[key], small, large);
    }
  }

  /** Different dictionaries have different twins, and no twin is itself copied. */
  ghost predicate Separate(twin: map<Dict, Dict>) {
    && (forall a, b :: a in twin && b in twin && a != b ==> twin[a] != twin[b])
    && (forall a :: a in twin ==> twin[a] !in twin)
  }

  /** The twin of `d` is a complete copy. */
  ghost predicate Copied(g: Graph, twin: map<Dict, Dict>, d: Dict)
    requires d in twin && d in g
    reads twin[d]
  {
    EntryRefs(g[d]) <= twin.Keys && twin[d].entries == TranslateEntries(g[d], twin)
  }

  /** Deep copy with a memo of the dictionaries already seen: what is reachable from `root`
      gets fresh twins that are connected in the same way, sharing and cycles included. */
  method DeepCopy(root: Dict, ghost g: Graph) returns (copy: Dict, ghost twin: map<Dict, Dict>)
    requires root in g && Closed(g) && Shows(g)
    ensures root in twin && twin[root] == copy && twin.Keys <= g.Keys && Separate(twin)
    ensures forall d :: d in twin ==> fresh(twin[d]) && Copied(g, twin, d)
  {
    hide TranslateEntries, EntryRefs, Copied;
    copy := new Dict(map[]);
    var memo: map<Dict, Dict> := map[root := copy];
    var todo := {root};
    ghost var done: set<Dict> := {};
    while todo != {}
      invariant root in memo && memo[root] == copy
      invariant memo.Keys == todo + done && todo !! done && memo.Keys <= g.Keys
      invariant Separate(memo) && forall d :: d in memo ==> fresh(memo[d])
      invariant forall d :: d in done ==> Copied(g, memo, d)
      invariant Shows(g)
      decreases g.Keys - done
    {
      var d :| d in todo;
      ghost var before := memo;
      memo, todo := Allocate(memo, todo, EntryRefs(d.entries));
      CopiedStable(g, before, memo, done);
      Fill(g, memo, d, done);
      todo, done := todo - {d}, done + {d};
    }
    twin := memo;
  }

  lemma CopiedStable(g: Graph, small: map<Dict, Dict>, large: map<Dict, Dict>, done: set<Dict>)
    requires done <= small.Keys <= large.Keys && done <= g.Keys
    requires forall d :: d in small ==> large[d] == small[d]
    requires forall d :: d in done ==> Copied(g, small, d)
    ensures forall d :: d in done ==> Copied(g, large, d)
  {
    hide TranslateEntries, EntryRefs;
    forall d | d in done
      ensures Copied(g, large, d)
    {
      assert Copied(g, small, d);
      TranslateEntriesStable(g[d], small, large);
    }
  }

  /** Fills in the twin of one dictionary. */
  method Fill(ghost g: Graph, memo: map<Dict, Dict>, d: Dict, ghost done: set<Dict>)
    requires Separate(memo) && done <= memo.Keys * g.Keys && d in memo && d in g && d !in done
    requires d.entries == g[d] && EntryRefs(g[d]) <= memo.Keys
    requires forall e :: e in done ==> Copied(g, memo, e)
    modifies memo[d]
    ensures forall e :: e in done + {d} ==> Copied(g, memo, e)
  {
    hide TranslateEntries, EntryRefs;
    memo[d].entries := TranslateEntries(d.entries, memo);
    forall e | e in done
      ensures Copied(g, memo, e)
    {
      assert memo[e] != memo[d] && old(Copied(g, memo, e));
    }
  }

  /** Gives every dictionary of `refs` that has none yet an empty twin. */
  method Allocate(memo: map<Dict, Dict>, todo: set<Dict>, refs: set<Dict>)
    returns (memo': map<Dict, Dict>, todo': set<Dict>)
    requires Separate(memo) && forall d :: d in memo ==> memo[d] !in refs
    ensures memo'.Keys == memo.Keys + refs && todo' == todo + (refs - memo.Keys)
    ensures forall d :: d in memo ==> memo'[d] == memo[d]
    ensures forall d :: d in memo' && d !in memo ==> fresh(memo'[d])
    ensures Separate(memo')
  {
    memo', todo' := memo, todo;
    var missing := refs - memo.Keys;
    while missing != {}
      invariant missing <= refs && memo'.Keys == memo.Keys + (refs - missing)
      invariant missing !! memo'.Keys
      invariant todo' == todo + (refs - memo.Keys - missing)
      invariant forall d :: d in memo ==> memo'[d] == memo[d]
      invariant forall d :: d in memo' && d !in memo ==> fresh(memo'[d])
      invariant Separate(memo')
      decreases missing
    {
      var d :| d in missing;
      var empty := new Dict(map[]);
      memo', todo', missing := memo'[d := empty], todo' + {d}, missing - {d};
    }
  }
}
