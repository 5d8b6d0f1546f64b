/** Edge collection from a compiled graph (integrations/topology.py). */
module Topology {
  import opened Common

  type Edge = (string, string)

  /** One entry of the graph's branches: the source node and its possible targets; what is
      not a string is dropped. */
  datatype Branch = Branch(source: string, ends: seq<Option<string>>)

  /** The list without repetitions, each edge at its first occurrence. */
  function Deduped<T(==)>(edges: seq<T>): seq<T> {
    if edges == [] then []
    else
      var rest, e := Deduped(edges[..|edges| - 1]), edges[|edges| - 1];
      if e in rest then rest else rest + [e]
  }

  function FirstIndex<T(==)>(s: seq<T>, x: T): (i: nat)
    requires x in s
    ensures i < |s| && s[i] == x && x !in s[..i]
  {
    if s[0] == x then 0 else 1 + FirstIndex(s[1..], x)
  }

  lemma {:induction false} DedupedSameElements<T>(edges: seq<T>, x: T)
    ensures x in Deduped(edges) <==> x in edges
  {
    if edges != [] {
      DedupedSameElements(edges[..|edges| - 1], x);
      assert edges == edges[..|edges| - 1] + [edges[|edges| - 1]];
    }
  }

  lemma {:induction false} FirstIndexUnique<T>(s: seq<T>, x: T, i: nat)
    requires i < |s| && s[i] == x && x !in s[..i]
    ensures FirstIndex(s, x) == i
  {
    if i > 0 {
      assert s[..i][0] == s[0];
      FirstIndexUnique(s[1..], x, i - 1);
    }
  }

  lemma FirstIndexStable<T>(s: seq<T>, t: seq<T>, x: T)
    requires x in s
    ensures x in s + t && FirstIndex(s + t, x) == FirstIndex(s, x)
  {
    var i := FirstIndex(s, x);
    assert (s + t)[..i] == s[..i];
    FirstIndexUnique(s + t, x, i);
  }

  /** Deduplication keeps the order of first occurrences, so it keeps every edge once. */
  lemma {:induction false} DedupedInOrder<T>(edges: seq<T>, i: nat, j: nat)
    requires i < j < |Deduped(edges)|
    ensures Deduped(edges)[i] in edges && Deduped(edges)[j] in edges
    ensures FirstIndex(edges, Deduped(edges)[i]) < FirstIndex(edges, Deduped(edges)[j])
  {
    var init, e := edges[..|edges| - 1], edges[|edges| - 1];
    var rest, out := Deduped(init), Deduped(edges);
    assert edges == init + [e];
    DedupedSameElements(edges, out[i]);
    DedupedSameElements(edges, out[j]);
    DedupedSameElements(init, rest[i]);
    FirstIndexStable(init, [e], out[i]);
    if j < |rest| {
      DedupedInOrder(init, i, j);
      FirstIndexStable(init, [e], out[j]);
    } else {
      DedupedSameElements(init, e);
      assert edges[..|init|] == init;
      FirstIndexUnique(edges, e, |init|);
    }
  }

  method Dedupe<T(==)>(edges: seq<T>) returns (out: seq<T>)
    ensures out == Deduped(edges)
  {
    var seen: set<T> := {};
    out := [];
    for i := 0 to |edges|
      invariant out == Deduped(edges[..i])
      invariant forall x :: x in seen <==> x in out
    {
      assert edges[..i + 1][..i] == edges[..i];
      if edges[i] !in seen {
        seen := seen + {edges[i]};
        out := out + [edges[i]];
      }
    }
    assert edges[..|edges|] == edges;
  }

  /** The edge is declared, directly or by a branch. */
  ghost predicate Declared(raw: seq<Option<Edge>>, branches: seq<Branch>, e: Edge) {
    || Some(e) in raw
    || exists b :: b in branches && b.source == e.0 && Some(e.1) in b.ends
  }

  /** Collects every declared edge, once. */
  method ExtractTopology(raw: seq<Option<Edge>>, branches: seq<Branch>) returns (edges: seq<Edge>)
    ensures forall e :: e in edges <==> Declared(raw, branches, e)
    ensures forall i, j :: 0 <= i < j < |edges| ==> edges[i] != edges[j]
  {
    var all: seq<Edge> := [];
    for i := 0 to |raw|
      invariant forall e :: e in all <==> Some(e) in raw[..i]
    {
      if raw[i].Some? {
        all := all + [raw[i].value];
      }
      assert raw[..i + 1] == raw[..i] + [raw[i]];
    }
    assert raw[..|raw|] == raw;
    for i := 0 to |branches|
      invariant forall e :: e in all <==> Declared(raw, branches[..i], e)
    {
      var targets := Targets(branches[i]);
      all := all + targets;
      assert branches[..i + 1] == branches[..i] + [branches[i]];
    }
    assert branches[..|branches|] == branches;
    edges := Dedupe(all);
    forall e
      ensures e in edges <==> e in all
    {
      DedupedSameElements(all, e);
    }
    forall i, j | 0 <= i < j < |edges|
      ensures edges[i] != edges[j]
    {
      DedupedInOrder(all, i, j);
    }
  }

  method Targets(b: Branch) returns (out: seq<Edge>)
    ensures forall e :: e in out <==> e.0 == b.source && Some(e.1) in b.ends
  {
    out := [];
    for i := 0 to |b.ends|
      invariant forall e :: e in out <==> e.0 == b.source && Some(e.1) in b.ends[..i]
    {
      if b.ends[i].Some? {
        out := out + [(b.source, b.ends[i].value)];
      }
      assert b.ends[..i + 1] == b.ends[..i] + [b.ends[i]];
    }
    assert b.ends[..|b.ends|] == b.ends;
  }
}
