/** Bucket keys (interventions/rate_limiter.py): how tenant, thread and tool become one string. */
module BucketKeys {
  import opened Common
  import opened TokenBucket

  /** The parts of a call's identity that the configuration keys on; an empty or absent
      tenant or thread does not take part. */
  datatype Identity = Identity(tenant: Option<string>, thread: Option<string>, tool: Option<string>)

  function Present(enabled: bool, part: Option<string>): Option<string> {
    if enabled && part.Some? && part.value != "" then part else None
  }

  function IdentityOf(cfg: Config, tool: string, thread: Option<string>, tenant: Option<string>): Identity {
    Identity(Present(cfg.keyByTenant, tenant), Present(cfg.keyByThread, thread),
             if cfg.keyByTool then Some(tool) else None)
  }

  /** What a part can be in the identity of a call. */
  predicate CanBe(enabled: bool, part: Option<string>) {
    part.Some? ==> enabled && part.value != ""
  }

  /** The identities that calls can have. */
  predicate OfCall(cfg: Config, id: Identity) {
    CanBe(cfg.keyByTenant, id.tenant) && CanBe(cfg.keyByThread, id.thread) && (id.tool.Some? <==> cfg.keyByTool)
  }

  lemma OfCallIff(cfg: Config, id: Identity)
    ensures OfCall(cfg, id) <==> exists tool, thread, tenant :: IdentityOf(cfg, tool, thread, tenant) == id
  {
    if OfCall(cfg, id) {
      assert IdentityOf(cfg, if id.tool.Some? then id.tool.value else "", id.thread, id.tenant) == id;
    }
  }

  function Labelled(tag: string, part: Option<string>): seq<string> {
    if part.Some? then [tag + part.value] else []
  }

  function Join(parts: seq<string>): string {
    if parts == [] then ""
    else if |parts| == 1 then parts[0]
    else parts[0] + "|" + Join(parts[1..])
  }

  function KeyOf(id: Identity): string {
    var key := Join(Labelled("t=", id.tenant) + Labelled("th=", id.thread) + Labelled("tl=", id.tool));
    if key == "" then "global" else key
  }

  // ------------------------------------------------------------ reading a key

  /** The first number `low <= i < high` that satisfies `p`, or `high`. */
  function First(p: nat -> bool, low: nat, high: nat): (r: nat)
    requires low <= high
    ensures low <= r <= high && (r < high ==> p(r))
    ensures (forall i :: low <= i < r ==> !p(i))
    decreases high - low
  {
    if low == high || p(low) then low else First(p, low + 1, high)
  }

  /** At `i` a thread may end: a bar and the beginning of the tool follow. */
  predicate ToolAt(cfg: Config, s: string, i: nat) {
    cfg.keyByTool && i < |s| && s[i] == '|' && "tl=" <= s[i + 1..]
  }

  /** A thread can be read off the front of `s`: it is not empty, and the tool follows if
      there must be one. */
  predicate HoldsThread(cfg: Config, s: string) {
    if cfg.keyByTool then exists i :: 1 <= i < |s| && ToolAt(cfg, s, i) else s != ""
  }

  predicate ThreadStarts(cfg: Config, s: string) {
    cfg.keyByThread && "th=" <= s && HoldsThread(cfg, s[3..])
  }

  predicate ToolStarts(cfg: Config, s: string) {
    cfg.keyByTool && "tl=" <= s
  }

  /** At `i` a tenant may end: a bar, and parts that a call can have. */
  predicate RestAt(cfg: Config, s: string, i: nat) {
    i < |s| && s[i] == '|' && (ThreadStarts(cfg, s[i + 1..]) || ToolStarts(cfg, s[i + 1..]))
  }

  /** Where the thread at the front of `s` ends. */
  function ThreadEnd(cfg: Config, s: string): (n: nat)
    requires s != ""
    ensures 1 <= n <= |s| && (n < |s| ==> ToolAt(cfg, s, n))
    ensures forall i :: 1 <= i < n ==> !ToolAt(cfg, s, i)
  {
    var stop := (i: nat) => ToolAt(cfg, s, i);
    assert forall i: nat :: 1 <= i < First(stop, 1, |s|) && ToolAt(cfg, s, i) ==> stop(i);
    First(stop, 1, |s|)
  }

  function TenantEnd(cfg: Config, s: string): (n: nat)
    requires s != ""
    ensures 1 <= n <= |s| && (n < |s| ==> RestAt(cfg, s, n))
    ensures forall i :: 1 <= i < n ==> !RestAt(cfg, s, i)
  {
    var stop := (i: nat) => RestAt(cfg, s, i);
    assert forall i: nat :: 1 <= i < First(stop, 1, |s|) && RestAt(cfg, s, i) ==> stop(i);
    First(stop, 1, |s|)
  }

  /** Reads thread and tool. */
  function ParseRest(cfg: Config, rest: string): (Option<string>, Option<string>) {
    if ThreadStarts(cfg, rest) && rest[3..] != "" then
      var s := rest[3..];
      var n := ThreadEnd(cfg, s);
      (Some(s[..n]), if n + 4 <= |s| then Some(s[n + 4..]) else None)
    else (None, if ToolStarts(cfg, rest) then Some(rest[3..]) else None)
  }

  /** Reads a key as the identity of a call. */
  function ParseKey(cfg: Config, key: string): Identity {
    if cfg.keyByTenant && "t=" <= key && key[2..] != "" then
      var s := key[2..];
      var n := TenantEnd(cfg, s);
      var (thread, tool) := ParseRest(cfg, if n < |s| then s[n + 1..] else "");
      Identity(Some(s[..n]), thread, tool)
    else
      var (thread, tool) := ParseRest(cfg, key);
      Identity(None, thread, tool)
  }

  // --------------------------------------------------------- clean identities

  predicate HasToolTag(s: string) {
    exists i :: 0 <= i < |s| && s[i] == '|' && "tl=" <= s[i + 1..]
  }

  /** The tenant goes on at `i` with something that reads as the end of it: a tool, or a thread
      that is not empty, be it that more of the tenant, the call's own thread, or the first part
      of its tool is taken for it. */
  predicate TenantBreaksAt(cfg: Config, id: Identity, i: nat)
    requires id.tenant.Some?
  {
    var s := id.tenant.value;
    && i < |s| && s[i] == '|'
    && (|| (cfg.keyByTool && "tl=" <= s[i + 1..])
        || (&& cfg.keyByThread && "th=" <= s[i + 1..]
            && (|s| > i + 4 || id.thread.Some? || (id.tool.Some? && HasToolTag(id.tool.value)))))
  }

  predicate ThreadBreaksAt(cfg: Config, id: Identity, i: nat)
    requires id.thread.Some?
  {
    ToolAt(cfg, id.thread.value, i)
  }

  /** No part contains, after its first character, what reads as the end of it. */
  predicate Clean(cfg: Config, id: Identity) {
    && (id.tenant.Some? ==> forall i :: 1 <= i < |id.tenant.value| ==> !TenantBreaksAt(cfg, id, i))
    && (id.thread.Some? ==> forall i :: 1 <= i < |id.thread.value| ==> !ThreadBreaksAt(cfg, id, i))
  }

  // ---------------------------------------------------------- the text of a key

  /** Thread and tool as they stand in the key. */
  function RestText(id: Identity): string {
    match (id.thread, id.tool)
    case (Some(thread), Some(tool)) => "th=" + thread + "|tl=" + tool
    case (Some(thread), None) => "th=" + thread
    case (None, Some(tool)) => "tl=" + tool
    case (None, None) => ""
  }

  function Tail(id: Identity): string {
    if RestText(id) == "" then "" else "|" + RestText(id)
  }

  lemma JoinFirst(first: string, others: seq<string>)
    ensures Join([first] + others) == if others == [] then first else first + "|" + Join(others)
  {
    assert ([first] + others)[1..] == others;
  }

  lemma JoinTwo(first: string, second: string)
    ensures Join([]) == "" && Join([first]) == first && Join([first, second]) == first + "|" + second
  {
    assert [first, second][1..] == [second];
  }

  lemma KeyText(id: Identity)
    ensures id.tenant.Some? ==> KeyOf(id) == "t=" + (id.tenant.value + Tail(id))
    ensures id.tenant.None? ==> KeyOf(id) == if RestText(id) == "" then "global" else RestText(id)
  {
    hide Join;
    var rest := Labelled("th=", id.thread) + Labelled("tl=", id.tool);
    assert Labelled("t=", id.tenant) + Labelled("th=", id.thread) + Labelled("tl=", id.tool)
        == Labelled("t=", id.tenant) + rest;
    RestJoined(id);
    if id.tenant.Some? {
      JoinFirst("t=" + id.tenant.value, rest);
    } else {
      assert Labelled("t=", id.tenant) + rest == rest;
    }
  }

  lemma RestJoined(id: Identity)
    ensures Join(Labelled("th=", id.thread) + Labelled("tl=", id.tool)) == RestText(id)
    ensures Labelled("th=", id.thread) + Labelled("tl=", id.tool) == [] <==> RestText(id) == ""
  {
    hide Join;
    if id.thread.Some? && id.tool.Some? {
      JoinTwo("th=" + id.thread.value, "tl=" + id.tool.value);
      assert Labelled("th=", id.thread) + Labelled("tl=", id.tool) == ["th=" + id.thread.value, "tl=" + id.tool.value];
    } else if id.thread.Some? {
      JoinTwo("th=" + id.thread.value, "");
      assert Labelled("th=", id.thread) + Labelled("tl=", id.tool) == ["th=" + id.thread.value];
    } else if id.tool.Some? {
      JoinTwo("tl=" + id.tool.value, "");
      assert Labelled("th=", id.thread) + Labelled("tl=", id.tool) == ["tl=" + id.tool.value];
    } else {
      JoinTwo("", "");
      assert Labelled("th=", id.thread) + Labelled("tl=", id.tool) == [];
    }
  }

  // ------------------------------------------------------ where the parts end

  lemma ReachesAcross(tag: string, part: string, rest: string)
    requires tag <= part + rest && !(tag <= part) && (rest == "" || rest[0] == '|')
    ensures '|' in tag
  {
    assert part + "" == part;
    assert |tag| > |part| && tag[|part|] == rest[0];
  }

  /** A tag without a bar does not reach across one. */
  lemma NotAcross(tag: string, part: string, rest: string)
    requires '|' !in tag && (rest == "" || rest[0] == '|')
    ensures tag <= part + rest <==> tag <= part
  {
    if tag <= part + rest && !(tag <= part) {
      ReachesAcross(tag, part, rest);
    }
  }

  /** Inside a part followed by other parts, what can be seen at `i` of the tag there. */
  lemma TagInPart(tag: string, part: string, rest: string, i: nat)
    requires '|' !in tag && (rest == "" || rest[0] == '|') && i < |part|
    ensures tag <= (part + rest)[i + 1..] <==> tag <= part[i + 1..]
    ensures tag <= part[i + 1..] ==> (part + rest)[i + 1..][|tag|..] == part[i + 1 + |tag|..] + rest
  {
    assert (part + rest)[i + 1..] == part[i + 1..] + rest;
    NotAcross(tag, part[i + 1..], rest);
    if tag <= part[i + 1..] {
      assert (part[i + 1..] + rest)[|tag|..] == part[i + 1..][|tag|..] + rest;
      assert part[i + 1..][|tag|..] == part[i + 1 + |tag|..];
    }
  }

  /** What follows a thread. */
  function ToolTail(id: Identity): string {
    if id.tool.Some? then "|tl=" + id.tool.value else ""
  }

  lemma ToolTailReads(cfg: Config, id: Identity, thread: string)
    requires OfCall(cfg, id)
    ensures cfg.keyByTool ==> ToolAt(cfg, thread + ToolTail(id), |thread|)
    ensures !cfg.keyByTool ==> ToolTail(id) == ""
  {
    if cfg.keyByTool {
      var s := thread + ToolTail(id);
      assert s[|thread|] == '|' && s[|thread| + 1..] == "tl=" + id.tool.value;
    }
  }

  lemma RestParts(id: Identity)
    ensures id.thread.Some? ==>
      "th=" <= RestText(id) && RestText(id)[3..] == id.thread.value + ToolTail(id)
      && RestText(id) == "th=" + (id.thread.value + ToolTail(id))
    ensures id.thread.None? && id.tool.Some? ==> "tl=" <= RestText(id) && RestText(id)[3..] == id.tool.value
    ensures id.thread.None? && id.tool.Some? ==> !("th=" <= RestText(id))
    ensures RestText(id) == "" <==> id.thread.None? && id.tool.None?
  {
    if id.thread.Some? {
      assert RestText(id) == "th=" + (id.thread.value + ToolTail(id));
    } else if id.tool.Some? {
      assert RestText(id)[1] == 'l';
    }
  }

  /** What follows a tenant in the key of a call reads as parts that a call can have. */
  lemma RestReads(cfg: Config, id: Identity)
    requires OfCall(cfg, id)
    ensures RestText(id) != "" ==> ThreadStarts(cfg, RestText(id)) || ToolStarts(cfg, RestText(id))
    ensures ThreadStarts(cfg, RestText(id)) <==> id.thread.Some?
  {
    hide RestText, ToolTail, ToolAt;
    RestParts(id);
    if id.thread.Some? {
      ToolTailReads(cfg, id, id.thread.value);
    } else if id.tool.None? {
      assert RestText(id) == "";
    }
  }

  /** The end of a thread is where it should be iff the thread is clean. */
  lemma ThreadEndIs(cfg: Config, id: Identity)
    requires OfCall(cfg, id) && id.thread.Some?
    ensures var thread := id.thread.value;
      ThreadEnd(cfg, thread + ToolTail(id)) == |thread|
      <==> forall i :: 1 <= i < |thread| ==> !ThreadBreaksAt(cfg, id, i)
  {
    var thread, tail := id.thread.value, ToolTail(id);
    var s := thread + tail;
    forall i | 1 <= i < |thread|
      ensures ToolAt(cfg, s, i) <==> ThreadBreaksAt(cfg, id, i)
    {
      TagInPart("tl=", thread, tail, i);
    }
    hide ToolTail, ToolAt;
    ToolTailReads(cfg, id, thread);
  }

  /** Whether a thread can be read where the tenant has its label. */
  lemma HoldsThreadIff(cfg: Config, id: Identity, more: string)
    requires OfCall(cfg, id)
    ensures HoldsThread(cfg, more + Tail(id))
       <==> more != "" || id.thread.Some? || (id.tool.Some? && HasToolTag(id.tool.value))
  {
    var s := more + Tail(id);
    if cfg.keyByTool {
      TailReads(cfg, id, more);
      if id.thread.None? && more == "" {
        assert s == "|tl=" + id.tool.value;
        ToolTagIn(cfg, id.tool.value);
      }
    } else {
      RestParts(id);
    }
  }

  /** A second tool label after the first. */
  lemma ToolTagIn(cfg: Config, tool: string)
    requires cfg.keyByTool
    ensures HoldsThread(cfg, "|tl=" + tool) <==> HasToolTag(tool)
  {
    var s := "|tl=" + tool;
    assert s[1] != '|' && s[2] != '|' && s[3] != '|';
    forall i | 4 <= i < |s|
      ensures ToolAt(cfg, s, i) <==> tool[i - 4] == '|' && "tl=" <= tool[i - 4 + 1..]
    {
      assert s[i + 1..] == tool[i - 4 + 1..];
    }
    if HasToolTag(tool) {
      var i :| 0 <= i < |tool| && tool[i] == '|' && "tl=" <= tool[i + 1..];
      assert ToolAt(cfg, s, i + 4);
    }
  }

  lemma TailParts(id: Identity, more: string)
    ensures id.thread.Some? ==> more + Tail(id) == more + "|th=" + id.thread.value + ToolTail(id)
    ensures id.thread.None? ==> Tail(id) == ToolTail(id)
  {
    hide RestText, ToolTail;
    RestParts(id);
    if id.thread.Some? {
      Regroup(more, "|th=", id.thread.value, ToolTail(id));
      assert Tail(id) == "|" + ("th=" + (id.thread.value + ToolTail(id)));
      assert "|" + ("th=" + (id.thread.value + ToolTail(id))) == "|th=" + (id.thread.value + ToolTail(id));
    } else {
      NoThreadTail(id);
    }
  }

  lemma Regroup(a: string, b: string, c: string, d: string)
    ensures a + (b + (c + d)) == a + b + c + d
  {
  }

  lemma NoThreadTail(id: Identity)
    requires id.thread.None?
    ensures Tail(id) == ToolTail(id)
  {
    if id.tool.Some? {
      assert "|" + ("tl=" + id.tool.value) == "|tl=" + id.tool.value;
    }
  }

  lemma ToolAtHolds(cfg: Config, s: string, i: nat)
    requires cfg.keyByTool && i >= 1 && ToolAt(cfg, s, i)
    ensures HoldsThread(cfg, s)
  {
  }

  /** Where the tool begins behind a thread, or behind what is taken for one. */
  lemma TailReads(cfg: Config, id: Identity, more: string)
    requires OfCall(cfg, id) && cfg.keyByTool
    ensures id.thread.Some? || more != "" ==> HoldsThread(cfg, more + Tail(id))
    ensures id.thread.None? ==> Tail(id) == "|tl=" + id.tool.value
  {
    hide ToolAt, HoldsThread, Tail;
    TailParts(id, more);
    if id.thread.Some? {
      var before := more + "|th=" + id.thread.value;
      ToolTailReads(cfg, id, before);
      ToolAtHolds(cfg, more + Tail(id), |before|);
    } else if more != "" {
      ToolTailReads(cfg, id, more);
      ToolAtHolds(cfg, more + Tail(id), |more|);
    }
  }

  /** The end of a tenant is where it should be iff the tenant is clean. */
  lemma TenantEndIs(cfg: Config, id: Identity)
    requires OfCall(cfg, id) && id.tenant.Some?
    ensures var tenant := id.tenant.value;
      TenantEnd(cfg, tenant + Tail(id)) == |tenant|
      <==> forall i :: 1 <= i < |tenant| ==> !TenantBreaksAt(cfg, id, i)
  {
    hide RestText, HoldsThread, HasToolTag;
    var tenant, tail := id.tenant.value, Tail(id);
    var s := tenant + tail;
    RestParts(id);
    RestReads(cfg, id);
    forall i | 1 <= i < |tenant|
      ensures RestAt(cfg, s, i) <==> TenantBreaksAt(cfg, id, i)
    {
      TagInPart("tl=", tenant, tail, i);
      TagInPart("th=", tenant, tail, i);
      if "th=" <= tenant[i + 1..] {
        HoldsThreadIff(cfg, id, tenant[i + 4..]);
        assert tenant[i + 4..] != "" <==> |tenant| > i + 4;
      }
    }
    if RestText(id) != "" {
      assert s[|tenant| + 1..] == RestText(id);
      assert RestAt(cfg, s, |tenant|);
    }
  }

  // ------------------------------------------------------- whose key it is

  lemma ToolSplits(cfg: Config, s: string, n: nat)
    requires ToolAt(cfg, s, n)
    ensures n + 4 <= |s| && s == s[..n] + ("|tl=" + s[n + 4..])
  {
    assert s[n + 1..] == "tl=" + s[n + 4..];
  }

  lemma ThreadRebuilds(cfg: Config, s: string)
    requires s != "" && HoldsThread(cfg, s)
    ensures var n := ThreadEnd(cfg, s);
      var tool := if n + 4 <= |s| then Some(s[n + 4..]) else None;
      (tool.Some? <==> cfg.keyByTool) && s == s[..n] + if tool.Some? then "|tl=" + tool.value else ""
  {
    var n := ThreadEnd(cfg, s);
    if cfg.keyByTool {
      ToolSplits(cfg, s, n);
    } else {
      assert n == |s| && s[..n] == s;
    }
  }

  lemma PutBack(tag: string, s: string)
    requires tag <= s
    ensures s == tag + s[|tag|..]
  {
  }

  /** Thread and tool, read back and put together again. */
  lemma RestRebuilds(cfg: Config, rest: string)
    requires ThreadStarts(cfg, rest) || ToolStarts(cfg, rest) || (rest == "" && !cfg.keyByTool)
    ensures var (thread, tool) := ParseRest(cfg, rest);
      OfCall(cfg, Identity(None, thread, tool)) && RestText(Identity(None, thread, tool)) == rest
  {
    hide ThreadEnd, RestText;
    var (thread, tool) := ParseRest(cfg, rest);
    RestParts(Identity(None, thread, tool));
    if ThreadStarts(cfg, rest) {
      PutBack("th=", rest);
      ThreadRebuilds(cfg, rest[3..]);
    } else if ToolStarts(cfg, rest) {
      PutBack("tl=", rest);
      PutBack("tl=", RestText(Identity(None, thread, tool)));
    }
  }

  /** Thread and tool of a call are read back iff the thread is clean. */
  lemma RestRoundTrip(cfg: Config, id: Identity)
    requires OfCall(cfg, id)
    ensures ParseRest(cfg, RestText(id)) == (id.thread, id.tool)
       <==> (id.thread.Some? ==> forall i :: 1 <= i < |id.thread.value| ==> !ThreadBreaksAt(cfg, id, i))
  {
    hide RestText, ThreadEnd, ToolTail, HoldsThread, ThreadBreaksAt;
    RestParts(id);
    RestReads(cfg, id);
    if id.thread.Some? {
      var thread, s := id.thread.value, id.thread.value + ToolTail(id);
      ThreadEndIs(cfg, id);
      assert RestText(id)[3..] == s && s != "";
      assert s[..|thread|] == thread;
      if ThreadEnd(cfg, s) == |thread| {
        ToolTailTakes(cfg, id, thread);
      }
    }
  }

  lemma ToolTailTakes(cfg: Config, id: Identity, thread: string)
    ensures var s, n := thread + ToolTail(id), |thread|;
      id.tool == if n + 4 <= |s| then Some(s[n + 4..]) else None
  {
    if id.tool.Some? {
      assert thread + ("|tl=" + id.tool.value) == thread + "|tl=" + id.tool.value;
    }
  }

  /** What stands behind a tenant that is read off the front of `s`. */
  function Behind(s: string, n: nat): string {
    if n < |s| then s[n + 1..] else ""
  }

  /** Tenant and parts that follow it, in the key of a call, and where they are taken apart. */
  lemma TenantReads(cfg: Config, id: Identity)
    requires OfCall(cfg, id) && id.tenant.Some?
    ensures var s := id.tenant.value + Tail(id);
      var n := TenantEnd(cfg, s);
      && KeyOf(id) == "t=" + s && s != ""
      && var (thread, tool) := ParseRest(cfg, Behind(s, n));
         && ParseKey(cfg, KeyOf(id)) == Identity(Some(s[..n]), thread, tool)
         && OfCall(cfg, Identity(None, thread, tool)) && RestText(Identity(None, thread, tool)) == Behind(s, n)
  {
    hide KeyOf, RestText, ParseRest, ThreadStarts, ToolStarts, TenantEnd;
    var s := id.tenant.value + Tail(id);
    KeyText(id);
    PutBack("t=", KeyOf(id));
    assert KeyOf(id)[2..] == s && s != "";
    RestParts(id);
    if RestText(id) != "" {
      assert s[|id.tenant.value| + 1..] == RestText(id);
      RestReads(cfg, id);
      assert RestAt(cfg, s, |id.tenant.value|);
    }
    RestRebuilds(cfg, Behind(s, TenantEnd(cfg, s)));
  }

  lemma TenantRebuilds(cfg: Config, id: Identity)
    requires OfCall(cfg, id) && id.tenant.Some?
    ensures OfCall(cfg, ParseKey(cfg, KeyOf(id))) && KeyOf(ParseKey(cfg, KeyOf(id))) == KeyOf(id)
  {
    hide KeyOf, RestText, ParseRest, ParseKey, RestAt, Tail;
    TenantReads(cfg, id);
    var s := id.tenant.value + Tail(id);
    var n, owner := TenantEnd(cfg, s), ParseKey(cfg, KeyOf(id));
    if n < |s| {
      RestAtSomething(cfg, s, n);
    }
    TenantSplits(s, n, Behind(s, n));
    KeyText(owner);
    SameRest(owner);
    assert Tail(owner) == if Behind(s, n) == "" then "" else "|" + Behind(s, n) by { TailIs(owner); }
  }

  lemma TailIs(id: Identity)
    ensures Tail(id) == if RestText(id) == "" then "" else "|" + RestText(id)
  {
  }

  lemma TenantRoundTrip(cfg: Config, id: Identity)
    requires OfCall(cfg, id) && id.tenant.Some?
    ensures ParseKey(cfg, KeyOf(id)) == id <==> Clean(cfg, id)
  {
    hide KeyOf, RestText, ParseRest, ParseKey, RestAt, Tail, TenantBreaksAt, ThreadBreaksAt, TenantEnd;
    var tenant := id.tenant.value;
    var s := tenant + Tail(id);
    TenantReads(cfg, id);
    TenantEndIs(cfg, id);
    RestRoundTrip(cfg, id);
    TailIs(id);
    assert s[..|tenant|] == tenant;
    assert Behind(s, |tenant|) == RestText(id);
  }

  lemma RestAtSomething(cfg: Config, s: string, n: nat)
    requires RestAt(cfg, s, n)
    ensures s[n] == '|' && s[n + 1..] != ""
  {
  }

  lemma TenantSplits(s: string, n: nat, rest: string)
    requires n <= |s| && rest == if n < |s| then s[n + 1..] else ""
    requires n < |s| ==> s[n] == '|' && rest != ""
    ensures s == s[..n] + if rest == "" then "" else "|" + rest
  {
  }

  lemma SameRest(id: Identity)
    ensures RestText(id) == RestText(id.(tenant := None))
  {
  }

  lemma RestOwner(cfg: Config, id: Identity)
    requires OfCall(cfg, id) && id.tenant.None?
    ensures var owner := ParseKey(cfg, KeyOf(id));
      OfCall(cfg, owner) && KeyOf(owner) == KeyOf(id) && (owner == id <==> Clean(cfg, id))
  {
    hide KeyOf, RestText, ParseRest, ThreadStarts, ToolStarts, ThreadBreaksAt;
    KeyText(id);
    RestParts(id);
    RestReads(cfg, id);
    RestRoundTrip(cfg, id);
    if RestText(id) == "" {
      NobodyIsGlobal(cfg);
    } else {
      assert KeyOf(id)[1] == 'h' || KeyOf(id)[1] == 'l';
      RestRebuilds(cfg, KeyOf(id));
      KeyText(ParseKey(cfg, KeyOf(id)));
    }
  }

  lemma NobodyIsGlobal(cfg: Config)
    ensures ParseKey(cfg, "global") == Identity(None, None, None)
  {
    assert "global"[0] == 'g';
  }

  /** Whatever the parts contain, the key of a call reads as the identity of a call with the
      same key. That is the call's own identity iff it is clean; so an identity that is not
      clean shares its bucket with a clean one. */
  lemma KeyOwner(cfg: Config, id: Identity)
    requires OfCall(cfg, id)
    ensures var owner := ParseKey(cfg, KeyOf(id));
      OfCall(cfg, owner) && KeyOf(owner) == KeyOf(id) && (owner == id <==> Clean(cfg, id))
  {
    if id.tenant.Some? {
      TenantRebuilds(cfg, id);
      TenantRoundTrip(cfg, id);
    } else {
      RestOwner(cfg, id);
    }
  }

  /** Clean identities never share a bucket. */
  lemma KeysDistinct(cfg: Config, a: Identity, b: Identity)
    requires OfCall(cfg, a) && OfCall(cfg, b) && Clean(cfg, a) && Clean(cfg, b)
    ensures KeyOf(a) == KeyOf(b) <==> a == b
  {
    KeyOwner(cfg, a);
    KeyOwner(cfg, b);
  }

  /** Only the identity without parts has the key `global`. */
  lemma GlobalIsEmpty(cfg: Config, id: Identity)
    requires OfCall(cfg, id)
    ensures KeyOf(id) == "global" <==> id == Identity(None, None, None)
  {
    KeyText(id);
    RestParts(id);
    if id != Identity(None, None, None) {
      assert KeyOf(id)[0] == 't';
    }
  }

  // ------------------------------------------------- which keyings keep calls apart

  predicate AtMostOnePart(cfg: Config) {
    !(cfg.keyByTenant && cfg.keyByThread) && !(cfg.keyByTenant && cfg.keyByTool) && !(cfg.keyByThread && cfg.keyByTool)
  }

  /** `|` is not escaped, so as soon as two parts are keyed on, two calls of different identity
      can share a bucket. */
  lemma KeysCollide(cfg: Config) returns (a: Identity, b: Identity)
    requires !AtMostOnePart(cfg)
    ensures OfCall(cfg, a) && OfCall(cfg, b) && a != b && KeyOf(a) == KeyOf(b)
  {
    hide ParseKey;
    var tool := if cfg.keyByTool then Some("z") else None;
    if cfg.keyByTenant && cfg.keyByThread {
      b := Identity(Some("x|th=y"), None, tool);
      assert TenantBreaksAt(cfg, b, 1) by { assert b.tenant.value[2..] == "th=y"; }
    } else if cfg.keyByTenant {
      b := Identity(Some("x|tl=y"), None, tool);
      assert TenantBreaksAt(cfg, b, 1) by { assert b.tenant.value[2..] == "tl=y"; }
    } else {
      b := Identity(None, Some("x|tl=y"), tool);
      assert ThreadBreaksAt(cfg, b, 1) by { assert b.thread.value[2..] == "tl=y"; }
    }
    a := ParseKey(cfg, KeyOf(b));
    KeyOwner(cfg, b);
  }

  ghost predicate KeepsApart(cfg: Config) {
    forall a, b :: OfCall(cfg, a) && OfCall(cfg, b) && KeyOf(a) == KeyOf(b) ==> a == b
  }

  /** The configurations under which calls of different identity never share a bucket. */
  lemma KeepsApartIff(cfg: Config)
    ensures KeepsApart(cfg) <==> AtMostOnePart(cfg)
  {
    hide KeyOf;
    if AtMostOnePart(cfg) {
      forall a, b | OfCall(cfg, a) && OfCall(cfg, b) && KeyOf(a) == KeyOf(b)
        ensures a == b
      {
        KeysDistinct(cfg, a, b);
      }
    } else {
      var a, b := KeysCollide(cfg);
    }
  }

  // ------------------------------------------------------------- calls and buckets

  /** Python's truth value of an optional string: the empty one counts as absent. */
  function Given(part: Option<string>): Option<string> {
    if part == Some("") then None else part
  }

  /** Keyed on one part, two calls share a bucket iff they agree on that part, whatever the
      others are. */
  lemma OnePartDecides(cfg: Config, tool: string, thread: Option<string>, tenant: Option<string>, tool': string,
                       thread': Option<string>, tenant': Option<string>)
    ensures var same := KeyOf(IdentityOf(cfg, tool, thread, tenant)) == KeyOf(IdentityOf(cfg, tool', thread', tenant'));
      && (cfg.keyByTenant && !cfg.keyByThread && !cfg.keyByTool ==> (same <==> Given(tenant) == Given(tenant')))
      && (!cfg.keyByTenant && cfg.keyByThread && !cfg.keyByTool ==> (same <==> Given(thread) == Given(thread')))
      && (!cfg.keyByTenant && !cfg.keyByThread && cfg.keyByTool ==> (same <==> tool == tool'))
      && (!cfg.keyByTenant && !cfg.keyByThread && !cfg.keyByTool ==> same)
  {
    hide KeyOf;
    var a, b := IdentityOf(cfg, tool, thread, tenant), IdentityOf(cfg, tool', thread', tenant');
    KeepsApartIff(cfg);
    assert AtMostOnePart(cfg) && OfCall(cfg, a) && OfCall(cfg, b) ==> (KeyOf(a) == KeyOf(b) <==> a == b);
  }

  /** Calls that agree on every part that is keyed on share a bucket. */
  lemma SameParts(cfg: Config, tool: string, thread: Option<string>, tenant: Option<string>, tool': string,
                  thread': Option<string>, tenant': Option<string>)
    requires cfg.keyByTenant ==> Given(tenant) == Given(tenant')
    requires cfg.keyByThread ==> Given(thread) == Given(thread')
    requires cfg.keyByTool ==> tool == tool'
    ensures KeyOf(IdentityOf(cfg, tool, thread, tenant)) == KeyOf(IdentityOf(cfg, tool', thread', tenant'))
  {
    hide KeyOf;
    assert IdentityOf(cfg, tool, thread, tenant) == IdentityOf(cfg, tool', thread', tenant');
  }
}
