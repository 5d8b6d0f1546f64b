/** The substitution pass for social security numbers: the pattern of detectors/pii.py and
    the leftmost, non-overlapping replacement of interventions/pii_redactor.py. */
module SsnScrub {
  import opened Characters

  const TAG := "[REDACTED:ssn]"

  /** Eleven characters at `i` of the shape ddd-dd-dddd, with the excluded groups left out. */
  predicate CoreAt(abc: Alphabet, s: string, i: nat) {
    && i + 11 <= |s|
    && abc.isDigit(s[i]) && abc.isDigit(s[i + 1]) && abc.isDigit(s[i + 2])
    && s[i + 3] == '-'
    && abc.isDigit(s[i + 4]) && abc.isDigit(s[i + 5])
    && s[i + 6] == '-'
    && abc.isDigit(s[i + 7]) && abc.isDigit(s[i + 8]) && abc.isDigit(s[i + 9]) && abc.isDigit(s[i + 10])
    && s[i..i + 3] != "000" && s[i..i + 3] != "666" && s[i] != '9'
    && s[i + 4..i + 6] != "00"
    && s[i + 7..i + 11] != "0000"
  }

  predicate MatchAt(abc: Alphabet, s: string, i: nat) {
    CoreAt(abc, s, i) && Boundary(abc, s, i) && Boundary(abc, s, i + 11)
  }

  lemma Example()
    ensures MatchAt(ASCII, "123-45-6789", 0)
  {
  }

  /** The text from `i` on, with the leftmost non-overlapping matches replaced. */
  function ScrubFrom(abc: Alphabet, s: string, i: nat): string
    requires i <= |s|
    decreases |s| - i
  {
    if i == |s| then ""
    else if MatchAt(abc, s, i) then TAG + ScrubFrom(abc, s, i + 11)
    else [s[i]] + ScrubFrom(abc, s, i + 1)
  }

  function Scrub(abc: Alphabet, s: string): string {
    ScrubFrom(abc, s, 0)
  }

  /** Matches never overlap. */
  lemma MatchesDisjoint(abc: Alphabet, s: string, i: nat, j: nat)
    requires abc.Sound() && MatchAt(abc, s, i) && MatchAt(abc, s, j) && i < j
    ensures i + 11 <= j
  {
  }

  // ------------------------------------------- every match, and nothing else

  /** Every position from `from` on at which the pattern matches, tried one by one. */
  function Matches(abc: Alphabet, s: string, from: nat): seq<nat>
    requires from <= |s|
    decreases |s| - from
  {
    if from == |s| then []
    else (if MatchAt(abc, s, from) then [from] else []) + Matches(abc, s, from + 1)
  }

  lemma {:induction false} MatchesAreAll(abc: Alphabet, s: string, from: nat, i: nat)
    requires from <= |s|
    ensures i in Matches(abc, s, from) <==> from <= i && MatchAt(abc, s, i)
    decreases |s| - from
  {
    hide CoreAt;
    if from < |s| {
      MatchesAreAll(abc, s, from + 1, i);
    } else if MatchAt(abc, s, i) {
      MatchFits(abc, s, i);
    }
  }

  /** The places lie in the text, in order, eleven characters apart. */
  predicate Apart(s: string, from: nat, places: seq<nat>)
    decreases |places|
  {
    places != [] ==>
      from <= places[0] && places[0] + 11 <= |s| && Apart(s, places[0] + 11, places[1..])
  }

  /** The text from `from` on with eleven characters at each place replaced, all else in order. */
  function Splice(s: string, from: nat, places: seq<nat>): string
    requires from <= |s| && Apart(s, from, places)
    decreases |places|
  {
    if places == [] then s[from..]
    else s[from..places[0]] + TAG + Splice(s, places[0] + 11, places[1..])
  }

  lemma {:induction false} NoneInside(abc: Alphabet, s: string, i: nat, k: nat)
    requires abc.Sound() && MatchAt(abc, s, i) && 1 <= k <= 11
    ensures Matches(abc, s, i + 1) == Matches(abc, s, i + k)
  {
    hide MatchAt, Matches;
    MatchFits(abc, s, i);
    if k > 1 {
      NoneInside(abc, s, i, k - 1);
      MatchesStep(abc, s, i + k - 1);
      if MatchAt(abc, s, i + k - 1) {
        MatchesDisjoint(abc, s, i, i + k - 1);
      }
    }
  }

  /** The leftmost pass replaces every match and keeps all other text in order. */
  lemma {:induction false} ScrubReplacesAll(abc: Alphabet, s: string, from: nat)
    requires abc.Sound() && from <= |s|
    ensures Apart(s, from, Matches(abc, s, from))
    ensures ScrubFrom(abc, s, from) == Splice(s, from, Matches(abc, s, from))
    decreases |s| - from
  {
    hide MatchAt, ScrubFrom, Splice, Apart, Matches;
    ScrubStep(abc, s, from);
    MatchesStep(abc, s, from);
    if from == |s| {
      SpliceNone(s);
    } else if MatchAt(abc, s, from) {
      NoneInside(abc, s, from, 11);
      ScrubReplacesAll(abc, s, from + 11);
      SpliceHere(s, from, Matches(abc, s, from + 11));
    } else {
      ScrubReplacesAll(abc, s, from + 1);
      SpliceStep(s, from, Matches(abc, s, from + 1));
    }
  }

  lemma MatchesStep(abc: Alphabet, s: string, from: nat)
    requires from <= |s|
    ensures from == |s| ==> Matches(abc, s, from) == []
    ensures from < |s| ==>
      var rest := Matches(abc, s, from + 1);
      Matches(abc, s, from) == if MatchAt(abc, s, from) then [from] + rest else rest
  {
  }

  lemma SpliceNone(s: string)
    ensures Apart(s, |s|, []) && Splice(s, |s|, []) == ""
  {
  }

  lemma SpliceHere(s: string, from: nat, places: seq<nat>)
    requires from + 11 <= |s| && Apart(s, from + 11, places)
    ensures Apart(s, from, [from] + places) && Splice(s, from, [from] + places) == TAG + Splice(s, from + 11, places)
  {
    hide Apart, Splice;
    var all := [from] + places;
    assert all[0] == from && all[1..] == places;
    SpliceFirst(s, from, all);
    NothingBefore(s[from..from], TAG, Splice(s, from + 11, places));
  }

  lemma SpliceFirst(s: string, from: nat, places: seq<nat>)
    requires places != [] && from <= places[0] && places[0] + 11 <= |s| && Apart(s, places[0] + 11, places[1..])
    ensures Apart(s, from, places)
    ensures Splice(s, from, places) == s[from..places[0]] + TAG + Splice(s, places[0] + 11, places[1..])
  {
  }

  lemma NothingBefore(a: string, b: string, c: string)
    requires a == ""
    ensures a + b + c == b + c
  {
    assert a + b == b;
  }

  lemma SpliceStep(s: string, from: nat, places: seq<nat>)
    requires from < |s| && Apart(s, from + 1, places)
    ensures Apart(s, from, places) && Splice(s, from, places) == [s[from]] + Splice(s, from + 1, places)
  {
    if places == [] {
      assert s[from..] == [s[from]] + s[from + 1..];
    } else {
      var kept, rest := s[from + 1..places[0]], Splice(s, places[0] + 11, places[1..]);
      assert s[from..places[0]] == [s[from]] + kept;
      Regroup([s[from]], kept, TAG, rest);
    }
  }

  lemma Regroup(a: string, b: string, c: string, d: string)
    ensures a + b + c + d == a + (b + c + d)
  {
  }

  lemma MatchFits(abc: Alphabet, s: string, i: nat)
    requires MatchAt(abc, s, i)
    ensures i + 11 <= |s|
  {
  }

  // ------------------------------------------------------- nothing is left

  /** Output that contains no `[` was copied, and what follows it is the rest of the pass. */
  lemma {:induction false} Copied(abc: Alphabet, s: string, i: nat, m: nat)
    requires i <= |s| && m <= |ScrubFrom(abc, s, i)|
    requires forall k :: 0 <= k < m ==> ScrubFrom(abc, s, i)[k] != '['
    ensures i + m <= |s| && ScrubFrom(abc, s, i) == s[i..i + m] + ScrubFrom(abc, s, i + m)
    ensures m > 0 ==> !MatchAt(abc, s, i)
    decreases m
  {
    hide MatchAt, ScrubFrom;
    var out := ScrubFrom(abc, s, i);
    ScrubStep(abc, s, i);
    if m > 0 {
      assert out[0] != '[' && TAG[0] == '[';
      assert out == [s[i]] + ScrubFrom(abc, s, i + 1);
      var rest := ScrubFrom(abc, s, i + 1);
      forall k | 0 <= k < m - 1
        ensures rest[k] != '['
      {
        assert out[k + 1] != '[';
      }
      Copied(abc, s, i + 1, m - 1);
      assert s[i..i + m] == [s[i]] + s[i + 1..i + m];
    }
  }

  /** The eleven characters at `k` of the output are those at `p` of the input, which are not
      a match; to their left is their old neighbour or a replaced match, to their right the
      rest of the pass. */
  ghost predicate ComesFrom(abc: Alphabet, s: string, i: nat, out: string, k: nat, p: nat) {
    && i <= p && p + 11 <= |s| && !MatchAt(abc, s, p)
    && k + 11 <= |out| && out[k..k + 11] == s[p..p + 11]
    && out[k + 11..] == ScrubFrom(abc, s, p + 11)
    && (k == 0 ==> p == i)
    && (k > 0 ==> p > i && (out[k - 1] == s[p - 1] || (p >= 11 && MatchAt(abc, s, p - 11))))
  }

  lemma ComesFromLater(abc: Alphabet, s: string, i: nat, j: nat, before: string, rest: string, k: nat, p: nat)
    requires i < j && before != "" && |before| <= k && ComesFrom(abc, s, j, rest, k - |before|, p)
    requires before[|before| - 1] == s[j - 1] || (j >= 11 && MatchAt(abc, s, j - 11))
    ensures ComesFrom(abc, s, i, before + rest, k, p)
  {
    hide MatchAt, ScrubFrom;
    var out, m := before + rest, k - |before|;
    assert out[k..k + 11] == rest[m..m + 11] && out[k + 11..] == rest[m + 11..];
    assert m > 0 ==> out[k - 1] == rest[m - 1];
    assert m == 0 ==> out[k - 1] == before[|before| - 1];
  }

  /** Whatever has the pattern's shape in the output was copied from the input. */
  lemma {:induction false} Origin(abc: Alphabet, s: string, i: nat, k: nat) returns (p: nat)
    requires abc.Sound() && i <= |s| && CoreAt(abc, ScrubFrom(abc, s, i), k)
    ensures ComesFrom(abc, s, i, ScrubFrom(abc, s, i), k, p)
    decreases |s| - i
  {
    hide CoreAt, MatchAt, ScrubFrom;
    var out := ScrubFrom(abc, s, i);
    CoreShape(abc, out, k);
    ScrubStep(abc, s, i);
    if k == 0 {
      Copied(abc, s, i, 11);
      p := i;
    } else if MatchAt(abc, s, i) {
      hide ComesFrom;
      TagHasNoDigit(abc, k);
      CoreSuffix(abc, TAG, ScrubFrom(abc, s, i + 11), k);
      p := Origin(abc, s, i + 11, k - |TAG|);
      ComesFromLater(abc, s, i, i + 11, TAG, ScrubFrom(abc, s, i + 11), k, p);
    } else {
      hide ComesFrom;
      CoreSuffix(abc, [s[i]], ScrubFrom(abc, s, i + 1), k);
      p := Origin(abc, s, i + 1, k - 1);
      ComesFromLater(abc, s, i, i + 1, [s[i]], ScrubFrom(abc, s, i + 1), k, p);
    }
  }

  lemma ScrubStep(abc: Alphabet, s: string, i: nat)
    requires i <= |s|
    ensures i == |s| ==> ScrubFrom(abc, s, i) == ""
    ensures MatchAt(abc, s, i) ==> i + 11 <= |s| && ScrubFrom(abc, s, i) == TAG + ScrubFrom(abc, s, i + 11)
    ensures i < |s| && !MatchAt(abc, s, i) ==> ScrubFrom(abc, s, i) == [s[i]] + ScrubFrom(abc, s, i + 1)
  {
  }

  lemma CoreShape(abc: Alphabet, s: string, k: nat)
    requires abc.Sound() && CoreAt(abc, s, k)
    ensures abc.isDigit(s[k]) && forall j :: k <= j < k + 11 ==> s[j] == '-' || abc.isDigit(s[j])
    ensures forall j :: k <= j < k + 11 ==> s[j] != '[' && s[j] != ']'
    ensures abc.isWord(s[k]) && abc.isWord(s[k + 10]) && k + 11 <= |s|
  {
  }

  lemma TagHasNoDigit(abc: Alphabet, k: nat)
    requires abc.Sound()
    ensures k < |TAG| ==> !abc.isDigit(TAG[k])
  {
    if 0 < k < |TAG| - 1 {
      assert TAG[k] == "REDACTED:ssn"[k - 1];
    }
  }

  /** The shape is a property of the eleven characters alone. */
  lemma CoreOfWindow(abc: Alphabet, s: string, k: nat)
    requires k + 11 <= |s|
    ensures CoreAt(abc, s, k) <==> CoreAt(abc, s[k..k + 11], 0)
  {
    var w := s[k..k + 11];
    assert w[0..3] == s[k..k + 3] && w[4..6] == s[k + 4..k + 6] && w[7..11] == s[k + 7..k + 11];
  }

  lemma CoreSuffix(abc: Alphabet, before: string, rest: string, k: nat)
    requires |before| <= k && k + 11 <= |before + rest| && CoreAt(abc, before + rest, k)
    ensures CoreAt(abc, rest, k - |before|)
  {
    hide CoreAt;
    assert (before + rest)[k..k + 11] == rest[k - |before|..k - |before| + 11];
    CoreOfWindow(abc, before + rest, k);
    CoreOfWindow(abc, rest, k - |before|);
  }

  lemma MatchParts(abc: Alphabet, s: string, i: nat)
    ensures MatchAt(abc, s, i) <==> CoreAt(abc, s, i) && Boundary(abc, s, i) && Boundary(abc, s, i + 11)
  {
  }

  /** A match in the output would have been a match in the input. */
  lemma MatchLifts(abc: Alphabet, s: string, out: string, k: nat, p: nat)
    requires abc.Sound() && MatchAt(abc, out, k)
    requires p + 11 <= |s| && out[k..k + 11] == s[p..p + 11]
    requires out[k + 11..] == ScrubFrom(abc, s, p + 11)
    requires k == 0 ==> p == 0
    requires k > 0 ==> p > 0 && (out[k - 1] == s[p - 1] || (p >= 11 && MatchAt(abc, s, p - 11)))
    ensures MatchAt(abc, s, p)
  {
    hide CoreAt;
    CoreShape(abc, out, k);
    CoreOfWindow(abc, out, k);
    CoreOfWindow(abc, s, p);
    CoreShape(abc, s, p);
    if p + 11 < |s| && !MatchAt(abc, s, p + 11) {
      assert out[k + 11] == out[k + 11..][0] == s[p + 11];
    }
  }

  /** The output of the pass contains no match. */
  lemma ScrubLeavesNone(abc: Alphabet, s: string, k: nat)
    requires abc.Sound()
    ensures !MatchAt(abc, Scrub(abc, s), k)
  {
    hide MatchAt, CoreAt, ScrubFrom, Boundary;
    if MatchAt(abc, Scrub(abc, s), k) {
      MatchParts(abc, Scrub(abc, s), k);
      var p := Origin(abc, s, 0, k);
      MatchLifts(abc, s, Scrub(abc, s), k, p);
    }
  }

  /** Without a match the pass is the identity. */
  lemma {:induction false} ScrubKeeps(abc: Alphabet, s: string, i: nat)
    requires i <= |s| && forall j: nat :: !MatchAt(abc, s, j)
    ensures ScrubFrom(abc, s, i) == s[i..]
    decreases |s| - i
  {
    if i < |s| {
      ScrubKeeps(abc, s, i + 1);
      assert !MatchAt(abc, s, i);
    }
  }

  /** A second pass is the identity. */
  lemma ScrubTwice(abc: Alphabet, s: string)
    requires abc.Sound()
    ensures Scrub(abc, Scrub(abc, s)) == Scrub(abc, s)
  {
    var out := Scrub(abc, s);
    forall j: nat
      ensures !MatchAt(abc, out, j)
    {
      ScrubLeavesNone(abc, s, j);
    }
    ScrubKeeps(abc, out, 0);
  }

  /** The pass changes a text iff the pattern occurs in it, which is how a hit is noticed. */
  lemma ScrubChangesIffMatch(abc: Alphabet, s: string)
    requires abc.Sound()
    ensures Scrub(abc, s) != s <==> exists j: nat :: MatchAt(abc, s, j)
  {
    if j: nat :| MatchAt(abc, s, j) {
      ScrubLeavesNone(abc, s, j);
    } else {
      ScrubKeeps(abc, s, 0);
    }
  }
}
