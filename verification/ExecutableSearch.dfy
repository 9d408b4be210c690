/** `_first_identifier` and `_has_executable_substring`: a needle counts only where its leading
    identifier is code. */
module ExecutableSearch {
  import opened TypescriptMask

  // ----- occurrences -----

  ghost predicate OccursAt(source: string, needle: string, k: nat) {
    k + |needle| <= |source| && source[k..k + |needle|] == needle
  }

  /** The first occurrence at or after `from`, or `|source| + 1` when there is none. */
  function Find(source: string, needle: string, from: nat): (k: nat)
    ensures k == |source| + 1 || (from <= k && k + |needle| <= |source|)
    decreases |source| - from
  {
    if from + |needle| > |source| then |source| + 1
    else if source[from..from + |needle|] == needle then from
    else Find(source, needle, from + 1)
  }

  lemma {:induction false} FindsFirst(source: string, needle: string, from: nat)
    ensures var k := Find(source, needle, from);
      && (k <= |source| ==> from <= k && OccursAt(source, needle, k))
      && (forall m :: from <= m < k && m <= |source| ==> !OccursAt(source, needle, m))
    decreases |source| - from
  {
    if from + |needle| <= |source| && source[from..from + |needle|] != needle {
      FindsFirst(source, needle, from + 1);
    }
  }

  // ----- the anchor -----

  /** Start of the first identifier of `needle`, or `|needle|`. */
  function AnchorStart(u: Classes, needle: string, i: nat): (r: nat)
    requires i <= |needle|
    ensures i <= r <= |needle| && (r < |needle| ==> IdentStart(u, needle[r]))
    ensures forall k :: i <= k < r ==> !IdentStart(u, needle[k])
    decreases |needle| - i
  {
    if i < |needle| && !IdentStart(u, needle[i]) then AnchorStart(u, needle, i + 1) else i
  }

  function AnchorEnd(u: Classes, needle: string): (e: nat)
    ensures AnchorStart(u, needle, 0) <= e <= |needle|
    ensures forall k :: AnchorStart(u, needle, 0) <= k < e ==> IdentPart(u, needle[k])
  {
    IdentEnd(u, needle, AnchorStart(u, needle, 0))
  }

  /** `needle[a..e]` is the first identifier: none starts before `a`, and it is as long as it can be. */
  ghost predicate IsFirstIdentifier(u: Classes, needle: string, a: nat, e: nat) {
    && a < e <= |needle| && StartsName(u, needle[a]) && (forall k :: 0 <= k < a ==> !StartsName(u, needle[k]))
    && (forall k :: a <= k < e ==> InName(u, needle[k])) && (e < |needle| ==> !InName(u, needle[e]))
  }

  lemma AnchorIs(u: Classes, needle: string)
    requires PythonLike(u)
    ensures AnchorStart(u, needle, 0) < |needle| ==>
      IsFirstIdentifier(u, needle, AnchorStart(u, needle, 0), AnchorEnd(u, needle))
    ensures AnchorStart(u, needle, 0) == |needle| ==> forall k :: 0 <= k < |needle| ==> !StartsName(u, needle[k])
  {
  }

  /** `needle.index(anchor)` is where the anchor was found: nothing before it starts an identifier. */
  lemma AnchorIndex(u: Classes, needle: string)
    requires PythonLike(u) && AnchorStart(u, needle, 0) < |needle|
    ensures var a, e := AnchorStart(u, needle, 0), AnchorEnd(u, needle);
      a < e && Find(needle, needle[a..e], 0) == a
  {
    var a, e := AnchorStart(u, needle, 0), AnchorEnd(u, needle);
    assert IdentPart(u, needle[a]);
    var anchor := needle[a..e];
    assert OccursAt(needle, anchor, a);
    var k := Find(needle, anchor, 0);
    FindsFirst(needle, anchor, 0);
    assert k <= a;
    assert needle[k..k + |anchor|][0] == anchor[0] == needle[a];
  }

  // ----- the search -----

  /** What the search looks at: the leading identifier, or the whole needle. */
  function Window(u: Classes, needle: string): (w: (nat, nat))
    ensures w.0 <= w.1 <= |needle|
  {
    if AnchorStart(u, needle, 0) < |needle| then (AnchorStart(u, needle, 0), AnchorEnd(u, needle)) else (0, |needle|)
  }

  /** The match at `k` counts: its anchor, or all of it when there is no anchor, survives in the mask. */
  predicate Visible(u: Classes, mask: string, needle: string, k: nat) {
    var (a, e) := Window(u, needle);
    k + e <= |mask| && mask[k + a..k + e] == needle[a..e]
  }

  /** The matches `re.finditer` yields from `from` on: leftmost first, never overlapping. */
  ghost predicate Yields(source: string, needle: string, from: nat, k: nat)
    requires needle != []
    decreases |source| + 1 - from
  {
    var m := Find(source, needle, from);
    m <= |source| && (k == m || Yields(source, needle, m + |needle|, k))
  }

  /** Some yielded match counts. */
  ghost predicate Admits(u: Classes, source: string, mask: string, needle: string) {
    needle != [] && exists k :: Yields(source, needle, 0, k) && Visible(u, mask, needle, k)
  }

  ghost predicate AdmitsFrom(u: Classes, source: string, mask: string, needle: string, from: nat)
    requires needle != []
    decreases |source| + 1 - from
  {
    var m := Find(source, needle, from);
    m <= |source| && (Visible(u, mask, needle, m) || AdmitsFrom(u, source, mask, needle, m + |needle|))
  }

  lemma {:induction false} AdmitsFromIff(u: Classes, source: string, mask: string, needle: string, from: nat)
    requires needle != []
    ensures AdmitsFrom(u, source, mask, needle, from) <==>
      exists k :: Yields(source, needle, from, k) && Visible(u, mask, needle, k)
    decreases |source| + 1 - from
  {
    hide Visible;
    var m := Find(source, needle, from);
    if m <= |source| {
      AdmitsFromIff(u, source, mask, needle, m + |needle|);
      if Visible(u, mask, needle, m) {
        assert Yields(source, needle, from, m);
      }
    }
  }

  /** `_first_identifier(needle)`: the first maximal identifier, empty when there is none. */
  method FirstIdentifier(u: Classes, needle: string) returns (anchor: string)
    requires PythonLike(u)
    ensures AnchorStart(u, needle, 0) == |needle| ==> anchor == []
    ensures AnchorStart(u, needle, 0) < |needle| ==>
      anchor != [] && anchor == needle[AnchorStart(u, needle, 0)..AnchorEnd(u, needle)]
    ensures anchor == [] ==> forall k :: 0 <= k < |needle| ==> !StartsName(u, needle[k])
    ensures anchor != [] ==> exists a: nat, e: nat :: IsFirstIdentifier(u, needle, a, e) && anchor == needle[a..e]
  {
    AnchorIs(u, needle);
    var i := 0;
    while i < |needle|
      invariant i <= |needle| && AnchorStart(u, needle, i) == AnchorStart(u, needle, 0)
    {
      if IdentStart(u, needle[i]) {
        var j := ScanIdent(u, needle, i);
        AnchorIndex(u, needle);
        return needle[i..j];
      }
      i := i + 1;
    }
    anchor := [];
  }

  /** `_has_executable_substring(source, mask, needle)`. */
  method HasExecutableSubstring(u: Classes, source: string, mask: string, needle: string) returns (found: bool)
    requires PythonLike(u) && |mask| == |source|
    ensures found <==> Admits(u, source, mask, needle)
  {
    hide OccursAt, Yields, PythonLike;
    if needle == [] {
      return false;
    }
    AdmitsFromIff(u, source, mask, needle, 0);
    var anchor := FirstIdentifier(u, needle);
    var a, e := 0, |needle|;
    if anchor != [] {
      AnchorIndex(u, needle);
      a := Find(needle, anchor, 0);
      e := a + |anchor|;
    }
    assert (a, e) == Window(u, needle);
    found := SearchMatches(u, source, mask, needle, a, e);
  }

  /** The loop over `re.finditer`. */
  method SearchMatches(u: Classes, source: string, mask: string, needle: string, a: nat, e: nat) returns (found: bool)
    requires needle != [] && |mask| == |source| && (a, e) == Window(u, needle)
    ensures found <==> AdmitsFrom(u, source, mask, needle, 0)
  {
    hide Yields, OccursAt, Visible, Window, AdmitsFrom, Find;
    var k := Find(source, needle, 0);
    ghost var from := 0;
    while k <= |source|
      invariant k == Find(source, needle, from)
      invariant AdmitsFrom(u, source, mask, needle, from) == AdmitsFrom(u, source, mask, needle, 0)
      decreases |source| + 1 - from
    {
      VisibleIs(u, mask, needle, a, e, k);
      AdmitsNext(u, source, mask, needle, from);
      if mask[k + a..k + e] == needle[a..e] {
        return true;
      }
      from := k + |needle|;
      k := Find(source, needle, k + |needle|);
    }
    AdmitsNext(u, source, mask, needle, from);
    found := false;
  }

  lemma AdmitsNext(u: Classes, source: string, mask: string, needle: string, from: nat)
    requires needle != []
    ensures var m := Find(source, needle, from);
      AdmitsFrom(u, source, mask, needle, from) <==>
        m <= |source| && (Visible(u, mask, needle, m) || AdmitsFrom(u, source, mask, needle, m + |needle|))
  {
    hide Find, Visible;
  }

  lemma VisibleIs(u: Classes, mask: string, needle: string, a: nat, e: nat, k: nat)
    requires (a, e) == Window(u, needle) && a <= e <= |needle| && k + e <= |mask|
    ensures Visible(u, mask, needle, k) <==> mask[k + a..k + e] == needle[a..e]
  {
    hide Window;
  }

  // ----- what admission means -----

  lemma {:induction false} YieldsOccurs(source: string, needle: string, from: nat, k: nat)
    requires needle != [] && Yields(source, needle, from, k)
    ensures from <= k && OccursAt(source, needle, k)
    decreases |source| + 1 - from
  {
    var m := Find(source, needle, from);
    FindsFirst(source, needle, from);
    if k != m {
      YieldsOccurs(source, needle, m + |needle|, k);
    }
  }

  /** The anchor of the occurrence at `k` is code, character by character. */
  ghost predicate AnchorIsCode(u: Classes, source: string, strict: bool, needle: string, k: nat)
    requires PythonLike(u) && OccursAt(source, needle, k)
  {
    forall q :: k + AnchorStart(u, needle, 0) <= q < k + AnchorEnd(u, needle) ==>
      !Blanked(AllKinds(u, source)[q], strict)
  }

  /** One character of an identifier in an occurrence. */
  lemma AnchorCharacter(u: Classes, source: string, strict: bool, needle: string, k: nat, q: nat)
    requires PythonLike(u) && OccursAt(source, needle, k)
    requires k + AnchorStart(u, needle, 0) <= q < k + AnchorEnd(u, needle)
    ensures Masked(u, source, strict)[q] == needle[q - k] <==> !Blanked(AllKinds(u, source)[q], strict)
  {
    hide AllKinds, Masked;
    assert source[k..k + |needle|][q - k] == source[q];
    assert IdentPart(u, needle[q - k]);
    SurvivesIffCode(u, source, strict, q);
  }

  lemma SliceIsCode(mask: string, needle: string, kinds: seq<Kind>, strict: bool, k: nat, a: nat, e: nat)
    requires a <= e <= |needle| && k + |needle| <= |mask| == |kinds|
    requires forall q :: k + a <= q < k + e ==> (mask[q] == needle[q - k] <==> !Blanked(kinds[q], strict))
    ensures mask[k + a..k + e] == needle[a..e] <==> forall q :: k + a <= q < k + e ==> !Blanked(kinds[q], strict)
  {
    var m, n := mask[k + a..k + e], needle[a..e];
    if m == n {
      forall q | k + a <= q < k + e ensures mask[q] == needle[q - k] {
        assert m[q - k - a] == n[q - k - a];
      }
    } else {
      var p :| 0 <= p < |m| && m[p] != n[p];
      assert mask[k + a + p] != needle[k + a + p - k];
    }
  }

  lemma OccursFits(source: string, needle: string, k: nat)
    requires OccursAt(source, needle, k)
    ensures k + |needle| <= |source|
  {
  }

  /** At an occurrence of a needle with an identifier, the check succeeds exactly on code. */
  lemma VisibleIffCode(u: Classes, source: string, strict: bool, needle: string, k: nat)
    requires PythonLike(u) && OccursAt(source, needle, k) && AnchorStart(u, needle, 0) < |needle|
    ensures Visible(u, Masked(u, source, strict), needle, k) <==> AnchorIsCode(u, source, strict, needle, k)
  {
    hide AllKinds, Masked, PythonLike, AnchorStart, AnchorEnd, OccursAt;
    OccursFits(source, needle, k);
    var (a, e) := Window(u, needle);
    var mask, kinds := Masked(u, source, strict), AllKinds(u, source);
    forall q | k + a <= q < k + e ensures mask[q] == needle[q - k] <==> !Blanked(kinds[q], strict) {
      AnchorCharacter(u, source, strict, needle, k, q);
    }
    SliceIsCode(mask, needle, kinds, strict, k, a, e);
  }

  /** Soundness: an admitted needle occurs with its identifier in code; one that occurs only inside
      comments, strings or regex literals (or templates, in strict mode) is never admitted. */
  lemma AdmittedOnlyInCode(u: Classes, source: string, strict: bool, needle: string)
    requires PythonLike(u) && AnchorStart(u, needle, 0) < |needle|
    requires Admits(u, source, Masked(u, source, strict), needle)
    ensures exists k :: OccursAt(source, needle, k) && AnchorIsCode(u, source, strict, needle, k)
  {
    hide AllKinds, Masked, PythonLike, Visible, AnchorIsCode;
    var k :| Yields(source, needle, 0, k) && Visible(u, Masked(u, source, strict), needle, k);
    YieldsOccurs(source, needle, 0, k);
    VisibleIffCode(u, source, strict, needle, k);
  }

  /** No proper suffix of the needle is also a prefix. */
  ghost predicate BorderFree(needle: string) {
    forall d :: 0 < d < |needle| ==> needle[d..] != needle[..|needle| - d]
  }

  lemma OverlapIsBorder(source: string, needle: string, k: nat, d: nat)
    requires OccursAt(source, needle, k) && OccursAt(source, needle, k + d) && d < |needle|
    ensures needle[d..] == needle[..|needle| - d]
  {
    var n := |needle|;
    assert source[k..k + n][d..] == source[k + d..k + n];
    assert source[k + d..k + d + n][..n - d] == source[k + d..k + n];
  }

  /** No other occurrence at or after `from` overlaps the one at `k` from the left. */
  ghost predicate Unobstructed(source: string, needle: string, from: nat, k: nat) {
    forall m :: from <= m < k && OccursAt(source, needle, m) ==> m + |needle| <= k
  }

  /** An occurrence that no other overlaps from the left is always yielded, whatever the needle. */
  lemma {:induction false} YieldsUnobstructed(source: string, needle: string, from: nat, k: nat)
    requires needle != [] && OccursAt(source, needle, k) && from <= k && Unobstructed(source, needle, from, k)
    ensures Yields(source, needle, from, k)
    decreases |source| + 1 - from
  {
    var m := Find(source, needle, from);
    FindsFirst(source, needle, from);
    if m < k {
      YieldsUnobstructed(source, needle, m + |needle|, k);
    }
  }

  /** What the search decides, for every needle with an identifier: whether some match it yields has its
      identifier in code. */
  lemma AdmittedIffYieldedInCode(u: Classes, source: string, strict: bool, needle: string)
    requires PythonLike(u) && AnchorStart(u, needle, 0) < |needle|
    ensures Admits(u, source, Masked(u, source, strict), needle) <==>
      exists k ::
        Yields(source, needle, 0, k) && OccursAt(source, needle, k) && AnchorIsCode(u, source, strict, needle, k)
  {
    hide AllKinds, Masked, PythonLike, Visible, AnchorIsCode;
    forall k: nat | Yields(source, needle, 0, k)
      ensures OccursAt(source, needle, k)
      ensures Visible(u, Masked(u, source, strict), needle, k) <==> AnchorIsCode(u, source, strict, needle, k)
    {
      YieldsOccurs(source, needle, 0, k);
      VisibleIffCode(u, source, strict, needle, k);
    }
  }

  /** A needle is never missed at an occurrence in code that no other occurrence overlaps from the left. */
  lemma UnobstructedIsAdmitted(u: Classes, source: string, strict: bool, needle: string, k: nat)
    requires PythonLike(u) && AnchorStart(u, needle, 0) < |needle|
    requires OccursAt(source, needle, k) && AnchorIsCode(u, source, strict, needle, k)
    requires Unobstructed(source, needle, 0, k)
    ensures Admits(u, source, Masked(u, source, strict), needle)
  {
    hide AllKinds, Masked, PythonLike, Visible, AnchorIsCode;
    YieldsUnobstructed(source, needle, 0, k);
    AdmittedIffYieldedInCode(u, source, strict, needle);
  }

  lemma {:induction false} YieldsAll(source: string, needle: string, from: nat, k: nat)
    requires needle != [] && BorderFree(needle) && OccursAt(source, needle, k) && from <= k
    ensures Yields(source, needle, from, k)
    decreases |source| + 1 - from
  {
    var m := Find(source, needle, from);
    FindsFirst(source, needle, from);
    if m < k {
      if k - m < |needle| {
        OverlapIsBorder(source, needle, m, k - m);
      }
      YieldsAll(source, needle, m + |needle|, k);
    }
  }

  /** Completeness: a needle that cannot overlap itself is admitted exactly when it occurs somewhere
      with its identifier in code. */
  lemma AdmittedIffInCode(u: Classes, source: string, strict: bool, needle: string)
    requires PythonLike(u) && AnchorStart(u, needle, 0) < |needle| && BorderFree(needle)
    ensures Admits(u, source, Masked(u, source, strict), needle)
      <==> exists k :: OccursAt(source, needle, k) && AnchorIsCode(u, source, strict, needle, k)
  {
    hide AllKinds, Masked, PythonLike, Visible, AnchorIsCode, BorderFree;
    if k :| OccursAt(source, needle, k) && AnchorIsCode(u, source, strict, needle, k) {
      VisibleIffCode(u, source, strict, needle, k);
      YieldsAll(source, needle, 0, k);
    }
    if Admits(u, source, Masked(u, source, strict), needle) {
      AdmittedOnlyInCode(u, source, strict, needle);
    }
  }

  // ----- an overlapping needle -----

  /** A text whose first line is a comment, and a needle that occurs at 2 and, overlapping, at 4. */
  const COMMENTED := "//a\na\na"
  const OVERLAPPING := "a\na"

  lemma CommentedKinds(u: Classes)
    requires PythonLike(u) && u.alpha('a') && !u.space('/')
    ensures AllKinds(u, COMMENTED)[2].LineComment? && AllKinds(u, COMMENTED)[4].Identifier?
  {
    var s := COMMENTED;
    assert LineEnd(s, 3) == 3 && LineEnd(s, 2) == 3 && LineEnd(s, 1) == 3 && LineEnd(s, 0) == 3;
    assert Next(u, s, 0, true) == Token(LineComment, 3, true);
    assert Next(u, s, 3, true) == Token(Space, 4, true);
    assert IdentEnd(u, s, 5) == 5 && IdentEnd(u, s, 4) == 5;
    assert Next(u, s, 4, true) == Token(Identifier, 5, false);
    var k4 := Kinds(u, s, 4, true);
    assert k4 == Repeat(Identifier, 1) + Kinds(u, s, 5, false);
    var k3 := Kinds(u, s, 3, true);
    assert k3 == Repeat(Space, 1) + k4;
    assert AllKinds(u, s) == Repeat(LineComment, 3) + k3;
  }

  lemma OverlappingMatches()
    ensures OccursAt(COMMENTED, OVERLAPPING, 4)
    ensures forall k :: Yields(COMMENTED, OVERLAPPING, 0, k) <==> k == 2
  {
    var s, n := COMMENTED, OVERLAPPING;
    assert s[0..3] == "//a" && s[1..4] == "/a\n" && s[2..5] == n && s[4..7] == n && s[3..6] == "\na\n";
    assert Find(s, n, 2) == 2 && Find(s, n, 1) == 2 && Find(s, n, 0) == 2;
    assert Find(s, n, 5) == |s| + 1;
  }

  /** Without border-freedom completeness fails: the search takes the match in the comment, continues
      behind it, and never looks at the overlapping match in code. */
  lemma OverlapCanHideCode(u: Classes)
    requires PythonLike(u) && u.alpha('a') && !u.space('/')
    ensures OccursAt(COMMENTED, OVERLAPPING, 4) && AnchorIsCode(u, COMMENTED, false, OVERLAPPING, 4)
    ensures !Admits(u, COMMENTED, Masked(u, COMMENTED, false), OVERLAPPING)
  {
    hide AllKinds, Masked, Yields;
    var s, n := COMMENTED, OVERLAPPING;
    CommentedKinds(u);
    OverlappingMatches();
    assert AnchorStart(u, n, 0) == 0 && IdentEnd(u, n, 1) == 1 && AnchorEnd(u, n) == 1;
    assert s[2..5] == n;
    VisibleIffCode(u, s, false, n, 2);
    assert !AnchorIsCode(u, s, false, n, 2) by {
      assert Blanked(AllKinds(u, s)[2], false);
    }
  }
}
