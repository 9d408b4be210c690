/** The Windows part of `derive_downloader_targets`: regular expressions over the source, checked against the mask. */
module WindowsTargets {
  import opened TypescriptMask
  import opened ExecutableSearch

  const RETURN := "return"

  /** What the patterns rely on: quotes and `=` are no white space, ASCII letters, digits and `_` are. */
  ghost predicate AsciiClasses(u: Classes) {
    && PythonLike(u) && !u.space('\'') && !u.space('"') && !u.space('=')
    && forall c :: 'a' <= c <= 'z' || 'A' <= c <= 'Z' || '0' <= c <= '9' ==> u.alnum(c)
  }

  /** `\w`. */
  predicate WordChar(u: Classes, c: char) {
    u.alnum(c) || c == '_'
  }

  predicate Starts(s: string, k: nat, word: string) {
    k + |word| <= |s| && s[k..k + |word|] == word
  }

  predicate AllSpace(u: Classes, s: string, i: nat, j: nat)
    requires i <= j <= |s|
  {
    forall q :: i <= q < j ==> u.space(s[q])
  }

  /** The end of the white space at `j`. */
  function Spaces(u: Classes, s: string, j: nat): (e: nat)
    requires j <= |s|
    ensures j <= e <= |s| && AllSpace(u, s, j, e) && (e < |s| ==> !u.space(s[e]))
    decreases |s| - j
  {
    if j < |s| && u.space(s[j]) then Spaces(u, s, j + 1) else j
  }

  /** `(['"])target\1` matches at `j`. */
  predicate Quoted(s: string, j: nat, target: string) {
    && j < |s| && (s[j] == '\'' || s[j] == '"') && Starts(s, j + 1, target)
    && j + 1 + |target| < |s| && s[j + 1 + |target|] == s[j]
  }

  /** The target between two single quotes or between two double quotes. */
  lemma QuotedIs(s: string, j: nat, target: string)
    ensures Quoted(s, j, target) <==> Starts(s, j, "'" + target + "'") || Starts(s, j, "\"" + target + "\"")
  {
    var n := |target|;
    if j + n + 2 <= |s| {
      var text := s[j..j + n + 2];
      assert text == [s[j]] + s[j + 1..j + 1 + n] + [s[j + 1 + n]];
      assert s[j + 1..j + 1 + n] == text[1..n + 1];
      forall q: char
        ensures text == [q] + target + [q] <==> s[j] == q && s[j + 1 + n] == q && text[1..n + 1] == target
      {
        var word := [q] + target + [q];
        assert word[0] == q && word[n + 1] == q && word[1..n + 1] == target;
      }
      assert "'" + target + "'" == ['\''] + target + ['\''] && "\"" + target + "\"" == ['"'] + target + ['"'];
    }
  }

  // ----- the three patterns -----

  /** `return\s+(['"])target\1` matches at `k`, its quotes at `m`. */
  ghost predicate LiteralAt(u: Classes, s: string, target: string, k: nat, m: nat) {
    Starts(s, k, RETURN) && k + 6 < m <= |s| && AllSpace(u, s, k + 6, m) && Quoted(s, m, target)
  }

  /** `\bconstant\s*=\s*(['"])target\1` matches at `k`, its equals sign at `m` and its quotes at `n`. */
  ghost predicate DeclaredAt(u: Classes, s: string, constant: string, target: string, k: nat, m: nat, n: nat) {
    && (0 < k <= |s| ==> !WordChar(u, s[k - 1])) && Starts(s, k, constant)
    && k + |constant| <= m < n <= |s| && AllSpace(u, s, k + |constant|, m) && s[m] == '='
    && AllSpace(u, s, m + 1, n) && Quoted(s, n, target)
  }

  /** `return\s+constant\b` matches at `k`, the constant at `m`. */
  ghost predicate ConstantAt(u: Classes, s: string, constant: string, k: nat, m: nat) {
    && Starts(s, k, RETURN) && k + 6 < m <= |s| && AllSpace(u, s, k + 6, m) && Starts(s, m, constant)
    && (m + |constant| < |s| ==> !WordChar(u, s[m + |constant|]))
  }

  /** Where the first pattern ends when it matches at `k`, and `k` when it does not. */
  function LiteralEnd(u: Classes, s: string, target: string, k: nat): nat {
    if Starts(s, k, RETURN) && Spaces(u, s, k + 6) > k + 6 && Quoted(s, Spaces(u, s, k + 6), target)
    then Spaces(u, s, k + 6) + |target| + 2 else k
  }

  function DeclaredEnd(u: Classes, s: string, constant: string, target: string, k: nat): nat {
    if (k == 0 || k > |s| || !WordChar(u, s[k - 1])) && Starts(s, k, constant) then
      var m := Spaces(u, s, k + |constant|);
      if m < |s| && s[m] == '=' && Quoted(s, Spaces(u, s, m + 1), target)
      then Spaces(u, s, m + 1) + |target| + 2 else k
    else k
  }

  predicate IsConstant(u: Classes, s: string, constant: string, k: nat) {
    && Starts(s, k, RETURN) && var m := Spaces(u, s, k + 6);
    m > k + 6 && Starts(s, m, constant) && (m + |constant| < |s| ==> !WordChar(u, s[m + |constant|]))
  }

  /** White space runs up to the first character that is none, so there is one place to look. */
  lemma SpacesEnd(u: Classes, s: string, i: nat, m: nat)
    requires i <= m < |s| && AllSpace(u, s, i, m) && !u.space(s[m])
    ensures Spaces(u, s, i) == m
  {
    var e := Spaces(u, s, i);
    assert AllSpace(u, s, i, e);
  }

  lemma LiteralEndIs(u: Classes, s: string, target: string, k: nat)
    requires AsciiClasses(u)
    ensures LiteralEnd(u, s, target, k) > k <==> exists m: nat :: LiteralAt(u, s, target, k, m)
  {
    if m: nat :| LiteralAt(u, s, target, k, m) {
      SpacesEnd(u, s, k + 6, m);
    }
    if LiteralEnd(u, s, target, k) > k {
      assert LiteralAt(u, s, target, k, Spaces(u, s, k + 6));
    }
  }

  lemma DeclaredMatches(u: Classes, s: string, constant: string, target: string, k: nat, m: nat, n: nat)
    requires AsciiClasses(u) && DeclaredAt(u, s, constant, target, k, m, n)
    ensures DeclaredEnd(u, s, constant, target, k) == n + |target| + 2 > k
  {
    hide WordChar, AllSpace;
    QuoteIsNoSpace(u, s, n, target);
    SpacesEnd(u, s, k + |constant|, m);
    SpacesEnd(u, s, m + 1, n);
  }

  lemma QuoteIsNoSpace(u: Classes, s: string, n: nat, target: string)
    requires AsciiClasses(u) && Quoted(s, n, target)
    ensures n < |s| && !u.space(s[n])
  {
  }

  lemma DeclaredEndIs(u: Classes, s: string, constant: string, target: string, k: nat)
    requires AsciiClasses(u)
    ensures DeclaredEnd(u, s, constant, target, k) > k <==>
      exists m: nat, n: nat :: DeclaredAt(u, s, constant, target, k, m, n)
  {
    hide Starts, Quoted, WordChar, AllSpace;
    if m: nat, n: nat :| DeclaredAt(u, s, constant, target, k, m, n) {
      DeclaredMatches(u, s, constant, target, k, m, n);
    }
    if DeclaredEnd(u, s, constant, target, k) > k {
      var m := Spaces(u, s, k + |constant|);
      assert DeclaredAt(u, s, constant, target, k, m, Spaces(u, s, m + 1));
    }
  }

  lemma IsConstantIs(u: Classes, s: string, constant: string, k: nat)
    requires AsciiClasses(u) && constant != [] && !u.space(constant[0])
    ensures IsConstant(u, s, constant, k) <==> exists m: nat :: ConstantAt(u, s, constant, k, m)
  {
    if m: nat :| ConstantAt(u, s, constant, k, m) {
      assert s[m..m + |constant|][0] == s[m];
      SpacesEnd(u, s, k + 6, m);
    }
    if IsConstant(u, s, constant, k) {
      assert ConstantAt(u, s, constant, k, Spaces(u, s, k + 6));
    }
  }

  // ----- matches never overlap, so `re.finditer` yields them all -----

  /** A target in which no second match of the patterns can start. */
  ghost predicate PlainTarget(target: string, constant: string) {
    && (forall q :: 0 <= q < |target| - 1 ==> target[q] != 'r' || target[q + 1] != 'e')
    && constant != [] && 'A' <= constant[0] <= 'Z'
    && (forall q :: 0 <= q < |constant| ==>
          'A' <= constant[q] <= 'Z' || '0' <= constant[q] <= '9' || constant[q] == '_')
    && (forall q :: 0 <= q < |target| ==> target[q] != constant[0])
  }

  lemma StartsAtIs(s: string, k: nat, word: string, q: nat)
    requires Starts(s, k, word) && q < |word|
    ensures k + q < |s| && s[k + q] == word[q]
  {
    assert s[k..k + |word|][q] == s[k + q];
  }

  lemma LiteralsApart(u: Classes, s: string, target: string, constant: string, k: nat, m: nat, j: nat)
    requires AsciiClasses(u) && PlainTarget(target, constant) && LiteralAt(u, s, target, k, m)
    requires k < j < m + |target| + 2
    ensures !Starts(s, j, RETURN)
  {
    hide Starts;
    if Starts(s, j, RETURN) {
      StartsAtIs(s, j, RETURN, 0);
      StartsAtIs(s, j, RETURN, 1);
      if j < k + 6 {
        StartsAtIs(s, k, RETURN, j - k);
        if j + 1 < k + 6 {
          StartsAtIs(s, k, RETURN, j + 1 - k);
        }
      } else if m < j <= m + |target| {
        StartsAtIs(s, m + 1, target, j - m - 1);
        if j < m + |target| {
          StartsAtIs(s, m + 1, target, j - m);
        }
      }
    }
  }

  lemma DeclarationsApart(u: Classes, s: string, constant: string, target: string, k: nat, m: nat, n: nat, j: nat)
    requires AsciiClasses(u) && PlainTarget(target, constant) && DeclaredAt(u, s, constant, target, k, m, n)
    requires k < j < n + |target| + 2 && j <= |s|
    ensures WordChar(u, s[j - 1]) || !Starts(s, j, constant)
  {
    hide Starts;
    if Starts(s, j, constant) {
      StartsAtIs(s, j, constant, 0);
      if j < k + |constant| {
        StartsAtIs(s, k, constant, j - 1 - k);
      } else if n < j <= n + |target| {
        StartsAtIs(s, n + 1, target, j - n - 1);
      }
    }
  }

  /** The loop over the first pattern: some match whose `return` survives in the mask. */
  method FindLiteral(u: Classes, source: string, mask: string, target: string, ghost constant: string)
    returns (found: bool)
    requires AsciiClasses(u) && PlainTarget(target, constant)
    ensures found <==> exists k :: LiteralEnd(u, source, target, k) > k && Starts(mask, k, RETURN)
  {
    hide LiteralEnd, Starts, PlainTarget;
    var k := 0;
    while k < |source|
      invariant forall j :: 0 <= j < k && LiteralEnd(u, source, target, j) > j ==> !Starts(mask, j, RETURN)
      decreases |source| - k
    {
      var e := LiteralEnd(u, source, target, k);
      if e > k {
        if Starts(mask, k, RETURN) {
          return true;
        }
        forall j: nat | k < j < e ensures LiteralEnd(u, source, target, j) <= j {
          NoLiteralWithin(u, source, target, constant, k, j);
        }
        k := e;
      } else {
        k := k + 1;
      }
    }
    PlainConstant(target, constant);
    forall j: nat | j >= |source| ensures LiteralEnd(u, source, target, j) <= j {
      NothingBehind(u, source, target, constant, j);
    }
    found := false;
  }

  lemma NoLiteralWithin(u: Classes, s: string, target: string, constant: string, k: nat, j: nat)
    requires AsciiClasses(u) && PlainTarget(target, constant) && k < j < LiteralEnd(u, s, target, k)
    ensures LiteralEnd(u, s, target, j) <= j
  {
    hide Starts, Quoted, PlainTarget;
    var m := Spaces(u, s, k + 6);
    assert LiteralAt(u, s, target, k, m);
    LiteralsApart(u, s, target, constant, k, m, j);
  }

  lemma NothingBehind(u: Classes, s: string, target: string, constant: string, j: nat)
    requires j >= |s| && constant != []
    ensures LiteralEnd(u, s, target, j) <= j && DeclaredEnd(u, s, constant, target, j) <= j
  {
  }

  /** The loop over the second pattern: some match whose constant survives in the mask. */
  method FindDeclaration(u: Classes, source: string, mask: string, constant: string, target: string)
    returns (found: bool)
    requires AsciiClasses(u) && PlainTarget(target, constant)
    ensures found <==> exists k :: DeclaredEnd(u, source, constant, target, k) > k && Starts(mask, k, constant)
  {
    hide DeclaredEnd, Starts, PlainTarget;
    var k := 0;
    while k < |source|
      invariant forall j :: 0 <= j < k && DeclaredEnd(u, source, constant, target, j) > j ==> !Starts(mask, j, constant)
      decreases |source| - k
    {
      var e := DeclaredEnd(u, source, constant, target, k);
      if e > k {
        if Starts(mask, k, constant) {
          return true;
        }
        forall j: nat | k < j < e ensures DeclaredEnd(u, source, constant, target, j) <= j {
          NoDeclarationWithin(u, source, constant, target, k, j);
        }
        k := e;
      } else {
        k := k + 1;
      }
    }
    PlainConstant(target, constant);
    forall j: nat | j >= |source| ensures DeclaredEnd(u, source, constant, target, j) <= j {
      NothingBehind(u, source, target, constant, j);
    }
    found := false;
  }

  lemma PlainConstant(target: string, constant: string)
    requires PlainTarget(target, constant)
    ensures constant != [] && 'A' <= constant[0] <= 'Z'
  {
  }

  lemma NoDeclarationWithin(u: Classes, s: string, constant: string, target: string, k: nat, j: nat)
    requires AsciiClasses(u) && PlainTarget(target, constant) && k < j < DeclaredEnd(u, s, constant, target, k)
    ensures DeclaredEnd(u, s, constant, target, j) <= j
  {
    hide Starts, Quoted, PlainTarget, WordChar;
    var m := Spaces(u, s, k + |constant|);
    var n := Spaces(u, s, m + 1);
    assert DeclaredAt(u, s, constant, target, k, m, n);
    EndInside(s, n, target);
    DeclarationsApart(u, s, constant, target, k, m, n, j);
  }

  lemma EndInside(s: string, n: nat, target: string)
    requires Quoted(s, n, target)
    ensures n + |target| + 2 <= |s|
  {
  }

  /** `re.search` for the third pattern. */
  method FindConstant(u: Classes, mask: string, constant: string) returns (found: bool)
    requires constant != []
    ensures found <==> exists k :: IsConstant(u, mask, constant, k)
  {
    hide IsConstant;
    var k := 0;
    while k < |mask|
      invariant forall j :: 0 <= j < k ==> !IsConstant(u, mask, constant, j)
    {
      if IsConstant(u, mask, constant, k) {
        return true;
      }
      k := k + 1;
    }
    forall j: nat | j >= |mask| ensures !IsConstant(u, mask, constant, j) {
      NoConstantBehind(u, mask, constant, j);
    }
    found := false;
  }

  lemma NoConstantBehind(u: Classes, s: string, constant: string, j: nat)
    requires j >= |s|
    ensures !IsConstant(u, s, constant, j)
  {
  }

  // ----- what a match in the mask says about the source -----

  ghost predicate IsCode(u: Classes, s: string, strict: bool, p: nat)
    requires PythonLike(u)
  {
    p < |s| && !Blanked(AllKinds(u, s)[p], strict)
  }

  /** `word` stands at `k`, all of it in code. */
  ghost predicate CodeWord(u: Classes, s: string, strict: bool, k: nat, word: string)
    requires PythonLike(u)
  {
    Starts(s, k, word) && forall p :: k <= p < k + |word| ==> IsCode(u, s, strict, p)
  }

  /** One character of a word survives in the mask where it stands in code, and nowhere else. */
  lemma CharSurvives(u: Classes, s: string, strict: bool, p: nat, c: char)
    requires PythonLike(u) && p < |s| && !u.space(c)
    ensures Masked(u, s, strict)[p] == c <==> s[p] == c && IsCode(u, s, strict, p)
  {
    hide AllKinds, Masked;
    MaskShape(u, s, strict, p);
    if s[p] == c {
      SurvivesIffCode(u, s, strict, p);
    }
  }

  ghost predicate NoSpaceIn(u: Classes, word: string) {
    forall q :: 0 <= q < |word| ==> !u.space(word[q])
  }

  /** A word without white space stands in the mask exactly where it stands in code. */
  lemma WordSurvives(u: Classes, s: string, strict: bool, k: nat, word: string)
    requires PythonLike(u) && NoSpaceIn(u, word)
    ensures Starts(Masked(u, s, strict), k, word) <==> CodeWord(u, s, strict, k, word)
  {
    hide PythonLike, AllKinds, Masked, IsCode;
    var mask := Masked(u, s, strict);
    if k + |word| <= |s| {
      forall p | k <= p < k + |word|
        ensures mask[p] == word[p - k] <==> s[p] == word[p - k] && IsCode(u, s, strict, p)
      {
        CharSurvives(u, s, strict, p, word[p - k]);
      }
      StartsIff(mask, k, word);
      StartsIff(s, k, word);
    }
  }

  lemma StartsIff(s: string, k: nat, word: string)
    requires k + |word| <= |s|
    ensures Starts(s, k, word) <==> forall p :: k <= p < k + |word| ==> s[p] == word[p - k]
  {
    if Starts(s, k, word) {
      forall p | k <= p < k + |word| ensures s[p] == word[p - k] {
        StartsAtIs(s, k, word, p - k);
      }
    }
  }

  /** Blanks read as white space and as no word character. */
  lemma BlanksSeparate(u: Classes, s: string, strict: bool, p: nat)
    requires PythonLike(u) && p < |s|
    ensures u.space(Masked(u, s, strict)[p]) <==> u.space(s[p]) || !IsCode(u, s, strict, p)
    ensures WordChar(u, Masked(u, s, strict)[p]) <==> WordChar(u, s[p]) && IsCode(u, s, strict, p)
  {
    hide AllKinds, Masked;
    MaskShape(u, s, strict, p);
    if !u.space(s[p]) {
      SurvivesIffCode(u, s, strict, p);
    }
  }

  /** What lies between `i` and `j` is white space, comment, string, regex or template text. */
  ghost predicate NoCodeBetween(u: Classes, s: string, i: nat, j: nat)
    requires PythonLike(u) && i <= j <= |s|
  {
    forall p :: i <= p < j ==> u.space(s[p]) || !IsCode(u, s, true, p)
  }

  /** The code at `k` returns the constant, which stands at `m`. */
  ghost predicate ReturnsConstant(u: Classes, s: string, constant: string, k: nat, m: nat)
    requires PythonLike(u)
  {
    && CodeWord(u, s, true, k, RETURN) && k + 6 < m <= |s| && NoCodeBetween(u, s, k + 6, m)
    && CodeWord(u, s, true, m, constant)
    && (m + |constant| < |s| ==> !WordChar(u, s[m + |constant|]) || !IsCode(u, s, true, m + |constant|))
  }

  /** The search in the strict mask finds the statements that return the constant, comments and strings aside. */
  lemma ConstantAtIsReturn(u: Classes, s: string, constant: string, k: nat, m: nat)
    requires PythonLike(u) && NoSpaceIn(u, RETURN) && NoSpaceIn(u, constant)
    ensures ConstantAt(u, Masked(u, s, true), constant, k, m) <==> ReturnsConstant(u, s, constant, k, m)
  {
    hide PythonLike, AllKinds, Masked, IsCode, WordChar, CodeWord, Starts;
    WordSurvives(u, s, true, k, RETURN);
    WordSurvives(u, s, true, m, constant);
    forall p: nat | p < |s|
      ensures u.space(Masked(u, s, true)[p]) <==> u.space(s[p]) || !IsCode(u, s, true, p)
      ensures WordChar(u, Masked(u, s, true)[p]) <==> WordChar(u, s[p]) && IsCode(u, s, true, p)
    {
      BlanksSeparate(u, s, true, p);
    }
  }

  // ----- one Windows target -----

  ghost predicate ReturnsLiteral(u: Classes, source: string, target: string)
    requires PythonLike(u)
  {
    exists k: nat, m: nat :: LiteralAt(u, source, target, k, m) && CodeWord(u, source, false, k, RETURN)
  }

  ghost predicate DeclaresConstant(u: Classes, source: string, constant: string, target: string)
    requires PythonLike(u)
  {
    exists k: nat, m: nat, n: nat ::
      DeclaredAt(u, source, constant, target, k, m, n) && CodeWord(u, source, false, k, constant)
  }

  /** The target is returned in code, as a literal or through a constant declared in code. */
  ghost predicate ReturnsTarget(u: Classes, source: string, constant: string, target: string)
    requires PythonLike(u)
  {
    || ReturnsLiteral(u, source, target)
    || (DeclaresConstant(u, source, constant, target)
        && exists k: nat :: ReturnsConstantAt(u, source, constant, k))
  }

  lemma LiteralFound(u: Classes, source: string, target: string)
    requires AsciiClasses(u) && NoSpaceIn(u, RETURN)
    ensures ReturnsLiteral(u, source, target) <==>
      exists k: nat :: LiteralEnd(u, source, target, k) > k && Starts(Masked(u, source, false), k, RETURN)
  {
    hide LiteralEnd, LiteralAt, Starts, Masked, CodeWord, AsciiClasses;
    assert PythonLike(u) by { PythonClasses(u); }
    forall k: nat
      ensures LiteralEnd(u, source, target, k) > k <==> exists m: nat :: LiteralAt(u, source, target, k, m)
      ensures Starts(Masked(u, source, false), k, RETURN) <==> CodeWord(u, source, false, k, RETURN)
    {
      LiteralEndIs(u, source, target, k);
      WordSurvives(u, source, false, k, RETURN);
    }
  }

  lemma PythonClasses(u: Classes)
    requires AsciiClasses(u)
    ensures PythonLike(u)
  {
  }

  lemma DeclarationFound(u: Classes, source: string, constant: string, target: string)
    requires AsciiClasses(u) && NoSpaceIn(u, constant)
    ensures DeclaresConstant(u, source, constant, target) <==>
      exists k: nat :: DeclaredEnd(u, source, constant, target, k) > k && Starts(Masked(u, source, false), k, constant)
  {
    hide DeclaredEnd, DeclaredAt, Starts, Masked, CodeWord, AsciiClasses;
    assert PythonLike(u) by { PythonClasses(u); }
    forall k: nat
      ensures DeclaredEnd(u, source, constant, target, k) > k <==>
        exists m: nat, n: nat :: DeclaredAt(u, source, constant, target, k, m, n)
      ensures Starts(Masked(u, source, false), k, constant) <==> CodeWord(u, source, false, k, constant)
    {
      DeclaredEndIs(u, source, constant, target, k);
      WordSurvives(u, source, false, k, constant);
    }
  }

  ghost predicate ReturnsConstantAt(u: Classes, s: string, constant: string, k: nat)
    requires PythonLike(u)
  {
    exists m: nat :: ReturnsConstant(u, s, constant, k, m)
  }

  lemma ReturnFound(u: Classes, source: string, constant: string)
    requires AsciiClasses(u) && NoSpaceIn(u, RETURN) && NoSpaceIn(u, constant) && constant != []
    ensures (exists k: nat :: ReturnsConstantAt(u, source, constant, k)) <==>
      exists k: nat :: IsConstant(u, Masked(u, source, true), constant, k)
  {
    hide IsConstant, ConstantAt, ReturnsConstant, Masked, AsciiClasses;
    assert PythonLike(u) by { PythonClasses(u); }
    forall k: nat
      ensures IsConstant(u, Masked(u, source, true), constant, k) <==> ReturnsConstantAt(u, source, constant, k)
    {
      IsConstantIs(u, Masked(u, source, true), constant, k);
      forall m: nat
        ensures ConstantAt(u, Masked(u, source, true), constant, k, m) <==> ReturnsConstant(u, source, constant, k, m)
      {
        ConstantAtIsReturn(u, source, constant, k, m);
      }
    }
  }

  lemma PlainWords(u: Classes, target: string, constant: string)
    requires AsciiClasses(u) && PlainTarget(target, constant)
    ensures NoSpaceIn(u, RETURN) && NoSpaceIn(u, constant) && constant != []
  {
  }

  /** The body of the loop over the Windows targets. */
  method FindWindowsTarget(u: Classes, source: string, mask: string, strictMask: string, constant: string,
                           target: string)
    returns (found: bool)
    requires AsciiClasses(u) && PlainTarget(target, constant)
    requires mask == Masked(u, source, false) && strictMask == Masked(u, source, true)
    ensures found <==> ReturnsTarget(u, source, constant, target)
  {
    hide Masked, PlainTarget, AsciiClasses, LiteralEnd, DeclaredEnd, IsConstant, Starts;
    hide ReturnsLiteral, DeclaresConstant, ReturnsConstantAt;
    PlainWords(u, target, constant);
    LiteralFound(u, source, target);
    DeclarationFound(u, source, constant, target);
    ReturnFound(u, source, constant);
    var literal := FindLiteral(u, source, mask, target, constant);
    var returned := FindConstant(u, strictMask, constant);
    var declared := FindDeclaration(u, source, mask, constant, target);
    found := literal || (declared && returned);
  }

  // ----- the two targets -----

  const X64 := "WINDOWS_X64_TARGET"
  const ARM64 := "WINDOWS_ARM64_TARGET"
  const X64_TARGET := "x86_64-pc-windows-msvc"
  const ARM64_TARGET := "aarch64-pc-windows-msvc"

  lemma X64IsPlain()
    ensures PlainTarget(X64_TARGET, X64)
  {
  }

  lemma Arm64IsPlain()
    ensures PlainTarget(ARM64_TARGET, ARM64)
  {
  }
}
