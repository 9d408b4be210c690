/** What the lexer does, said without it: the one way to cut a text into tokens, and where a slash may open a regex. */
module LexicalGrammar {
  import opened TypescriptMask

  ghost predicate IsComment(kind: Kind) {
    kind.LineComment? || kind.BlockComment?
  }

  /** A character that counts when looking back: no comment, and no white space except a newline. */
  ghost predicate Counts(s: string, kinds: seq<Kind>, p: nat)
    requires p < |s| == |kinds|
  {
    !IsComment(kinds[p]) && (kinds[p].Space? ==> s[p] == '\n')
  }

  ghost predicate CountsLast(s: string, kinds: seq<Kind>, p: nat, i: nat)
    requires p < i <= |s| == |kinds|
  {
    Counts(s, kinds, p) && forall q :: p < q < i ==> !Counts(s, kinds, q)
  }

  /** Term position: the last character before `i` that counts does not exist, is a newline, or is punctuation that a
      value may follow. */
  ghost predicate TermAt(s: string, kinds: seq<Kind>, i: nat)
    requires i <= |s| == |kinds|
  {
    forall p :: 0 <= p < i && CountsLast(s, kinds, p, i) ==> OpensTerm(s, kinds, p)
  }

  ghost predicate OpensTerm(s: string, kinds: seq<Kind>, p: nat)
    requires p < |s| == |kinds|
  {
    kinds[p].Space? || (kinds[p].Punctuation? && s[p] in {'=', '(', '[', ',', ';', '{', '}', '?', ':', '!', '&', '|',
                                                            '~', '+', '-', '*', '/', '%', '<', '>', '^'})
  }

  /** The characters from `i` to `end` are one token. */
  ghost predicate TokenAt(u: Classes, s: string, kinds: seq<Kind>, i: nat, end: nat)
    requires |s| == |kinds|
  {
    && i < end <= |s| && IsToken(u, s, i, TermAt(s, kinds, i), kinds[i], end)
    && forall p :: i <= p < end ==> kinds[p] == kinds[i]
  }

  /** From `i` on, the text is cut into tokens of these kinds. */
  ghost predicate LexesFrom(u: Classes, s: string, kinds: seq<Kind>, i: nat)
    requires i <= |s| == |kinds|
    decreases |s| - i
  {
    i == |s| || exists end: nat :: TokenAt(u, s, kinds, i, end) && LexesFrom(u, s, kinds, end)
  }

  ghost predicate Lexes(u: Classes, s: string, kinds: seq<Kind>) {
    |s| == |kinds| && LexesFrom(u, s, kinds, 0)
  }

  // ----- one token -----

  lemma OneBlock(s: string, i: nat, k: nat, end: nat, k': nat, end': nat)
    requires BlockSpan(s, i, k, end) && BlockSpan(s, i, k', end')
    ensures end == end'
  {
  }

  lemma OneStop(s: string, from: nat, k: nat, k': nat, stops: set<char>)
    requires IsFirstStop(s, from, k, stops) && IsFirstStop(s, from, k', stops)
    ensures k == k'
  {
  }

  lemma OneRegexSpan(s: string, i: nat, k: nat, taken: bool, k': nat, taken': bool)
    requires i < |s| && RegexSpan(s, i, k, taken) && RegexSpan(s, i, k', taken')
    ensures k == k' && taken == taken'
  {
    hide IsRegexStop;
    OneRegexStop(s, i + 1, k, k');
  }

  lemma OneRegexEnd(s: string, i: nat, k: nat, end: nat, k': nat, end': nat)
    requires i < |s| && RegexEnds(s, i, k, end) && RegexEnds(s, i, k', end')
    ensures end == end'
  {
    OneRegexSpan(s, i, k, true, k', true);
  }

  lemma OneString(s: string, i: nat, k: nat, end: nat, k': nat, end': nat)
    requires i < |s| && StringSpan(s, i, k, end) && StringSpan(s, i, k', end')
    ensures end == end'
  {
    OneStop(s, i + 1, k, k', {s[i], '\n'});
  }

  lemma OneTemplate(s: string, i: nat, k: nat, end: nat, k': nat, end': nat)
    requires TemplateSpan(s, i, k, end) && TemplateSpan(s, i, k', end')
    ensures end == end'
  {
    OneStop(s, i + 1, k, k', {'`'});
  }

  lemma TakenOrNot(s: string, i: nat, end: nat)
    requires i < |s| && RegexTo(s, i, end)
    ensures !NoRegex(s, i)
  {
    hide RegexSpan;
    var k: nat :| RegexEnds(s, i, k, end);
    if k': nat :| RegexSpan(s, i, k', false) {
      OneRegexSpan(s, i, k, true, k', false);
    }
  }

  lemma OneKind(u: Classes, s: string, i: nat, term: bool, kind: Kind, end: nat, kind': Kind, end': nat)
    requires i < |s| && IsToken(u, s, i, term, kind, end) && IsToken(u, s, i, term, kind', end')
    ensures kind == kind'
  {
    hide RegexTo, NoRegex, BlockTo, StringTo, TemplateTo;
    if RegexTo(s, i, end) {
      TakenOrNot(s, i, end);
    }
    if RegexTo(s, i, end') {
      TakenOrNot(s, i, end');
    }
  }

  lemma OneEnd(s: string, i: nat, end: nat, end': nat)
    requires i < |s|
    ensures BlockTo(s, i, end) && BlockTo(s, i, end') ==> end == end'
    ensures StringTo(s, i, end) && StringTo(s, i, end') ==> end == end'
    ensures TemplateTo(s, i, end) && TemplateTo(s, i, end') ==> end == end'
    ensures RegexTo(s, i, end) && RegexTo(s, i, end') ==> end == end'
  {
    hide BlockSpan, StringSpan, TemplateSpan, RegexEnds;
    forall k: nat, k': nat ensures BlockSpan(s, i, k, end) && BlockSpan(s, i, k', end') ==> end == end' {
      if BlockSpan(s, i, k, end) && BlockSpan(s, i, k', end') {
        OneBlock(s, i, k, end, k', end');
      }
    }
    forall k: nat, k': nat ensures StringSpan(s, i, k, end) && StringSpan(s, i, k', end') ==> end == end' {
      if StringSpan(s, i, k, end) && StringSpan(s, i, k', end') {
        OneString(s, i, k, end, k', end');
      }
    }
    forall k: nat, k': nat ensures TemplateSpan(s, i, k, end) && TemplateSpan(s, i, k', end') ==> end == end' {
      if TemplateSpan(s, i, k, end) && TemplateSpan(s, i, k', end') {
        OneTemplate(s, i, k, end, k', end');
      }
    }
    forall k: nat, k': nat ensures RegexEnds(s, i, k, end) && RegexEnds(s, i, k', end') ==> end == end' {
      if RegexEnds(s, i, k, end) && RegexEnds(s, i, k', end') {
        OneRegexEnd(s, i, k, end, k', end');
      }
    }
  }

  /** The text and the term position determine the token. */
  lemma OneToken(u: Classes, s: string, i: nat, term: bool, kind: Kind, end: nat, kind': Kind, end': nat)
    requires i < |s| && IsToken(u, s, i, term, kind, end) && IsToken(u, s, i, term, kind', end')
    ensures kind == kind' && end == end'
  {
    hide RegexTo, NoRegex, BlockTo, StringTo, TemplateTo, NoLiteral;
    OneKind(u, s, i, term, kind, end, kind', end');
    OneEnd(s, i, end, end');
  }

  // ----- looking back -----

  lemma NothingCounts(s: string, kinds: seq<Kind>, i: nat, end: nat)
    requires i <= end <= |s| == |kinds| && forall p :: i <= p < end ==> !Counts(s, kinds, p)
    ensures TermAt(s, kinds, end) <==> TermAt(s, kinds, i)
  {
    forall p: nat | p < i ensures CountsLast(s, kinds, p, end) <==> CountsLast(s, kinds, p, i) {
    }
  }

  lemma LastCounts(s: string, kinds: seq<Kind>, end: nat)
    requires 0 < end <= |s| == |kinds| && Counts(s, kinds, end - 1)
    ensures TermAt(s, kinds, end) <==> OpensTerm(s, kinds, end - 1)
  {
    assert CountsLast(s, kinds, end - 1, end);
  }

  /** The flag the lexer carries along is the term position. */
  lemma TermStep(u: Classes, s: string, kinds: seq<Kind>, i: nat, end: nat)
    requires |s| == |kinds| && TokenAt(u, s, kinds, i, end)
    ensures Next(u, s, i, TermAt(s, kinds, i)) == Token(kinds[i], end, TermAt(s, kinds, end))
  {
    hide IsToken, TermAt;
    var term := TermAt(s, kinds, i);
    var t := Next(u, s, i, term);
    NextIsToken(u, s, i, term);
    OneToken(u, s, i, term, kinds[i], end, t.kind, t.end);
    NextCarries(u, s, i, term);
    assert kinds[end - 1] == kinds[i];
    if IsComment(kinds[i]) || (kinds[i].Space? && s[i] != '\n') {
      NothingCounts(s, kinds, i, end);
    } else {
      LastCounts(s, kinds, end);
    }
  }

  /** The flag behind a token, kind by kind. */
  lemma NextCarries(u: Classes, s: string, i: nat, term: bool)
    requires i < |s|
    ensures var t := Next(u, s, i, term);
      && (IsComment(t.kind) ==> t.expectTerm == term)
      && (t.kind.Space? ==> t.end == i + 1 && t.expectTerm == (s[i] == '\n' || term))
      && (t.kind.Punctuation? ==> t.end == i + 1 && t.expectTerm == (s[i] in REGEX_STARTERS))
      && (!IsComment(t.kind) && !t.kind.Space? && !t.kind.Punctuation? ==> !t.expectTerm)
  {
    hide LineEnd, BlockEnd, StringEnd, TemplateEnd, RegexEnd, IdentEnd, NumberEnd;
  }

  // ----- the lexer finds the one way to cut the text -----

  lemma {:induction false} LexedAs(u: Classes, s: string, kinds: seq<Kind>, i: nat)
    requires PythonLike(u) && i <= |s| == |kinds| && LexesFrom(u, s, kinds, i)
    ensures kinds[i..] == Kinds(u, s, i, TermAt(s, kinds, i))
    decreases |s| - i
  {
    hide IsToken, TermAt, PythonLike, Next;
    if i < |s| {
      var end: nat :| TokenAt(u, s, kinds, i, end) && LexesFrom(u, s, kinds, end);
      TermStep(u, s, kinds, i, end);
      LexedAs(u, s, kinds, end);
      assert kinds[i..] == kinds[i..end] + kinds[end..];
      assert kinds[i..end] == Repeat(kinds[i], end - i);
    }
  }

  lemma {:induction false} CutFrom(u: Classes, s: string, kinds: seq<Kind>, i: nat)
    requires PythonLike(u) && i <= |s| == |kinds| && kinds[i..] == Kinds(u, s, i, TermAt(s, kinds, i))
    ensures LexesFrom(u, s, kinds, i)
    decreases |s| - i
  {
    hide IsToken, TermAt, PythonLike, Next;
    if i < |s| {
      var t := Next(u, s, i, TermAt(s, kinds, i));
      NextAdvances(u, s, i, TermAt(s, kinds, i));
      NextIsToken(u, s, i, TermAt(s, kinds, i));
      Unfold(u, s, kinds, i, TermAt(s, kinds, i), t);
      assert TokenAt(u, s, kinds, i, t.end);
      TermStep(u, s, kinds, i, t.end);
      CutFrom(u, s, kinds, t.end);
    }
  }

  /** There is exactly one way to cut a text into tokens in which a slash opens a regex only in term position, and it
      is the lexer's. */
  lemma LexesIff(u: Classes, s: string, kinds: seq<Kind>)
    requires PythonLike(u)
    ensures Lexes(u, s, kinds) <==> kinds == AllKinds(u, s)
  {
    hide PythonLike, Kinds, LexesFrom;
    if |s| == |kinds| {
      assert TermAt(s, kinds, 0) && kinds[0..] == kinds;
      if Lexes(u, s, kinds) {
        LexedAs(u, s, kinds, 0);
      }
      if kinds == AllKinds(u, s) {
        CutFrom(u, s, kinds, 0);
      }
    }
  }

  // ----- slashes -----

  /** The token around a character. */
  lemma {:induction false} TokenAround(u: Classes, s: string, kinds: seq<Kind>, i: nat, q: nat)
    returns (a: nat, end: nat)
    requires i <= q < |s| == |kinds| && LexesFrom(u, s, kinds, i)
    ensures i <= a <= q < end && TokenAt(u, s, kinds, a, end)
    decreases |s| - i
  {
    hide IsToken, TermAt;
    var e: nat :| TokenAt(u, s, kinds, i, e) && LexesFrom(u, s, kinds, e);
    if q < e {
      a, end := i, e;
    } else {
      a, end := TokenAround(u, s, kinds, e, q);
    }
  }

  /** No regex starts behind an identifier, a number, a string or a template on the same line, nor behind a closing
      bracket or other punctuation that ends a value, whatever comments and blanks stand between. */
  lemma NoRegexBehindValue(u: Classes, s: string, p: nat, q: nat)
    requires PythonLike(u) && p < q < |s|
    requires var kinds := AllKinds(u, s);
      CountsLast(s, kinds, p, q) && !OpensTerm(s, kinds, p) && !kinds[p].Regex?
    ensures !AllKinds(u, s)[q].Regex?
  {
    hide AllKinds, PythonLike;
    var kinds := AllKinds(u, s);
    LexesIff(u, s, kinds);
    if kinds[q].Regex? {
      var a, end := TokenAround(u, s, kinds, 0, q);
    }
  }

  // ----- the mask -----

  /** Comments, strings and regex literals are blanked, template literals in strict mode only, newlines never;
      everything else stays. */
  ghost function Shown(kind: Kind, c: char, strict: bool): char {
    if c == '\n' then '\n'
    else match kind
      case LineComment => ' '
      case BlockComment => ' '
      case Str => ' '
      case Regex => ' '
      case Template => if strict then ' ' else c
      case Space => c
      case Identifier => c
      case Number => c
      case Punctuation => c
  }

  ghost predicate MasksTo(s: string, kinds: seq<Kind>, strict: bool, out: string) {
    |out| == |s| == |kinds| && forall p :: 0 <= p < |s| ==> out[p] == Shown(kinds[p], s[p], strict)
  }

  lemma MaskIs(u: Classes, s: string, strict: bool, kinds: seq<Kind>)
    requires PythonLike(u) && Lexes(u, s, kinds)
    ensures MasksTo(s, kinds, strict, Masked(u, s, strict))
  {
    hide AllKinds, PythonLike, Lexes;
    LexesIff(u, s, kinds);
    forall p | 0 <= p < |s| ensures Masked(u, s, strict)[p] == MaskChar(kinds[p], s[p], strict) {
    }
  }

  /** The mask is the one text that the grammar gives. */
  lemma MaskedIff(u: Classes, s: string, strict: bool, out: string)
    requires PythonLike(u)
    ensures out == Masked(u, s, strict) <==> exists kinds :: Lexes(u, s, kinds) && MasksTo(s, kinds, strict, out)
  {
    hide AllKinds, PythonLike, Lexes, Masked, MasksTo;
    LexesIff(u, s, AllKinds(u, s));
    MaskIs(u, s, strict, AllKinds(u, s));
    if kinds :| Lexes(u, s, kinds) && MasksTo(s, kinds, strict, out) {
      MaskIs(u, s, strict, kinds);
      OneMask(s, kinds, strict, out, Masked(u, s, strict));
    }
  }

  lemma OneMask(s: string, kinds: seq<Kind>, strict: bool, a: string, b: string)
    requires MasksTo(s, kinds, strict, a) && MasksTo(s, kinds, strict, b)
    ensures a == b
  {
  }
}
