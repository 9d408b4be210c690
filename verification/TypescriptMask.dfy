/** The masking lexer of the downloader check: which characters of a TypeScript text are code. */
module TypescriptMask {

  /** Python's character predicates, for the whole of Unicode. */
  datatype Classes = Classes(space: char -> bool, alpha: char -> bool, alnum: char -> bool, digit: char -> bool)

  /** The facts about them that the lexer relies on. */
  ghost predicate PythonLike(u: Classes) {
    && u.space(' ') && u.space('\n') && !u.space('_') && !u.space('$')
    && (forall c :: u.alpha(c) ==> u.alnum(c)) && (forall c :: u.digit(c) ==> u.alnum(c))
    && (forall c :: u.alnum(c) ==> !u.space(c))
  }

  datatype Kind = Space | LineComment | BlockComment | Str | Template | Regex | Identifier | Number | Punctuation

  datatype Token = Token(kind: Kind, end: nat, expectTerm: bool)

  const REGEX_STARTERS := "=([,;{}?:!&|~+-*/%<>^"

  predicate IdentStart(u: Classes, c: char) { u.alpha(c) || c == '_' || c == '$' }
  predicate IdentPart(u: Classes, c: char) { u.alnum(c) || c == '_' || c == '$' }
  predicate NumberPart(u: Classes, c: char) { u.alnum(c) || c == '.' || c == '_' }

  // ----- where each form ends -----

  function LineEnd(s: string, j: nat): (e: nat)
    requires j <= |s|
    ensures j <= e <= |s| && (forall k :: j <= k < e ==> s[k] != '\n') && (e < |s| ==> s[e] == '\n')
    decreases |s| - j
  {
    if j < |s| && s[j] != '\n' then LineEnd(s, j + 1) else j
  }

  function BlockEnd(s: string, j: nat): (e: nat)
    requires j <= |s|
    ensures j <= e <= |s|
    decreases |s| - j
  {
    if j + 1 >= |s| then |s|
    else if s[j] == '*' && s[j + 1] == '/' then j + 2
    else BlockEnd(s, j + 1)
  }

  function StringEnd(s: string, j: nat, quote: char): (e: nat)
    requires j <= |s|
    ensures j <= e <= |s|
    decreases |s| - j
  {
    if j >= |s| then j
    else if s[j] == '\\' && j + 1 < |s| then StringEnd(s, j + 2, quote)
    else if s[j] == quote then j + 1
    else if s[j] == '\n' then j
    else StringEnd(s, j + 1, quote)
  }

  function TemplateEnd(s: string, j: nat): (e: nat)
    requires j <= |s|
    ensures j <= e <= |s|
    decreases |s| - j
  {
    if j >= |s| then j
    else if s[j] == '\\' && j + 1 < |s| then TemplateEnd(s, j + 2)
    else if s[j] == '`' then j + 1
    else TemplateEnd(s, j + 1)
  }

  /** The scan for the closing `/`: where it stops, and whether anything was consumed. A newline gives
      up and stops just behind the opening `/`. */
  function RegexScan(s: string, start: nat, j: nat, inClass: bool, consumed: bool): (r: (nat, bool))
    requires start < j <= |s|
    ensures start < r.0 <= |s|
    decreases |s| - j
  {
    if j >= |s| then (j, consumed)
    else if s[j] == '\\' && j + 1 < |s| then RegexScan(s, start, j + 2, inClass, true)
    else if s[j] == '/' && !inClass then (j + 1, consumed)
    else if s[j] == '\n' then (start + 1, consumed)
    else RegexScan(s, start, j + 1, s[j] == '[' || (inClass && s[j] != ']'), true)
  }

  predicate Flag(c: char) { c in "gimsuy" }

  function FlagsEnd(s: string, j: nat): (e: nat)
    requires j <= |s|
    ensures j <= e <= |s| && (forall k :: j <= k < e ==> Flag(s[k])) && (e < |s| ==> !Flag(s[e]))
    decreases |s| - j
  {
    if j < |s| && Flag(s[j]) then FlagsEnd(s, j + 1) else j
  }

  /** The end of the regex literal opening at `i`, or `i` when the `/` there is taken for division; see
      `RegexEndIs` for when that is. */
  function RegexEnd(s: string, i: nat): (e: nat)
    requires i < |s|
    ensures i <= e <= |s|
  {
    var (j, consumed) := RegexScan(s, i, i + 1, false, false);
    var e := FlagsEnd(s, j);
    if consumed && e > i + 1 then e else i
  }

  function IdentEnd(u: Classes, s: string, j: nat): (e: nat)
    requires j <= |s|
    ensures j <= e <= |s| && (forall k :: j <= k < e ==> IdentPart(u, s[k])) && (e < |s| ==> !IdentPart(u, s[e]))
    decreases |s| - j
  {
    if j < |s| && IdentPart(u, s[j]) then IdentEnd(u, s, j + 1) else j
  }

  function NumberEnd(u: Classes, s: string, j: nat): (e: nat)
    requires j <= |s|
    ensures j <= e <= |s| && (forall k :: j <= k < e ==> NumberPart(u, s[k])) && (e < |s| ==> !NumberPart(u, s[e]))
    decreases |s| - j
  {
    if j < |s| && NumberPart(u, s[j]) then NumberEnd(u, s, j + 1) else j
  }

  // ----- what those ends are -----

  /** How many backslashes stand right before `k`, looking back no further than `from`. */
  function Backslashes(s: string, from: nat, k: nat): nat
    requires k <= |s|
  {
    if k > from && s[k - 1] == '\\' then Backslashes(s, from, k - 1) + 1 else 0
  }

  /** The character at `k` is not escaped: an even number of backslashes stands before it. */
  predicate Unescaped(s: string, from: nat, k: nat)
    requires k <= |s|
  {
    Backslashes(s, from, k) % 2 == 0
  }

  lemma AfterEscape(s: string, from: nat, k: nat)
    requires from <= k && k + 1 < |s| && s[k] == '\\' && Unescaped(s, from, k)
    ensures !Unescaped(s, from, k + 1) && Unescaped(s, from, k + 2)
  {
    assert Backslashes(s, from, k + 1) == Backslashes(s, from, k) + 1;
  }

  /** The first place at or after `from` where a block comment closes, or the end of the text. */
  ghost predicate IsBlockClose(s: string, from: nat, k: nat) {
    && from <= k <= |s| && (k < |s| ==> ClosesBlock(s, k))
    && forall m :: from <= m < k ==> !ClosesBlock(s, m)
  }

  predicate ClosesBlock(s: string, k: nat) {
    k + 1 < |s| && s[k] == '*' && s[k + 1] == '/'
  }

  /** A block comment ends right behind the first `*` `/`, or with the text. */
  lemma {:induction false} BlockEndIs(s: string, j: nat) returns (k: nat)
    requires j <= |s|
    ensures IsBlockClose(s, j, k) && BlockEnd(s, j) == if k < |s| then k + 2 else |s|
    decreases |s| - j
  {
    if j + 1 >= |s| {
      k := |s|;
    } else if ClosesBlock(s, j) {
      k := j;
    } else {
      k := BlockEndIs(s, j + 1);
    }
  }

  /** The first unescaped character of `stops` at or after `from`, or the end of the text. */
  ghost predicate IsFirstStop(s: string, from: nat, k: nat, stops: set<char>) {
    && from <= k <= |s| && (k < |s| ==> s[k] in stops && Unescaped(s, from, k))
    && forall m :: from <= m < k ==> !(s[m] in stops && Unescaped(s, from, m))
  }

  lemma {:induction false} StringEndFrom(s: string, from: nat, j: nat, quote: char) returns (k: nat)
    requires from <= j <= |s| && quote != '\\' && Unescaped(s, from, j)
    requires forall m :: from <= m < j ==> !(s[m] in {quote, '\n'} && Unescaped(s, from, m))
    ensures IsFirstStop(s, from, k, {quote, '\n'})
    ensures StringEnd(s, j, quote) == if k < |s| && s[k] == quote then k + 1 else k
    decreases |s| - j
  {
    if j >= |s| {
      k := j;
    } else if s[j] == '\\' && j + 1 < |s| {
      AfterEscape(s, from, j);
      k := StringEndFrom(s, from, j + 2, quote);
    } else if s[j] in {quote, '\n'} {
      k := j;
    } else if j + 1 == |s| {
      k := |s|;
    } else {
      k := StringEndFrom(s, from, j + 1, quote);
    }
  }

  /** A string ends right behind the first unescaped quote, before the first unescaped newline when that comes
      earlier, or with the text. */
  lemma StringEndIs(s: string, j: nat, quote: char) returns (k: nat)
    requires j <= |s| && quote != '\\'
    ensures IsFirstStop(s, j, k, {quote, '\n'})
    ensures StringEnd(s, j, quote) == if k < |s| && s[k] == quote then k + 1 else k
  {
    k := StringEndFrom(s, j, j, quote);
  }

  lemma {:induction false} TemplateEndFrom(s: string, from: nat, j: nat) returns (k: nat)
    requires from <= j <= |s| && Unescaped(s, from, j)
    requires forall m :: from <= m < j ==> !(s[m] in {'`'} && Unescaped(s, from, m))
    ensures IsFirstStop(s, from, k, {'`'}) && TemplateEnd(s, j) == if k < |s| then k + 1 else k
    decreases |s| - j
  {
    if j >= |s| {
      k := j;
    } else if s[j] == '\\' && j + 1 < |s| {
      AfterEscape(s, from, j);
      k := TemplateEndFrom(s, from, j + 2);
    } else if s[j] == '`' {
      k := j;
    } else if j + 1 == |s| {
      k := |s|;
    } else {
      k := TemplateEndFrom(s, from, j + 1);
    }
  }

  /** A template literal ends right behind the first unescaped backtick, or with the text. */
  lemma TemplateEndIs(s: string, j: nat) returns (k: nat)
    requires j <= |s|
    ensures IsFirstStop(s, j, k, {'`'}) && TemplateEnd(s, j) == if k < |s| then k + 1 else k
  {
    k := TemplateEndFrom(s, j, j);
  }

  /** `k` is inside a character class: an unescaped `[` stands before it, and no unescaped `]` since. */
  ghost predicate InClass(s: string, from: nat, k: nat)
    requires k <= |s|
  {
    exists m :: from <= m < k && OpensClass(s, from, m) && forall n :: m < n < k ==> !ClosesClass(s, from, n)
  }

  predicate OpensClass(s: string, from: nat, m: nat) {
    m < |s| && s[m] == '[' && Unescaped(s, from, m)
  }

  predicate ClosesClass(s: string, from: nat, m: nat) {
    m < |s| && s[m] == ']' && Unescaped(s, from, m)
  }

  /** What ends the scan of a regex body that starts at `from`: a closing slash outside a class, or a newline. */
  ghost predicate RegexStop(s: string, from: nat, k: nat) {
    k < |s| && Unescaped(s, from, k) && ((s[k] == '/' && !InClass(s, from, k)) || s[k] == '\n')
  }

  ghost predicate NoStopBefore(s: string, from: nat, k: nat) {
    forall m :: from <= m < k ==> !RegexStop(s, from, m)
  }

  ghost predicate IsRegexStop(s: string, from: nat, k: nat) {
    from <= k <= |s| && (k < |s| ==> RegexStop(s, from, k)) && NoStopBefore(s, from, k)
  }

  lemma ClassStep(s: string, from: nat, k: nat)
    requires from <= k < |s|
    ensures InClass(s, from, k + 1) <==> OpensClass(s, from, k) || (InClass(s, from, k) && !ClosesClass(s, from, k))
  {
    if InClass(s, from, k) && !ClosesClass(s, from, k) {
      var m :| from <= m < k && OpensClass(s, from, m) && forall n :: m < n < k ==> !ClosesClass(s, from, n);
      assert forall n :: m < n < k + 1 ==> !ClosesClass(s, from, n);
    }
  }

  /** The scan, from any place it gets to, stops at the first stop. */
  lemma {:induction false} RegexScanFrom(s: string, i: nat, j: nat, inClass: bool) returns (k: nat)
    requires i < |s| && i + 1 <= j <= |s| && Unescaped(s, i + 1, j) && (inClass <==> InClass(s, i + 1, j))
    requires NoStopBefore(s, i + 1, j)
    ensures IsRegexStop(s, i + 1, k)
    ensures RegexScan(s, i, j, inClass, j > i + 1)
      == (if k < |s| && s[k] == '\n' then i + 1 else if k < |s| then k + 1 else k, k > i + 1)
    decreases |s| - j
  {
    hide InClass;
    if j >= |s| {
      k := j;
    } else if s[j] == '\\' && j + 1 < |s| {
      AfterEscape(s, i + 1, j);
      ClassStep(s, i + 1, j);
      ClassStep(s, i + 1, j + 1);
      k := RegexScanFrom(s, i, j + 2, inClass);
    } else if (s[j] == '/' && !inClass) || s[j] == '\n' {
      k := j;
    } else {
      ClassStep(s, i + 1, j);
      var more := s[j] == '[' || (inClass && s[j] != ']');
      if j + 1 == |s| {
        k := |s|;
      } else {
        k := RegexScanFrom(s, i, j + 1, more);
      }
    }
  }

  /** When a `/` in term position is taken for a regex literal, and where that ends. Closed by a slash, it is one
      when its body is not empty; it then ends behind its flags. Cut off by a newline, it is one exactly when the
      first character of its body is a flag letter, and only those letters belong to it. Cut off by the end of
      the text, it is one unless nothing follows the slash. */
  lemma RegexEndIs(s: string, i: nat) returns (k: nat)
    requires i < |s|
    ensures IsRegexStop(s, i + 1, k)
    ensures k < |s| && s[k] == '/' ==>
      (RegexEnd(s, i) > i <==> k > i + 1) && (k > i + 1 ==> RegexEnd(s, i) == FlagsEnd(s, k + 1))
    ensures k < |s| && s[k] == '\n' ==>
      (RegexEnd(s, i) > i <==> Flag(s[i + 1])) && (Flag(s[i + 1]) ==> RegexEnd(s, i) == FlagsEnd(s, i + 1))
    ensures k == |s| ==> RegexEnd(s, i) == if i + 1 < |s| then |s| else i
  {
    k := RegexScanFrom(s, i, i + 1, false);
    if k < |s| && s[k] == '\n' && Flag(s[i + 1]) {
      assert k > i + 1;
    }
  }

  lemma OneRegexStop(s: string, from: nat, k: nat, k': nat)
    requires IsRegexStop(s, from, k) && IsRegexStop(s, from, k')
    ensures k == k'
  {
    hide RegexStop;
  }

  /** A slash that nothing closes is not always left alone: it counts as code exactly when it is cut off by a
      newline without a flag letter behind it, or stands at the very end. */
  lemma UnclosedIsCodeIff(s: string, i: nat, k: nat)
    requires i < |s| && IsRegexStop(s, i + 1, k) && (k < |s| ==> s[k] == '\n')
    ensures RegexEnd(s, i) == i <==> (if k < |s| then !Flag(s[i + 1]) else i + 1 == |s|)
  {
    hide RegexEnd, RegexStop;
    var k' := RegexEndIs(s, i);
    OneRegexStop(s, i + 1, k, k');
  }

  /** The shortest text that shows it. */
  lemma UnclosedFlagsAreBlanked()
    ensures RegexEnd("/gi\n", 0) == 3 && IsRegexStop("/gi\n", 1, 3)
  {
    var s := "/gi\n";
    assert FlagsEnd(s, 3) == 3 && FlagsEnd(s, 2) == 3 && FlagsEnd(s, 1) == 3;
    assert RegexScan(s, 0, 3, false, true) == (1, true);
    assert RegexScan(s, 0, 2, false, true) == (1, true);
    assert RegexScan(s, 0, 1, false, false) == (1, true);
  }

  // ----- the token stream -----

  /** The token that starts at `i`. Nothing here depends on how literals will be masked. */
  function Next(u: Classes, s: string, i: nat, expectTerm: bool): Token
    requires i < |s|
  {
    var c := s[i];
    if u.space(c) then Token(Space, i + 1, c == '\n' || expectTerm)
    else if c == '/' && i + 1 < |s| && s[i + 1] == '/' then Token(LineComment, LineEnd(s, i), expectTerm)
    else if c == '/' && i + 1 < |s| && s[i + 1] == '*' then Token(BlockComment, BlockEnd(s, i + 2), expectTerm)
    else if c == '\'' || c == '"' then Token(Str, StringEnd(s, i + 1, c), false)
    else if c == '`' then Token(Template, TemplateEnd(s, i + 1), false)
    else if c == '/' && expectTerm && RegexEnd(s, i) > i then Token(Regex, RegexEnd(s, i), false)
    else if IdentStart(u, c) then Token(Identifier, IdentEnd(u, s, i), false)
    else if u.digit(c) then Token(Number, NumberEnd(u, s, i), false)
    else Token(Punctuation, i + 1, c in REGEX_STARTERS)
  }

  /** What each kind of token is: how it starts, and how far it reaches. */
  ghost predicate IsToken(u: Classes, s: string, i: nat, term: bool, kind: Kind, end: nat)
    requires i < |s|
  {
    && (kind.Space? <==> u.space(s[i]))
    && match kind
    case Space => end == i + 1
    case LineComment =>
      && StartsAt(s, i, '/', '/') && i <= end <= |s| && (end < |s| ==> s[end] == '\n')
      && forall k :: i <= k < end ==> s[k] != '\n'
    case BlockComment =>
      StartsAt(s, i, '/', '*') && BlockTo(s, i, end)
    case Str =>
      (s[i] == '\'' || s[i] == '"') && StringTo(s, i, end)
    case Template =>
      s[i] == '`' && TemplateTo(s, i, end)
    case Regex =>
      && s[i] == '/' && term && !StartsAt(s, i, '/', '/') && !StartsAt(s, i, '/', '*')
      && RegexTo(s, i, end)
    case Identifier =>
      && NoLiteral(s, i, term) && StartsName(u, s[i]) && i <= end <= |s| && (end < |s| ==> !InName(u, s[end]))
      && forall k :: i <= k < end ==> InName(u, s[k])
    case Number =>
      && NoLiteral(s, i, term) && !StartsName(u, s[i]) && u.digit(s[i])
      && i <= end <= |s| && (end < |s| ==> !InNumber(u, s[end])) && forall k :: i <= k < end ==> InNumber(u, s[k])
    case Punctuation =>
      && NoLiteral(s, i, term) && !StartsName(u, s[i]) && !u.digit(s[i]) && end == i + 1
  }

  ghost predicate StartsName(u: Classes, c: char) {
    u.alpha(c) || c in {'_', '$'}
  }

  ghost predicate InName(u: Classes, c: char) {
    u.alnum(c) || c in {'_', '$'}
  }

  ghost predicate InNumber(u: Classes, c: char) {
    u.alnum(c) || c in {'.', '_'}
  }

  /** No comment, string, template or regex literal starts at `i`. */
  ghost predicate NoLiteral(s: string, i: nat, term: bool)
    requires i < |s|
  {
    && s[i] !in {'\'', '"', '`'} && !StartsAt(s, i, '/', '/') && !StartsAt(s, i, '/', '*')
    && (s[i] == '/' && term ==> NoRegex(s, i))
  }

  ghost predicate BlockTo(s: string, i: nat, end: nat) {
    exists k: nat :: BlockSpan(s, i, k, end)
  }

  ghost predicate StringTo(s: string, i: nat, end: nat)
    requires i < |s|
  {
    exists k: nat :: StringSpan(s, i, k, end)
  }

  ghost predicate TemplateTo(s: string, i: nat, end: nat) {
    exists k: nat :: TemplateSpan(s, i, k, end)
  }

  ghost predicate RegexTo(s: string, i: nat, end: nat)
    requires i < |s|
  {
    exists k: nat :: RegexEnds(s, i, k, end)
  }

  ghost predicate NoRegex(s: string, i: nat)
    requires i < |s|
  {
    exists k: nat :: RegexSpan(s, i, k, false)
  }

  /** Behind the first close. */
  ghost predicate BlockSpan(s: string, i: nat, k: nat, end: nat) {
    IsBlockClose(s, i + 2, k) && end == if k < |s| then k + 2 else |s|
  }

  /** Behind the first unescaped quote of its kind, or before an earlier newline. */
  ghost predicate StringSpan(s: string, i: nat, k: nat, end: nat)
    requires i < |s|
  {
    IsFirstStop(s, i + 1, k, {s[i], '\n'}) && end == if k < |s| && s[k] == s[i] then k + 1 else k
  }

  /** Behind the first unescaped backtick. */
  ghost predicate TemplateSpan(s: string, i: nat, k: nat, end: nat) {
    IsFirstStop(s, i + 1, k, {'`'}) && end == if k < |s| then k + 1 else k
  }

  /** The scan of the body stops at `k`, and that makes the slash a regex literal, or not. */
  ghost predicate RegexSpan(s: string, i: nat, k: nat, taken: bool)
    requires i < |s|
  {
    IsRegexStop(s, i + 1, k) && (TakenForRegex(s, i, k) <==> taken)
  }

  ghost predicate RegexEnds(s: string, i: nat, k: nat, end: nat)
    requires i < |s|
  {
    RegexSpan(s, i, k, true) && RegexReach(s, i, k, end)
  }

  const FLAGS: set<char> := {'g', 'i', 'm', 's', 'u', 'y'}

  predicate StartsAt(s: string, i: nat, a: char, b: char) {
    i + 1 < |s| && s[i] == a && s[i + 1] == b
  }

  /** Given where the scan of its body stops: closed with a body, or cut off by a newline behind a flag letter, or
      cut off by the end of the text. */
  predicate TakenForRegex(s: string, i: nat, k: nat)
    requires i < |s| && i + 1 <= k <= |s|
  {
    if k == |s| then i + 1 < |s| else if s[k] == '/' then k > i + 1 else s[i + 1] in FLAGS
  }

  /** The literal reaches to the end of the text, or to the last of the flags behind its close or its opening. */
  ghost predicate RegexReach(s: string, i: nat, k: nat, end: nat)
    requires i < |s| && i + 1 <= k <= |s|
  {
    if k == |s| then end == |s| else FlagsReach(s, if s[k] == '/' then k + 1 else i + 1, end)
  }

  ghost predicate FlagsReach(s: string, from: nat, end: nat) {
    from <= end <= |s| && (end < |s| ==> s[end] !in FLAGS) && forall q :: from <= q < end ==> s[q] in FLAGS
  }

  /** The scan of the body stops at `k`, and that makes `e` the end, or `i` when the slash is no regex. */
  ghost predicate RegexReaches(s: string, i: nat, k: nat, e: nat)
    requires i < |s|
  {
    RegexSpan(s, i, k, e > i) && (e > i ==> RegexReach(s, i, k, e))
  }

  lemma RegexSpanAt(s: string, i: nat)
    requires i < |s|
    ensures exists k: nat :: RegexReaches(s, i, k, RegexEnd(s, i))
  {
    hide RegexEnd, RegexStop;
    var k := RegexEndIs(s, i);
    StopBounds(s, i + 1, k);
    assert RegexReaches(s, i, k, RegexEnd(s, i));
  }

  /** The scanner recognises exactly these tokens. */
  lemma NextIsToken(u: Classes, s: string, i: nat, expectTerm: bool)
    requires i < |s|
    ensures IsToken(u, s, i, expectTerm, Next(u, s, i, expectTerm).kind, Next(u, s, i, expectTerm).end)
  {
    hide RegexTo, NoRegex, StringTo, BlockTo, TemplateTo, RegexEnd;
    LiteralSpans(s, i);
  }

  /** Where each form of literal that may start at `i` ends. */
  lemma LiteralSpans(s: string, i: nat)
    requires i < |s|
    ensures StartsAt(s, i, '/', '*') ==> BlockTo(s, i, BlockEnd(s, i + 2))
    ensures s[i] == '\'' || s[i] == '"' ==> StringTo(s, i, StringEnd(s, i + 1, s[i]))
    ensures s[i] == '`' ==> TemplateTo(s, i, TemplateEnd(s, i + 1))
    ensures RegexEnd(s, i) > i ==> RegexTo(s, i, RegexEnd(s, i))
    ensures RegexEnd(s, i) == i ==> NoRegex(s, i)
  {
    hide IsRegexStop, IsFirstStop, IsBlockClose, RegexEnd;
    if StartsAt(s, i, '/', '*') {
      var k := BlockEndIs(s, i + 2);
      assert BlockSpan(s, i, k, BlockEnd(s, i + 2));
    }
    if s[i] == '\'' || s[i] == '"' {
      var k := StringEndIs(s, i + 1, s[i]);
      assert StringSpan(s, i, k, StringEnd(s, i + 1, s[i]));
    }
    if s[i] == '`' {
      var k := TemplateEndIs(s, i + 1);
      assert TemplateSpan(s, i, k, TemplateEnd(s, i + 1));
    }
    RegexSpanAt(s, i);
    var k: nat :| RegexReaches(s, i, k, RegexEnd(s, i));
    assert RegexEnd(s, i) > i ==> RegexEnds(s, i, k, RegexEnd(s, i));
  }

  lemma StopBounds(s: string, from: nat, k: nat)
    requires IsRegexStop(s, from, k)
    ensures from <= k <= |s| && (k < |s| ==> s[k] == '/' || s[k] == '\n')
  {
  }

  /** Every token consumes at least one character. */
  lemma NextAdvances(u: Classes, s: string, i: nat, expectTerm: bool)
    requires PythonLike(u) && i < |s|
    ensures i < Next(u, s, i, expectTerm).end <= |s|
  {
    var c := s[i];
    assert LineEnd(s, i) > i || c == '\n';
    assert IdentPart(u, c) ==> IdentEnd(u, s, i) > i;
    assert NumberPart(u, c) ==> NumberEnd(u, s, i) > i;
  }

  /** The kind of every character from `i` on. */
  ghost function Kinds(u: Classes, s: string, i: nat, expectTerm: bool): (r: seq<Kind>)
    requires PythonLike(u) && i <= |s|
    ensures |r| == |s| - i
    decreases |s| - i
  {
    if i == |s| then []
    else
      NextAdvances(u, s, i, expectTerm);
      var t := Next(u, s, i, expectTerm);
      Repeat(t.kind, t.end - i) + Kinds(u, s, t.end, t.expectTerm)
  }

  ghost function Repeat(k: Kind, n: nat): (r: seq<Kind>)
    ensures |r| == n && forall j :: 0 <= j < n ==> r[j] == k
  {
    seq(n, _ => k)
  }

  ghost function AllKinds(u: Classes, s: string): (r: seq<Kind>)
    requires PythonLike(u)
    ensures |r| == |s|
  {
    Kinds(u, s, 0, true)
  }

  /** Which kinds are blanked; template literals only in strict mode. */
  predicate Blanked(k: Kind, strict: bool) {
    k.LineComment? || k.BlockComment? || k.Str? || k.Regex? || (strict && k.Template?)
  }

  function MaskChar(k: Kind, c: char, strict: bool): char {
    if Blanked(k, strict) && c != '\n' then ' ' else c
  }

  /** The mask, character by character. */
  ghost function Masked(u: Classes, s: string, strict: bool): (r: string)
    requires PythonLike(u)
    ensures |r| == |s|
  {
    seq(|s|, p requires 0 <= p < |s| => MaskChar(AllKinds(u, s)[p], s[p], strict))
  }

  // ----- the loops of `_mask_typescript_non_code` -----

  method ScanLine(s: string, i: nat) returns (j: nat)
    requires i <= |s|
    ensures j == LineEnd(s, i)
  {
    j := i;
    while j < |s| && s[j] != '\n'
      invariant i <= j <= |s| && LineEnd(s, j) == LineEnd(s, i)
    {
      j := j + 1;
    }
  }

  method ScanBlock(s: string, i: nat) returns (j: nat)
    requires i <= |s|
    ensures j == BlockEnd(s, i)
  {
    j := i;
    while j + 1 < |s| && !(s[j] == '*' && s[j + 1] == '/')
      invariant i <= j <= |s| && BlockEnd(s, j) == BlockEnd(s, i)
    {
      j := j + 1;
    }
    j := if j + 1 < |s| then j + 2 else |s|;
  }

  method ScanString(s: string, i: nat, quote: char) returns (j: nat)
    requires i <= |s|
    ensures j == StringEnd(s, i, quote)
  {
    j := i;
    while j < |s|
      invariant i <= j <= |s| && StringEnd(s, j, quote) == StringEnd(s, i, quote)
      decreases |s| - j
    {
      if s[j] == '\\' && j + 1 < |s| {
        j := j + 2;
      } else if s[j] == quote {
        return j + 1;
      } else if s[j] == '\n' {
        return j;
      } else {
        j := j + 1;
      }
    }
  }

  method ScanTemplate(s: string, i: nat) returns (j: nat)
    requires i <= |s|
    ensures j == TemplateEnd(s, i)
  {
    j := i;
    while j < |s|
      invariant i <= j <= |s| && TemplateEnd(s, j) == TemplateEnd(s, i)
      decreases |s| - j
    {
      if s[j] == '\\' && j + 1 < |s| {
        j := j + 2;
      } else if s[j] == '`' {
        return j + 1;
      } else {
        j := j + 1;
      }
    }
  }

  method ScanRegex(s: string, i: nat) returns (e: nat)
    requires i < |s|
    ensures e == RegexEnd(s, i)
    ensures exists k: nat :: RegexReaches(s, i, k, e)
  {
    hide RegexReaches;
    RegexSpanAt(s, i);
    var j, inClass, consumed, stop := i + 1, false, false, false;
    while j < |s| && !stop
      invariant i < j <= |s|
      invariant if stop then RegexScan(s, i, i + 1, false, false) == (j, consumed)
                else RegexScan(s, i, j, inClass, consumed) == RegexScan(s, i, i + 1, false, false)
      decreases !stop, |s| - j
    {
      var ch := s[j];
      if ch == '\\' && j + 1 < |s| {
        j, consumed := j + 2, true;
      } else {
        if ch == '[' {
          inClass := true;
        } else if ch == ']' && inClass {
          inClass := false;
        } else if ch == '/' && !inClass {
          j, stop := j + 1, true;
        }
        if !stop {
          if ch == '\n' {
            j, stop := i + 1, true;
          } else {
            j, consumed := j + 1, true;
          }
        }
      }
    }
    ghost var k := j;
    while j < |s| && Flag(s[j])
      invariant k <= j <= |s| && FlagsEnd(s, j) == FlagsEnd(s, k)
    {
      j := j + 1;
    }
    e := if consumed && j > i + 1 then j else i;
  }

  method ScanIdent(u: Classes, s: string, i: nat) returns (j: nat)
    requires i <= |s|
    ensures j == IdentEnd(u, s, i)
  {
    j := i;
    while j < |s| && IdentPart(u, s[j])
      invariant i <= j <= |s| && IdentEnd(u, s, j) == IdentEnd(u, s, i)
    {
      j := j + 1;
    }
  }

  method ScanNumber(u: Classes, s: string, i: nat) returns (j: nat)
    requires i <= |s|
    ensures j == NumberEnd(u, s, i)
  {
    j := i;
    while j < |s| && NumberPart(u, s[j])
      invariant i <= j <= |s| && NumberEnd(u, s, j) == NumberEnd(u, s, i)
    {
      j := j + 1;
    }
  }

  /** One turn of the main loop: recognise the token at `i`. */
  method Recognise(u: Classes, s: string, i: nat, expectTerm: bool) returns (t: Token)
    requires i < |s|
    ensures t == Next(u, s, i, expectTerm) && IsToken(u, s, i, expectTerm, t.kind, t.end)
  {
    hide IsToken;
    NextIsToken(u, s, i, expectTerm);
    var c := s[i];
    if u.space(c) {
      return Token(Space, i + 1, c == '\n' || expectTerm);
    }
    if c == '/' && i + 1 < |s| && s[i + 1] == '/' {
      var j := ScanLine(s, i);
      return Token(LineComment, j, expectTerm);
    }
    if c == '/' && i + 1 < |s| && s[i + 1] == '*' {
      var j := ScanBlock(s, i + 2);
      return Token(BlockComment, j, expectTerm);
    }
    if c == '\'' || c == '"' {
      var j := ScanString(s, i + 1, c);
      return Token(Str, j, false);
    }
    if c == '`' {
      var j := ScanTemplate(s, i + 1);
      return Token(Template, j, false);
    }
    if c == '/' && expectTerm {
      var j := ScanRegex(s, i);
      if j > i {
        return Token(Regex, j, false);
      }
    }
    if IdentStart(u, c) {
      var j := ScanIdent(u, s, i);
      return Token(Identifier, j, false);
    }
    if u.digit(c) {
      var j := ScanNumber(u, s, i);
      return Token(Number, j, false);
    }
    t := Token(Punctuation, i + 1, c in REGEX_STARTERS);
  }

  /** `_mask_typescript_non_code(source, mask_template_literal_bodies)`. */
  method Mask(u: Classes, s: string, strict: bool) returns (out: string)
    requires PythonLike(u)
    ensures out == Masked(u, s, strict)
  {
    hide PythonLike, Next;
    ghost var kinds := AllKinds(u, s);
    out := [];
    var i, expectTerm := 0, true;
    while i < |s|
      invariant i <= |s| && |out| == i
      invariant kinds[i..] == Kinds(u, s, i, expectTerm)
      invariant forall p :: 0 <= p < i ==> out[p] == MaskChar(kinds[p], s[p], strict)
      decreases |s| - i
    {
      NextAdvances(u, s, i, expectTerm);
      var t := Recognise(u, s, i, expectTerm);
      Unfold(u, s, kinds, i, expectTerm, t);
      var k := i;
      while k < t.end
        invariant i <= k <= t.end <= |s| && |out| == k
        invariant forall p :: 0 <= p < k ==> out[p] == MaskChar(kinds[p], s[p], strict)
      {
        out := out + [MaskChar(t.kind, s[k], strict)];
        k := k + 1;
      }
      i, expectTerm := t.end, t.expectTerm;
    }
  }

  lemma Unfold(u: Classes, s: string, kinds: seq<Kind>, i: nat, expectTerm: bool, t: Token)
    requires PythonLike(u) && i < |s| == |kinds| && kinds[i..] == Kinds(u, s, i, expectTerm)
    requires t == Next(u, s, i, expectTerm) && i < t.end <= |s|
    ensures kinds[t.end..] == Kinds(u, s, t.end, t.expectTerm)
    ensures forall p :: i <= p < t.end ==> kinds[p] == t.kind
  {
    hide Next, PythonLike;
    var run := Repeat(t.kind, t.end - i);
    assert kinds[i..] == run + Kinds(u, s, t.end, t.expectTerm);
    forall p | i <= p < t.end ensures kinds[p] == t.kind {
      assert kinds[i..][p - i] == run[p - i];
    }
    assert kinds[t.end..] == kinds[i..][t.end - i..];
  }

  // ----- what the mask guarantees -----

  /** Same length; each character unchanged or a space; newlines exactly where they were. */
  lemma MaskShape(u: Classes, s: string, strict: bool, p: nat)
    requires PythonLike(u) && p < |s|
    ensures |Masked(u, s, strict)| == |s|
    ensures Masked(u, s, strict)[p] == s[p] || Masked(u, s, strict)[p] == ' '
    ensures Masked(u, s, strict)[p] == '\n' <==> s[p] == '\n'
  {
    hide PythonLike, AllKinds;
    assert Masked(u, s, strict)[p] == MaskChar(AllKinds(u, s)[p], s[p], strict);
  }

  /** The strict mask is the default mask with the template literals blanked, nothing else. */
  lemma StrictMaskBlanksTemplates(u: Classes, s: string, p: nat)
    requires PythonLike(u) && p < |s|
    ensures Masked(u, s, true)[p] ==
      if AllKinds(u, s)[p].Template? && s[p] != '\n' then ' ' else Masked(u, s, false)[p]
  {
    hide PythonLike, AllKinds;
  }

  /** A character that is not white space survives exactly where the lexer sees code. */
  lemma SurvivesIffCode(u: Classes, s: string, strict: bool, p: nat)
    requires PythonLike(u) && p < |s| && !u.space(s[p])
    ensures Masked(u, s, strict)[p] == s[p] <==> !Blanked(AllKinds(u, s)[p], strict)
  {
    hide AllKinds;
    assert Masked(u, s, strict)[p] == MaskChar(AllKinds(u, s)[p], s[p], strict);
  }
}
