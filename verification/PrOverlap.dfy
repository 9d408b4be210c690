/** How far two pull requests overlap: Jaccard measures of their files, tests and symbols, and the class they give. */
module PrOverlap {
  import opened Sets
  import opened Wrappers

  /** Where a pull request's file list came from. */
  datatype Source = Source(status: Option<string>)

  datatype PullRequest = PullRequest(
    source: Option<Source>, files: seq<string>, tests: seq<string>, symbols: seq<string>)

  datatype Class = NotProven | Isolated | SequenceBoth | PickOne | LikelyDuplicate

  /** `measures` is absent when the sources do not allow a verdict. */
  datatype Verdict = Verdict(class_: Class, measures: Option<Measures>)

  datatype Measures = Measures(files: real, tests: real, symbols: real)

  function ToSet(s: seq<string>): set<string> {
    set x | x in s
  }

  function Jaccard<T(==)>(a: set<T>, b: set<T>): real {
    if a == {} && b == {} then 0.0 else |a * b| as real / |a + b| as real
  }

  function Status(pr: PullRequest): string {
    match pr.source
    case None => "known"
    case Some(s) => if s.status.Some? then s.status.value else "unknown"
  }

  predicate Definitive(pr: PullRequest) {
    Status(pr) == "known" || Status(pr) == "known_empty"
  }

  const FilesPick := 0.5
  const Surface := 0.3
  const FilesDuplicate := 0.8
  const TestsDuplicate := 0.5
  const SymbolsDuplicate := 0.5

  function Classify(a: PullRequest, b: PullRequest): Verdict {
    if !Definitive(a) || !Definitive(b) then
      Verdict(NotProven, None)
    else
      var jf := Jaccard(ToSet(a.files), ToSet(b.files));
      if jf == 0.0 then
        Verdict(Isolated, Some(Measures(jf, 0.0, 0.0)))
      else
        var jt, js := Jaccard(ToSet(a.tests), ToSet(b.tests)), Jaccard(ToSet(a.symbols), ToSet(b.symbols));
        var class_ :=
          if jf >= FilesDuplicate && jt >= TestsDuplicate && js >= SymbolsDuplicate then LikelyDuplicate
          else if jf > FilesPick && (jt >= Surface || js >= Surface) then PickOne
          else SequenceBoth;
        Verdict(class_, Some(Measures(jf, jt, js)))
  }

  function FileOverlap(a: PullRequest, b: PullRequest): real {
    Jaccard(ToSet(a.files), ToSet(b.files))
  }

  /** The symmetric difference. */
  function Apart<T>(a: set<T>, b: set<T>): set<T> {
    (a - b) + (b - a)
  }

  /** `a` and `b` differ by as much as their union exceeds their intersection. */
  lemma ApartCount<T>(a: set<T>, b: set<T>)
    ensures |a + b| - |a * b| == |Apart(a, b)| && |a| + |b| + |Apart(a, b)| == 2 * |a + b|
    ensures |a + b| == 0 <==> a == {} && b == {}
  {
    assert a + b == Apart(a, b) + a * b && Apart(a, b) !! a * b;
    assert a + b == {} <==> a == {} && b == {};
  }

  /** Going from `a` to `c` by way of `b` changes at least as much as going there directly. */
  lemma ApartTriangle<T>(a: set<T>, b: set<T>, c: set<T>)
    ensures |Apart(a, c)| <= |Apart(a, b)| + |Apart(b, c)|
    ensures |b| <= |a| + |Apart(a, b)| && |b| <= |c| + |Apart(b, c)|
  {
    SubsetCount(Apart(a, c), Apart(a, b) + Apart(b, c));
    SubsetCount(b, a + Apart(a, b));
    SubsetCount(b, c + Apart(b, c));
  }

  /** The Jaccard distance of two sets, not both empty, in terms of their sizes and their difference. */
  lemma DistanceForm<T>(a: set<T>, b: set<T>)
    requires a != {} || b != {}
    ensures |a| + |b| + |Apart(a, b)| > 0
    ensures 1.0 - Jaccard(a, b) == 2.0 * |Apart(a, b)| as real / (|a| + |b| + |Apart(a, b)|) as real
  {
    ApartCount(a, b);
    Complement(|a * b| as real, |a + b| as real);
  }

  lemma Quotient(v: real, n: real, d: real)
    requires d != 0.0 && v * d == n
    ensures v == n / d
  {
  }

  lemma Complement(i: real, u: real)
    requires u > 0.0
    ensures 1.0 - i / u == 2.0 * (u - i) / (2.0 * u)
  {
    var q := i / u;
    assert q * u == i;
    assert (1.0 - q) * (2.0 * u) == 2.0 * (u - q * u);
    Quotient(1.0 - q, 2.0 * (u - i), 2.0 * u);
  }

  lemma SumOfQuotients(m: real, n: real, d: real)
    requires d != 0.0
    ensures (m + n) / d == m / d + n / d
  {
    var v, w := m / d, n / d;
    assert (v + w) * d == v * d + w * d;
    Quotient(v + w, m + n, d);
  }

  lemma Monotone(k: real, z: real, w: real)
    requires k >= 0.0 && 0.0 <= z <= w && k + z > 0.0
    ensures 2.0 * z / (k + z) <= 2.0 * w / (k + w)
  {
    assert z * k <= w * k;
    assert 2.0 * z * (k + w) == 2.0 * (z * k) + 2.0 * (z * w);
    assert 2.0 * w * (k + z) == 2.0 * (w * k) + 2.0 * (z * w);
    Cross(2.0 * z, k + z, 2.0 * w, k + w);
  }

  lemma Cross(a: real, b: real, c: real, d: real)
    requires b > 0.0 && d > 0.0 && a * d <= c * b
    ensures a / b <= c / d
  {
    var v, w := a / b, c / d;
    assert v * b == a && w * d == c;
    assert v * (b * d) == a * d && w * (b * d) == c * b;
    assert b * d > 0.0;
  }

  lemma LargerDenominator(x: real, s: real, t: real)
    requires x >= 0.0 && 0.0 < s <= t
    ensures x / t <= x / s
  {
    Cross(x, t, x, s);
  }

  /** The Steinhaus form of the triangle inequality, over sizes `p`, `q`, `r` and differences `x`, `y`, `z`. */
  lemma Steinhaus(p: real, q: real, r: real, x: real, y: real, z: real)
    requires p >= 0.0 && q >= 0.0 && r >= 0.0 && x >= 0.0 && y >= 0.0 && 0.0 <= z <= x + y
    requires q <= r + y && q <= p + x && p + r + z > 0.0 && p + q + x > 0.0 && q + r + y > 0.0
    ensures 2.0 * z / (p + r + z) <= 2.0 * x / (p + q + x) + 2.0 * y / (q + r + y)
  {
    var w, k := x + y, p + r;
    Monotone(k, z, w);
    LargerDenominator(2.0 * x, p + q + x, k + w);
    LargerDenominator(2.0 * y, q + r + y, k + w);
    SumOfQuotients(2.0 * x, 2.0 * y, k + w);
    assert 2.0 * x + 2.0 * y == 2.0 * w;
  }

  lemma JaccardRange<T>(a: set<T>, b: set<T>)
    ensures 0.0 <= Jaccard(a, b) <= 1.0
    ensures Jaccard(a, b) == 0.0 <==> a !! b
    ensures Jaccard(a, b) == 1.0 <==> a == b && a != {}
    ensures Jaccard(a, b) == Jaccard(b, a)
  {
    assert a * b == b * a && a + b == b + a;
    if a != {} || b != {} {
      ApartCount(a, b);
      assert |a * b| == 0 <==> a * b == {};
      assert Apart(a, b) == {} <==> a == b;
      assert |Apart(a, b)| == 0 <==> Apart(a, b) == {};
      Ratio(|a * b| as real, |a + b| as real);
    }
  }

  lemma Ratio(i: real, u: real)
    requires 0.0 <= i <= u && u > 0.0
    ensures 0.0 <= i / u <= 1.0 && (i / u == 0.0 <==> i == 0.0) && (i / u == 1.0 <==> i == u)
  {
    assert i / u * u == i;
    Cross(0.0, 1.0, i, u);
    Cross(i, u, 1.0, 1.0);
    if i == u {
      Quotient(1.0, i, u);
    }
    if i == 0.0 {
      Quotient(0.0, i, u);
    }
  }

  /** The Jaccard triangle inequality, under the convention that two empty sets do not overlap. */
  lemma JaccardTriangle<T>(a: set<T>, b: set<T>, c: set<T>)
    ensures Jaccard(a, b) + Jaccard(b, c) <= 1.0 + Jaccard(a, c)
  {
    JaccardRange(a, b);
    JaccardRange(b, c);
    JaccardRange(a, c);
    if Jaccard(a, b) != 0.0 && Jaccard(b, c) != 0.0 {
      DistanceForm(a, b);
      DistanceForm(b, c);
      DistanceForm(a, c);
      ApartTriangle(a, b, c);
      Steinhaus(|a| as real, |b| as real, |c| as real,
                |Apart(a, b)| as real, |Apart(b, c)| as real, |Apart(a, c)| as real);
    }
  }

  /** Two likely duplicates of one pull request share at least six tenths of their files, so they are never
      called isolated or not proven. */
  lemma DuplicatesOverlap(a: PullRequest, b: PullRequest, c: PullRequest)
    requires Classify(a, b).class_ == LikelyDuplicate && Classify(b, c).class_ == LikelyDuplicate
    ensures FileOverlap(a, c) >= 0.6
    ensures Classify(a, c).class_ != Isolated && Classify(a, c).class_ != NotProven
  {
    JaccardTriangle(ToSet(a.files), ToSet(b.files), ToSet(c.files));
  }

  /** The measures of two pairs, `a`-`b` and `b`-`c`, that are enough to know about `a`-`c`. */
  predicate Enough(x: Measures, y: Measures) {
    && x.files + y.files >= 1.0 + FilesDuplicate
    && x.tests + y.tests >= 1.0 + TestsDuplicate
    && x.symbols + y.symbols >= 1.0 + SymbolsDuplicate
  }

  /** Two likely duplicates of one pull request whose measures are high enough are duplicates of each other. */
  lemma CloseDuplicatesAreDuplicates(a: PullRequest, b: PullRequest, c: PullRequest)
    requires Classify(a, b).class_ == LikelyDuplicate && Classify(b, c).class_ == LikelyDuplicate
    requires Enough(Classify(a, b).measures.value, Classify(b, c).measures.value)
    ensures Classify(a, c).class_ == LikelyDuplicate
  {
    hide Jaccard;
    JaccardTriangle(ToSet(a.files), ToSet(b.files), ToSet(c.files));
    JaccardTriangle(ToSet(a.tests), ToSet(b.tests), ToSet(c.tests));
    JaccardTriangle(ToSet(a.symbols), ToSet(b.symbols), ToSet(c.symbols));
  }

  /** And no weaker condition on those measures will do: whenever they are not high enough, there are pull
      requests with the very same measures whose ends are not likely duplicates. */
  lemma CloserIsNeeded(a: PullRequest, b: PullRequest, c: PullRequest)
    returns (a': PullRequest, b': PullRequest, c': PullRequest)
    requires Classify(a, b).class_ == LikelyDuplicate && Classify(b, c).class_ == LikelyDuplicate
    requires !Enough(Classify(a, b).measures.value, Classify(b, c).measures.value)
    ensures Classify(a', b') == Classify(a, b) && Classify(b', c') == Classify(b, c)
    ensures Classify(a', c').class_ != LikelyDuplicate
  {
    hide Jaccard, ToSet;
    var f1, f2, f3 := Realise(ToSet(a.files), ToSet(b.files), ToSet(c.files));
    var t1, t2, t3 := Realise(ToSet(a.tests), ToSet(b.tests), ToSet(c.tests));
    var s1, s2, s3 := Realise(ToSet(a.symbols), ToSet(b.symbols), ToSet(c.symbols));
    a', b', c' := PullRequest(None, f1, t1, s1), PullRequest(None, f2, t2, s2), PullRequest(None, f3, t3, s3);
  }

  function Word(n: nat): string {
    seq(n, _ => 'x')
  }

  function Words(lo: nat, hi: nat): seq<string>
    requires lo <= hi
  {
    seq(hi - lo, i requires 0 <= i < hi - lo => Word(lo + i))
  }

  function WordSet(lo: nat, hi: nat): set<string> {
    set n | lo <= n < hi :: Word(n)
  }

  lemma WordsAre(lo: nat, hi: nat)
    requires lo <= hi
    ensures ToSet(Words(lo, hi)) == WordSet(lo, hi)
  {
    forall n | lo <= n < hi ensures Word(n) in ToSet(Words(lo, hi)) {
      assert Words(lo, hi)[n - lo] == Word(n);
    }
  }

  lemma WordIn(n: nat, lo: nat, hi: nat)
    ensures Word(n) in WordSet(lo, hi) <==> lo <= n < hi
  {
    if Word(n) in WordSet(lo, hi) {
      var m :| lo <= m < hi && Word(m) == Word(n);
      assert |Word(m)| == |Word(n)|;
    }
  }

  lemma {:induction false} WordCount(lo: nat, hi: nat)
    requires lo <= hi
    ensures |WordSet(lo, hi)| == hi - lo
  {
    if lo == hi {
      assert WordSet(lo, hi) == {};
    } else {
      WordCount(lo, hi - 1);
      WordIn(hi - 1, lo, hi - 1);
      assert WordSet(lo, hi) == WordSet(lo, hi - 1) + {Word(hi - 1)};
    }
  }

  /** All `q` words, all but the first `i`, and all but the last `j`. */
  lemma WordOverlaps(q: nat, i: nat, j: nat)
    requires i + j <= q && q > 0
    ensures Jaccard(WordSet(i, q), WordSet(0, q)) == (q - i) as real / q as real
    ensures Jaccard(WordSet(0, q), WordSet(0, q - j)) == (q - j) as real / q as real
    ensures Jaccard(WordSet(i, q), WordSet(0, q - j)) == (q - i - j) as real / q as real
  {
    hide Jaccard, WordSet;
    WordCount(0, q);
    WordCount(i, q);
    WordCount(0, q - j);
    WordCount(i, q - j);
    WordIn(0, 0, q);
    Overlap(0, q, i, q);
    Overlap(0, q, 0, q - j);
    Overlap(i, q, 0, q - j);
    assert WordSet(i, q) + WordSet(0, q) == WordSet(0, q) + WordSet(i, q);
    assert WordSet(i, q) * WordSet(0, q) == WordSet(0, q) * WordSet(i, q);
    JaccardOf(WordSet(i, q), WordSet(0, q), WordSet(i, q), WordSet(0, q));
    JaccardOf(WordSet(0, q), WordSet(0, q - j), WordSet(0, q - j), WordSet(0, q));
    JaccardOf(WordSet(i, q), WordSet(0, q - j), WordSet(i, q - j), WordSet(0, q));
  }

  /** Two ranges that meet. */
  lemma Overlap(lo: nat, hi: nat, lo': nat, hi': nat)
    requires lo <= hi' && lo' <= hi
    ensures WordSet(lo, hi) * WordSet(lo', hi') == WordSet(if lo < lo' then lo' else lo, if hi < hi' then hi else hi')
    ensures WordSet(lo, hi) + WordSet(lo', hi') == WordSet(if lo < lo' then lo else lo', if hi < hi' then hi' else hi)
  {
    var l, h := if lo < lo' then lo' else lo, if hi < hi' then hi else hi';
    forall w: string {:trigger w in WordSet(l, h)} | w in WordSet(lo, hi) * WordSet(lo', hi')
      ensures w in WordSet(l, h)
    {
      var n :| lo <= n < hi && w == Word(n);
      WordIn(n, lo', hi');
    }
  }

  /** Any two overlaps that add up to one or more occur together with the least overlap they leave possible. */
  lemma Realise(a: set<string>, b: set<string>, c: set<string>) returns (f: seq<string>, g: seq<string>, h: seq<string>)
    requires Jaccard(a, b) > 0.0 && Jaccard(b, c) > 0.0 && Jaccard(a, b) + Jaccard(b, c) >= 1.0
    ensures Jaccard(ToSet(f), ToSet(g)) == Jaccard(a, b) && Jaccard(ToSet(g), ToSet(h)) == Jaccard(b, c)
    ensures Jaccard(ToSet(f), ToSet(h)) == Jaccard(a, b) + Jaccard(b, c) - 1.0
  {
    ApartCount(a, b);
    ApartCount(b, c);
    var n, d, m, e := |a * b|, |a + b|, |b * c|, |b + c|;
    var i, j, q := CommonDenominator(n, d, m, e);
    f, g, h := Words(i, q), Words(0, q), Words(0, q - j);
    WordsAre(i, q);
    WordsAre(0, q);
    WordsAre(0, q - j);
    WordOverlaps(q, i, j);
  }

  lemma CommonDenominator(n: nat, d: nat, m: nat, e: nat) returns (i: nat, j: nat, q: nat)
    requires n <= d && m <= e && d > 0 && e > 0
    requires n as real / d as real + m as real / e as real >= 1.0
    ensures q > 0 && i + j <= q
    ensures (q - i) as real / q as real == n as real / d as real
    ensures (q - j) as real / q as real == m as real / e as real
    ensures (q - i - j) as real / q as real == n as real / d as real + m as real / e as real - 1.0
  {
    q := d * e;
    var x, y;
    i, x := Scaled(n, d, e, q);
    j, y := Scaled(m, e, d, q);
    Complements(i, j, q, x, y);
  }

  lemma Complements(i: nat, j: nat, q: nat, x: nat, y: nat)
    requires q > 0 && q - i == x && q - j == y && x as real / q as real + y as real / q as real >= 1.0
    ensures i + j <= q
    ensures (q - i - j) as real / q as real == x as real / q as real + y as real / q as real - 1.0
  {
    SumOfQuotients(x as real, y as real, q as real);
    AtLeast(x + y, q);
    SumOfQuotients((x + y) as real, -(q as real), q as real);
    Quotient(-1.0, -(q as real), q as real);
  }

  lemma AtLeast(x: nat, q: nat)
    requires q > 0 && x as real / q as real >= 1.0
    ensures x >= q
  {
    if x < q {
      Ratio(x as real, q as real);
    }
  }

  /** The fraction `n / d` over the denominator `q`. */
  lemma Scaled(n: nat, d: nat, e: nat, q: nat) returns (i: nat, x: nat)
    requires n <= d && d > 0 && e > 0 && q == d * e
    ensures q > 0 && q - i == x && x as real / q as real == n as real / d as real
  {
    i, x := (d - n) * e, n * e;
    Distribute(d, n, e);
    RealProduct(n, e);
    RealProduct(d, e);
    var r := n as real / d as real;
    Rescale(r, n as real, d as real, e as real);
    Quotient(r, x as real, q as real);
  }

  lemma Distribute(d: nat, n: nat, e: nat)
    requires n <= d && d > 0 && e > 0
    ensures d * e > 0 && n * e >= 0 && d * e - (d - n) * e == n * e
  {
  }

  lemma Rescale(r: real, n: real, d: real, e: real)
    requires d != 0.0 && r == n / d
    ensures r * (d * e) == n * e
  {
    assert r * d == n;
    assert r * (d * e) == r * d * e;
  }

  lemma {:induction false} RealProduct(a: nat, b: nat)
    ensures (a * b) as real == a as real * b as real
  {
    if b > 0 {
      RealProduct(a, b - 1);
      assert a * b == a * (b - 1) + a;
      assert a as real * b as real == a as real * (b - 1) as real + a as real;
    }
  }

  /** The bound is attained, and two likely duplicates of one pull request may yet be `sequence-both`. */
  lemma DuplicateIsNotTransitive() returns (a: PullRequest, b: PullRequest, c: PullRequest)
    ensures Classify(a, b).class_ == LikelyDuplicate && Classify(b, c).class_ == LikelyDuplicate
    ensures FileOverlap(a, c) == 0.6 && Classify(a, c).class_ == SequenceBoth
  {
    a := PullRequest(None, ["1", "2", "3", "4"], ["t"], ["t"]);
    b := PullRequest(None, ["1", "2", "3", "4", "5"], ["t", "u"], ["t", "u"]);
    c := PullRequest(None, ["2", "3", "4", "5"], ["u"], ["u"]);
    hide Jaccard;
    assert ToSet(a.files) == {"1", "2", "3", "4"} && ToSet(b.files) == {"1", "2", "3", "4", "5"};
    assert ToSet(c.files) == {"2", "3", "4", "5"};
    assert ToSet(a.tests) == {"t"} && ToSet(b.tests) == {"t", "u"} && ToSet(c.tests) == {"u"};
    FourOfFive("1", "2", "3", "4", "5");
    OneOfTwo("t", "u");
  }

  lemma FourOfFive<T>(p: T, q: T, r: T, s: T, t: T)
    requires p != q && p != r && p != s && p != t && q != r && q != s && q != t && r != s && r != t && s != t
    ensures Jaccard({p, q, r, s}, {p, q, r, s, t}) == 0.8 && Jaccard({p, q, r, s, t}, {q, r, s, t}) == 0.8
    ensures Jaccard({p, q, r, s}, {q, r, s, t}) == 0.6
  {
    JaccardOf({p, q, r, s}, {p, q, r, s, t}, {p, q, r, s}, {p, q, r, s, t});
    JaccardOf({p, q, r, s, t}, {q, r, s, t}, {q, r, s, t}, {p, q, r, s, t});
    JaccardOf({p, q, r, s}, {q, r, s, t}, {q, r, s}, {p, q, r, s, t});
  }

  lemma OneOfTwo<T>(p: T, q: T)
    requires p != q
    ensures Jaccard({p}, {p, q}) == 0.5 && Jaccard({p, q}, {q}) == 0.5 && Jaccard({p}, {q}) == 0.0
  {
    JaccardOf({p}, {p, q}, {p}, {p, q});
    JaccardOf({p, q}, {q}, {q}, {p, q});
    JaccardOf({p}, {q}, {}, {p, q});
  }

  lemma JaccardOf<T>(a: set<T>, b: set<T>, common: set<T>, all: set<T>)
    requires a * b == common && a + b == all && all != {}
    ensures Jaccard(a, b) == |common| as real / |all| as real
  {
  }

  /** The order of the two pull requests does not matter. */
  lemma ClassifySymmetric(a: PullRequest, b: PullRequest)
    ensures Classify(a, b) == Classify(b, a)
  {
    JaccardRange(ToSet(a.files), ToSet(b.files));
    JaccardRange(ToSet(a.tests), ToSet(b.tests));
    JaccardRange(ToSet(a.symbols), ToSet(b.symbols));
  }

  /** `isolated` is said exactly when both sources are definitive and no file is shared, and nothing is said
      exactly when a source is not. */
  lemma IsolatedIff(a: PullRequest, b: PullRequest)
    ensures Classify(a, b).class_ == Isolated <==>
      Definitive(a) && Definitive(b) && forall f :: f in a.files ==> f !in b.files
    ensures Classify(a, b).class_ == NotProven <==> !Definitive(a) || !Definitive(b)
    ensures Classify(a, b).measures.None? <==> Classify(a, b).class_ == NotProven
  {
    JaccardRange(ToSet(a.files), ToSet(b.files));
    if f :| f in a.files && f in b.files {
      assert f in ToSet(a.files) * ToSet(b.files);
    }
  }

  /** At least `n` in `d` of all elements of the two sets are shared, and there are some. */
  ghost predicate Share<T>(a: set<T>, b: set<T>, n: nat, d: nat) {
    a + b != {} && d * |a * b| >= n * |a + b|
  }

  /** A measure reaches a threshold exactly when that part of the elements is shared. */
  lemma ShareIs<T>(a: set<T>, b: set<T>, n: nat, d: nat)
    requires 0 < n && 0 < d
    ensures Jaccard(a, b) >= n as real / d as real <==> Share(a, b, n, d)
  {
    if a == {} && b == {} {
      assert a + b == {};
      Positive(n as real, d as real);
    } else {
      ApartCount(a, b);
      var i, u := |a * b|, |a + b|;
      RealProduct(i, d);
      RealProduct(n, u);
      Commute(n, u, i, d);
      CrossIff(n as real, d as real, i as real, u as real);
    }
  }

  lemma Commute(n: nat, u: nat, i: nat, d: nat)
    requires (i * d) as real == i as real * d as real && (n * u) as real == n as real * u as real
    ensures d * i >= n * u <==> i as real * d as real >= n as real * u as real
  {
    assert d * i == i * d;
  }

  lemma Positive(n: real, d: real)
    requires n > 0.0 && d > 0.0
    ensures n / d > 0.0
  {
    assert n / d * d == n;
  }

  lemma CrossIff(a: real, b: real, c: real, d: real)
    requires b > 0.0 && d > 0.0
    ensures c / d >= a / b <==> c * b >= a * d
  {
    if c * b >= a * d {
      Cross(a, b, c, d);
    } else {
      var v, w := a / b, c / d;
      assert v * b == a && w * d == c;
      assert (v - w) * (b * d) == a * d - c * b;
      assert b * d > 0.0;
      assert v > w;
    }
  }

  /** More than half of the files are shared. */
  lemma OverHalf<T>(a: set<T>, b: set<T>)
    ensures Jaccard(a, b) > 0.5 <==> 2 * |a * b| > |a + b|
  {
    if a != {} || b != {} {
      ApartCount(a, b);
      var i, u := |a * b|, |a + b|;
      CrossIff(i as real, u as real, 1.0, 2.0);
      assert 1.0 / 2.0 == 0.5;
    }
  }

  /** The source of a file list is trusted when it is absent, or says "known" or "known_empty". */
  lemma DefinitiveIs(pr: PullRequest)
    ensures Definitive(pr) <==>
      pr.source.None? || pr.source.value.status == Some("known") || pr.source.value.status == Some("known_empty")
  {
  }

  lemma Disjoint<T>(a: set<T>, b: set<T>)
    ensures a !! b <==> a * b == {}
  {
    if a * b == {} {
      forall x | x in a ensures x !in b {
        assert x in b ==> x in a * b;
      }
    }
  }

  /** The classes, by counting: what is shared and what there is of files, tests and symbols. */
  lemma ClassifyIs(a: PullRequest, b: PullRequest)
    requires Definitive(a) && Definitive(b)
    ensures var (fa, fb) := (ToSet(a.files), ToSet(b.files));
      var (ta, tb) := (ToSet(a.tests), ToSet(b.tests));
      var (sa, sb) := (ToSet(a.symbols), ToSet(b.symbols));
      var c := Classify(a, b).class_;
      var duplicate := Share(fa, fb, 8, 10) && Share(ta, tb, 1, 2) && Share(sa, sb, 1, 2);
      var pick := 2 * |fa * fb| > |fa + fb| && (Share(ta, tb, 3, 10) || Share(sa, sb, 3, 10));
      && (c == LikelyDuplicate <==> duplicate)
      && (c == PickOne <==> !duplicate && pick)
      && (c == SequenceBoth <==> !duplicate && !pick && fa * fb != {})
      && (c == Isolated <==> fa * fb == {})
      && Classify(a, b).measures == Some(if fa * fb == {} then Measures(0.0, 0.0, 0.0)
                                         else Measures(Jaccard(fa, fb), Jaccard(ta, tb), Jaccard(sa, sb)))
  {
    hide Jaccard, ToSet, Share;
    var (fa, fb) := (ToSet(a.files), ToSet(b.files));
    var (ta, tb) := (ToSet(a.tests), ToSet(b.tests));
    var (sa, sb) := (ToSet(a.symbols), ToSet(b.symbols));
    ShareIs(fa, fb, 8, 10);
    ShareIs(ta, tb, 1, 2);
    ShareIs(sa, sb, 1, 2);
    ShareIs(ta, tb, 3, 10);
    ShareIs(sa, sb, 3, 10);
    OverHalf(fa, fb);
    JaccardRange(fa, fb);
    Disjoint(fa, fb);
    assert 8.0 / 10.0 == FilesDuplicate && 1.0 / 2.0 == TestsDuplicate && 3.0 / 10.0 == Surface;
  }

  /** A pull request is a likely duplicate of itself exactly when it names a file, a test and a symbol: two
      empty lists count as no overlap. */
  lemma DuplicateOfItself(a: PullRequest)
    ensures Classify(a, a).class_ == LikelyDuplicate <==>
      Definitive(a) && a.files != [] && a.tests != [] && a.symbols != []
  {
    JaccardRange(ToSet(a.files), ToSet(a.files));
    JaccardRange(ToSet(a.tests), ToSet(a.tests));
    JaccardRange(ToSet(a.symbols), ToSet(a.symbols));
    EmptyList(a.files);
    EmptyList(a.tests);
    EmptyList(a.symbols);
  }

  lemma EmptyList(s: seq<string>)
    ensures ToSet(s) == {} <==> s == []
  {
    if s != [] {
      assert s[0] in ToSet(s);
    }
  }
}
