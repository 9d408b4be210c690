/** Crate names and the order Python's `sorted` gives them: code point by code point. */
module Names {

  type Name = string

  predicate Leq(a: Name, b: Name) {
    a == [] || (b != [] && (a[0] < b[0] || (a[0] == b[0] && Leq(a[1..], b[1..]))))
  }

  predicate Less(a: Name, b: Name) {
    a != b && Leq(a, b)
  }

  /** Code points decide at the first place where two names differ. */
  ghost predicate DiffersDown(a: Name, b: Name, k: nat) {
    k < |a| && k < |b| && a[..k] == b[..k] && a[k] < b[k]
  }

  /** A name comes before another exactly when it is a prefix of it, or has the smaller code point at the first place
      where they differ. */
  lemma {:induction false} LeqIs(a: Name, b: Name)
    ensures Leq(a, b) <==> StartsWith(b, a) || exists k: nat :: DiffersDown(a, b, k)
  {
    if a != [] && b != [] && a[0] == b[0] {
      LeqIs(a[1..], b[1..]);
      PrefixTail(a, b);
      forall k: nat ensures DiffersDown(a, b, k + 1) <==> DiffersDown(a[1..], b[1..], k) {
        if k < |a| - 1 && k < |b| - 1 {
          assert a[..k + 1] == [a[0]] + a[1..][..k] && b[..k + 1] == [b[0]] + b[1..][..k];
        }
      }
      if k: nat :| DiffersDown(a, b, k) {
        assert k == k - 1 + 1 && DiffersDown(a[1..], b[1..], k - 1);
      }
      if k: nat :| DiffersDown(a[1..], b[1..], k) {
        assert DiffersDown(a, b, k + 1);
      }
    } else if a != [] && b != [] {
      forall k: nat | DiffersDown(a, b, k) ensures k == 0 || a[0] == b[0] {
        FirstAgrees(a, b, k);
      }
      assert a[0] < b[0] ==> DiffersDown(a, b, 0);
    }
  }

  lemma FirstAgrees(a: Name, b: Name, k: nat)
    requires DiffersDown(a, b, k)
    ensures k == 0 || a[0] == b[0]
  {
    if k > 0 {
      assert a[..k][0] == b[..k][0];
    }
  }

  lemma PrefixTail(a: Name, b: Name)
    requires a != [] && b != [] && a[0] == b[0]
    ensures StartsWith(b, a) <==> StartsWith(b[1..], a[1..])
  {
    if |a| <= |b| {
      assert a == [a[0]] + a[1..] && b[..|a|] == [b[0]] + b[1..][..|a| - 1];
    }
  }

  lemma {:induction false} LeqTotal(a: Name, b: Name)
    ensures Leq(a, b) || Leq(b, a)
  {
    if a != [] && b != [] && a[0] == b[0] {
      LeqTotal(a[1..], b[1..]);
    }
  }

  lemma {:induction false} LeqAntisymmetric(a: Name, b: Name)
    requires Leq(a, b) && Leq(b, a)
    ensures a == b
  {
    if a != [] && b != [] {
      LeqAntisymmetric(a[1..], b[1..]);
      assert a == [a[0]] + a[1..] && b == [b[0]] + b[1..];
    }
  }

  lemma {:induction false} LeqTransitive(a: Name, b: Name, c: Name)
    requires Leq(a, b) && Leq(b, c)
    ensures Leq(a, c)
  {
    if a != [] && a[0] == b[0] && b[0] == c[0] {
      LeqTransitive(a[1..], b[1..], c[1..]);
    }
  }

  lemma {:induction false} LeqReflexive(a: Name)
    ensures Leq(a, a)
  {
    if a != [] {
      LeqReflexive(a[1..]);
    }
  }

  predicate StartsWith(s: string, prefix: string) {
    |prefix| <= |s| && s[..|prefix|] == prefix
  }

  predicate EndsWith(s: string, suffix: string) {
    |suffix| <= |s| && s[|s| - |suffix|..] == suffix
  }

  lemma StartsWithIs(s: string, prefix: string)
    ensures StartsWith(s, prefix) <==> exists t :: s == prefix + t
  {
    if StartsWith(s, prefix) {
      assert s == prefix + s[|prefix|..];
    }
  }

  lemma EndsWithIs(s: string, suffix: string)
    ensures EndsWith(s, suffix) <==> exists t :: s == t + suffix
  {
    if EndsWith(s, suffix) {
      assert s == s[..|s| - |suffix|] + suffix;
    }
  }

  ghost predicate Sorted(s: seq<Name>) {
    forall i, j :: 0 <= i < j < |s| ==> Leq(s[i], s[j])
  }

  ghost predicate NoDup<T>(s: seq<T>) {
    forall i, j :: 0 <= i < j < |s| ==> s[i] != s[j]
  }

  ghost function Elements<T>(s: seq<T>): set<T> {
    set x | x in s
  }

  lemma ElementsSnoc<T>(s: seq<T>, x: T)
    ensures Elements(s + [x]) == Elements(s) + {x}
    ensures NoDup(s) && x !in Elements(s) ==> NoDup(s + [x])
  {
  }

  lemma LastIsNew<T>(s: seq<T>)
    requires NoDup(s) && s != []
    ensures NoDup(s[..|s| - 1]) && s[|s| - 1] !in Elements(s[..|s| - 1])
    ensures s == s[..|s| - 1] + [s[|s| - 1]]
  {
  }

  /** A sequence without repetitions is as long as the set of its elements. */
  lemma {:induction false} NoDupLength<T>(s: seq<T>)
    requires NoDup(s)
    ensures |Elements(s)| == |s|
  {
    if s == [] {
      assert Elements(s) == {};
    } else {
      LastIsNew(s);
      NoDupLength(s[..|s| - 1]);
      ElementsSnoc(s[..|s| - 1], s[|s| - 1]);
    }
  }

  /** One insertion of `list.sort()`: `s` is sorted and `x` goes to its place. */
  method Insert(s: seq<Name>, x: Name) returns (r: seq<Name>)
    requires Sorted(s)
    ensures Sorted(r) && multiset(r) == multiset(s) + multiset{x}
  {
    var i := 0;
    while i < |s| && Leq(s[i], x)
      invariant 0 <= i <= |s|
      invariant forall k :: 0 <= k < i ==> Leq(s[k], x)
    {
      i := i + 1;
    }
    r := s[..i] + [x] + s[i..];
    assert s == s[..i] + s[i..];
    InsertedSorted(s, x, i);
  }

  lemma InsertedSorted(s: seq<Name>, x: Name, i: nat)
    requires Sorted(s) && i <= |s| && (forall k :: 0 <= k < i ==> Leq(s[k], x)) && (i < |s| ==> !Leq(s[i], x))
    ensures Sorted(s[..i] + [x] + s[i..])
  {
    hide Leq;
    if i < |s| {
      LeqTotal(s[i], x);
      forall k | i <= k < |s| ensures Leq(x, s[k]) {
        if k > i {
          LeqTransitive(x, s[i], s[k]);
        }
      }
    }
  }

  /** Python's `sorted`. */
  method Sort(s: seq<Name>) returns (r: seq<Name>)
    ensures Sorted(r) && multiset(r) == multiset(s)
    ensures Elements(r) == Elements(s) && |r| == |s|
    ensures NoDup(s) ==> NoDup(r)
  {
    r := [];
    for i := 0 to |s|
      invariant Sorted(r) && multiset(r) == multiset(s[..i])
    {
      assert s[..i + 1] == s[..i] + [s[i]];
      r := Insert(r, s[i]);
    }
    assert s[..|s|] == s;
    SameBag(s, r);
  }

  lemma SameBag<T>(s: seq<T>, r: seq<T>)
    requires multiset(r) == multiset(s)
    ensures Elements(r) == Elements(s) && |r| == |s|
    ensures NoDup(s) ==> NoDup(r)
  {
    assert forall x :: x in r <==> x in multiset(r);
    assert forall x :: x in s <==> x in multiset(s);
    assert |multiset(r)| == |multiset(s)|;
    if NoDup(s) {
      forall i, j | 0 <= i < j < |r| ensures r[i] != r[j] {
        if r[i] == r[j] {
          var x := r[i];
          assert r == r[..i] + [x] + r[i + 1..j] + [x] + r[j + 1..];
          assert multiset(r)[x] >= 2;
          NoDupCount(s, x);
        }
      }
    }
  }

  lemma {:induction false} NoDupCount<T>(s: seq<T>, x: T)
    requires NoDup(s)
    ensures multiset(s)[x] <= 1
  {
    if s != [] {
      var rest := s[..|s| - 1];
      assert s == rest + [s[|s| - 1]];
      NoDupCount(rest, x);
    }
  }

  /** `sorted(...)` of a set. */
  method SortedList(s: set<Name>) returns (r: seq<Name>)
    ensures Sorted(r) && NoDup(r) && Elements(r) == s
  {
    hide Sorted;
    r := [];
    var todo := s;
    while todo != {}
      invariant todo <= s && NoDup(r) && Elements(r) == s - todo
      decreases todo
    {
      hide NoDup, Elements;
      var x :| x in todo;
      ElementsSnoc(r, x);
      todo := todo - {x};
      r := r + [x];
    }
    r := Sort(r);
  }

  ghost predicate IsListing(r: seq<Name>, s: set<Name>) {
    Sorted(r) && NoDup(r) && Elements(r) == s
  }

  lemma EndsIn(r: seq<Name>)
    requires r != []
    ensures r[|r| - 1] in Elements(r)
  {
  }

  /** `sorted(...)` of a set, as the listing of that set. */
  method Listing(s: set<Name>) returns (r: seq<Name>)
    ensures IsListing(r, s) && forall x :: x in r <==> x in s
  {
    r := SortedList(s);
    assert forall x :: x in r <==> x in Elements(r);
  }

  lemma LastIsLargest(r: seq<Name>, s: set<Name>, x: Name)
    requires IsListing(r, s) && r != [] && x in s
    ensures Leq(x, r[|r| - 1]) && r[|r| - 1] in s
  {
    hide NoDup, Leq;
    assert x in Elements(r) && r[|r| - 1] in Elements(r);
    LeqReflexive(x);
  }

  /** A set of names has one sorted listing. */
  lemma {:induction false} OneListing(r: seq<Name>, q: seq<Name>, s: set<Name>)
    requires IsListing(r, s) && IsListing(q, s)
    ensures r == q
  {
    hide NoDup, Leq, Elements;
    if r == [] || q == [] {
      NoDupLength(r);
      NoDupLength(q);
    } else {
      var a, b := r[|r| - 1], q[|q| - 1];
      assert a in Elements(r) && b in Elements(q) by {
        EndsIn(r);
        EndsIn(q);
      }
      LastIsLargest(r, s, b);
      LastIsLargest(q, s, a);
      LeqAntisymmetric(a, b);
      LastIsNew(r);
      LastIsNew(q);
      ElementsSnoc(r[..|r| - 1], a);
      ElementsSnoc(q[..|q| - 1], b);
      OneListing(r[..|r| - 1], q[..|q| - 1], s - {a});
    }
  }

  lemma DifferentListing(r: seq<Name>, q: seq<Name>, s: set<Name>)
    requires IsListing(r, s) && r != q
    ensures !IsListing(q, s)
  {
    if IsListing(q, s) {
      OneListing(r, q, s);
    }
  }

  lemma ListingMembers(s: seq<Name>, members: set<Name>)
    requires IsListing(s, members)
    ensures forall x :: x in s <==> x in members
  {
    MembersOf(s);
  }

  lemma ListingDistinct(r: seq<Name>, s: set<Name>)
    requires IsListing(r, s)
    ensures NoDup(r)
  {
  }

  lemma MembersOf<T>(s: seq<T>)
    ensures forall p :: p in Elements(s) <==> p in s
  {
  }
}
