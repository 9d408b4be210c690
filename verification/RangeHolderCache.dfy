/** The bounded memo of range-holder queries: a least-recently-used cache keyed by the identity of a callable. */
module RangeHolderCache {
  import opened Wrappers
  import opened Names

  /** A query function. Two callables that are alive at once have different addresses; once one is gone its
      address may be given to another. */
  datatype Callable = Callable(serial: nat, address: nat)

  /** What a query is asked: the repository, the commit range, the blob and the path. */
  datatype Question = Question(repo: string, start: string, head: string, blob: string, path: string)

  /** The cache's key holds only the callable's address. */
  datatype Key = Key(question: Question, address: nat)

  datatype Entry = Entry(key: Key, owner: Callable, holders: seq<Name>)

  /** One use of the cache: a question put to a callable. */
  datatype Use = Use(question: Question, to: Callable)

  /** The lines a callable prints, or a failure. It is deterministic: the repository does not change. */
  type Oracle = (Callable, Question) -> Option<seq<string>>

  /** `line.strip()` is empty. */
  predicate Blank(isSpace: char -> bool, line: string) {
    forall i :: 0 <= i < |line| ==> isSpace(line[i])
  }

  /** The line holds something else than white space. */
  ghost predicate HasText(isSpace: char -> bool, line: string) {
    exists i :: 0 <= i < |line| && !isSpace(line[i])
  }

  lemma BlankIs(isSpace: char -> bool, line: string)
    ensures Blank(isSpace, line) <==> !HasText(isSpace, line)
  {
  }

  /** What asking directly gives: the distinct lines that are not blank, sorted. */
  ghost predicate IsDirect(run: Oracle, isSpace: char -> bool, u: Use, r: Option<seq<Name>>) {
    match run(u.to, u.question)
    case None => r.None?
    case Some(lines) => r.Some? && IsListing(r.value, set line | line in lines && HasText(isSpace, line))
  }

  lemma DirectUnique(run: Oracle, isSpace: char -> bool, u: Use, r: Option<seq<Name>>, q: Option<seq<Name>>)
    requires IsDirect(run, isSpace, u, r) && IsDirect(run, isSpace, u, q)
    ensures r == q
  {
    hide IsListing;
    if r.Some? {
      OneListing(r.value, q.value, set line | line in run(u.to, u.question).value && HasText(isSpace, line));
    }
  }

  /** The other uses since the last use of `k`. */
  ghost function Others<K>(h: seq<K>, k: K): set<K>
    requires k in h
  {
    var last := h[|h| - 1];
    if last == k then {} else Others(h[..|h| - 1], k) + {last}
  }

  /** `k` was used, and fewer than `n` different others since. */
  ghost predicate Recent<K>(h: seq<K>, k: K, n: nat) {
    k in h && |Others(h, k)| < n
  }

  ghost function Without<K>(s: seq<K>, k: K): seq<K>
  {
    if s == [] then [] else Without(s[..|s| - 1], k) + if s[|s| - 1] == k then [] else [s[|s| - 1]]
  }

  /** Everything ever used, least recently used first. */
  ghost function ByAge<K>(h: seq<K>): seq<K> {
    if h == [] then [] else Without(ByAge(h[..|h| - 1]), h[|h| - 1]) + [h[|h| - 1]]
  }

  ghost function Last<K>(s: seq<K>, n: nat): seq<K> {
    if |s| <= n then s else s[|s| - n..]
  }

  lemma {:induction false} WithoutConcat<K>(a: seq<K>, b: seq<K>, k: K)
    ensures Without(a + b, k) == Without(a, k) + Without(b, k)
  {
    if b == [] {
      assert a + b == a;
    } else {
      WithoutConcat(a, b[..|b| - 1], k);
      assert (a + b)[..|a + b| - 1] == a + b[..|b| - 1];
    }
  }

  lemma {:induction false} WithoutShape<K>(s: seq<K>, k: K)
    requires NoDup(s)
    ensures NoDup(Without(s, k)) && Elements(Without(s, k)) == Elements(s) - {k}
    ensures k !in s ==> Without(s, k) == s
    ensures |Without(s, k)| == if k in s then |s| - 1 else |s|
  {
    if s != [] {
      var rest, x := s[..|s| - 1], s[|s| - 1];
      LastIsNew(s);
      WithoutShape(rest, k);
      ElementsSnoc(rest, x);
      if x != k {
        ElementsSnoc(Without(rest, k), x);
      }
    }
  }

  lemma {:induction false} ByAgeShape<K>(h: seq<K>)
    ensures NoDup(ByAge(h)) && Elements(ByAge(h)) == Elements(h)
  {
    hide Without, NoDup, Elements;
    EmptyIsDistinct<K>();
    if h != [] {
      var rest, x := h[..|h| - 1], h[|h| - 1];
      ByAgeShape(rest);
      WithoutShape(ByAge(rest), x);
      ElementsSnoc(Without(ByAge(rest), x), x);
      assert h == rest + [x];
      ElementsSnoc(rest, x);
    }
  }

  lemma WithoutAround<K>(a: seq<K>, k: K, b: seq<K>, x: K)
    ensures x != k ==> Without(a + [k] + b, x) == Without(a, x) + [k] + Without(b, x)
    ensures x == k ==> Without(a + [k] + b, x) == Without(a, x) + Without(b, x)
  {
    WithoutConcat(a + [k], b, x);
    WithoutConcat(a, [k], x);
    assert [k][..0] == [] && Without<K>([], x) == [];
  }

  lemma EmptyIsDistinct<K>()
    ensures NoDup<K>([]) && Elements<K>([]) == {}
  {
  }

  /** The cached entry `k` and those after it, when entries are kept by age: exactly the uses since. */
  lemma {:induction false} Younger<K>(h: seq<K>, k: K) returns (a: seq<K>, b: seq<K>)
    requires k in h
    ensures ByAge(h) == a + [k] + b && NoDup(b) && Elements(b) == Others(h, k)
  {
    hide NoDup, Elements, Without;
    var rest, x := h[..|h| - 1], h[|h| - 1];
    if x == k {
      EmptyIsDistinct<K>();
      a, b := Without(ByAge(rest), x), [];
    } else {
      var a', b' := Younger(rest, k);
      WithoutAround(a', k, b', x);
      WithoutShape(b', x);
      a, b := Without(a', x), Without(b', x) + [x];
      ElementsSnoc(Without(b', x), x);
    }
  }

  /** The `n` youngest entries are exactly the recent ones. */
  lemma KeptIffRecent<K>(h: seq<K>, k: K, n: nat)
    ensures k in Last(ByAge(h), n) <==> Recent(h, k, n)
  {
    ByAgeShape(h);
    var s := ByAge(h);
    if k in h {
      var a, b := Younger(h, k);
      NoDupLength(b);
      assert s[|a|] == k;
      if |s| > n {
        if |b| < n {
          assert Last(s, n)[n - |b| - 1] == k;
        }
      }
    } else {
      assert k !in Elements(s);
    }
  }

  lemma WithoutAt<K>(s: seq<K>, i: nat)
    requires NoDup(s) && i < |s|
    ensures Without(s, s[i]) == s[..i] + s[i + 1..]
  {
    hide NoDup, Elements, Without;
    assert s == s[..i] + s[i..] && s[i..] == [s[i]] + s[i + 1..] && s == s[..i] + [s[i]] + s[i + 1..];
    SplitDistinct(s[..i], s[i..]);
    SplitDistinct([s[i]], s[i + 1..]);
    assert s[i] in s[i..] && s[i] in [s[i]];
    WithoutAround(s[..i], s[i], s[i + 1..], s[i]);
    WithoutShape(s[..i], s[i]);
    WithoutShape(s[i + 1..], s[i]);
  }

  /** One use, seen by a cache of the `n` youngest: a kept entry moves to the end; a new one is appended and,
      when that makes one too many, the oldest goes. */
  lemma LastAfterUse<K>(h: seq<K>, k: K, n: nat)
    requires n >= 1
    ensures var c := Last(ByAge(h), n);
      && NoDup(c) && |c| <= n
      && Last(ByAge(h + [k]), n) ==
         if k in c then Without(c, k) + [k] else if |c| < n then c + [k] else (c + [k])[1..]
  {
    hide NoDup, Elements, Without, Last;
    ByAgeShape(h);
    assert (h + [k])[..|h|] == h;
    LastTouched(ByAge(h), k, n);
  }

  lemma LastTouched<K>(s: seq<K>, k: K, n: nat)
    requires NoDup(s) && n >= 1
    ensures var c := Last(s, n);
      && NoDup(c) && |c| <= n
      && Last(Without(s, k) + [k], n) ==
         if k in c then Without(c, k) + [k] else if |c| < n then c + [k] else (c + [k])[1..]
  {
    hide NoDup, Elements, Without, Last;
    var a, c := LastSplit(s, n);
    SplitDistinct(a, c);
    WithoutConcat(a, c, k);
    WithoutShape(a, k);
    WithoutShape(c, k);
    if |c| < n {
      LastConcat([], Without(c, k) + [k], n);
      assert Without(s, k) + [k] == [] + (Without(c, k) + [k]);
    } else if k in c {
      assert Without(s, k) + [k] == Without(a, k) + (Without(c, k) + [k]);
      LastConcat(Without(a, k), Without(c, k) + [k], n);
    } else {
      LastShifted(Without(a, k), c, k, n);
    }
  }

  lemma LastSplit<K>(s: seq<K>, n: nat) returns (a: seq<K>, c: seq<K>)
    ensures s == a + c && c == Last(s, n) && |c| <= n && (|c| < n ==> a == [])
  {
    a, c := if |s| <= n then [] else s[..|s| - n], Last(s, n);
  }

  lemma SplitDistinct<K>(a: seq<K>, c: seq<K>)
    requires NoDup(a + c)
    ensures NoDup(a) && NoDup(c) && forall k :: k in c ==> k !in a
  {
    var s := a + c;
    assert forall i :: 0 <= i < |a| ==> s[i] == a[i];
    assert forall j :: 0 <= j < |c| ==> s[|a| + j] == c[j];
  }

  lemma LastShifted<K>(a: seq<K>, c: seq<K>, k: K, n: nat)
    requires |c| == n && n >= 1
    ensures Last(a + c + [k], n) == (c + [k])[1..]
  {
    assert a + c + [k] == (a + [c[0]]) + (c[1..] + [k]);
  }

  lemma LastConcat<K>(a: seq<K>, b: seq<K>, n: nat)
    requires |b| == n || (|b| <= n && a == [])
    ensures Last(a + b, n) == b
  {
  }

  /** The uses the entries stand for. */
  ghost function UsesOf(values: seq<Entry>): seq<Use> {
    seq(|values|, i requires 0 <= i < |values| => Use(values[i].key.question, values[i].owner))
  }

  class Cache {
    const run: Oracle
    const isSpace: char -> bool
    const maxEntries: nat
    var repo: string
    var start: string
    var head: string
    var query: Callable
    var values: seq<Entry>
    ghost var history: seq<Use>
    ghost var asked: nat

    /** The callables kept alive: the current one and the owners of the entries. */
    ghost function Held(): set<Callable>
      reads this
    {
      {query} + set e | e in values :: e.owner
    }

    /** Live callables have different addresses; every entry is what its owner answers; and the entries are
        the most recent uses, oldest first. */
    ghost predicate Valid()
      reads this
    {
      && maxEntries >= 1
      && (forall c, d :: c in Held() && d in Held() && c.address == d.address ==> c == d)
      && (forall e :: e in values ==> EntryOk(e))
      && UsesOf(values) == Last(ByAge(history), maxEntries)
    }

    ghost predicate EntryOk(e: Entry) {
      e.key.address == e.owner.address && IsDirect(run, isSpace, Use(e.key.question, e.owner), Some(e.holders))
    }

    constructor (run: Oracle, isSpace: char -> bool, repo: string, start: string, head: string,
                 query: Callable, maxEntries: nat)
      requires maxEntries >= 1
      ensures Valid() && history == [] && asked == 0
      ensures this.run == run && this.isSpace == isSpace && this.query == query && this.maxEntries == maxEntries
    {
      this.run, this.isSpace, this.maxEntries, this.query := run, isSpace, maxEntries, query;
      this.repo, this.start, this.head := repo, start, head;
      values, history, asked := [], [], 0;
    }

    /** Assigning `query`. The new callable may reuse the address of one that is no longer held. */
    method SetQuery(q: Callable)
      requires Valid()
      requires forall c :: c in Held() && c.address == q.address ==> c == q
      modifies this`query
      ensures Valid() && query == q
    {
      query := q;
    }

    /** `move_to_end` of the entry a use finds. */
    method MoveToEnd(i: nat, ghost u: Use)
      requires Valid() && i < |values| && i < |UsesOf(values)| && UsesOf(values)[i] == u
      modifies this`values, this`history
      ensures Valid() && history == old(history) + [u]
    {
      hide Last, ByAge, IsDirect, Without, NoDup, UsesOf;
      LastAfterUse(history, u, maxEntries);
      WithoutAt(UsesOf(values), i);
      ghost var before := values;
      values := values[..i] + values[i + 1..] + [values[i]];
      history := history + [u];
      UsesMoved(before, i);
      assert forall e :: e in values ==> e in before;
    }

    /** A new entry for the current callable, and `popitem(last=False)` when there is one too many. */
    method Add(e: Entry, ghost u: Use)
      requires Valid() && EntryOk(e) && e.owner == query && u == Use(e.key.question, e.owner) && u !in UsesOf(values)
      modifies this`values, this`history
      ensures Valid() && history == old(history) + [u]
    {
      hide Last, ByAge, IsDirect, Without, NoDup;
      LastAfterUse(history, u, maxEntries);
      ghost var before := values;
      values := values + [e];
      assert UsesOf(values) == UsesOf(before) + [u];
      if |values| > maxEntries {
        assert UsesOf(values[1..]) == UsesOf(values)[1..];
        values := values[1..];
      }
      history := history + [u];
      assert forall d :: d in values ==> d in before || d == e;
    }

    /** `holders(blob_id, path)`: always the direct answer. The callable is asked exactly when this use is not
        recent, and a failing query leaves the cache alone. */
    method Holders(blob: string, path: string) returns (r: Option<seq<Name>>)
      requires Valid()
      modifies this`values, this`history, this`asked
      ensures Valid() && |values| <= maxEntries
      ensures var u := Use(Question(repo, start, head, blob, path), query);
        && IsDirect(run, isSpace, u, r)
        && asked == old(asked) + (if Recent(old(history), u, maxEntries) then 0 else 1)
        && history == (if r.Some? then old(history) + [u] else old(history))
        && (r.None? ==> values == old(values))
    {
      hide Recent, ByAge, IsListing, Blank, HasText, Last;
      var key := Key(Question(repo, start, head, blob, path), query.address);
      ghost var u := Use(key.question, query);
      KeptIffRecent(history, u, maxEntries);
      if exists i :: 0 <= i < |values| && values[i].key == key {
        var i :| 0 <= i < |values| && values[i].key == key;
        assert EntryOk(values[i]) && values[i].owner in Held();
        assert UsesOf(values)[i] == u;
        r := Some(values[i].holders);
        MoveToEnd(i, u);
      } else {
        forall i | 0 <= i < |values| ensures UsesOf(values)[i] != u {
          assert EntryOk(values[i]) && values[i].key != key;
        }
        asked := asked + 1;
        var raw := run(query, key.question);
        if raw.None? {
          AtMost(history, maxEntries);
          return None;
        }
        forall line ensures Blank(isSpace, line) <==> !HasText(isSpace, line) {
          BlankIs(isSpace, line);
        }
        assert (set line | line in raw.value && !Blank(isSpace, line))
          == set line | line in raw.value && HasText(isSpace, line);
        var holders := Listing(set line | line in raw.value && !Blank(isSpace, line));
        r := Some(holders);
        Add(Entry(key, query, holders), u);
      }
      AtMost(history, maxEntries);
    }
  }

  lemma UsesMoved(values: seq<Entry>, i: nat)
    requires i < |values|
    ensures |UsesOf(values)| == |values|
    ensures UsesOf(values[..i] + values[i + 1..] + [values[i]]) ==
      UsesOf(values)[..i] + UsesOf(values)[i + 1..] + [UsesOf(values)[i]]
  {
  }

  lemma AtMost<K>(h: seq<K>, n: nat)
    ensures |Last(ByAge(h), n)| <= n
  {
  }

  /** `RangeHolderCache(...)`, which refuses a bound below one. */
  method Open(run: Oracle, isSpace: char -> bool, repo: string, start: string, head: string, query: Callable,
              maxEntries: int)
    returns (r: Option<Cache>)
    ensures r.None? <==> maxEntries < 1
    ensures r.Some? ==> fresh(r.value) && r.value.Valid() && r.value.history == []
  {
    if maxEntries < 1 {
      return None;
    }
    var c := new Cache(run, isSpace, repo, start, head, query, maxEntries);
    r := Some(c);
  }
}
