/** The LINQ operators the repositories compose, over tables held as
    sequences: `Where`, `Select`, `FirstOrDefault`, `OrderBy` and `Count`,
    and the identity value the store hands out to an inserted row. */
module Queries {
  import opened Common
  import opened Text

  /** `Where(p)`: the rows satisfying `p`, in table order. */
  function Where<T(!new)>(s: seq<T>, p: T -> bool): (r: seq<T>)
    ensures forall x :: x in r <==> x in s && p(x)
    ensures |r| <= |s|
    decreases |s|
  {
    if s == [] then []
    else
      var rest := Where(s[1..], p);
      assert s == [s[0]] + s[1..];
      if p(s[0]) then [s[0]] + rest else rest
  }

  /** `Where(p)` keeps every copy of a row satisfying `p` and none of the others. */
  lemma {:induction false} WhereMultiset<T(!new)>(s: seq<T>, p: T -> bool)
    ensures forall x :: multiset(Where(s, p))[x] == if p(x) then multiset(s)[x] else 0
    decreases |s|
  {
    if s != [] {
      WhereMultiset(s[1..], p);
      assert s == [s[0]] + s[1..];
    }
  }

  /** Filtering a concatenation filters each part. */
  lemma {:induction false} WhereAppend<T(!new)>(a: seq<T>, b: seq<T>, p: T -> bool)
    ensures Where(a + b, p) == Where(a, p) + Where(b, p)
    decreases |a|
  {
    if a != [] {
      var c := a + b;
      assert c[0] == a[0];
      assert c[1..] == a[1..] + b;
      WhereAppend(a[1..], b, p);
      assert Where(c, p) == (if p(a[0]) then [a[0]] else []) + Where(c[1..], p);
      assert Where(a, p) == (if p(a[0]) then [a[0]] else []) + Where(a[1..], p);
    } else {
      assert a + b == b;
    }
  }

  /** A filter every row passes keeps the whole table. */
  lemma {:induction false} WhereAll<T(!new)>(s: seq<T>, p: T -> bool)
    requires forall i :: 0 <= i < |s| ==> p(s[i])
    ensures Where(s, p) == s
    decreases |s|
  {
    if s != [] {
      WhereAll(s[1..], p);
      assert s == [s[0]] + s[1..];
    }
  }

  /** A filter no row passes keeps nothing. */
  lemma {:induction false} WhereNone<T(!new)>(s: seq<T>, p: T -> bool)
    requires forall i :: 0 <= i < |s| ==> !p(s[i])
    ensures Where(s, p) == []
    decreases |s|
  {
    if s != [] {
      WhereNone(s[1..], p);
    }
  }

  /** `Select(f)`: `f` applied to every row, in table order. */
  function Select<T, U>(s: seq<T>, f: T -> U): (r: seq<U>)
    ensures |r| == |s|
    ensures forall i :: 0 <= i < |s| ==> r[i] == f(s[i])
  {
    seq(|s|, i requires 0 <= i < |s| => f(s[i]))
  }

  /** Every row is mapped, and every mapped value comes from a row. */
  lemma SelectMembers<T, U>(s: seq<T>, f: T -> U)
    ensures forall x :: x in s ==> f(x) in Select(s, f)
    ensures forall y :: y in Select(s, f) ==> exists x :: x in s && y == f(x)
  {
    var r := Select(s, f);
    forall x | x in s ensures f(x) in r {
      var i :| 0 <= i < |s| && s[i] == x;
      assert r[i] == f(x);
    }
    forall y | y in r ensures exists x :: x in s && y == f(x) {
      var i :| 0 <= i < |r| && r[i] == y;
      assert s[i] in s;
    }
  }

  /** Position of the first row satisfying `p`, if any. */
  function IndexWhere<T>(s: seq<T>, p: T -> bool): (r: Option<nat>)
    ensures r.Some? ==> r.value < |s| && p(s[r.value])
    ensures r.Some? ==> forall j :: 0 <= j < r.value ==> !p(s[j])
    ensures r.None? <==> forall j :: 0 <= j < |s| ==> !p(s[j])
    decreases |s|
  {
    if s == [] then None
    else if p(s[0]) then Some(0)
    else match IndexWhere(s[1..], p)
      case None => None
      case Some(k) => Some(k + 1)
  }

  /** `FirstOrDefault(p)`: the first row satisfying `p`, or null. */
  function First<T>(s: seq<T>, p: T -> bool): (r: Option<T>)
    ensures r.Some? ==> r.value in s && p(r.value)
    ensures r.None? <==> forall x :: x in s ==> !p(x)
  {
    match IndexWhere(s, p)
    case None => None
    case Some(k) => Some(s[k])
  }

  /** The rows are in ascending order of `key`. */
  predicate SortedBy<T>(s: seq<T>, key: T -> string) {
    forall i, j :: 0 <= i < j < |s| ==> StrLe(key(s[i]), key(s[j]))
  }

  /** Inserts `x` in front of the first row whose key is not smaller. */
  function Insert<T>(x: T, s: seq<T>, key: T -> string): (r: seq<T>)
    requires SortedBy(s, key)
    ensures SortedBy(r, key)
    ensures multiset(r) == multiset(s) + multiset{x}
    ensures forall i :: 0 <= i < |r| ==> r[i] == x || r[i] in s
    decreases |s|
  {
    if s == [] then [x]
    else if StrLe(key(x), key(s[0])) then
      assert forall j :: 0 < j < |s| ==> StrLe(key(s[0]), key(s[j]));
      forall j | 0 < j < |s| ensures StrLe(key(x), key(s[j])) {
        StrLeTransitive(key(x), key(s[0]), key(s[j]));
      }
      [x] + s
    else
      StrLeTotal(key(x), key(s[0]));
      var rest := Insert(x, s[1..], key);
      assert s == [s[0]] + s[1..];
      [s[0]] + rest
  }

  /** `OrderBy(key)`: the same rows, as a multiset, in ascending key order.
      SQL leaves the order of equal keys open; this insertion sort keeps
      table order among them. */
  function SortBy<T>(s: seq<T>, key: T -> string): (r: seq<T>)
    ensures SortedBy(r, key)
    ensures multiset(r) == multiset(s)
    ensures |r| == |s|
    decreases |s|
  {
    if s == [] then []
    else
      assert s == [s[0]] + s[1..];
      Insert(s[0], SortBy(s[1..], key), key)
  }

  /** Ordering keeps exactly the rows it is given. */
  lemma SortByMembers<T>(s: seq<T>, key: T -> string)
    ensures forall x :: x in SortBy(s, key) <==> x in s
  {
    forall x ensures x in SortBy(s, key) <==> x in s {
      assert x in SortBy(s, key) <==> multiset(SortBy(s, key))[x] > 0;
      assert x in s <==> multiset(s)[x] > 0;
    }
  }

  /** The identity value the store assigns to a row inserted into a table
      whose rows carry the ids `id(x)`: one more than the largest. */
  function NextId<T>(s: seq<T>, id: T -> int): (n: int)
    ensures n >= 1
    ensures forall x :: x in s ==> id(x) < n
    decreases |s|
  {
    if s == [] then 1
    else
      var rest := NextId(s[1..], id);
      assert s == [s[0]] + s[1..];
      if id(s[0]) >= rest then id(s[0]) + 1 else rest
  }

  /** `Count()` agrees with the length of the listed rows: ordering keeps
      every filtered row. */
  lemma OrderedCount<T(!new)>(s: seq<T>, p: T -> bool, key: T -> string)
    ensures |SortBy(Where(s, p), key)| == |Where(s, p)|
    ensures forall x :: x in SortBy(Where(s, p), key) <==> x in s && p(x)
  {
    var w := Where(s, p);
    forall x ensures x in SortBy(w, key) <==> x in w {
      assert x in SortBy(w, key) <==> multiset(SortBy(w, key))[x] > 0;
    }
  }

  /** A listing that loads each kept row and orders the result holds
      exactly the loaded kept rows, one per kept row. */
  lemma LoadedListing<T, U>(kept: seq<T>, f: T -> U, key: U -> string)
    ensures forall y :: y in kept ==> f(y) in SortBy(Select(kept, f), key)
    ensures forall x :: x in SortBy(Select(kept, f), key) ==> exists y :: y in kept && x == f(y)
    ensures |SortBy(Select(kept, f), key)| == |kept|
  {
    var loaded := Select(kept, f);
    forall y | y in kept ensures f(y) in SortBy(loaded, key) {
      var i :| 0 <= i < |kept| && kept[i] == y;
      assert loaded[i] == f(y);
      assert multiset(SortBy(loaded, key))[f(y)] == multiset(loaded)[f(y)] > 0;
    }
    forall x | x in SortBy(loaded, key) ensures exists y :: y in kept && x == f(y) {
      assert multiset(loaded)[x] == multiset(SortBy(loaded, key))[x] > 0;
      var i :| 0 <= i < |loaded| && loaded[i] == x;
      assert kept[i] in kept;
    }
  }

  /** The list filter of the paginated queries: a blank filter keeps every
      row, any other keeps the rows whose lower-cased name contains the
      lower-cased filter. */
  predicate NameMatches(name: string, filter: Option<string>) {
    IsNullOrWhiteSpace(filter) || Contains(ToLower(name), ToLower(filter.value))
  }

  /** The filter is a case-insensitive substring test. */
  lemma {:induction false} NameMatchesIff(name: string, filter: Option<string>)
    ensures NameMatches(name, filter) <==>
      IsNullOrWhiteSpace(filter) || OccursIn(ToLower(filter.value), ToLower(name))
  {
    if !IsNullOrWhiteSpace(filter) {
      ContainsIffOccurs(ToLower(name), ToLower(filter.value));
    }
  }
}
