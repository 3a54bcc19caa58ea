/** Sequence helpers shared by the server handlers and the client reducers:
    filtering, index removal, substring search, ASCII case folding and a
    descending sort by a numeric key. */
module Seqs {

  /** `r` occurs in `s` in the same order, possibly with gaps. */
  ghost predicate InOrderWithin<T>(r: seq<T>, s: seq<T>)
    decreases |s|
  {
    |r| == 0 || (|s| > 0 && if r[0] == s[0] then InOrderWithin(r[1..], s[1..]) else InOrderWithin(r, s[1..]))
  }

  /** `Array.prototype.filter`: the elements satisfying `p`, in their original
      order (`FilterCounts` states the order and the multiplicities). */
  function Filter<T(!new)>(s: seq<T>, p: T -> bool): (r: seq<T>)
    ensures |r| <= |s|
    ensures forall x :: x in r <==> x in s && p(x)
    ensures forall i :: 0 <= i < |r| ==> p(r[i])
    ensures multiset(r) <= multiset(s)
    ensures (forall i :: 0 <= i < |s| ==> p(s[i])) ==> r == s
  {
    if |s| == 0 then []
    else
      var rest := Filter(s[1..], p);
      assert s == [s[0]] + s[1..];
      if p(s[0]) then [s[0]] + rest else rest
  }

  /** The filter keeps every element satisfying `p` exactly as often as it
      occurs in `s`, drops every other, and keeps the order of `s`. */
  lemma {:induction false} FilterCounts<T(!new)>(s: seq<T>, p: T -> bool)
    ensures forall x :: multiset(Filter(s, p))[x] == if p(x) then multiset(s)[x] else 0
    ensures InOrderWithin(Filter(s, p), s)
    decreases |s|
  {
    if |s| > 0 {
      var rest := Filter(s[1..], p);
      FilterCounts(s[1..], p);
      assert s == [s[0]] + s[1..];
      assert multiset(s) == multiset{s[0]} + multiset(s[1..]);
      if p(s[0]) {
        assert ([s[0]] + rest)[1..] == rest;
      } else {
        assert |rest| == 0 || rest[0] != s[0];
      }
    }
  }

  /** Number of elements satisfying `p`. */
  function Count<T(!new)>(s: seq<T>, p: T -> bool): (n: nat)
    ensures n <= |s|
    ensures n == |Filter(s, p)|
  {
    |Filter(s, p)|
  }

  /** Filtering the concatenation is concatenating the filters. */
  lemma {:induction false} FilterAppend<T(!new)>(a: seq<T>, b: seq<T>, p: T -> bool)
    ensures Filter(a + b, p) == Filter(a, p) + Filter(b, p)
    decreases |a|
  {
    if |a| == 0 {
      assert a + b == b;
    } else {
      assert (a + b)[1..] == a[1..] + b;
      FilterAppend(a[1..], b, p);
    }
  }

  /** Filters by predicates that agree on the elements of `s` are equal. */
  lemma {:induction false} FilterCongruent<T(!new)>(s: seq<T>, p: T -> bool, q: T -> bool)
    requires forall x :: x in s ==> p(x) == q(x)
    ensures Filter(s, p) == Filter(s, q)
    decreases |s|
  {
    if |s| > 0 {
      assert s == [s[0]] + s[1..];
      assert forall x :: x in s[1..] ==> x in s;
      FilterCongruent(s[1..], p, q);
    }
  }

  /** Counts of two predicates that no element satisfies together add up to
      at most the length. */
  lemma {:induction false} CountDisjoint<T(!new)>(s: seq<T>, p: T -> bool, q: T -> bool)
    requires forall i :: 0 <= i < |s| ==> !(p(s[i]) && q(s[i]))
    ensures Count(s, p) + Count(s, q) <= |s|
    decreases |s|
  {
    if |s| > 0 {
      CountDisjoint(s[1..], p, q);
      assert |Filter(s, p)| == (if p(s[0]) then 1 else 0) + |Filter(s[1..], p)|;
      assert |Filter(s, q)| == (if q(s[0]) then 1 else 0) + |Filter(s[1..], q)|;
    }
  }

  /** Replacing one element changes the count by what the old and the new
      element contribute. */
  lemma CountUpdate<T(!new)>(s: seq<T>, i: nat, y: T, p: T -> bool)
    requires i < |s|
    ensures Count(s[i := y], p) == Count(s, p) - (if p(s[i]) then 1 else 0) + (if p(y) then 1 else 0)
  {
    var a, b := s[..i], s[i + 1..];
    assert s == a + [s[i]] + b;
    assert s[i := y] == a + [y] + b;
    FilterAppend(a + [s[i]], b, p);
    FilterAppend(a, [s[i]], p);
    FilterAppend(a + [y], b, p);
    FilterAppend(a, [y], p);
  }

  /** Splits `s` into the elements satisfying `p` and the rest, each part in
      its original order; together they hold exactly the elements of `s`. */
  function Partition<T(!new)>(s: seq<T>, p: T -> bool): (r: (seq<T>, seq<T>))
    ensures forall x :: x in r.0 ==> p(x)
    ensures forall x :: x in r.1 ==> !p(x)
    ensures multiset(r.0) + multiset(r.1) == multiset(s)
  {
    if |s| == 0 then ([], [])
    else
      var rest := Partition(s[1..], p);
      assert s == [s[0]] + s[1..];
      if p(s[0]) then ([s[0]] + rest.0, rest.1) else (rest.0, [s[0]] + rest.1)
  }

  /** `Array.prototype.splice(i, 1)`: removes exactly the element at `i`. */
  function RemoveAt<T>(s: seq<T>, i: int): (r: seq<T>)
    requires 0 <= i < |s|
    ensures |r| == |s| - 1
    ensures forall j :: 0 <= j < i ==> r[j] == s[j]
    ensures forall j :: i <= j < |r| ==> r[j] == s[j + 1]
  {
    s[..i] + s[i + 1..]
  }

  /** `Array.prototype.slice(0, n)`: the first `n` elements, or all of them. */
  function Take<T>(s: seq<T>, n: nat): (r: seq<T>)
    ensures |r| == if |s| < n then |s| else n
    ensures forall i :: 0 <= i < |r| ==> r[i] == s[i]
  {
    if |s| <= n then s else s[..n]
  }

  /** `q` occurs in `s` starting at index `i`. */
  predicate OccursAt(s: string, q: string, i: int) {
    0 <= i && i + |q| <= |s| && s[i..i + |q|] == q
  }

  /** `String.prototype.includes`. */
  function Contains(s: string, q: string): (b: bool)
    ensures b <==> exists i :: OccursAt(s, q, i)
    decreases |s|
  {
    if |q| <= |s| && s[..|q|] == q then
      assert OccursAt(s, q, 0);
      true
    else if |s| == 0 then
      assert forall i :: !OccursAt(s, q, i);
      false
    else
      var b := Contains(s[1..], q);
      assert forall i :: OccursAt(s[1..], q, i) ==> OccursAt(s, q, i + 1) by {
        forall i | OccursAt(s[1..], q, i) ensures OccursAt(s, q, i + 1) {
          assert s[i + 1..i + 1 + |q|] == s[1..][i..i + |q|];
        }
      }
      assert forall i :: OccursAt(s, q, i) ==> i >= 1 && OccursAt(s[1..], q, i - 1) by {
        forall i | OccursAt(s, q, i) ensures i >= 1 && OccursAt(s[1..], q, i - 1) {
          if i == 0 {
            assert false;
          }
          assert s[1..][i - 1..i - 1 + |q|] == s[i..i + |q|];
        }
      }
      b
  }

  /** Two sequences with the same multiset have the same members. */
  lemma SameMembers<T>(a: seq<T>, b: seq<T>)
    requires multiset(a) == multiset(b)
    ensures forall x :: x in a <==> x in b
  {
    forall x ensures x in a <==> x in b {
      assert x in a <==> x in multiset(a);
      assert x in b <==> x in multiset(b);
    }
  }

  /** Dropping the head of a prefix is taking the shorter prefix of the tail. */
  lemma TakeTail<T>(s: seq<T>, k: nat)
    requires 0 < k <= |s|
    ensures s[..k][1..] == s[1..][..k - 1]
  {
  }

  /** The empty string occurs in every string. */
  lemma ContainsEmpty(s: string)
    ensures Contains(s, "")
  {
    assert OccursAt(s, "", 0);
  }

  /** ASCII case folding, the part of `toLowerCase` this model covers. */
  function LowerChar(c: char): char {
    if 'A' <= c <= 'Z' then (c as int + 32) as char else c
  }

  function Lower(s: string): (r: string)
    ensures |r| == |s|
    ensures forall i :: 0 <= i < |s| ==> r[i] == LowerChar(s[i])
  {
    seq(|s|, i requires 0 <= i < |s| => LowerChar(s[i]))
  }

  /** ASCII upper-casing, the part of `toUpperCase` this model covers. */
  function UpperChar(c: char): char {
    if 'a' <= c <= 'z' then (c as int - 32) as char else c
  }

  function Upper(s: string): (r: string)
    ensures |r| == |s|
    ensures forall i :: 0 <= i < |s| ==> r[i] == UpperChar(s[i])
  {
    seq(|s|, i requires 0 <= i < |s| => UpperChar(s[i]))
  }

  /** Case-insensitive substring test: `s.toLowerCase().includes(q.toLowerCase())`. */
  function ContainsIgnoringCase(s: string, q: string): bool {
    Contains(Lower(s), Lower(q))
  }

  /** Non-increasing by `key`: what a `sort({ field: -1 })` delivers. */
  ghost predicate SortedDesc<T>(s: seq<T>, key: T -> real) {
    forall i, j :: 0 <= i < j < |s| ==> key(s[i]) >= key(s[j])
  }

  /** Inserts `x` before the first element whose key is not greater than its own. */
  function InsertDesc<T(!new)>(x: T, s: seq<T>, key: T -> real): (r: seq<T>)
    requires SortedDesc(s, key)
    ensures SortedDesc(r, key)
    ensures |r| == |s| + 1
    ensures multiset(r) == multiset(s) + multiset{x}
    ensures forall y :: y in r ==> y == x || y in s
  {
    if |s| == 0 then [x]
    else if key(x) >= key(s[0]) then
      var r := [x] + s;
      assert SortedDesc(r, key) by {
        forall i, j | 0 <= i < j < |r| ensures key(r[i]) >= key(r[j]) {
          assert r[j] == s[j - 1];
          if i > 0 {
            assert r[i] == s[i - 1];
          } else {
            HeadIsLargest(s, s[j - 1], key);
          }
        }
      }
      r
    else
      var rest := InsertDesc(x, s[1..], key);
      var r := [s[0]] + rest;
      assert s == [s[0]] + s[1..];
      assert SortedDesc(r, key) by {
        forall i, j | 0 <= i < j < |r| ensures key(r[i]) >= key(r[j]) {
          assert r[j] == rest[j - 1];
          if i > 0 {
            assert r[i] == rest[i - 1];
          } else {
            assert rest[j - 1] in rest;
            if rest[j - 1] != x {
              HeadIsLargest(s, rest[j - 1], key);
            }
          }
        }
      }
      r
  }

  /** The head of a descending sequence has the largest key. */
  lemma HeadIsLargest<T>(s: seq<T>, y: T, key: T -> real)
    requires SortedDesc(s, key) && |s| > 0 && y in s
    ensures key(s[0]) >= key(y)
  {
    var m :| 0 <= m < |s| && s[m] == y;
  }

  /** Insertion sort, newest (largest key) first. */
  function SortDesc<T(!new)>(s: seq<T>, key: T -> real): (r: seq<T>)
    ensures SortedDesc(r, key)
    ensures |r| == |s|
    ensures multiset(r) == multiset(s)
  {
    if |s| == 0 then []
    else
      assert s == [s[0]] + s[1..];
      InsertDesc(s[0], SortDesc(s[1..], key), key)
  }

  /** The `find(filter).sort({ key: -1 }).limit(n)` pipeline of a document
      store: the newest `limit` matching elements, newest first. A matching
      element left out is no newer than any element kept. */
  function NewestMatching<T(!new)>(s: seq<T>, keep: T -> bool, key: T -> real, limit: nat): (r: seq<T>)
    ensures |r| == if Count(s, keep) < limit then Count(s, keep) else limit
    ensures forall i :: 0 <= i < |r| ==> keep(r[i]) && r[i] in s
    ensures SortedDesc(r, key)
    ensures multiset(r) <= multiset(Filter(s, keep))
    ensures multiset(r) <= multiset(s)
    ensures forall x, i :: x in s && keep(x) && x !in r && 0 <= i < |r| ==> key(x) <= key(r[i])
  {
    var f := Filter(s, keep);
    var sorted := SortDesc(f, key);
    var r := Take(sorted, limit);
    assert r == sorted[..|r|];
    KeptPrefix(s, f, sorted, |r|, keep, key);
    r
  }

  /** A prefix of the sorted matching elements holds matching elements of `s`
      only, and nothing matching outside it is newer than what it holds. */
  lemma KeptPrefix<T(!new)>(s: seq<T>, f: seq<T>, sorted: seq<T>, n: nat, keep: T -> bool, key: T -> real)
    requires f == Filter(s, keep) && multiset(sorted) == multiset(f) && SortedDesc(sorted, key) && n <= |sorted|
    ensures forall i :: 0 <= i < n ==> keep(sorted[i]) && sorted[i] in s
    ensures multiset(sorted[..n]) <= multiset(f)
    ensures forall x, i :: x in s && keep(x) && x !in sorted[..n] && 0 <= i < n ==> key(x) <= key(sorted[..n][i])
  {
    var r := sorted[..n];
    assert sorted == r + sorted[n..];
    assert multiset(sorted) == multiset(r) + multiset(sorted[n..]);
    forall i | 0 <= i < n ensures keep(sorted[i]) && sorted[i] in s {
      assert sorted[i] in multiset(sorted);
      assert sorted[i] in f;
    }
    PrefixIsNewest(sorted, n, key);
    forall x, i | x in s && keep(x) && x !in r && 0 <= i < n ensures key(x) <= key(r[i]) {
      assert x in multiset(f);
      assert x in sorted;
      assert r[i] == sorted[i];
    }
  }

  /** In a list sorted newest first, an element outside a prefix is no newer
      than any element of the prefix. */
  lemma PrefixIsNewest<T>(sorted: seq<T>, n: nat, key: T -> real)
    requires SortedDesc(sorted, key) && n <= |sorted|
    ensures forall x, i :: x in sorted && x !in sorted[..n] && 0 <= i < n ==> key(x) <= key(sorted[i])
  {
    forall x, i | x in sorted && x !in sorted[..n] && 0 <= i < n ensures key(x) <= key(sorted[i]) {
      var j :| 0 <= j < |sorted| && sorted[j] == x;
    }
  }

  /** Without a limit the pipeline returns exactly the matching elements, newest first. */
  function AllNewestMatching<T(!new)>(s: seq<T>, keep: T -> bool, key: T -> real): (r: seq<T>)
    ensures forall x :: x in r <==> x in s && keep(x)
    ensures SortedDesc(r, key)
    ensures multiset(r) == multiset(Filter(s, keep))
    ensures forall x :: multiset(r)[x] == if keep(x) then multiset(s)[x] else 0
  {
    var f := Filter(s, keep);
    var r := SortDesc(f, key);
    FilterCounts(s, keep);
    assert forall x :: x in r <==> x in f by {
      forall x ensures x in r <==> x in f {
        assert x in r <==> x in multiset(r);
        assert x in f <==> x in multiset(f);
      }
    }
    r
  }
}
