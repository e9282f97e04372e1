/**
 * The two query shapes the ORM calls in this backend reduce to, over a table
 * kept in database order: `filter(...)` (every matching row, order kept) and
 * `filter(...).first()` (the first matching row, if any).
 */
module Seqs {
  import opened Common

  /** `filter(p)`: the rows satisfying `p`, in their original order. */
  function Where<T>(s: seq<T>, p: T -> bool): (r: seq<T>)
    ensures |r| <= |s|
    ensures forall x | x in r :: x in s && p(x)
    ensures forall x | x in s && p(x) :: x in r
  {
    if s == [] then []
    else (if p(s[0]) then [s[0]] else []) + Where(s[1..], p)
  }

  /** Filtering a concatenation filters each part and keeps them in order. */
  lemma {:induction false} WhereAppend<T>(a: seq<T>, b: seq<T>, p: T -> bool)
    ensures Where(a + b, p) == Where(a, p) + Where(b, p)
  {
    if a == [] {
      assert a + b == b;
    } else {
      assert (a + b)[0] == a[0];
      assert (a + b)[1..] == a[1..] + b;
      WhereAppend(a[1..], b, p);
    }
  }

  /** Filtering a table extended by one row extends the filtered table by that row when it matches. */
  lemma WhereSnoc<T>(s: seq<T>, x: T, p: T -> bool)
    ensures Where(s + [x], p) == Where(s, p) + (if p(x) then [x] else [])
  {
    WhereAppend(s, [x], p);
    assert [x][1..] == [];
  }

  /** Filtering twice by the same condition changes nothing. */
  lemma {:induction false} WhereIdempotent<T>(s: seq<T>, p: T -> bool)
    ensures Where(Where(s, p), p) == Where(s, p)
  {
    if s != [] {
      WhereIdempotent(s[1..], p);
      var head := if p(s[0]) then [s[0]] else [];
      WhereAppend(head, Where(s[1..], p), p);
      if p(s[0]) {
        assert Where(head, p) == [s[0]] + Where([], p);
      } else {
        assert Where(head, p) == [];
      }
    }
  }

  /** When every row satisfies the condition, filtering keeps the table whole. */
  lemma {:induction false} WhereAll<T>(s: seq<T>, p: T -> bool)
    requires forall x | x in s :: p(x)
    ensures Where(s, p) == s
  {
    if s != [] {
      WhereAll(s[1..], p);
      assert s == [s[0]] + s[1..];
    }
  }

  /** When no row satisfies the condition, the filter is empty. */
  lemma {:induction false} WhereNone<T>(s: seq<T>, p: T -> bool)
    requires forall x | x in s :: !p(x)
    ensures Where(s, p) == []
  {
    if s != [] {
      WhereNone(s[1..], p);
    }
  }

  /** Filtering by a conjunction is filtering twice. */
  lemma {:induction false} WhereWhere<T>(s: seq<T>, p: T -> bool, q: T -> bool)
    ensures Where(Where(s, p), q) == Where(s, x => p(x) && q(x))
  {
    if s != [] {
      WhereWhere(s[1..], p, q);
      var head := if p(s[0]) then [s[0]] else [];
      WhereAppend(head, Where(s[1..], p), q);
      if p(s[0]) {
        assert Where(head, q) == (if q(s[0]) then [s[0]] else []) + Where([], q);
      } else {
        assert Where(head, q) == [];
      }
    }
  }

  /** `order_by('-key')`: the rows are in non-increasing order of `key`. */
  predicate Descending<T>(s: seq<T>, key: T -> int)
  {
    forall i, j | 0 <= i < j < |s| :: key(s[i]) >= key(s[j])
  }

  /** Filtering an ordered table keeps it ordered. */
  lemma {:induction false} WhereKeepsDescending<T>(s: seq<T>, p: T -> bool, key: T -> int)
    requires Descending(s, key)
    ensures Descending(Where(s, p), key)
  {
    if s != [] {
      var rest := s[1..];
      assert Descending(rest, key) by {
        forall i, j | 0 <= i < j < |rest| ensures key(rest[i]) >= key(rest[j]) {
          assert rest[i] == s[i + 1] && rest[j] == s[j + 1];
        }
      }
      WhereKeepsDescending(rest, p, key);
      var tail := Where(rest, p);
      forall x | x in tail ensures key(s[0]) >= key(x) {
        var j :| 0 <= j < |rest| && rest[j] == x;
        assert s[j + 1] == x;
      }
    }
  }

  /** Every earlier element stands in `rel` to every later one. */
  predicate Pairwise<T>(s: seq<T>, rel: (T, T) -> bool)
  {
    forall i, j | 0 <= i < j < |s| :: rel(s[i], s[j])
  }

  /** Filtering keeps a pairwise relation: the result is a subsequence. */
  lemma {:induction false} WhereKeepsPairwise<T>(s: seq<T>, p: T -> bool, rel: (T, T) -> bool)
    requires Pairwise(s, rel)
    ensures Pairwise(Where(s, p), rel)
  {
    if s != [] {
      var rest := s[1..];
      assert Pairwise(rest, rel) by {
        forall i, j | 0 <= i < j < |rest| ensures rel(rest[i], rest[j]) {
          assert rest[i] == s[i + 1] && rest[j] == s[j + 1];
        }
      }
      WhereKeepsPairwise(rest, p, rel);
      var tail := Where(rest, p);
      forall x | x in tail ensures rel(s[0], x) {
        var j :| 0 <= j < |rest| && rest[j] == x;
        assert s[j + 1] == x;
      }
    }
  }

  /** The tail of an ordered sequence is ordered and bounded by its head. */
  lemma DescendingTail<T>(s: seq<T>, key: T -> int)
    requires s != [] && Descending(s, key)
    ensures Descending(s[1..], key)
    ensures forall y | y in s[1..] :: key(s[0]) >= key(y)
  {
    forall i, j | 0 <= i < j < |s[1..]| ensures key(s[1..][i]) >= key(s[1..][j]) {
      assert s[1..][i] == s[i + 1] && s[1..][j] == s[j + 1];
    }
    forall y | y in s[1..] ensures key(s[0]) >= key(y) {
      var j :| 0 <= j < |s[1..]| && s[1..][j] == y;
      assert s[j + 1] == y;
    }
  }

  /** A head no lower than every element of an ordered tail gives an ordered sequence. */
  lemma DescendingCons<T>(h: T, t: seq<T>, key: T -> int)
    requires Descending(t, key)
    requires forall y | y in t :: key(h) >= key(y)
    ensures Descending([h] + t, key)
  {
    var s := [h] + t;
    forall i, j | 0 <= i < j < |s| ensures key(s[i]) >= key(s[j]) {
      assert s[j] == t[j - 1];
      if i > 0 {
        assert s[i] == t[i - 1];
      } else {
        assert t[j - 1] in t;
      }
    }
  }

  /** Insert `x` before the first element whose key is not above its own. */
  function InsertDescending<T>(x: T, s: seq<T>, key: T -> int): (r: seq<T>)
    ensures multiset(r) == multiset(s) + multiset{x}
    ensures Descending(s, key) ==> Descending(r, key)
  {
    if s == [] || key(x) >= key(s[0]) then
      assert Descending(s, key) ==> Descending([x] + s, key) by {
        if Descending(s, key) {
          if s != [] {
            DescendingTail(s, key);
          }
          DescendingCons(x, s, key);
        }
      }
      [x] + s
    else
      var rest := InsertDescending(x, s[1..], key);
      assert s == [s[0]] + s[1..];
      assert Descending(s, key) ==> Descending([s[0]] + rest, key) by {
        if Descending(s, key) {
          DescendingTail(s, key);
          forall y | y in rest ensures key(s[0]) >= key(y) {
            assert y in multiset(rest);
            if y != x {
              assert y in multiset(s[1..]);
            }
          }
          DescendingCons(s[0], rest, key);
        }
      }
      [s[0]] + rest
  }

  /**
   * `order_by('-key')` as a stable sort: the rows, rearranged into
   * non-increasing key order, rows of equal key keeping table order.
   */
  function SortDescending<T>(s: seq<T>, key: T -> int): (r: seq<T>)
    ensures multiset(r) == multiset(s)
    ensures Descending(r, key)
  {
    if s == [] then []
    else
      assert s == [s[0]] + s[1..];
      InsertDescending(s[0], SortDescending(s[1..], key), key)
  }

  /** Two filters that agree on every row select the same rows. */
  lemma {:induction false} WhereSameOn<T>(s: seq<T>, p: T -> bool, q: T -> bool)
    requires forall x | x in s :: p(x) == q(x)
    ensures Where(s, p) == Where(s, q)
  {
    if s != [] {
      WhereSameOn(s[1..], p, q);
    }
  }

  /** Rearranged rows are the same rows. */
  lemma SameRows<T>(a: seq<T>, b: seq<T>)
    requires multiset(a) == multiset(b)
    ensures forall x | x in a :: x in b
    ensures forall x | x in b :: x in a
  {
    forall x | x in a ensures x in b {
      assert x in multiset(a);
    }
    forall x | x in b ensures x in a {
      assert x in multiset(b);
    }
  }

  /** A filter by `q` and one by its negation split the table between them. */
  lemma {:induction false} WhereSplitCount<T>(s: seq<T>, q: T -> bool, notQ: T -> bool)
    requires forall x | x in s :: notQ(x) == !q(x)
    ensures |s| == |Where(s, q)| + |Where(s, notQ)|
  {
    if s != [] {
      WhereSplitCount(s[1..], q, notQ);
      assert |Where(s, q)| == (if q(s[0]) then 1 else 0) + |Where(s[1..], q)|;
      assert |Where(s, notQ)| == (if notQ(s[0]) then 1 else 0) + |Where(s[1..], notQ)|;
    }
  }

  /** `filter(p).first()`: the first row (in table order) satisfying `p`. */
  function FirstWhere<T>(s: seq<T>, p: T -> bool): (r: Option<T>)
    ensures r.None? <==> forall x | x in s :: !p(x)
    ensures r.Some? ==> r.value in s && p(r.value)
  {
    if s == [] then None
    else if p(s[0]) then Some(s[0])
    else FirstWhere(s[1..], p)
  }

  /** The first match is the head of the filtered table. */
  lemma {:induction false} FirstWhereIsHeadOfWhere<T>(s: seq<T>, p: T -> bool)
    ensures FirstWhere(s, p) == if Where(s, p) == [] then None else Some(Where(s, p)[0])
  {
    if s != [] && !p(s[0]) {
      FirstWhereIsHeadOfWhere(s[1..], p);
      assert Where(s, p) == [] + Where(s[1..], p);
    }
  }

  /** With at most one row per key, the first match is that row. */
  lemma FirstWhereUnique<T>(s: seq<T>, p: T -> bool, x: T)
    requires x in s && p(x)
    requires forall y | y in s && p(y) :: y == x
    ensures FirstWhere(s, p) == Some(x)
  {
  }
}
